/** The host/process snapshot read from the sysinfo /proc file, and the selection
    logic of its console summary: whether CPU data is present, the top ten
    processes by CPU ticks (sorted on a copy) and the first fifty in listing order. */
module ReadSystem {
  import opened Common

  /** One entry of the snapshot's `procesos` array. */
  datatype Process = Process(
    pid: int,
    comm: string,
    rssKb: u64,
    vmsizeKb: u64,
    state: string,
    utime: u64,
    stime: u64,
    tsMs: u64)

  /** The whole sysinfo document; `rawJsonPresent` is set by the reader, not the file. */
  datatype SysInfo = SysInfo(
    totalRamKb: u64,
    freeRamKb: u64,
    availableKb: u64,
    ramUsedKb: u64,
    totalProcs: i64,
    cpuUsagePct: u64,
    tsMs: u64,
    procesos: seq<Process>,
    rawJsonPresent: bool)

  /** Go's `p.Utime + p.Stime` on uint64: the CPU tick count of a process. */
  function CpuTicks(p: Process): int {
    Wrap64(p.utime + p.stime)
  }

  /** ReadSysinfo: any open, read or parse failure is an error; a parsed document
      is returned with `rawJsonPresent` set. */
  function ReadSysinfo(outcome: ReadOutcome<SysInfo>): (r: Result<SysInfo>)
    ensures r.Ok? <==> outcome.Parsed?
    ensures r.Ok? ==> r.value.rawJsonPresent
    ensures r.Ok? ==> r.value == outcome.doc.(rawJsonPresent := true)
  {
    match outcome
    case Parsed(doc) => Ok(doc.(rawJsonPresent := true))
    case OpenFailed => Err("open")
    case ReadFailed => Err("read")
    case ParseFailed => Err("parse")
  }

  /** Some process reports a non-zero utime or stime. */
  predicate HasCpuData(ps: seq<Process>) {
    exists i :: 0 <= i < |ps| && (ps[i].utime != 0 || ps[i].stime != 0)
  }

  /** The `cpuDataAvailable` scan of PrintSysInfo: stops at the first process with
      CPU data. */
  method CpuDataAvailable(ps: seq<Process>) returns (available: bool)
    ensures available <==> HasCpuData(ps)
  {
    available := false;
    var i := 0;
    while i < |ps|
      invariant 0 <= i <= |ps|
      invariant !available
      invariant forall k :: 0 <= k < i ==> ps[k].utime == 0 && ps[k].stime == 0
    {
      if ps[i].utime != 0 || ps[i].stime != 0 {
        available := true;
        return;
      }
      i := i + 1;
    }
  }

  /** Sorted by `key`, largest first. */
  ghost predicate SortedDesc<T>(s: seq<T>, key: T -> int) {
    forall k, l :: 0 <= k < l < |s| ==> key(s[k]) >= key(s[l])
  }

  /** Sorted by CPU ticks, largest first. */
  ghost predicate SortedByCpuDesc(s: seq<Process>) {
    SortedDesc(s, CpuTicks)
  }

  /** Exchanges two neighbouring elements. */
  method SwapDown<T>(a: array<T>, j: int)
    requires 0 < j < a.Length
    modifies a
    ensures a[..] == old(a[..])[j - 1 := old(a[j])][j := old(a[j - 1])]
    ensures multiset(a[..]) == multiset(old(a[..]))
  {
    a[j - 1], a[j] := a[j], a[j - 1];
  }

  /** The in-place sort the summary applies to its copy of the process list
      (an insertion sort standing for Go's sort.Slice with `ci > cj`). */
  method SortDesc<T>(a: array<T>, key: T -> int)
    modifies a
    ensures SortedDesc(a[..], key)
    ensures multiset(a[..]) == multiset(old(a[..]))
  {
    var i := 0;
    while i < a.Length
      invariant 0 <= i <= a.Length
      invariant forall k, l :: 0 <= k < l < i ==> key(a[k]) >= key(a[l])
      invariant multiset(a[..]) == multiset(old(a[..]))
    {
      var j := i;
      while j > 0 && key(a[j - 1]) < key(a[j])
        invariant 0 <= j <= i
        invariant forall k, l :: 0 <= k < l <= i && l != j ==> key(a[k]) >= key(a[l])
        invariant 0 < j < i ==> key(a[j - 1]) >= key(a[j + 1])
        invariant multiset(a[..]) == multiset(old(a[..]))
      {
        SwapDown(a, j);
        j := j - 1;
      }
      i := i + 1;
    }
  }

  /** The length of the top list: `topN := 10`, capped by the list length. */
  function TopLen(n: nat): nat {
    if n < 10 then n else 10
  }

  /** In a list sorted largest first, every element of a prefix has at least the
      key of every element after it. */
  lemma PrefixDominates<T>(sorted: seq<T>, key: T -> int, n: nat)
    requires SortedDesc(sorted, key) && n <= |sorted|
    ensures forall p, q :: p in sorted[n..] && q in sorted[..n] ==> key(q) >= key(p)
  {
    forall p, q | p in sorted[n..] && q in sorted[..n]
      ensures key(q) >= key(p)
    {
      var l :| 0 <= l < |sorted[n..]| && sorted[n..][l] == p;
      var k :| 0 <= k < n && sorted[..n][k] == q;
      assert sorted[k] == q && sorted[n + l] == p;
    }
  }

  /** The top-by-CPU list of PrintSysInfo: the list is copied, the copy sorted,
      and its first min(10, n) entries taken. The result is ordered by CPU ticks,
      is drawn from the input, and no process left out has more ticks than any
      process kept. */
  method TopByCpu(ps: seq<Process>) returns (top: seq<Process>)
    ensures |top| == TopLen(|ps|)
    ensures SortedByCpuDesc(top)
    ensures multiset(top) <= multiset(ps)
    ensures forall p, q :: p in multiset(ps) - multiset(top) && q in top ==> CpuTicks(q) >= CpuTicks(p)
  {
    var copy := new Process[|ps|](i requires 0 <= i < |ps| => ps[i]);
    assert copy[..] == ps;
    SortDesc(copy, CpuTicks);
    var sorted := copy[..];
    var n := TopLen(|ps|);
    top := sorted[..n];
    assert sorted == top + sorted[n..];
    assert multiset(ps) - multiset(top) == multiset(sorted[n..]);
    PrefixDominates(sorted, CpuTicks, n);
    forall p, q | p in multiset(ps) - multiset(top) && q in top
      ensures CpuTicks(q) >= CpuTicks(p)
    {
      assert p in multiset(sorted[n..]);
      assert p in sorted[n..] && q in sorted[..n];
    }
  }

  /** The listing part of the summary: at most fifty processes. */
  const ListLimit: nat := 50

  /** What the console summary selects from one snapshot. */
  datatype SysInfoView =
    | NoProcesses
    | Summary(top: Option<seq<Process>>, shown: seq<Process>, overflowNote: bool)

  /** PrintSysInfo with the printing left out: an empty list stops before any
      selection; the top list exists only when some process has CPU data; the
      listing is the first min(50, n) processes in their original order, with the
      overflow note exactly when there are more than fifty. The snapshot itself
      is a value, so its own order is untouched by the sort. */
  method PrintSysInfo(si: SysInfo) returns (v: SysInfoView)
    ensures v.NoProcesses? <==> |si.procesos| == 0
    ensures v.Summary? ==> (v.top.Some? <==> HasCpuData(si.procesos))
    ensures v.Summary? && v.top.Some? ==>
      |v.top.value| == TopLen(|si.procesos|) && SortedByCpuDesc(v.top.value) &&
      multiset(v.top.value) <= multiset(si.procesos)
    ensures v.Summary? ==> v.shown == si.procesos[..if |si.procesos| > ListLimit then ListLimit else |si.procesos|]
    ensures v.Summary? ==> (v.overflowNote <==> |si.procesos| > ListLimit)
  {
    var ps := si.procesos;
    if |ps| == 0 {
      return NoProcesses;
    }
    var available := CpuDataAvailable(ps);
    var top: Option<seq<Process>> := None;
    if available {
      var t := TopByCpu(ps);
      top := Some(t);
    }
    var limit := |ps|;
    if limit > ListLimit {
      limit := ListLimit;
    }
    v := Summary(top, ps[..limit], |ps| > ListLimit);
  }
}
