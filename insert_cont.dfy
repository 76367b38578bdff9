/** What the daemon derives from a workload snapshot before handing it to the
    store: the set of live container ids, the container_host_metrics row, the
    per-container CPU percentages from two consecutive snapshots, the
    container_metrics rows of the stress workloads, and the `containers`
    lifecycle table kept by UpsertContainersFromSnapshot. */
module InsertCont {
  import opened Common
  import opened ReadCont

  // ---------------------------------------------------------------------------
  // Live container ids and the host row
  // ---------------------------------------------------------------------------

  /** A process that names a container: container-related with a non-empty id. */
  predicate Counted(p: ContProcess) {
    p.containerRelated == "yes" && p.cmdlineOrContId != ""
  }

  /** The distinct container ids of a process list. */
  function ContIds(ps: seq<ContProcess>): set<string> {
    if ps == [] then {}
    else
      var last := ps[|ps| - 1];
      ContIds(ps[..|ps| - 1]) + (if Counted(last) then {last.cmdlineOrContId} else {})
  }

  /** An id is live exactly when some counted process carries it; the empty id
      never is. */
  lemma {:induction false} ContIdsExact(ps: seq<ContProcess>)
    ensures forall cid :: cid in ContIds(ps) <==> exists i :: 0 <= i < |ps| && Counted(ps[i]) && ps[i].cmdlineOrContId == cid
    ensures "" !in ContIds(ps)
  {
    if ps != [] {
      var init := ps[..|ps| - 1];
      ContIdsExact(init);
      forall cid | cid in ContIds(ps)
        ensures exists i :: 0 <= i < |ps| && Counted(ps[i]) && ps[i].cmdlineOrContId == cid
      {
        if cid in ContIds(init) {
          var i :| 0 <= i < |init| && Counted(init[i]) && init[i].cmdlineOrContId == cid;
          assert ps[i] == init[i];
        } else {
          assert Counted(ps[|ps| - 1]);
        }
      }
      forall i | 0 <= i < |ps| - 1 && Counted(ps[i])
        ensures ps[i].cmdlineOrContId in ContIds(ps)
      {
        assert ps[i] == init[i];
      }
    }
  }

  /** The number of counted processes of a list. */
  function CountedCount(ps: seq<ContProcess>): nat {
    if ps == [] then 0
    else CountedCount(ps[..|ps| - 1]) + (if Counted(ps[|ps| - 1]) then 1 else 0)
  }

  /** There are never more live containers than counted processes, so several
      processes of one container count once. */
  lemma {:induction false} ContIdsBound(ps: seq<ContProcess>)
    ensures |ContIds(ps)| <= CountedCount(ps)
  {
    if ps != [] {
      ContIdsBound(ps[..|ps| - 1]);
    }
  }

  /** Two processes of the same container make one live container. */
  lemma ContIdsSameContainer(a: ContProcess, b: ContProcess)
    requires Counted(a) && Counted(b) && a.cmdlineOrContId == b.cmdlineOrContId
    ensures ContIds([a, b]) == {a.cmdlineOrContId}
    ensures CountedCount([a, b]) == 2
  {
    assert [a, b][..1] == [a];
    assert [a][..0] == [];
    assert ContIds([a]) == {a.cmdlineOrContId};
    assert CountedCount([a]) == 1;
  }

  /** The live-set loop shared by InsertContainerHostMetrics and
      UpsertContainersFromSnapshot. */
  method LiveContainerIds(ps: seq<ContProcess>) returns (ids: set<string>)
    ensures ids == ContIds(ps)
  {
    ids := {};
    for i := 0 to |ps|
      invariant ids == ContIds(ps[..i])
    {
      assert ps[..i + 1][..i] == ps[..i];
      var p := ps[i];
      if p.containerRelated != "yes" {
        continue;
      }
      if p.cmdlineOrContId == "" {
        continue;
      }
      ids := ids + {p.cmdlineOrContId};
    }
    assert ps[..|ps|] == ps;
  }

  /** A container_host_metrics row. */
  datatype HostRow = HostRow(
    tsMs: i64,
    totalRamKb: i64,
    freeRamKb: i64,
    usedRamKb: i64,
    totalContainers: nat,
    totalDeletedAcc: int)

  /** InsertContainerHostMetrics: the row counts the distinct live container ids
      and carries the accumulated deletion count it was given. */
  method InsertContainerHostMetrics(snap: ContInfoSnapshot, totalDeletedAcc: int) returns (row: HostRow)
    ensures row.totalContainers == |ContIds(snap.procesos)|
    ensures row.totalDeletedAcc == totalDeletedAcc
    ensures row.tsMs == snap.tsMs && row.usedRamKb == ToInt64(snap.usedRamKb)
    ensures row.totalRamKb == ToInt64(snap.totalRamKb) && row.freeRamKb == ToInt64(snap.freeRamKb)
  {
    var ids := LiveContainerIds(snap.procesos);
    row := HostRow(snap.tsMs, ToInt64(snap.totalRamKb), ToInt64(snap.freeRamKb), ToInt64(snap.usedRamKb),
                   |ids|, totalDeletedAcc);
  }

  // ---------------------------------------------------------------------------
  // Per-container CPU percentages (the container rate engine)
  // ---------------------------------------------------------------------------

  /** Go int64 addition: wraps modulo 2^64. */
  function AddI64(a: i64, b: i64): (r: i64)
    ensures -TWO_63 <= a + b < TWO_63 ==> r == a + b
  {
    ToInt64(Wrap64(a + b))
  }

  /** Go int64 subtraction: wraps modulo 2^64. */
  function SubI64(a: i64, b: i64): (r: i64)
    ensures -TWO_63 <= a - b < TWO_63 ==> r == a - b
  {
    ToInt64(Wrap64(a - b))
  }

  /** The per-container `cid -> sum of int64(cpu_time_ns)` map the loop over a
      snapshot builds (`m[cid] += ...`, a missing key counting as 0). */
  function CpuByContainer(ps: seq<ContProcess>): (m: map<string, i64>)
    ensures m.Keys == ContIds(ps)
  {
    if ps == [] then map[]
    else
      var m := CpuByContainer(ps[..|ps| - 1]);
      var p := ps[|ps| - 1];
      if Counted(p) then
        m[p.cmdlineOrContId := AddI64(if p.cmdlineOrContId in m then m[p.cmdlineOrContId] else 0, ToInt64(p.cpuTimeNs))]
      else m
  }

  /** A process that is not counted adds nothing to any container's sum. */
  lemma UncountedAddsNothing(ps: seq<ContProcess>, p: ContProcess)
    requires !Counted(p)
    ensures CpuByContainer(ps + [p]) == CpuByContainer(ps)
  {
    assert (ps + [p])[..|ps|] == ps;
  }

  /** Nanoseconds of CPU time per second. */
  const NsPerSec: real := 1000000000.0

  /** BuildContainerCpuPct as a function. The elapsed time is the int64
      difference of the timestamps; for each id present in both snapshots whose
      sum grew, the percentage of the int64 difference of the sums. */
  function ContainerCpuPct(prev: ContInfoSnapshot, curr: ContInfoSnapshot, numCPUs: int): map<string, real> {
    if numCPUs <= 0 || curr.tsMs <= prev.tsMs then map[]
    else
      var deltaMs := SubI64(curr.tsMs, prev.tsMs);
      if deltaMs <= 0 then map[]
      else
        var p := CpuByContainer(prev.procesos);
        var c := CpuByContainer(curr.procesos);
        map cid | cid in c && cid in p && c[cid] > p[cid] :: RatePct(SubI64(c[cid], p[cid]), NsPerSec, deltaMs, numCPUs)
  }

  /** Without CPUs, or when the timestamp did not advance, no id gets a percentage. */
  lemma ContainerCpuPctGuards(prev: ContInfoSnapshot, curr: ContInfoSnapshot, numCPUs: int)
    requires numCPUs <= 0 || curr.tsMs <= prev.tsMs
    ensures ContainerCpuPct(prev, curr, numCPUs) == map[]
  {
  }

  /** An id gets a percentage exactly when it is live in both snapshots and its
      summed CPU time grew; when the difference fits an int64 the percentage is
      strictly positive. */
  lemma ContainerCpuPctKeys(prev: ContInfoSnapshot, curr: ContInfoSnapshot, numCPUs: int, cid: string)
    requires numCPUs > 0 && prev.tsMs < curr.tsMs < prev.tsMs + TWO_63
    ensures cid in ContainerCpuPct(prev, curr, numCPUs) <==>
      cid in ContIds(prev.procesos) && cid in ContIds(curr.procesos) &&
      CpuByContainer(curr.procesos)[cid] > CpuByContainer(prev.procesos)[cid]
    ensures (cid in ContainerCpuPct(prev, curr, numCPUs) &&
             CpuByContainer(curr.procesos)[cid] - CpuByContainer(prev.procesos)[cid] < TWO_63) ==>
      ContainerCpuPct(prev, curr, numCPUs)[cid] > 0.0
  {
    var c := CpuByContainer(curr.procesos);
    var p := CpuByContainer(prev.procesos);
    if cid in ContainerCpuPct(prev, curr, numCPUs) && c[cid] - p[cid] < TWO_63 {
      RatePctPositive(c[cid] - p[cid], NsPerSec, curr.tsMs - prev.tsMs, numCPUs);
    }
  }

  /** Timestamps more than 2^63 - 1 ms apart wrap to a negative int64 difference,
      and the result is empty. */
  lemma ContainerCpuPctTimeWrap(prev: ContInfoSnapshot, curr: ContInfoSnapshot, numCPUs: int)
    requires curr.tsMs - prev.tsMs >= TWO_63
    ensures ContainerCpuPct(prev, curr, numCPUs) == map[]
  {
    assert Wrap64(curr.tsMs - prev.tsMs) == curr.tsMs - prev.tsMs;
  }

  /** Two counted processes of one container sum to twice the CPU time of one. */
  lemma PairSum(a: ContProcess, b: ContProcess)
    requires Counted(a) && a.cpuTimeNs < 0x2000_0000_0000 && b == a.(pid := a.pid + 1)
    ensures CpuByContainer([a, b]) == map[a.cmdlineOrContId := a.cpuTimeNs + a.cpuTimeNs]
  {
    assert [a, b][..1] == [a];
    assert [a][..0] == [];
    assert CpuByContainer([a]) == map[a.cmdlineOrContId := a.cpuTimeNs];
  }

  /** Two processes of one container, each with 1 s more CPU time after 1 s on a
      two-CPU host, make that container 100% busy. */
  lemma ContainerCpuPctExample(a: ContProcess, b: ContProcess, a': ContProcess, b': ContProcess)
    requires Counted(a) && a.cmdlineOrContId == "web" && a.cpuTimeNs < 0x1000_0000_0000
    requires b == a.(pid := a.pid + 1) && a' == a.(cpuTimeNs := a.cpuTimeNs + 1000000000) &&
             b' == b.(cpuTimeNs := b.cpuTimeNs + 1000000000)
    ensures ContainerCpuPct(ContInfoSnapshot(0, 0, 0, 1000, [a, b]),
                            ContInfoSnapshot(0, 0, 0, 2000, [a', b']), 2) == map["web" := 100.0]
  {
    var x := a.cpuTimeNs;
    PairSum(a, b);
    assert b' == a'.(pid := a'.pid + 1);
    PairSum(a', b');
    assert SubI64(2000, 1000) == 1000;
    assert SubI64(x + 1000000000 + x + 1000000000, x + x) == 2000000000;
    assert RatePct(2000000000, NsPerSec, 1000, 2) == 100.0;
  }

  /** The `result` map after the loop has visited the ids in `done`. */
  function RatesFor(p: map<string, i64>, c: map<string, i64>, done: set<string>, deltaMs: int, numCPUs: int): map<string, real>
    requires deltaMs > 0 && numCPUs > 0
  {
    map cid | cid in done && cid in c && cid in p && c[cid] > p[cid] :: RatePct(SubI64(c[cid], p[cid]), NsPerSec, deltaMs, numCPUs)
  }

  /** Visiting one more id adds its percentage when its sum grew. */
  lemma RatesForStep(p: map<string, i64>, c: map<string, i64>, done: set<string>, deltaMs: int, numCPUs: int, cid: string)
    requires deltaMs > 0 && numCPUs > 0 && cid in c
    ensures RatesFor(p, c, done + {cid}, deltaMs, numCPUs) ==
      if cid in p && c[cid] > p[cid]
      then RatesFor(p, c, done, deltaMs, numCPUs)[cid := RatePct(SubI64(c[cid], p[cid]), NsPerSec, deltaMs, numCPUs)]
      else RatesFor(p, c, done, deltaMs, numCPUs)
  {
  }

  /** The `m[cid] += int64(cpu_time_ns)` loop over one snapshot. */
  method SumByContainer(ps: seq<ContProcess>) returns (m: map<string, i64>)
    ensures m == CpuByContainer(ps)
  {
    m := map[];
    for i := 0 to |ps|
      invariant m == CpuByContainer(ps[..i])
    {
      assert ps[..i + 1][..i] == ps[..i];
      var p := ps[i];
      if p.containerRelated != "yes" {
        continue;
      }
      var cid := p.cmdlineOrContId;
      if cid == "" {
        continue;
      }
      var old_ := if cid in m then m[cid] else 0;
      m := m[cid := AddI64(old_, ToInt64(p.cpuTimeNs))];
    }
    assert ps[..|ps|] == ps;
  }

  /** BuildContainerCpuPct: sums CPU time per container in both snapshots, then
      visits the ids of the current sums in any order. */
  method BuildContainerCpuPct(prev: ContInfoSnapshot, curr: ContInfoSnapshot, numCPUs: int) returns (result: map<string, real>)
    ensures result == ContainerCpuPct(prev, curr, numCPUs)
  {
    result := map[];
    if numCPUs <= 0 || curr.tsMs <= prev.tsMs {
      return;
    }
    var deltaMs := SubI64(curr.tsMs, prev.tsMs);
    if deltaMs <= 0 {
      return;
    }
    var prevCPU := SumByContainer(prev.procesos);
    var currCPU := SumByContainer(curr.procesos);

    var todo := currCPU.Keys;
    ghost var done: set<string> := {};
    while todo != {}
      invariant todo <= currCPU.Keys && done + todo == currCPU.Keys && done !! todo
      invariant result == RatesFor(prevCPU, currCPU, done, deltaMs, numCPUs)
      decreases todo
    {
      var cid :| cid in todo;
      var currVal := currCPU[cid];
      todo := todo - {cid};
      RatesForStep(prevCPU, currCPU, done, deltaMs, numCPUs, cid);
      done := done + {cid};
      if cid !in prevCPU || currVal <= prevCPU[cid] {
        continue;
      }
      var prevVal := prevCPU[cid];
      result := result[cid := RatePct(SubI64(currVal, prevVal), NsPerSec, deltaMs, numCPUs)];
    }
    assert RatesFor(prevCPU, currCPU, currCPU.Keys, deltaMs, numCPUs) == ContainerCpuPct(prev, curr, numCPUs);
  }

  // ---------------------------------------------------------------------------
  // Classification and stress workloads
  // ---------------------------------------------------------------------------

  /** classifyContainerType: the first of "high-cpu", "high-ram", "low" found in
      the id, ignoring case, decides the type. */
  function ClassifyContainerType(containerId: string): (t: string)
    ensures t in {"HIGH_CPU", "HIGH_RAM", "LOW", "UNKNOWN"}
  {
    if ContainsIgnoreCase(containerId, "high-cpu") then "HIGH_CPU"
    else if ContainsIgnoreCase(containerId, "high-ram") then "HIGH_RAM"
    else if ContainsIgnoreCase(containerId, "low") then "LOW"
    else "UNKNOWN"
  }

  /** The classification does not depend on the case the id is written in. */
  lemma ClassifyIgnoresCase(containerId: string)
    ensures ClassifyContainerType(Upper(containerId)) == ClassifyContainerType(containerId)
    ensures ClassifyContainerType(Lower(containerId)) == ClassifyContainerType(containerId)
  {
    LowerForgetsCase(containerId);
  }

  // Which patterns the example ids contain, ignoring case.

  lemma StressHighCpuHasHighCpu()
    ensures ContainsIgnoreCase("stress-high-cpu", "high-cpu")
  {
    assert Lower("stress-high-cpu") == "stress-high-cpu";
    assert Lower("high-cpu") == "high-cpu";
    ContainsAt("stress-high-cpu", "high-cpu", 7);
  }

  lemma StressHighRamLacksHighCpu()
    ensures !ContainsIgnoreCase("stress-high-ram", "high-cpu")
  {
    assert Lower("stress-high-ram") == "stress-high-ram";
    assert Lower("high-cpu") == "high-cpu";
    ContainsMissingChar("stress-high-ram", "high-cpu", 'c');
  }

  lemma StressHighRamHasHighRam()
    ensures ContainsIgnoreCase("stress-high-ram", "high-ram")
  {
    assert Lower("stress-high-ram") == "stress-high-ram";
    assert Lower("high-ram") == "high-ram";
    ContainsAt("stress-high-ram", "high-ram", 7);
  }

  lemma StressLowLacksHighCpu()
    ensures !ContainsIgnoreCase("stress-low", "high-cpu")
  {
    assert Lower("stress-low") == "stress-low";
    assert Lower("high-cpu") == "high-cpu";
    ContainsMissingChar("stress-low", "high-cpu", 'h');
  }

  lemma StressLowLacksHighRam()
    ensures !ContainsIgnoreCase("stress-low", "high-ram")
  {
    assert Lower("stress-low") == "stress-low";
    assert Lower("high-ram") == "high-ram";
    ContainsMissingChar("stress-low", "high-ram", 'h');
  }

  lemma StressLowHasLow()
    ensures ContainsIgnoreCase("stress-low", "low")
  {
    assert Lower("stress-low") == "stress-low";
    assert Lower("low") == "low";
    ContainsAt("stress-low", "low", 7);
  }

  lemma MixedLacksHighCpu()
    ensures !ContainsIgnoreCase("LOW-High-Ram", "high-cpu")
  {
    assert Lower("LOW-High-Ram") == "low-high-ram";
    assert Lower("high-cpu") == "high-cpu";
    ContainsMissingChar("low-high-ram", "high-cpu", 'c');
  }

  lemma MixedHasHighRam()
    ensures ContainsIgnoreCase("LOW-High-Ram", "high-ram")
  {
    assert Lower("LOW-High-Ram") == "low-high-ram";
    assert Lower("high-ram") == "high-ram";
    ContainsAt("low-high-ram", "high-ram", 4);
  }

  /** The three normalised stress ids classify as the three stress types. */
  lemma ClassifyStressIds()
    ensures ClassifyContainerType("stress-high-cpu") == "HIGH_CPU"
    ensures ClassifyContainerType("stress-high-ram") == "HIGH_RAM"
    ensures ClassifyContainerType("stress-low") == "LOW"
  {
    StressHighCpuHasHighCpu();
    StressHighRamLacksHighCpu();
    StressHighRamHasHighRam();
    StressLowLacksHighCpu();
    StressLowLacksHighRam();
    StressLowHasLow();
  }

  /** The first matching rule wins: an id with both "low" and "high-ram", in any
      case, is HIGH_RAM. */
  lemma ClassifyFirstMatchWins()
    ensures ClassifyContainerType("LOW-High-Ram") == "HIGH_RAM"
  {
    MixedLacksHighCpu();
    MixedHasHighRam();
  }

  /** isStressProcess: a stress-ng binary, or a command line or id naming one of
      the stress containers. */
  predicate IsStressProcess(p: ContProcess) {
    Contains(p.nombre, "stress-ng") || Contains(p.cmdlineOrContId, "stress-cpu") ||
    Contains(p.cmdlineOrContId, "stress-ram") || Contains(p.cmdlineOrContId, "stress-low")
  }

  /** normalizeStressContainerID: collapses a stress process onto one of three
      logical container ids, CPU hogs first, then memory hogs. */
  function NormalizeStressContainerId(p: ContProcess): (cid: string)
    ensures cid in {"stress-high-cpu", "stress-high-ram", "stress-low"}
    ensures cid == "stress-high-cpu" <==> Contains(p.cmdlineOrContId, "--cpu") || Contains(p.nombre, "stress-ng-cpu")
    ensures cid == "stress-low" <==>
      !(Contains(p.cmdlineOrContId, "--cpu") || Contains(p.nombre, "stress-ng-cpu") ||
        Contains(p.cmdlineOrContId, "--vm") || Contains(p.nombre, "stress-ng-vm"))
  {
    if Contains(p.cmdlineOrContId, "--cpu") || Contains(p.nombre, "stress-ng-cpu") then "stress-high-cpu"
    else if Contains(p.cmdlineOrContId, "--vm") || Contains(p.nombre, "stress-ng-vm") then "stress-high-ram"
    else "stress-low"
  }

  /** A container_metrics row. */
  datatype MetricRow = MetricRow(tsMs: i64, containerId: string, rssKb: i64, cpuTimeNs: i64, cpuPct: real)

  /** Rows are written for stress processes with a non-empty id only. */
  predicate Inserted(p: ContProcess) {
    IsStressProcess(p) && p.cmdlineOrContId != ""
  }

  /** The row of one stress process: the normalised id, and the CPU percentage
      looked up under the raw id (0 when the map is nil or lacks it). */
  function MetricRowOf(tsMs: i64, p: ContProcess, cpuPctMap: Option<map<string, real>>): MetricRow {
    var pct := if cpuPctMap.Some? && p.cmdlineOrContId in cpuPctMap.value then cpuPctMap.value[p.cmdlineOrContId] else 0.0;
    MetricRow(tsMs, NormalizeStressContainerId(p), ToInt64(p.rssKb), ToInt64(p.cpuTimeNs), pct)
  }

  /** The rows InsertContainerMetricsBulk writes, in snapshot order. */
  function MetricRows(tsMs: i64, ps: seq<ContProcess>, cpuPctMap: Option<map<string, real>>): seq<MetricRow> {
    if ps == [] then []
    else
      var p := ps[|ps| - 1];
      MetricRows(tsMs, ps[..|ps| - 1], cpuPctMap) + (if Inserted(p) then [MetricRowOf(tsMs, p, cpuPctMap)] else [])
  }

  /** One row per inserted process, and each row comes from one: it carries a
      normalised stress id, so it classifies as one of the stress types. */
  lemma {:induction false} MetricRowsExact(tsMs: i64, ps: seq<ContProcess>, cpuPctMap: Option<map<string, real>>)
    ensures |MetricRows(tsMs, ps, cpuPctMap)| <= |ps|
    ensures forall i :: 0 <= i < |ps| && Inserted(ps[i]) ==> MetricRowOf(tsMs, ps[i], cpuPctMap) in MetricRows(tsMs, ps, cpuPctMap)
    ensures forall r :: r in MetricRows(tsMs, ps, cpuPctMap) ==>
      exists i :: 0 <= i < |ps| && Inserted(ps[i]) && r == MetricRowOf(tsMs, ps[i], cpuPctMap)
  {
    if ps != [] {
      var init := ps[..|ps| - 1];
      MetricRowsExact(tsMs, init, cpuPctMap);
      var rows := MetricRows(tsMs, ps, cpuPctMap);
      forall i | 0 <= i < |ps| - 1 && Inserted(ps[i])
        ensures MetricRowOf(tsMs, ps[i], cpuPctMap) in rows
      {
        assert ps[i] == init[i];
      }
      forall r | r in rows
        ensures exists i :: 0 <= i < |ps| && Inserted(ps[i]) && r == MetricRowOf(tsMs, ps[i], cpuPctMap)
      {
        if r in MetricRows(tsMs, init, cpuPctMap) {
          var i :| 0 <= i < |init| && Inserted(init[i]) && r == MetricRowOf(tsMs, init[i], cpuPctMap);
          assert ps[i] == init[i];
        }
      }
    }
  }

  /** The ids of the rows are the three normalised stress ids. */
  lemma MetricRowIds(tsMs: i64, ps: seq<ContProcess>, cpuPctMap: Option<map<string, real>>)
    ensures forall r :: r in MetricRows(tsMs, ps, cpuPctMap) ==>
      r.containerId in {"stress-high-cpu", "stress-high-ram", "stress-low"}
  {
    MetricRowsExact(tsMs, ps, cpuPctMap);
  }

  /** The processes that get a metric row, in snapshot order. */
  function InsertedEntries(ps: seq<ContProcess>): seq<ContProcess> {
    if ps == [] then []
    else
      var p := ps[|ps| - 1];
      InsertedEntries(ps[..|ps| - 1]) + (if Inserted(p) then [p] else [])
  }

  /** Every process that gets a row keeps its multiplicity; every other one is dropped. */
  lemma {:induction false} InsertedEntriesCounts(ps: seq<ContProcess>)
    ensures forall p :: multiset(InsertedEntries(ps))[p] == if Inserted(p) then multiset(ps)[p] else 0
  {
    if ps != [] {
      var init := ps[..|ps| - 1];
      InsertedEntriesCounts(init);
      assert ps == init + [ps[|ps| - 1]];
    }
  }

  /** The rows are one MetricRowOf per process that gets a row, in snapshot order. */
  lemma {:induction false} MetricRowsInOrder(tsMs: i64, ps: seq<ContProcess>, cpuPctMap: Option<map<string, real>>)
    ensures |MetricRows(tsMs, ps, cpuPctMap)| == |InsertedEntries(ps)|
    ensures forall k :: 0 <= k < |InsertedEntries(ps)| ==>
      MetricRows(tsMs, ps, cpuPctMap)[k] == MetricRowOf(tsMs, InsertedEntries(ps)[k], cpuPctMap)
  {
    if ps != [] {
      MetricRowsInOrder(tsMs, ps[..|ps| - 1], cpuPctMap);
    }
  }

  /** InsertContainerMetricsBulk: skips non-stress processes and those with an
      empty id, and writes one row per remaining process in snapshot order. */
  method InsertContainerMetricsBulk(snap: ContInfoSnapshot, cpuPctMap: Option<map<string, real>>) returns (rows: seq<MetricRow>)
    ensures rows == MetricRows(snap.tsMs, snap.procesos, cpuPctMap)
    ensures |rows| == |InsertedEntries(snap.procesos)|
    ensures forall k :: 0 <= k < |rows| ==> rows[k] == MetricRowOf(snap.tsMs, InsertedEntries(snap.procesos)[k], cpuPctMap)
  {
    MetricRowsInOrder(snap.tsMs, snap.procesos, cpuPctMap);
    rows := [];
    var ps := snap.procesos;
    if |ps| == 0 {
      return;
    }
    for i := 0 to |ps|
      invariant rows == MetricRows(snap.tsMs, ps[..i], cpuPctMap)
    {
      assert ps[..i + 1][..i] == ps[..i];
      var p := ps[i];
      if !IsStressProcess(p) {
        continue;
      }
      if p.cmdlineOrContId == "" {
        continue;
      }
      var cid := NormalizeStressContainerId(p);
      var cpuPct := 0.0;
      if cpuPctMap.Some? {
        if p.cmdlineOrContId in cpuPctMap.value {
          cpuPct := cpuPctMap.value[p.cmdlineOrContId];
        }
      }
      rows := rows + [MetricRow(snap.tsMs, cid, ToInt64(p.rssKb), ToInt64(p.cpuTimeNs), cpuPct)];
    }
    assert ps[..|ps|] == ps;
  }

  // ---------------------------------------------------------------------------
  // The containers lifecycle table
  // ---------------------------------------------------------------------------

  /** One row of `containers`, keyed by container id (a unique index). */
  datatype ContainerRow = ContainerRow(firstSeen: i64, lastSeen: i64, removedAt: Option<i64>, containerType: string)

  /** The row of a live id after the upsert pass: an existing row only has its
      last-seen time moved; a new id gets a fresh open row. */
  function Seen(rows: map<string, ContainerRow>, cid: string, ts: i64): ContainerRow {
    if cid in rows then rows[cid].(lastSeen := ts)
    else ContainerRow(ts, ts, None, ClassifyContainerType(cid))
  }

  /** The row of an absent id after the removal pass: an open row is closed at
      `ts`, a closed one keeps its removal time. */
  function Closed(r: ContainerRow, ts: i64): ContainerRow {
    if r.removedAt.None? then r.(removedAt := Some(ts)) else r
  }

  /** The table after a committed UpsertContainersFromSnapshot with live ids
      `live` at time `ts`. */
  function Upserted(rows: map<string, ContainerRow>, live: set<string>, ts: i64): (r: map<string, ContainerRow>)
    ensures r.Keys == rows.Keys + live
  {
    map cid | cid in rows.Keys + live :: if cid in live then Seen(rows, cid, ts) else Closed(rows[cid], ts)
  }

  /** The ids whose row has a removal time: what GetTotalDeletedContainers counts. */
  function DeletedIds(rows: map<string, ContainerRow>): set<string> {
    set cid | cid in rows && rows[cid].removedAt.Some?
  }

  /** Live ids: their last-seen time is `ts`; an existing row keeps its first-seen
      time, type and removal time (a container that reappears after removal stays
      marked removed); a new id gets (ts, ts, open, its classification). */
  lemma UpsertedLive(rows: map<string, ContainerRow>, live: set<string>, ts: i64, cid: string)
    requires cid in live
    ensures Upserted(rows, live, ts)[cid].lastSeen == ts
    ensures cid in rows ==> Upserted(rows, live, ts)[cid] == rows[cid].(lastSeen := ts)
    ensures cid !in rows ==> Upserted(rows, live, ts)[cid] == ContainerRow(ts, ts, None, ClassifyContainerType(cid))
  {
  }

  /** Absent ids: only the removal time can change, it is set exactly when the
      row was open, and an existing removal time is never overwritten. */
  lemma UpsertedAbsent(rows: map<string, ContainerRow>, live: set<string>, ts: i64, cid: string)
    requires cid in rows && cid !in live
    ensures Upserted(rows, live, ts)[cid].(removedAt := rows[cid].removedAt) == rows[cid]
    ensures Upserted(rows, live, ts)[cid].removedAt ==
      if rows[cid].removedAt.Some? then rows[cid].removedAt else Some(ts)
  {
  }

  /** The removed set grows by exactly the absent ids, so the deletion count
      never decreases. */
  lemma UpsertedDeleted(rows: map<string, ContainerRow>, live: set<string>, ts: i64)
    ensures DeletedIds(Upserted(rows, live, ts)) == DeletedIds(rows) + (rows.Keys - live)
    ensures DeletedIds(rows) <= DeletedIds(Upserted(rows, live, ts))
    ensures |DeletedIds(rows)| <= |DeletedIds(Upserted(rows, live, ts))|
  {
    var r := Upserted(rows, live, ts);
    forall cid | cid in DeletedIds(r)
      ensures cid in DeletedIds(rows) + (rows.Keys - live)
    {
    }
    assert DeletedIds(rows) <= DeletedIds(r);
    SubsetCard(DeletedIds(rows), DeletedIds(r));
  }

  lemma {:induction false} SubsetCard<T>(a: set<T>, b: set<T>)
    requires a <= b
    ensures |a| <= |b|
    decreases |a|
  {
    if a != {} {
      var x :| x in a;
      SubsetCard(a - {x}, b - {x});
    }
  }

  /** Repeating the same snapshot changes nothing. */
  lemma UpsertedIdempotent(rows: map<string, ContainerRow>, live: set<string>, ts: i64)
    ensures Upserted(Upserted(rows, live, ts), live, ts) == Upserted(rows, live, ts)
  {
    var r := Upserted(rows, live, ts);
    var r2 := Upserted(r, live, ts);
    forall cid | cid in r2
      ensures r2[cid] == r[cid]
    {
    }
  }

  /** A container seen at t1, missing at t2 and back at t3 keeps its first-seen
      time, is last seen at t3 and stays removed at t2. */
  lemma UpsertedReappear(rows: map<string, ContainerRow>, a: string, b: string, t1: i64, t2: i64, t3: i64)
    requires a != b && a !in rows
    ensures var r3 := Upserted(Upserted(Upserted(rows, {a, b}, t1), {b}, t2), {a, b}, t3);
      r3[a] == ContainerRow(t1, t3, Some(t2), ClassifyContainerType(a))
  {
    var r1 := Upserted(rows, {a, b}, t1);
    assert r1[a] == ContainerRow(t1, t1, None, ClassifyContainerType(a));
    var r2 := Upserted(r1, {b}, t2);
    assert r2[a] == ContainerRow(t1, t1, Some(t2), ClassifyContainerType(a));
  }

  /** The working copy after the upsert pass has visited the live ids in `done`. */
  function SeenSome(rows: map<string, ContainerRow>, done: set<string>, ts: i64): map<string, ContainerRow> {
    map cid | cid in rows.Keys + done :: if cid in done then Seen(rows, cid, ts) else rows[cid]
  }

  lemma SeenSomeStep(rows: map<string, ContainerRow>, done: set<string>, ts: i64, work: map<string, ContainerRow>, cid: string)
    requires work == SeenSome(rows, done, ts) && cid !in done
    ensures work[cid := Seen(work, cid, ts)] == SeenSome(rows, done + {cid}, ts)
  {
    assert Seen(work, cid, ts) == Seen(rows, cid, ts);
  }

  /** The working copy after the removal pass has closed the absent ids in `done`. */
  function ClosedSome(rows: map<string, ContainerRow>, live: set<string>, done: set<string>, ts: i64): map<string, ContainerRow> {
    map cid | cid in rows.Keys + live ::
      if cid in live then Seen(rows, cid, ts) else if cid in done then Closed(rows[cid], ts) else rows[cid]
  }

  lemma ClosedSomeStep(rows: map<string, ContainerRow>, live: set<string>, done: set<string>, ts: i64,
                       work: map<string, ContainerRow>, cid: string)
    requires work == ClosedSome(rows, live, done, ts)
    requires cid in work && work[cid].removedAt.None? && cid !in live && cid !in done
    ensures work[cid := work[cid].(removedAt := Some(ts))] == ClosedSome(rows, live, done + {cid}, ts)
  {
    assert work[cid] == rows[cid];
  }

  /** Closing exactly the open absent rows completes the upsert. */
  lemma ClosedSomeAll(rows: map<string, ContainerRow>, live: set<string>, done: set<string>, ts: i64)
    requires done == set cid | cid in rows && cid !in live && rows[cid].removedAt.None?
    ensures ClosedSome(rows, live, done, ts) == Upserted(rows, live, ts)
  {
  }

  /** After the upsert pass, the open rows of absent ids are the open rows of
      the absent ids before it. */
  lemma OpenAbsent(rows: map<string, ContainerRow>, live: set<string>, ts: i64)
    ensures (set cid | cid in SeenSome(rows, live, ts) && SeenSome(rows, live, ts)[cid].removedAt.None?) - live
         == set cid | cid in rows && cid !in live && rows[cid].removedAt.None?
  {
  }

  /** Step 2 of the transaction: UPDATE the last-seen time of every live id,
      INSERT a fresh row for an unknown one, in any order. */
  method UpsertLive(rows: map<string, ContainerRow>, live: set<string>, ts: i64) returns (work: map<string, ContainerRow>)
    ensures work == SeenSome(rows, live, ts)
  {
    work := rows;
    var todo := live;
    ghost var seen: set<string> := {};
    while todo != {}
      invariant todo <= live && seen + todo == live && seen !! todo
      invariant work == SeenSome(rows, seen, ts)
      decreases todo
    {
      var cid :| cid in todo;
      SeenSomeStep(rows, seen, ts, work, cid);
      // UPDATE ... SET last_seen_ts_ms; when no row was affected, INSERT.
      work := work[cid := Seen(work, cid, ts)];
      seen := seen + {cid};
      todo := todo - {cid};
    }
  }

  /** Step 3 of the transaction: SELECT the open rows and close those whose id
      is not live. */
  method CloseAbsent(rows: map<string, ContainerRow>, live: set<string>, ts: i64, upserted: map<string, ContainerRow>)
    returns (work: map<string, ContainerRow>)
    requires upserted == SeenSome(rows, live, ts)
    ensures work == Upserted(rows, live, ts)
  {
    work := upserted;
    assert work == ClosedSome(rows, live, {}, ts);
    var open := set cid | cid in work && work[cid].removedAt.None?;
    OpenAbsent(rows, live, ts);
    var pending := open;
    ghost var closed: set<string> := {};
    while pending != {}
      invariant pending <= open && closed == (open - pending) - live
      invariant work == ClosedSome(rows, live, closed, ts)
      decreases pending
    {
      var cid :| cid in pending;
      if cid !in live {
        ClosedSomeStep(rows, live, closed, ts, work, cid);
        work := work[cid := work[cid].(removedAt := Some(ts))];
        closed := closed + {cid};
      }
      pending := pending - {cid};
    }
    ClosedSomeAll(rows, live, closed, ts);
  }

  /** The `containers` table. */
  class ContainersTable {
    var rows: map<string, ContainerRow>

    constructor ()
      ensures rows == map[]
    {
      rows := map[];
    }

    /** UpsertContainersFromSnapshot. No live id: nothing happens. Otherwise the
        transaction updates or inserts every live id, then closes every open row
        whose id is not live; a failing statement or commit (`txFails`) rolls it
        all back and reports an error. */
    method UpsertContainersFromSnapshot(snap: ContInfoSnapshot, txFails: bool) returns (err: bool)
      modifies this
      ensures err <==> ContIds(snap.procesos) != {} && txFails
      ensures ContIds(snap.procesos) == {} || txFails ==> rows == old(rows)
      ensures ContIds(snap.procesos) != {} && !txFails ==> rows == Upserted(old(rows), ContIds(snap.procesos), snap.tsMs)
    {
      var current := LiveContainerIds(snap.procesos);
      if current == {} {
        return false;
      }
      var work := UpsertLive(rows, current, snap.tsMs);
      work := CloseAbsent(rows, current, snap.tsMs, work);
      if txFails {
        return true;
      }
      rows := work;
      return false;
    }
  }
}
