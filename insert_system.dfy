/** What the daemon derives from a host/process snapshot before handing it to the
    store: the system_metrics row, one process_metrics row per process, the
    per-state histogram, and the per-process CPU percentages computed from two
    consecutive snapshots. */
module InsertSystem {
  import opened Common
  import opened ReadSystem

  // ---------------------------------------------------------------------------
  // system_metrics row
  // ---------------------------------------------------------------------------

  /** A system_metrics row; `availableKb` None is SQL NULL. */
  datatype SystemRow = SystemRow(
    tsMs: i64,
    totalRamKb: i64,
    freeRamKb: i64,
    availableKb: Option<i64>,
    ramUsedKb: i64,
    totalProcs: i64,
    cpuUsagePct: real)

  /** The used-RAM figure before the int64 conversion: the reported value, or, when
      that is 0 on a host with a known total, total - free in uint64 arithmetic. */
  function RawRamUsed(si: SysInfo): u64 {
    if si.ramUsedKb == 0 && si.totalRamKb > 0 then Wrap64(si.totalRamKb - si.freeRamKb)
    else si.ramUsedKb
  }

  /** The row InsertSystemMetrics writes for a snapshot. */
  function SystemMetricsRow(si: SysInfo): (row: SystemRow)
    ensures row.availableKb.Some? <==> si.availableKb > 0
    ensures row.availableKb.Some? ==> row.availableKb.value == ToInt64(si.availableKb)
    ensures row.ramUsedKb == ToInt64(RawRamUsed(si))
  {
    SystemRow(
      ToInt64(si.tsMs),
      ToInt64(si.totalRamKb),
      ToInt64(si.freeRamKb),
      if si.availableKb > 0 then Some(ToInt64(si.availableKb)) else None,
      ToInt64(RawRamUsed(si)),
      si.totalProcs,
      si.cpuUsagePct as real)
  }

  /** The fallback used-RAM figure is exactly total - free when free does not
      exceed total and the total fits an int64, and it lies between 0 and total. */
  lemma RamUsedFallback(si: SysInfo)
    requires si.ramUsedKb == 0 && si.totalRamKb > 0
    requires si.freeRamKb <= si.totalRamKb < TWO_63
    ensures SystemMetricsRow(si).ramUsedKb == si.totalRamKb - si.freeRamKb
    ensures 0 <= SystemMetricsRow(si).ramUsedKb <= si.totalRamKb
  {
    assert RawRamUsed(si) == si.totalRamKb - si.freeRamKb;
  }

  /** Without the guard a snapshot with more free than total RAM stores a
      negative used figure: the uint64 difference wraps and int64 reinterprets it. */
  lemma RamUsedWrapsWhenFreeExceedsTotal(si: SysInfo)
    requires si.ramUsedKb == 0 && 0 < si.totalRamKb < si.freeRamKb <= si.totalRamKb + TWO_63
    ensures SystemMetricsRow(si).ramUsedKb == si.totalRamKb - si.freeRamKb
  {
    assert RawRamUsed(si) == si.totalRamKb - si.freeRamKb + TWO_64;
  }

  // ---------------------------------------------------------------------------
  // Per-process CPU percentages (the process rate engine)
  // ---------------------------------------------------------------------------

  /** Ticks per second the daemon passes for utime/stime. */
  const Hz: real := 100.0

  /** The `prevTicks` map: pid -> utime+stime of the previous snapshot, where a
      pid listed twice keeps its last entry. */
  function PrevTicks(ps: seq<Process>): map<int, int> {
    if ps == [] then map[]
    else
      var last := ps[|ps| - 1];
      PrevTicks(ps[..|ps| - 1])[last.pid := CpuTicks(last)]
  }

  /** The keys of PrevTicks are exactly the pids of the list. */
  lemma {:induction false} PrevTicksKeys(ps: seq<Process>)
    ensures forall pid :: pid in PrevTicks(ps) <==> exists i :: 0 <= i < |ps| && ps[i].pid == pid
  {
    if ps != [] {
      var init := ps[..|ps| - 1];
      PrevTicksKeys(init);
      forall pid | pid in PrevTicks(ps)
        ensures exists i :: 0 <= i < |ps| && ps[i].pid == pid
      {
        if pid != ps[|ps| - 1].pid {
          assert pid in PrevTicks(init);
          var i :| 0 <= i < |init| && init[i].pid == pid;
          assert ps[i].pid == pid;
        }
      }
      forall i | 0 <= i < |ps| - 1
        ensures ps[i].pid in PrevTicks(ps)
      {
        assert init[i] == ps[i];
      }
    }
  }

  /** A pid listed more than once keeps the ticks of its last entry. */
  lemma {:induction false} PrevTicksLastWins(ps: seq<Process>, i: int)
    requires 0 <= i < |ps|
    requires forall j :: i < j < |ps| ==> ps[j].pid != ps[i].pid
    ensures ps[i].pid in PrevTicks(ps) && PrevTicks(ps)[ps[i].pid] == CpuTicks(ps[i])
  {
    if i < |ps| - 1 {
      var init := ps[..|ps| - 1];
      assert init[i] == ps[i];
      forall j | i < j < |init|
        ensures init[j].pid != init[i].pid
      {
        assert init[j] == ps[j];
      }
      PrevTicksLastWins(init, i);
    }
  }

  /** A process of the current snapshot whose pid is known and whose ticks grew. */
  predicate Advanced(prevTicks: map<int, int>, p: Process) {
    p.pid in prevTicks && CpuTicks(p) > prevTicks[p.pid]
  }

  /** The result map filled by the loop over the current snapshot: an advancing
      entry (re)writes its pid, any other entry leaves the map alone. */
  function ProcRates(prevTicks: map<int, int>, cs: seq<Process>, deltaMs: int, numCPUs: int, hz: real): map<int, real>
    requires deltaMs > 0 && numCPUs > 0 && hz != 0.0
  {
    if cs == [] then map[]
    else
      var p := cs[|cs| - 1];
      var r := ProcRates(prevTicks, cs[..|cs| - 1], deltaMs, numCPUs, hz);
      if Advanced(prevTicks, p) then r[p.pid := RatePct(CpuTicks(p) - prevTicks[p.pid], hz, deltaMs, numCPUs)]
      else r
  }

  /** BuildProcCpuPct as a function: empty unless there is at least one CPU and
      time moved forward. */
  function ProcCpuPct(prev: SysInfo, curr: SysInfo, numCPUs: int, hz: real): map<int, real>
    requires hz != 0.0
  {
    if numCPUs <= 0 || curr.tsMs <= prev.tsMs then map[]
    else ProcRates(PrevTicks(prev.procesos), curr.procesos, curr.tsMs - prev.tsMs, numCPUs, hz)
  }

  /** A pid is in the rates exactly when some entry with that pid advanced. */
  lemma {:induction false} ProcRatesKeys(prevTicks: map<int, int>, cs: seq<Process>, deltaMs: int, numCPUs: int, hz: real)
    requires deltaMs > 0 && numCPUs > 0 && hz != 0.0
    ensures forall pid :: pid in ProcRates(prevTicks, cs, deltaMs, numCPUs, hz) <==>
      exists i :: 0 <= i < |cs| && cs[i].pid == pid && Advanced(prevTicks, cs[i])
  {
    if cs != [] {
      var init := cs[..|cs| - 1];
      var p := cs[|cs| - 1];
      ProcRatesKeys(prevTicks, init, deltaMs, numCPUs, hz);
      var r := ProcRates(prevTicks, cs, deltaMs, numCPUs, hz);
      forall pid | pid in r
        ensures exists i :: 0 <= i < |cs| && cs[i].pid == pid && Advanced(prevTicks, cs[i])
      {
        if !(Advanced(prevTicks, p) && pid == p.pid) {
          assert pid in ProcRates(prevTicks, init, deltaMs, numCPUs, hz);
          var i :| 0 <= i < |init| && init[i].pid == pid && Advanced(prevTicks, init[i]);
          assert cs[i] == init[i];
        }
      }
      forall i | 0 <= i < |cs| - 1 && Advanced(prevTicks, cs[i])
        ensures cs[i].pid in r
      {
        assert init[i] == cs[i];
        assert init[i].pid in ProcRates(prevTicks, init, deltaMs, numCPUs, hz);
      }
    }
  }

  /** Each value of the rates is the rate of an advancing entry with that pid,
      so it is strictly positive. */
  lemma {:induction false} ProcRatesValues(prevTicks: map<int, int>, cs: seq<Process>, deltaMs: int, numCPUs: int, hz: real, pid: int)
    requires deltaMs > 0 && numCPUs > 0 && hz > 0.0
    requires pid in ProcRates(prevTicks, cs, deltaMs, numCPUs, hz)
    ensures exists i :: (0 <= i < |cs| && cs[i].pid == pid && Advanced(prevTicks, cs[i]) &&
                         ProcRates(prevTicks, cs, deltaMs, numCPUs, hz)[pid] ==
                           RatePct(CpuTicks(cs[i]) - prevTicks[pid], hz, deltaMs, numCPUs))
    ensures ProcRates(prevTicks, cs, deltaMs, numCPUs, hz)[pid] > 0.0
  {
    var init := cs[..|cs| - 1];
    var p := cs[|cs| - 1];
    var r := ProcRates(prevTicks, cs, deltaMs, numCPUs, hz);
    if Advanced(prevTicks, p) && pid == p.pid {
      RatePctPositive(CpuTicks(p) - prevTicks[pid], hz, deltaMs, numCPUs);
      assert 0 <= |cs| - 1 < |cs| && cs[|cs| - 1].pid == pid;
    } else {
      ProcRatesValues(prevTicks, init, deltaMs, numCPUs, hz, pid);
      var i :| 0 <= i < |init| && init[i].pid == pid && Advanced(prevTicks, init[i]) &&
        r[pid] == RatePct(CpuTicks(init[i]) - prevTicks[pid], hz, deltaMs, numCPUs);
      assert cs[i] == init[i];
    }
  }

  /** A pid is in the percentages exactly when it was in the previous snapshot
      and an entry of the current snapshot with that pid has strictly more ticks
      than the last previous entry with that pid; new and vanished pids are
      omitted and every value is positive. */
  lemma ProcCpuPctMembership(prev: SysInfo, curr: SysInfo, numCPUs: int, hz: real, pid: int)
    requires numCPUs > 0 && curr.tsMs > prev.tsMs && hz > 0.0
    ensures pid in PrevTicks(prev.procesos) <==> exists j :: 0 <= j < |prev.procesos| && prev.procesos[j].pid == pid
    ensures pid in ProcCpuPct(prev, curr, numCPUs, hz) <==>
      exists i :: 0 <= i < |curr.procesos| && curr.procesos[i].pid == pid &&
        Advanced(PrevTicks(prev.procesos), curr.procesos[i])
    ensures pid in ProcCpuPct(prev, curr, numCPUs, hz) ==> ProcCpuPct(prev, curr, numCPUs, hz)[pid] > 0.0
  {
    PrevTicksKeys(prev.procesos);
    ProcRatesKeys(PrevTicks(prev.procesos), curr.procesos, curr.tsMs - prev.tsMs, numCPUs, hz);
    if pid in ProcCpuPct(prev, curr, numCPUs, hz) {
      ProcRatesValues(PrevTicks(prev.procesos), curr.procesos, curr.tsMs - prev.tsMs, numCPUs, hz, pid);
    }
  }

  /** Non-monotonic timestamps or a non-positive CPU count give no percentages. */
  lemma ProcCpuPctGuards(prev: SysInfo, curr: SysInfo, numCPUs: int, hz: real)
    requires hz != 0.0
    requires numCPUs <= 0 || curr.tsMs <= prev.tsMs
    ensures ProcCpuPct(prev, curr, numCPUs, hz) == map[]
  {
  }

  /** The daemon's worked example: 70 ticks at 100 Hz over 10 s on one CPU is 7%. */
  lemma ProcCpuPctExample(a: Process, b: Process)
    requires a.pid == b.pid && CpuTicks(a) == 50 && CpuTicks(b) == 120
    ensures ProcCpuPct(
      SysInfo(0, 0, 0, 0, 1, 0, 10000, [a], false),
      SysInfo(0, 0, 0, 0, 1, 0, 20000, [b], false), 1, Hz) == map[a.pid := 7.0]
  {
    assert [a][..0] == [] && [b][..0] == [];
    var pt := PrevTicks([a]);
    assert pt == PrevTicks([])[a.pid := CpuTicks(a)];
    assert pt == map[a.pid := 50];
    assert Advanced(pt, b);
    assert ProcRates(pt, [b], 10000, 1, Hz) == map[][b.pid := RatePct(70, Hz, 10000, 1)];
    assert (70 as real / Hz) / (10000 as real / 1000.0) == 0.07;
    assert RatePct(70, Hz, 10000, 1) == 7.0;
  }

  /** BuildProcCpuPct: fills the pid -> ticks map from the previous snapshot, then
      records the rate of each current entry whose pid is known and whose ticks
      grew. */
  method BuildProcCpuPct(prev: SysInfo, curr: SysInfo, numCPUs: int, hz: real) returns (result: map<int, real>)
    requires hz != 0.0
    ensures result == ProcCpuPct(prev, curr, numCPUs, hz)
  {
    result := map[];
    if numCPUs <= 0 {
      return;
    }
    if curr.tsMs <= prev.tsMs {
      return;
    }
    var deltaMs := curr.tsMs - prev.tsMs;

    var prevTicks: map<int, int> := map[];
    for i := 0 to |prev.procesos|
      invariant prevTicks == PrevTicks(prev.procesos[..i])
    {
      var p := prev.procesos[i];
      assert prev.procesos[..i + 1][..i] == prev.procesos[..i];
      prevTicks := prevTicks[p.pid := CpuTicks(p)];
    }
    assert prev.procesos[..|prev.procesos|] == prev.procesos;

    for i := 0 to |curr.procesos|
      invariant result == ProcRates(prevTicks, curr.procesos[..i], deltaMs, numCPUs, hz)
    {
      var p := curr.procesos[i];
      assert curr.procesos[..i + 1][..i] == curr.procesos[..i];
      var currTicks := CpuTicks(p);
      if p.pid !in prevTicks {
        continue;
      }
      var oldTicks := prevTicks[p.pid];
      if currTicks <= oldTicks {
        continue;
      }
      result := result[p.pid := RatePct(currTicks - oldTicks, hz, deltaMs, numCPUs)];
    }
    assert curr.procesos[..|curr.procesos|] == curr.procesos;
  }

  // ---------------------------------------------------------------------------
  // process_metrics rows
  // ---------------------------------------------------------------------------

  /** A process_metrics row; `cpuPct` None is SQL NULL. */
  datatype ProcessRow = ProcessRow(
    tsMs: i64,
    pid: int,
    comm: string,
    state: string,
    rssKb: i64,
    utime: i64,
    stime: i64,
    cpuPct: Option<real>)

  /** The optional cpu_pct of one pid: NULL when the map is nil or lacks the pid. */
  function CpuPctOf(cpuPctMap: Option<map<int, real>>, pid: int): Option<real> {
    if cpuPctMap.Some? && pid in cpuPctMap.value then Some(cpuPctMap.value[pid]) else None
  }

  function ProcessRowOf(si: SysInfo, p: Process, cpuPctMap: Option<map<int, real>>): ProcessRow {
    ProcessRow(ToInt64(si.tsMs), p.pid, p.comm, p.state, ToInt64(p.rssKb), ToInt64(p.utime),
               ToInt64(p.stime), CpuPctOf(cpuPctMap, p.pid))
  }

  /** The rows InsertProcessMetricsBulk writes, one per process, in list order. */
  function ProcessRows(si: SysInfo, cpuPctMap: Option<map<int, real>>): seq<ProcessRow> {
    seq(|si.procesos|, i requires 0 <= i < |si.procesos| => ProcessRowOf(si, si.procesos[i], cpuPctMap))
  }

  /** Each process has exactly one row, with its own pid, and the row's cpu_pct is
      present exactly when the map exists and has the pid. */
  lemma ProcessRowsOnePerProcess(si: SysInfo, cpuPctMap: Option<map<int, real>>)
    ensures |ProcessRows(si, cpuPctMap)| == |si.procesos|
    ensures forall i :: 0 <= i < |si.procesos| ==>
      ProcessRows(si, cpuPctMap)[i].pid == si.procesos[i].pid &&
      (ProcessRows(si, cpuPctMap)[i].cpuPct.Some? <==> cpuPctMap.Some? && si.procesos[i].pid in cpuPctMap.value)
    ensures cpuPctMap.None? ==> forall r :: r in ProcessRows(si, cpuPctMap) ==> r.cpuPct.None?
  {
  }

  /** InsertProcessMetricsBulk: one insert per process, in list order. */
  method InsertProcessMetricsBulk(si: SysInfo, cpuPctMap: Option<map<int, real>>) returns (rows: seq<ProcessRow>)
    ensures rows == ProcessRows(si, cpuPctMap)
  {
    rows := [];
    if |si.procesos| == 0 {
      return;
    }
    for i := 0 to |si.procesos|
      invariant rows == ProcessRows(si, cpuPctMap)[..i]
    {
      var p := si.procesos[i];
      var cpuPct: Option<real> := None;
      if cpuPctMap.Some? {
        if p.pid in cpuPctMap.value {
          cpuPct := Some(cpuPctMap.value[p.pid]);
        }
      }
      rows := rows + [ProcessRow(ToInt64(si.tsMs), p.pid, p.comm, p.state, ToInt64(p.rssKb),
                                 ToInt64(p.utime), ToInt64(p.stime), cpuPct)];
    }
  }

  // ---------------------------------------------------------------------------
  // process_state_summary
  // ---------------------------------------------------------------------------

  /** The state key of a process: "?" for an empty state, else its first character. */
  function StateKey(state: string): (k: string)
    ensures |k| == 1
    ensures state != "" ==> k == [state[0]]
  {
    if state == "" then "?" else state[..1]
  }

  /** The histogram `counts[state]++` builds over a list. */
  function Histogram(ps: seq<Process>): map<string, nat> {
    if ps == [] then map[]
    else
      var h := Histogram(ps[..|ps| - 1]);
      var k := StateKey(ps[|ps| - 1].state);
      h[k := if k in h then h[k] + 1 else 1]
  }

  /** The sum of the counts of a histogram. */
  ghost function CountSum(m: map<string, nat>): nat
    decreases |m|
  {
    if m == map[] then 0
    else
      var k :| k in m;
      m[k] + CountSum(m - {k})
  }

  /** CountSum can peel off any key, not only the one it happens to choose. */
  lemma {:induction false} CountSumRemove(m: map<string, nat>, k: string)
    requires k in m
    ensures CountSum(m) == m[k] + CountSum(m - {k})
    decreases |m|
  {
    var j :| j in m && CountSum(m) == m[j] + CountSum(m - {j});
    if j != k {
      var mj := m - {j};
      var mk := m - {k};
      assert |mj| < |m| && |mk| < |m|;
      CountSumRemove(mj, k);
      CountSumRemove(mk, j);
      assert mj - {k} == mk - {j};
    }
  }

  /** Incrementing one count of a histogram raises its sum by one. */
  lemma CountSumIncrement(m: map<string, nat>, k: string)
    ensures CountSum(m[k := if k in m then m[k] + 1 else 1]) == CountSum(m) + 1
  {
    var m' := m[k := if k in m then m[k] + 1 else 1];
    CountSumRemove(m', k);
    assert m' - {k} == m - {k};
    if k in m {
      CountSumRemove(m, k);
    } else {
      assert m - {k} == m;
    }
  }

  /** The histogram has one key per distinct state key of the list, and each
      count is at least one. */
  lemma {:induction false} HistogramKeys(ps: seq<Process>)
    ensures forall k :: k in Histogram(ps) <==> exists i :: 0 <= i < |ps| && StateKey(ps[i].state) == k
    ensures forall k :: k in Histogram(ps) ==> Histogram(ps)[k] >= 1
  {
    if ps != [] {
      var init := ps[..|ps| - 1];
      HistogramKeys(init);
      var key := StateKey(ps[|ps| - 1].state);
      forall k | k in Histogram(ps)
        ensures exists i :: 0 <= i < |ps| && StateKey(ps[i].state) == k
      {
        if k != key {
          assert k in Histogram(init);
          var i :| 0 <= i < |init| && StateKey(init[i].state) == k;
          assert ps[i] == init[i];
        }
      }
      forall i | 0 <= i < |ps| - 1
        ensures StateKey(ps[i].state) in Histogram(ps)
      {
        assert ps[i] == init[i];
      }
    }
  }

  /** The counts of the histogram add up to the number of processes. */
  lemma {:induction false} HistogramTotal(ps: seq<Process>)
    ensures CountSum(Histogram(ps)) == |ps|
  {
    if ps != [] {
      var init := ps[..|ps| - 1];
      HistogramTotal(init);
      CountSumIncrement(Histogram(init), StateKey(ps[|ps| - 1].state));
    }
  }

  /** The state key of every process, in list order. */
  function StateKeys(ps: seq<Process>): seq<string> {
    seq(|ps|, i requires 0 <= i < |ps| => StateKey(ps[i].state))
  }

  /** Each count of the histogram is the number of processes with that state
      key, and a key that no process has is absent. */
  lemma {:induction false} HistogramCount(ps: seq<Process>)
    ensures forall k :: multiset(StateKeys(ps))[k] == if k in Histogram(ps) then Histogram(ps)[k] else 0
  {
    if ps != [] {
      var init := ps[..|ps| - 1];
      HistogramCount(init);
      assert StateKeys(ps) == StateKeys(init) + [StateKey(ps[|ps| - 1].state)];
    }
  }

  /** InsertProcessStateSummary: counts the processes per state key; an empty
      list writes nothing. */
  method InsertProcessStateSummary(si: SysInfo) returns (counts: map<string, nat>)
    ensures counts == Histogram(si.procesos)
    ensures forall k :: k in counts ==> counts[k] == multiset(StateKeys(si.procesos))[k]
    ensures forall k :: k !in counts ==> multiset(StateKeys(si.procesos))[k] == 0
  {
    HistogramCount(si.procesos);
    counts := map[];
    if |si.procesos| == 0 {
      return;
    }
    for i := 0 to |si.procesos|
      invariant counts == Histogram(si.procesos[..i])
    {
      assert si.procesos[..i + 1][..i] == si.procesos[..i];
      var state := si.procesos[i].state;
      assert |state| == 1 ==> state[..1] == state;
      if state == "" {
        state := "?";
      } else if |state| > 1 {
        state := state[..1];
      }
      assert state == StateKey(si.procesos[i].state);
      counts := counts[state := if state in counts then counts[state] + 1 else 1];
    }
    assert si.procesos[..|si.procesos|] == si.procesos;
  }
}
