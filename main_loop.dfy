/** The daemon's monitoring cycle: read the sysinfo snapshot and write its
    rows, read the continfo snapshot and update the container lifecycle and
    metrics, then enforce the container caps. The previous snapshots are kept
    between cycles so that CPU percentages can be computed from the second
    cycle on. */
module Daemon {
  import opened Common
  import opened ReadSystem
  import opened ReadCont
  import opened InsertSystem
  import opened InsertCont
  import opened CleanCont

  /** GetTotalDeletedContainers: the number of containers with a removal time;
      a failing query is an error. */
  function GetTotalDeletedContainers(rows: map<string, ContainerRow>, queryFails: bool): (r: Result<nat>)
    ensures r.Ok? <==> !queryFails
    ensures r.Ok? ==> r.value == |DeletedIds(rows)|
  {
    if queryFails then Err("query") else Ok(|DeletedIds(rows)|)
  }

  /** The accumulated deletion count never decreases across a lifecycle update,
      whether it commits or not. */
  lemma DeletedCountMonotone(rows: map<string, ContainerRow>, live: set<string>, ts: i64, commits: bool)
    ensures var after := if commits && live != {} then Upserted(rows, live, ts) else rows;
      GetTotalDeletedContainers(rows, false).value <= GetTotalDeletedContainers(after, false).value
  {
    if commits && live != {} {
      UpsertedDeleted(rows, live, ts);
    }
  }

  /** What the environment supplies to one cycle: the two /proc reads, whether
      the lifecycle transaction and the deletion query fail, the two stress
      container listings and the ids whose stop fails. */
  datatype CycleInputs = CycleInputs(
    sysRead: ReadOutcome<SysInfo>,
    contRead: ReadOutcome<ContInfoSnapshot>,
    upsertFails: bool,
    deletedQueryFails: bool,
    firstListing: ListOutcome,
    secondListing: ListOutcome,
    failingStops: set<string>)

  /** What the sysinfo half of a cycle writes. */
  datatype SysWrites = SysWrites(
    view: SysInfoView,
    systemRow: SystemRow,
    processRows: seq<ProcessRow>,
    stateCounts: map<string, nat>)

  /** What the continfo half of a cycle writes. */
  datatype ContWrites = ContWrites(
    view: ContainersView,
    upsertFailed: bool,
    hostRow: HostRow,
    metricRows: seq<MetricRow>)

  datatype CycleReport = CycleReport(sys: Option<SysWrites>, cont: Option<ContWrites>, stops: seq<Stop>)

  /** The CPU percentages a cycle uses: none without a previous snapshot. */
  function ProcPctInput(havePrev: bool, prev: SysInfo, curr: SysInfo, numCPUs: int): (r: Option<map<int, real>>)
    ensures r.Some? <==> havePrev
    ensures r.Some? ==> r.value == ProcCpuPct(prev, curr, numCPUs, Hz)
  {
    if havePrev then Some(ProcCpuPct(prev, curr, numCPUs, Hz)) else None
  }

  function ContPctInput(havePrev: bool, prev: ContInfoSnapshot, curr: ContInfoSnapshot, numCPUs: int): (r: Option<map<string, real>>)
    ensures r.Some? <==> havePrev
    ensures r.Some? ==> r.value == ContainerCpuPct(prev, curr, numCPUs)
  {
    if havePrev then Some(ContainerCpuPct(prev, curr, numCPUs)) else None
  }

  /** Without a previous snapshot no process row carries a CPU percentage. */
  lemma {:induction false} FirstCycleHasNoProcPct(si: SysInfo)
    ensures forall r :: r in ProcessRows(si, None) ==> r.cpuPct.None?
  {
    forall r | r in ProcessRows(si, None)
      ensures r.cpuPct.None?
    {
      var i :| 0 <= i < |ProcessRows(si, None)| && ProcessRows(si, None)[i] == r;
      assert r == ProcessRowOf(si, si.procesos[i], None);
    }
  }

  /** Without a previous snapshot every container metric row carries 0%. */
  lemma {:induction false} FirstCycleHasZeroContPct(tsMs: i64, ps: seq<ContProcess>)
    ensures forall r :: r in MetricRows(tsMs, ps, None) ==> r.cpuPct == 0.0
  {
    if ps != [] {
      FirstCycleHasZeroContPct(tsMs, ps[..|ps| - 1]);
    }
  }

  /** The daemon's state between cycles. */
  class Monitor {
    var prevSys: SysInfo
    var havePrevSys: bool
    var prevCont: ContInfoSnapshot
    var havePrevCont: bool
    const numCPUs: int
    const table: ContainersTable

    /** The loop state before the first cycle; `cpus` is what the runtime
        reports as the number of CPUs. */
    constructor (cpus: int)
      ensures !havePrevSys && !havePrevCont
      ensures numCPUs == cpus
      ensures fresh(table) && table.rows == map[]
    {
      prevSys := SysInfo(0, 0, 0, 0, 0, 0, 0, [], false);
      havePrevSys := false;
      prevCont := ContInfoSnapshot(0, 0, 0, 0, []);
      havePrevCont := false;
      numCPUs := cpus;
      table := new ContainersTable();
    }

    /** The sysinfo half of a cycle: read, print, write the system row, the
        process rows (with CPU percentages once a previous snapshot exists) and
        the state histogram, then keep the snapshot. A failed read changes
        nothing. */
    method SystemPass(read: ReadOutcome<SysInfo>) returns (sys: Option<SysWrites>)
      modifies this
      ensures sys.Some? <==> read.Parsed?
      ensures read.Parsed? ==>
        var si := read.doc.(rawJsonPresent := true);
        sys.value.systemRow == SystemMetricsRow(si) &&
        sys.value.processRows == ProcessRows(si, ProcPctInput(old(havePrevSys), old(prevSys), si, numCPUs)) &&
        sys.value.stateCounts == Histogram(si.procesos) &&
        prevSys == si && havePrevSys
      ensures !read.Parsed? ==> prevSys == old(prevSys) && havePrevSys == old(havePrevSys)
      ensures prevCont == old(prevCont) && havePrevCont == old(havePrevCont)
    {
      sys := None;
      var si := ReadSysinfo(read);
      if si.Ok? {
        var s := si.value;
        var view := PrintSysInfo(s);
        var row := SystemMetricsRow(s);
        var cpuPctProc: Option<map<int, real>> := None;
        if havePrevSys {
          var m := BuildProcCpuPct(prevSys, s, numCPUs, Hz);
          cpuPctProc := Some(m);
        }
        var procRows := InsertProcessMetricsBulk(s, cpuPctProc);
        var counts := InsertProcessStateSummary(s);
        prevSys := s;
        havePrevSys := true;
        sys := Some(SysWrites(view, row, procRows, counts));
      }
    }

    /** The continfo half of a cycle: read, print, upsert the lifecycle table,
        count the deleted containers after the upsert, write the host row and
        the metric rows, then keep the snapshot. A failed read changes nothing. */
    method ContainerPass(read: ReadOutcome<ContInfoSnapshot>, upsertFails: bool, deletedQueryFails: bool)
      returns (cont: Option<ContWrites>)
      modifies this, table
      ensures cont.Some? <==> read.Parsed?
      ensures read.Parsed? ==>
        var snap := read.doc;
        var live := ContIds(snap.procesos);
        cont.value.upsertFailed == (live != {} && upsertFails) &&
        table.rows == (if live != {} && !upsertFails then Upserted(old(table.rows), live, snap.tsMs) else old(table.rows)) &&
        cont.value.hostRow.totalContainers == |live| &&
        cont.value.hostRow.totalDeletedAcc == (if deletedQueryFails then 0 else |DeletedIds(table.rows)|) &&
        cont.value.metricRows == MetricRows(snap.tsMs, snap.procesos, ContPctInput(old(havePrevCont), old(prevCont), snap, numCPUs)) &&
        prevCont == snap && havePrevCont
      ensures !read.Parsed? ==>
        prevCont == old(prevCont) && havePrevCont == old(havePrevCont) && table.rows == old(table.rows)
      ensures prevSys == old(prevSys) && havePrevSys == old(havePrevSys)
    {
      cont := None;
      var snapRead := ReadContInfo(read);
      if snapRead.Ok? {
        var snap := snapRead.value;
        var view := PrintContainers(snap);
        var upsertErr := table.UpsertContainersFromSnapshot(snap, upsertFails);
        var totalDeletedAcc := 0;
        var deleted := GetTotalDeletedContainers(table.rows, deletedQueryFails);
        if deleted.Ok? {
          totalDeletedAcc := deleted.value;
        }
        var hostRow := InsertContainerHostMetrics(snap, totalDeletedAcc);
        var cpuPctCont: Option<map<string, real>> := None;
        if havePrevCont {
          var m := BuildContainerCpuPct(prevCont, snap, numCPUs);
          cpuPctCont := Some(m);
        }
        var metricRows := InsertContainerMetricsBulk(snap, cpuPctCont);
        prevCont := snap;
        havePrevCont := true;
        cont := Some(ContWrites(view, upsertErr, hostRow, metricRows));
      }
    }

    /** One monitoring cycle. A failed sysinfo read skips the sysinfo writes and
        keeps the previous snapshot; a failed continfo read skips the container
        writes and keeps the previous snapshot and the lifecycle table; the caps
        are enforced every cycle. */
    method Cycle(inp: CycleInputs) returns (rep: CycleReport)
      modifies this, table
      ensures rep.sys.Some? <==> inp.sysRead.Parsed?
      ensures inp.sysRead.Parsed? ==>
        var si := inp.sysRead.doc.(rawJsonPresent := true);
        rep.sys.value.systemRow == SystemMetricsRow(si) &&
        rep.sys.value.processRows == ProcessRows(si, ProcPctInput(old(havePrevSys), old(prevSys), si, numCPUs)) &&
        rep.sys.value.stateCounts == Histogram(si.procesos) &&
        prevSys == si && havePrevSys
      ensures !inp.sysRead.Parsed? ==> prevSys == old(prevSys) && havePrevSys == old(havePrevSys)
      ensures rep.cont.Some? <==> inp.contRead.Parsed?
      ensures inp.contRead.Parsed? ==>
        var snap := inp.contRead.doc;
        var live := ContIds(snap.procesos);
        rep.cont.value.upsertFailed == (live != {} && inp.upsertFails) &&
        table.rows == (if live != {} && !inp.upsertFails then Upserted(old(table.rows), live, snap.tsMs) else old(table.rows)) &&
        rep.cont.value.hostRow.totalContainers == |live| &&
        rep.cont.value.hostRow.totalDeletedAcc == (if inp.deletedQueryFails then 0 else |DeletedIds(table.rows)|) &&
        rep.cont.value.metricRows == MetricRows(snap.tsMs, snap.procesos, ContPctInput(old(havePrevCont), old(prevCont), snap, numCPUs)) &&
        prevCont == snap && havePrevCont
      ensures !inp.contRead.Parsed? ==>
        prevCont == old(prevCont) && havePrevCont == old(havePrevCont) && table.rows == old(table.rows)
      ensures rep.stops == Executed(Plan(inp.firstListing, inp.secondListing), inp.failingStops)
    {
      var sys := SystemPass(inp.sysRead);
      var cont := ContainerPass(inp.contRead, inp.upsertFails, inp.deletedQueryFails);
      var stops := EnforceRules(inp.firstListing, inp.secondListing, inp.failingStops);
      rep := CycleReport(sys, cont, stops);
    }
  }
}
