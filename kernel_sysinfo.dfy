/** The sysinfo module: one JSON document with the memory figures from
    /proc/meminfo, the CPU usage since the previous read, a millisecond
    timestamp, the number of processes and one entry per process. */
module KernelSysinfo {
  import opened Common
  import opened KernelCommon

  /** A file read through a kmalloc'd buffer: the allocation, the open or the
      read can fail; otherwise the file's contents. */
  datatype KernelFile = AllocFailed | OpenFailed | ReadFailed | Contents(data: seq<char>)

  /** The text of the buffer after `n = kernel_read(file, buf, limit, &pos)`
      and `buf[n] = '\0'`: nothing when a step fails or nothing is read. */
  function ReadText(file: KernelFile, limit: nat): (t: Option<string>)
    ensures t.Some? <==> file.Contents? && |file.data| > 0 && limit > 0
    ensures t.Some? ==> |t.value| <= limit && |t.value| <= |file.data| && t.value == file.data[..|t.value|]
  {
    match file
    case Contents(data) =>
      var n := if |data| < limit then |data| else limit;
      if n == 0 then None
      else
        var buf := data[..n] + ['\0'];
        var text := CString(buf);
        CStringStopsAt(buf, n);
        assert buf[..|text|] == data[..|text|];
        Some(text)
    case _ => None
  }

  /** A read of text without NUL bytes yields the first `limit` bytes. */
  lemma ReadTextExact(data: seq<char>, limit: nat)
    requires 0 < |data| && 0 < limit && '\0' !in data
    ensures var n := if |data| < limit then |data| else limit;
      ReadText(Contents(data), limit) == Some(data[..n])
  {
    var n := if |data| < limit then |data| else limit;
    var buf := data[..n] + ['\0'];
    assert buf[..n] == data[..n];
    assert forall c :: c in data[..n] ==> c in data;
    CStringAt(buf, n);
  }

  // ---------------------------------------------------------------------------
  // CPU usage
  // ---------------------------------------------------------------------------

  /** At most this many bytes of /proc/stat are read (the buffer holds 1024). */
  const StatReadLimit: nat := 1023

  /** The sample a read of /proc/stat yields (`parse` stands for the sscanf of
      the `cpu` line). */
  function StatSample(file: KernelFile, parse: string -> Option<CpuFields>): Option<CpuFields> {
    match ReadText(file, StatReadLimit)
    case None => None
    case Some(text) => parse(text)
  }

  /** get_cpu_usage: an allocation, open, read or parse failure reports 0 and
      keeps the previous sample; a parsed sample reports the usage against the
      previous one and replaces it. */
  method GetCpuUsage(counters: CpuCounters, file: KernelFile, parse: string -> Option<CpuFields>) returns (usage: u64)
    modifies counters
    ensures StatSample(file, parse).None? ==>
      usage == 0 && counters.prevIdle == old(counters.prevIdle) && counters.prevTotal == old(counters.prevTotal)
    ensures StatSample(file, parse).Some? ==>
      var f := StatSample(file, parse).value;
      usage == UsageFromDelta(Wrap64(Total(f) - old(counters.prevTotal)), Wrap64(TotalIdle(f) - old(counters.prevIdle))) &&
      counters.prevIdle == TotalIdle(f) && counters.prevTotal == Total(f)
  {
    var text := ReadText(file, StatReadLimit);
    if text.None? {
      return 0;
    }
    var parsed := parse(text.value);
    if parsed.Some? {
      usage := counters.Advance(parsed.value);
    } else {
      usage := 0;
    }
  }

  // ---------------------------------------------------------------------------
  // Memory figures from /proc/meminfo
  // ---------------------------------------------------------------------------

  /** At most this many bytes of /proc/meminfo are read (the buffer holds 8192). */
  const MeminfoReadLimit: nat := 8191

  /** The pieces `strsep(&p, "\n")` returns until `p` becomes NULL: the text
      split at every newline, with an empty last piece after a final newline. */
  function StrsepPieces(s: string): (ps: seq<string>)
    ensures |ps| >= 1
    decreases |s|
  {
    var k := IndexOf(s, '\n');
    if k == |s| then [s] else [s[..k]] + StrsepPieces(s[k + 1..])
  }

  /** The pieces joined back with newlines. */
  function JoinLines(ps: seq<string>): string
    requires |ps| >= 1
  {
    if |ps| == 1 then ps[0] else ps[0] + "\n" + JoinLines(ps[1..])
  }

  /** Joining the pieces with newlines gives back the text, and no piece holds a
      newline. */
  lemma {:induction false} StrsepRoundTrip(s: string)
    ensures JoinLines(StrsepPieces(s)) == s
    ensures forall j :: 0 <= j < |StrsepPieces(s)| ==> '\n' !in StrsepPieces(s)[j]
    decreases |s|
  {
    var k := IndexOf(s, '\n');
    if k < |s| {
      StrsepRoundTrip(s[k + 1..]);
      assert s == s[..k] + "\n" + s[k + 1..];
      assert StrsepPieces(s)[1..] == StrsepPieces(s[k + 1..]);
    }
  }

  datatype MemKey = MemTotal | MemFree | MemAvailable

  /** The three figures, each 0 until a line sets it. */
  datatype MemFigures = MemFigures(total: u64, free: u64, available: u64)

  function Figure(m: MemFigures, key: MemKey): u64 {
    match key
    case MemTotal => m.total
    case MemFree => m.free
    case MemAvailable => m.available
  }

  /** The first pattern of the if/else-if chain a line matches, with its value
      (`scan(line, key)` stands for the sscanf of "<key>: %lu kB"). */
  function MatchLine(line: string, scan: (string, MemKey) -> Option<u64>): Option<(MemKey, u64)> {
    if scan(line, MemTotal).Some? then Some((MemTotal, scan(line, MemTotal).value))
    else if scan(line, MemFree).Some? then Some((MemFree, scan(line, MemFree).value))
    else if scan(line, MemAvailable).Some? then Some((MemAvailable, scan(line, MemAvailable).value))
    else None
  }

  function Update(m: MemFigures, line: string, scan: (string, MemKey) -> Option<u64>): MemFigures {
    match MatchLine(line, scan)
    case None => m
    case Some((key, v)) =>
      match key
      case MemTotal => m.(total := v)
      case MemFree => m.(free := v)
      case MemAvailable => m.(available := v)
  }

  /** The figures after scanning the lines in order. */
  function ScanLines(lines: seq<string>, scan: (string, MemKey) -> Option<u64>): MemFigures {
    if lines == [] then MemFigures(0, 0, 0)
    else Update(ScanLines(lines[..|lines| - 1], scan), lines[|lines| - 1], scan)
  }

  /** Matches `key`. */
  predicate Sets(line: string, scan: (string, MemKey) -> Option<u64>, key: MemKey) {
    MatchLine(line, scan).Some? && MatchLine(line, scan).value.0 == key
  }

  /** The last line that matches a key decides its figure. */
  lemma {:induction false} LastMatchWins(lines: seq<string>, scan: (string, MemKey) -> Option<u64>, key: MemKey, i: int)
    requires 0 <= i < |lines| && Sets(lines[i], scan, key)
    requires forall j :: i < j < |lines| ==> !Sets(lines[j], scan, key)
    ensures Figure(ScanLines(lines, scan), key) == MatchLine(lines[i], scan).value.1
  {
    var init := lines[..|lines| - 1];
    if i < |lines| - 1 {
      LastMatchWins(init, scan, key, i);
    }
  }

  /** A key no line matches keeps its default of 0. */
  lemma {:induction false} NoMatchZero(lines: seq<string>, scan: (string, MemKey) -> Option<u64>, key: MemKey)
    requires forall j :: 0 <= j < |lines| ==> !Sets(lines[j], scan, key)
    ensures Figure(ScanLines(lines, scan), key) == 0
  {
    if lines != [] {
      NoMatchZero(lines[..|lines| - 1], scan, key);
    }
  }

  /** The figures get_meminfo_kb reports: all 0 when the read fails. */
  function MeminfoOf(file: KernelFile, scan: (string, MemKey) -> Option<u64>): MemFigures {
    match ReadText(file, MeminfoReadLimit)
    case None => MemFigures(0, 0, 0)
    case Some(text) => ScanLines(StrsepPieces(text), scan)
  }

  /** The pieces still to come: none once the cursor is NULL. */
  function PiecesOf(p: Option<string>): seq<string> {
    if p.None? then [] else StrsepPieces(p.value)
  }

  /** `line = strsep(&p, "\n")`: the text up to the first newline, and the
      cursor after it, or NULL when there is no newline. */
  method Strsep(p: string) returns (line: string, next: Option<string>)
    ensures StrsepPieces(p) == [line] + PiecesOf(next)
    ensures next.Some? ==> |next.value| < |p|
  {
    var k := IndexOf(p, '\n');
    if k == |p| {
      line, next := p, None;
    } else {
      line, next := p[..k], Some(p[k + 1..]);
    }
  }

  /** Moving the first piece still to come onto the scanned ones keeps their
      concatenation. */
  lemma MovePiece(done: seq<string>, rest: seq<string>, line: string, tail: seq<string>)
    requires rest == [line] + tail
    ensures done + rest == (done + [line]) + tail
  {
  }

  /** Scanning one more line applies Update to the figures so far. */
  lemma ScanLinesStep(done: seq<string>, line: string, scan: (string, MemKey) -> Option<u64>)
    ensures ScanLines(done + [line], scan) == Update(ScanLines(done, scan), line, scan)
  {
    assert (done + [line])[..|done|] == done;
  }

  /** The if/else-if chain of sscanf calls on one line. */
  method ScanLine(totalKb: u64, freeKb: u64, availableKb: u64, line: string, scan: (string, MemKey) -> Option<u64>)
    returns (totalKb': u64, freeKb': u64, availableKb': u64)
    ensures MemFigures(totalKb', freeKb', availableKb') == Update(MemFigures(totalKb, freeKb, availableKb), line, scan)
  {
    totalKb', freeKb', availableKb' := totalKb, freeKb, availableKb;
    var v := scan(line, MemTotal);
    if v.Some? {
      totalKb' := v.value;
    } else {
      v := scan(line, MemFree);
      if v.Some? {
        freeKb' := v.value;
      } else {
        v := scan(line, MemAvailable);
        if v.Some? {
          availableKb' := v.value;
        }
      }
    }
  }

  /** The strsep loop of get_meminfo_kb over the text read. */
  method ScanPieces(text: string, scan: (string, MemKey) -> Option<u64>)
    returns (totalKb: u64, freeKb: u64, availableKb: u64)
    ensures MemFigures(totalKb, freeKb, availableKb) == ScanLines(StrsepPieces(text), scan)
  {
    totalKb, freeKb, availableKb := 0, 0, 0;
    var p: Option<string> := Some(text);
    ghost var done: seq<string> := [];
    while p.Some?
      invariant done + PiecesOf(p) == StrsepPieces(text)
      invariant MemFigures(totalKb, freeKb, availableKb) == ScanLines(done, scan)
      decreases if p.Some? then |p.value| + 1 else 0
    {
      var line, next := Strsep(p.value);
      MovePiece(done, PiecesOf(p), line, PiecesOf(next));
      ScanLinesStep(done, line, scan);
      done := done + [line];
      p := next;
      totalKb, freeKb, availableKb := ScanLine(totalKb, freeKb, availableKb, line, scan);
    }
    assert done + PiecesOf(p) == done;
  }

  /** get_meminfo_kb: the outputs start at 0 and every matching line overwrites
      its output while strsep walks the buffer; a failed read leaves all 0. */
  method GetMeminfoKb(file: KernelFile, scan: (string, MemKey) -> Option<u64>)
    returns (totalKb: u64, freeKb: u64, availableKb: u64)
    ensures MemFigures(totalKb, freeKb, availableKb) == MeminfoOf(file, scan)
  {
    var text := ReadText(file, MeminfoReadLimit);
    if text.None? {
      return 0, 0, 0;
    }
    totalKb, freeKb, availableKb := ScanPieces(text.value, scan);
  }

  /** MemAvailable, or MemFree when MemAvailable is 0 (absent). */
  function AvailableOrFree(freeKb: u64, availableKb: u64): (a: u64)
    ensures a == 0 ==> freeKb == 0
    ensures availableKb != 0 ==> a == availableKb
  {
    if availableKb == 0 then freeKb else availableKb
  }

  /** `total > available ? total - available : 0`. */
  function UsedRam(totalKb: u64, availableKb: u64): (used: u64)
    ensures used <= totalKb
    ensures used == 0 <==> totalKb <= availableKb
    ensures totalKb > availableKb ==> used + availableKb == totalKb
  {
    if totalKb > availableKb then totalKb - availableKb else 0
  }

  // ---------------------------------------------------------------------------
  // Processes
  // ---------------------------------------------------------------------------

  /** Task state bits and exit states of the Linux scheduler. */
  const TaskInterruptible: bv32 := 0x1
  const TaskUninterruptible: bv32 := 0x2
  const TaskStopped: bv32 := 0x4
  const TaskTraced: bv32 := 0x8
  const ExitDead: int := 0x10
  const ExitZombie: int := 0x20

  /** task_state_char: 'R' for a running task, else the letter of the first of
      the interruptible, uninterruptible, stopped and traced bits that is set,
      else '?'; a zombie or dead exit state overrides the letter. */
  function TaskStateChar(state: bv32, exitState: int): (c: char)
    ensures c == 'Z' <==> exitState == ExitZombie
    ensures c == 'X' <==> exitState == ExitDead
    ensures exitState != ExitZombie && exitState != ExitDead ==>
      (c == 'R' <==> state == 0) &&
      (c == 'S' <==> state & TaskInterruptible != 0) &&
      (c == 'D' <==> state & 0x3 == TaskUninterruptible) &&
      (c == 'T' <==> state & 0x7 == TaskStopped) &&
      (c == 't' <==> state & 0xF == TaskTraced) &&
      (c == '?' <==> state != 0 && state & 0xF == 0)
  {
    var ret :=
      if state == 0 then 'R'
      else if state & TaskInterruptible != 0 then 'S'
      else if state & TaskUninterruptible != 0 then 'D'
      else if state & TaskStopped != 0 then 'T'
      else if state & TaskTraced != 0 then 't'
      else '?';
    if exitState == ExitZombie then 'Z'
    else if exitState == ExitDead then 'X'
    else ret
  }

  /** The memory map of a task with a user address space, in pages. */
  datatype MmStats = MmStats(rssPages: u64, totalVm: u64)

  /** What the module reads of one task. */
  datatype SysTask = SysTask(
    pid: int, comm: string, mm: Option<MmStats>,
    utime: u64, stime: u64, state: bv32, exitState: int)

  /** One entry of the `procesos` array. */
  datatype ProcEntry = ProcEntry(
    pid: int, comm: string, rssKb: u64, vmsizeKb: u64,
    state: char, utime: u64, stime: u64, tsMs: u64)

  /** `(unsigned long)pages * (PAGE_SIZE / 1024)`. */
  function PagesToKb(pages: u64): (kb: u64)
    ensures pages * 4 < TWO_64 ==> kb == pages * 4
  {
    Wrap64(pages * (PageSize / 1024))
  }

  /** Where neither overflows, this conversion agrees with the byte-based one
      of the other modules. */
  lemma PagesToKbAgrees(pages: u64)
    requires pages * PageSize < TWO_64
    ensures PagesToKb(pages) == KbFromUnits(pages, PageSize)
  {
    KbFromPages(pages);
  }

  /** The entry of a task: sizes from its memory map, 0 for a task without one
      (a kernel thread); the state letter; the document's timestamp. */
  function ProcEntryOf(t: SysTask, tsMs: u64): (e: ProcEntry)
    ensures t.mm.None? ==> e.rssKb == 0 && e.vmsizeKb == 0
    ensures t.mm.Some? ==> e.rssKb == PagesToKb(t.mm.value.rssPages) && e.vmsizeKb == PagesToKb(t.mm.value.totalVm)
    ensures e.pid == t.pid && e.comm == t.comm && e.utime == t.utime && e.stime == t.stime && e.tsMs == tsMs
    ensures e.state == TaskStateChar(t.state, t.exitState)
  {
    var rss := if t.mm.Some? then PagesToKb(t.mm.value.rssPages) else 0;
    var vm := if t.mm.Some? then PagesToKb(t.mm.value.totalVm) else 0;
    ProcEntry(t.pid, t.comm, rss, vm, TaskStateChar(t.state, t.exitState), t.utime, t.stime, tsMs)
  }

  function ProcEntries(tasks: seq<SysTask>, tsMs: u64): (es: seq<ProcEntry>)
    ensures |es| == |tasks|
    ensures forall i :: 0 <= i < |tasks| ==> es[i] == ProcEntryOf(tasks[i], tsMs)
  {
    seq(|tasks|, i requires 0 <= i < |tasks| => ProcEntryOf(tasks[i], tsMs))
  }

  /** The first pass over the process list: counts the processes. */
  method CountTasks(tasks: seq<SysTask>) returns (totalProcs: int)
    ensures totalProcs == |tasks|
  {
    totalProcs := 0;
    for i := 0 to |tasks|
      invariant totalProcs == i
    {
      totalProcs := totalProcs + 1;
    }
  }

  /** What `Separator` prints between two process entries. */
  const ProcSeparator: string := "    ,\n"

  datatype SysinfoDoc = SysinfoDoc(
    totalRamKb: u64, freeRamKb: u64, availableKb: u64, ramUsedKb: u64,
    totalProcs: int, cpuUsagePct: u64, tsMs: u64,
    procesos: seq<Chunk<ProcEntry>>)

  /** The second pass over the process list: one entry per task, separated. */
  method EmitProcesses(tasks: seq<SysTask>, tsMs: u64) returns (procesos: seq<Chunk<ProcEntry>>)
    ensures procesos == Interleaved(ProcEntries(tasks, tsMs))
  {
    procesos := EmitArray(ProcEntries(tasks, tsMs));
  }

  /** The memory figures of sysinfo_show: MemAvailable falls back to MemFree,
      and the used amount saturates at 0. */
  method MemorySection(meminfo: KernelFile, scan: (string, MemKey) -> Option<u64>)
    returns (totalKb: u64, freeKb: u64, availableKb: u64, usedKb: u64)
    ensures var m := MeminfoOf(meminfo, scan);
      totalKb == m.total && freeKb == m.free &&
      availableKb == AvailableOrFree(m.free, m.available) &&
      usedKb == UsedRam(m.total, availableKb)
  {
    totalKb, freeKb, availableKb := GetMeminfoKb(meminfo, scan);
    if availableKb == 0 {
      availableKb := freeKb;
    }
    usedKb := if totalKb > availableKb then totalKb - availableKb else 0;
  }

  /** sysinfo_show. The two passes over the process list may see different lists
      (tasks come and go between them), so the count and the entries come from
      separate parameters. */
  method SysinfoShow(counters: CpuCounters, meminfo: KernelFile, stat: KernelFile,
                     scan: (string, MemKey) -> Option<u64>, parse: string -> Option<CpuFields>,
                     sec: i64, nsec: int, firstPass: seq<SysTask>, secondPass: seq<SysTask>)
    returns (doc: SysinfoDoc)
    requires 0 <= nsec < 1000000000
    modifies counters
    ensures var m := MeminfoOf(meminfo, scan);
      doc.totalRamKb == m.total && doc.freeRamKb == m.free &&
      doc.availableKb == AvailableOrFree(m.free, m.available) &&
      doc.ramUsedKb == UsedRam(m.total, doc.availableKb)
    ensures StatSample(stat, parse).None? ==> doc.cpuUsagePct == 0
    ensures StatSample(stat, parse).Some? ==>
      var f := StatSample(stat, parse).value;
      doc.cpuUsagePct == UsageFromDelta(Wrap64(Total(f) - old(counters.prevTotal)), Wrap64(TotalIdle(f) - old(counters.prevIdle)))
    ensures doc.tsMs == TsMs(sec, nsec)
    ensures doc.totalProcs == |firstPass|
    ensures doc.procesos == Interleaved(ProcEntries(secondPass, TsMs(sec, nsec)))
  {
    var totalKb, freeKb, availableKb, usedKb := MemorySection(meminfo, scan);
    var cpuUsage := GetCpuUsage(counters, stat, parse);
    var tsMs := TsMs(sec, nsec);
    var totalProcs := CountTasks(firstPass);
    var procesos := EmitProcesses(secondPass, tsMs);
    doc := SysinfoDoc(totalKb, freeKb, availableKb, usedKb, totalProcs, cpuUsage, tsMs, procesos);
  }
}
