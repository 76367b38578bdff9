/** The continfo module: one JSON document with the memory totals, a timestamp
    and one entry per task, each with its command line (NULs turned into
    spaces), sizes, CPU time and whether the command line looks like a
    container runtime. */
module KernelContinfo {
  import opened Common
  import opened KernelCommon

  /** The size of the per-task command-line buffer. */
  const CmdlineMax: nat := 1024

  /** The memory map of a task as the module reads it; `args` are the bytes
      access_process_vm can deliver from `argStart` on (it may deliver fewer
      than asked). */
  datatype ContMm = ContMm(totalVm: u64, rssPages: u64, argStart: u64, argEnd: u64, args: seq<char>)

  datatype ContTask = ContTask(pid: int, comm: string, mm: Option<ContMm>, utimeNs: u64, stimeNs: u64)

  // ---------------------------------------------------------------------------
  // read_task_cmdline
  // ---------------------------------------------------------------------------

  /** The arguments with every NUL separator replaced by a space. */
  function Sanitize(s: seq<char>): (r: seq<char>)
    ensures |r| == |s| && '\0' !in r
    ensures forall i :: 0 <= i < |s| ==> r[i] == (if s[i] == '\0' then ' ' else s[i])
  {
    seq(|s|, i requires 0 <= i < |s| => if s[i] == '\0' then ' ' else s[i])
  }

  /** The bytes read_task_cmdline obtains: min(arg_end - arg_start, bufsize - 1)
      are asked for, and access_process_vm delivers what it can; 0 when the
      argument region is empty. */
  function CmdlineLen(mm: ContMm, bufsize: nat): (n: nat)
    requires bufsize >= 1
    ensures n <= bufsize - 1 && n <= |mm.args|
  {
    if mm.argEnd > mm.argStart then
      var len := if mm.argEnd - mm.argStart > bufsize - 1 then bufsize - 1 else mm.argEnd - mm.argStart;
      if len < |mm.args| then len else |mm.args|
    else 0
  }

  /** read_task_cmdline. Without a task or a memory map: -1 and the buffer
      untouched. With an empty region or nothing read: -1 and an empty string in
      the buffer. Otherwise the count read, the bytes with NULs turned into
      spaces, and a terminator after them; the rest of the buffer keeps its
      contents. */
  method ReadTaskCmdline(task: Option<ContTask>, buf: array<char>) returns (ret: int)
    requires buf.Length >= 1
    modifies buf
    ensures task.None? || task.value.mm.None? ==> ret == -1 && buf[..] == old(buf[..])
    ensures task.Some? && task.value.mm.Some? ==>
      var mm := task.value.mm.value;
      var n := CmdlineLen(mm, buf.Length);
      (n == 0 ==> ret == -1 && buf[0] == '\0' && buf[1..] == old(buf[1..])) &&
      (n > 0 ==> ret == n && buf[..n] == Sanitize(mm.args[..n]) && buf[n] == '\0' && buf[n + 1..] == old(buf[n + 1..]))
  {
    if task.None? || task.value.mm.None? {
      return -1;
    }
    var mm := task.value.mm.value;
    if mm.argEnd > mm.argStart {
      var len := mm.argEnd - mm.argStart;
      if len > buf.Length - 1 {
        len := buf.Length - 1;
      }
      // access_process_vm copies what it can of the requested bytes
      ret := if len < |mm.args| then len else |mm.args|;
      forall i | 0 <= i < ret {
        buf[i] := mm.args[i];
      }
      if ret > 0 {
        for i := 0 to ret
          invariant forall j :: 0 <= j < i ==> buf[j] == (if mm.args[j] == '\0' then ' ' else mm.args[j])
          invariant forall j :: i <= j < ret ==> buf[j] == mm.args[j]
          invariant forall j :: ret <= j < buf.Length ==> buf[j] == old(buf[j])
        {
          if buf[i] == '\0' {
            buf[i] := ' ';
          }
        }
        assert buf[..ret] == Sanitize(mm.args[..ret]);
        buf[ret] := '\0';
      } else {
        buf[0] := '\0';
        ret := -1;
      }
    } else {
      buf[0] := '\0';
      ret := -1;
    }
  }

  /** The command line a task shows: the sanitised bytes read, or "" when the
      read fails. */
  function CmdlineText(t: ContTask): (s: string)
    ensures '\0' !in s && |s| < CmdlineMax
  {
    if t.mm.Some? && CmdlineLen(t.mm.value, CmdlineMax) > 0
    then Sanitize(t.mm.value.args[..CmdlineLen(t.mm.value, CmdlineMax)])
    else ""
  }

  /** The buffer a fresh stack array holding `stale` ends up with. */
  function StackBuffer(stale: seq<char>): (b: seq<char>)
    ensures |b| == CmdlineMax
  {
    seq(CmdlineMax, i requires 0 <= i < CmdlineMax => if i < |stale| then stale[i] else '\0')
  }

  /** The whole per-task buffer after the read and the caller's `cmdline[0] =
      '\0'` on failure: the command line, its terminator, then stale bytes. */
  function BufferAfterRead(t: ContTask, stale: seq<char>): (b: seq<char>)
    ensures |b| == CmdlineMax
  {
    var init := StackBuffer(stale);
    var text := CmdlineText(t);
    text + ['\0'] + init[|text| + 1..]
  }

  /** The C string of the buffer is the process's command line. */
  lemma BufferHoldsCmdline(t: ContTask, stale: seq<char>)
    ensures CString(BufferAfterRead(t, stale)) == CmdlineText(t)
  {
    var b := BufferAfterRead(t, stale);
    var text := CmdlineText(t);
    assert b[..|text|] == text;
    CStringAt(b, |text|);
  }

  /** The caller's use of read_task_cmdline on the per-task stack buffer. */
  method TaskCmdline(t: ContTask, stale: seq<char>) returns (cmdline: string, buffer: seq<char>)
    ensures buffer == BufferAfterRead(t, stale)
    ensures cmdline == CString(buffer) == CmdlineText(t)
  {
    var buf := new char[CmdlineMax](i requires 0 <= i < CmdlineMax => if i < |stale| then stale[i] else '\0');
    assert buf[..] == StackBuffer(stale);
    var r := ReadTaskCmdline(Some(t), buf);
    if r < 0 {
      buf[0] := '\0';
    }
    buffer := buf[..];
    assert buffer == BufferAfterRead(t, stale) by {
      var text := CmdlineText(t);
      assert buffer[..|text|] == text;
      assert buffer[|text|] == '\0';
      assert buffer[|text| + 1..] == StackBuffer(stale)[|text| + 1..];
      assert buffer == buffer[..|text|] + [buffer[|text|]] + buffer[|text| + 1..];
    }
    BufferHoldsCmdline(t, stale);
    cmdline := CString(buffer);
  }

  // ---------------------------------------------------------------------------
  // Container detection
  // ---------------------------------------------------------------------------

  /** The command line names a container runtime or orchestrator. */
  predicate IsContainerCmdline(cmdline: string) {
    Contains(cmdline, "docker") || Contains(cmdline, "containerd") || Contains(cmdline, "runc") ||
    Contains(cmdline, "podman") || Contains(cmdline, "kubepods")
  }

  /** The marker test as written: `strnstr(cmdline, marker, sizeof(cmdline))` compares
      every window of the whole buffer and does not stop at the terminator. */
  predicate ContainerRelatedAsWritten(buffer: seq<char>) {
    Contains(buffer, "docker") || Contains(buffer, "containerd") || Contains(buffer, "runc") ||
    Contains(buffer, "podman") || Contains(buffer, "kubepods")
  }

  /** The marker test on the command line itself decides the same for every buffer
      holding the same C string, whatever follows the terminator. */
  lemma ContainerCheckIgnoresStaleBytes(t: ContTask, stale1: seq<char>, stale2: seq<char>)
    ensures IsContainerCmdline(CString(BufferAfterRead(t, stale1))) == IsContainerCmdline(CString(BufferAfterRead(t, stale2)))
  {
    BufferHoldsCmdline(t, stale1);
    BufferHoldsCmdline(t, stale2);
  }

  /** An occurrence in a prefix is an occurrence in the whole sequence. */
  lemma ContainsInPrefix(s: string, k: nat, sub: string)
    requires k <= |s| && Contains(s[..k], sub)
    ensures Contains(s, sub)
  {
    ContainsIff(s[..k], sub);
    var i: nat :| OccursAt(s[..k], sub, i);
    assert s[i..i + |sub|] == s[..k][i..i + |sub|];
    ContainsAt(s, sub, i);
  }

  /** The as-written check never misses a marker the command line holds. */
  lemma AsWrittenCoversCmdline(t: ContTask, stale: seq<char>)
    ensures IsContainerCmdline(CmdlineText(t)) ==> ContainerRelatedAsWritten(BufferAfterRead(t, stale))
  {
    var b := BufferAfterRead(t, stale);
    var text := CmdlineText(t);
    assert b[..|text|] == text;
    if Contains(text, "docker") { ContainsInPrefix(b, |text|, "docker"); }
    if Contains(text, "containerd") { ContainsInPrefix(b, |text|, "containerd"); }
    if Contains(text, "runc") { ContainsInPrefix(b, |text|, "runc"); }
    if Contains(text, "podman") { ContainsInPrefix(b, |text|, "podman"); }
    if Contains(text, "kubepods") { ContainsInPrefix(b, |text|, "kubepods"); }
  }

  /** `sleep 5`: its arguments as the kernel stores them. */
  function SleepTask(): ContTask {
    ContTask(7, "sleep", Some(ContMm(0, 0, 0, 8, "sleep" + ['\0'] + "5" + ['\0'])), 0, 0)
  }

  /** What the previous iteration's `dockerd` command line left in the buffer. */
  function DockerdLeftovers(): seq<char> {
    "/usr/bin/dockerd"
  }

  lemma SleepCmdline()
    ensures CmdlineText(SleepTask()) == "sleep 5 "
  {
    var args := SleepTask().mm.value.args;
    assert CmdlineLen(SleepTask().mm.value, CmdlineMax) == 8;
    assert args[..8] == args;
  }

  /** A text without the letters d, c, r, o and k names no runtime. */
  lemma NoMarkerWithoutLetters(s: string)
    requires 'd' !in s && 'c' !in s && 'r' !in s && 'o' !in s && 'k' !in s
    ensures !IsContainerCmdline(s)
  {
    ContainsMissingChar(s, "docker", 'd');
    ContainsMissingChar(s, "containerd", 'c');
    ContainsMissingChar(s, "runc", 'r');
    ContainsMissingChar(s, "podman", 'o');
    ContainsMissingChar(s, "kubepods", 'k');
  }

  lemma SleepNamesNoRuntime()
    ensures !IsContainerCmdline("sleep 5 ")
  {
    var s := "sleep 5 ";
    assert forall i :: 0 <= i < |s| ==> s[i] in {'s', 'l', 'e', 'p', ' ', '5'};
    NoMarkerWithoutLetters(s);
  }

  lemma LeftoverDockerInBuffer()
    ensures Contains(BufferAfterRead(SleepTask(), DockerdLeftovers()), "docker")
  {
    SleepCmdline();
    var b := BufferAfterRead(SleepTask(), DockerdLeftovers());
    var init := StackBuffer(DockerdLeftovers());
    assert b == "sleep 5 " + ['\0'] + init[9..];
    assert b[9..15] == init[9..15];
    assert init[9..15] == DockerdLeftovers()[9..15];
    assert b[9..15] == "docker";
    ContainsAt(b, "docker", 9);
  }

  /** The finding: after a `dockerd` task, a `sleep 5` task whose shorter
      command line leaves "docker" behind its terminator is reported as
      container-related by the marker test as written, although its command line
      names no runtime. */
  lemma StaleMarkerMisclassifies()
    ensures ContainerRelatedAsWritten(BufferAfterRead(SleepTask(), DockerdLeftovers()))
    ensures !IsContainerCmdline(CString(BufferAfterRead(SleepTask(), DockerdLeftovers())))
  {
    LeftoverDockerInBuffer();
    BufferHoldsCmdline(SleepTask(), DockerdLeftovers());
    SleepCmdline();
    SleepNamesNoRuntime();
  }

  // ---------------------------------------------------------------------------
  // Entries and the document
  // ---------------------------------------------------------------------------

  /** `total > free ? total - free : 0`. */
  function UsedRamKb(totalKb: u64, freeKb: u64): (used: u64)
    ensures used <= totalKb
    ensures freeKb <= totalKb ==> used + freeKb == totalKb
    ensures totalKb <= freeKb ==> used == 0
  {
    if totalKb > freeKb then totalKb - freeKb else 0
  }

  datatype ContEntry = ContEntry(
    pid: int, nombre: string, cmdline: string,
    vszKb: u64, rssKb: u64, memPercent: u64, cpuTimeNs: u64,
    estado: string, containerRelated: string)

  /** The resident size: 0 unless the (signed) page count is positive. */
  function RssKb(mm: Option<ContMm>): (kb: u64)
    ensures mm.None? || mm.value.rssPages == 0 || mm.value.rssPages >= TWO_63 ==> kb == 0
    ensures mm.Some? && 0 < mm.value.rssPages && mm.value.rssPages * PageSize < TWO_64 ==> kb == 4 * mm.value.rssPages
  {
    if mm.Some? && ToInt64(mm.value.rssPages) > 0 then KbFromUnits(mm.value.rssPages, PageSize) else 0
  }

  /** The entry of a task. */
  function ContEntryOf(t: ContTask, cmdline: string, totalKb: u64): (e: ContEntry)
    ensures e.containerRelated == "yes" <==> IsContainerCmdline(cmdline)
    ensures e.containerRelated == "yes" || e.containerRelated == "no"
    ensures e.estado == "U"
    ensures t.mm.None? ==> e.vszKb == 0 && e.rssKb == 0 && e.memPercent == 0
    ensures t.mm.Some? ==> e.vszKb == KbFromUnits(t.mm.value.totalVm, PageSize)
    ensures t.mm.Some? && t.mm.value.totalVm * PageSize < TWO_64 ==> e.vszKb == 4 * t.mm.value.totalVm
    ensures e.rssKb == RssKb(t.mm)
    ensures e.memPercent == PercentOf(e.rssKb, totalKb)
    ensures 0 < totalKb && e.rssKb * 100 < TWO_64 ==> e.memPercent == e.rssKb * 100 / totalKb
    ensures (t.utimeNs + t.stimeNs - e.cpuTimeNs) % TWO_64 == 0
    ensures e.pid == t.pid && e.nombre == t.comm && e.cmdline == cmdline
  {
    var vsz := if t.mm.Some? then KbFromUnits(t.mm.value.totalVm, PageSize) else 0;
    assert t.mm.Some? && t.mm.value.totalVm * PageSize < TWO_64 ==> vsz == 4 * t.mm.value.totalVm by {
      if t.mm.Some? && t.mm.value.totalVm * PageSize < TWO_64 {
        KbFromPages(t.mm.value.totalVm);
      }
    }
    var rss := RssKb(t.mm);
    ContEntry(t.pid, t.comm, cmdline, vsz, rss, PercentOf(rss, totalKb),
              Wrap64(t.utimeNs + t.stimeNs), "U", if IsContainerCmdline(cmdline) then "yes" else "no")
  }

  function ContEntries(tasks: seq<ContTask>, totalKb: u64): (es: seq<ContEntry>)
    ensures |es| == |tasks|
    ensures forall i :: 0 <= i < |tasks| ==> es[i] == ContEntryOf(tasks[i], CmdlineText(tasks[i]), totalKb)
  {
    seq(|tasks|, i requires 0 <= i < |tasks| => ContEntryOf(tasks[i], CmdlineText(tasks[i]), totalKb))
  }

  /** What `Separator` prints between two entries. */
  const EntrySeparator: string := ",\n"

  datatype ContinfoDoc = ContinfoDoc(
    totalRamKb: u64, freeRamKb: u64, usedRamKb: u64, tsMs: u64,
    procesos: seq<Chunk<ContEntry>>)

  /** continfo_so1_201801521_show. Each task's command line is read into the
      stack buffer the previous task's read left behind (`stack` before the
      first one). The container flag uses the corrected marker test, which sees
      only the command line before the NUL, so the bytes left behind never reach
      the document (ContainerCheckIgnoresStaleBytes); the flag the code as
      written would compute is ContainerRelatedAsWritten of that buffer. */
  method ContinfoShow(totalram: u64, freeram: u64, memUnit: u64, sec: i64, nsec: int,
                      tasks: seq<ContTask>, stack: seq<char>)
    returns (doc: ContinfoDoc)
    requires 0 <= nsec < 1000000000
    ensures doc.totalRamKb == KbFromUnits(totalram, memUnit)
    ensures doc.freeRamKb == KbFromUnits(freeram, memUnit)
    ensures doc.usedRamKb == UsedRamKb(doc.totalRamKb, doc.freeRamKb)
    ensures doc.tsMs == TsMs(sec, nsec)
    ensures doc.procesos == Interleaved(ContEntries(tasks, doc.totalRamKb))
  {
    var totalKb := KbFromUnits(totalram, memUnit);
    var freeKb := KbFromUnits(freeram, memUnit);
    var usedKb := if totalKb > freeKb then totalKb - freeKb else 0;
    var tsMs := TsMs(sec, nsec);
    var entries: seq<ContEntry> := [];
    var stale := stack;
    for i := 0 to |tasks|
      invariant entries == ContEntries(tasks[..i], totalKb)
    {
      var cmdline, buffer := TaskCmdline(tasks[i], stale);
      stale := buffer;
      entries := entries + [ContEntryOf(tasks[i], cmdline, totalKb)];
    }
    assert tasks[..|tasks|] == tasks;
    var procesos := EmitArray(entries);
    doc := ContinfoDoc(totalKb, freeKb, usedKb, tsMs, procesos);
  }
}
