/** The CPU module: each read of its /proc file samples the `cpu` line of
    /proc/stat into a 256-byte stack buffer and reports the usage since the
    previous successful sample as its single member `porcentajeUso`. */
module KernelCpu {
  import opened Common
  import opened KernelCommon

  /** The size of the stack buffer /proc/stat is read into. */
  const BufferSize: nat := 256

  /** Opening /proc/stat: a failure, or the file's contents. */
  datatype StatFile = OpenFailed | Opened(contents: seq<char>)

  /** How many bytes `kernel_read(file, buffer, sizeof(buffer) - 1, &pos)` copies. */
  function ReadCount(available: nat): (n: nat)
    ensures n <= BufferSize - 1 && n <= available
    ensures n == available || n == BufferSize - 1
  {
    if available < BufferSize - 1 then available else BufferSize - 1
  }

  /** The buffer after the read and `buffer[255] = '\0'`: the bytes read, then
      what the uninitialised buffer held (`stale`, NUL where it is too short),
      then the terminator in the last cell. The terminator is not placed after
      the bytes read. */
  function StatBuffer(contents: seq<char>, stale: seq<char>): (buf: seq<char>)
    ensures |buf| == BufferSize && buf[BufferSize - 1] == '\0'
  {
    var n := ReadCount(|contents|);
    seq(BufferSize, i requires 0 <= i < BufferSize =>
      if i == BufferSize - 1 then '\0'
      else if i < n then contents[i]
      else if i < |stale| then stale[i]
      else '\0')
  }

  /** The text sscanf parses never runs past the buffer. */
  lemma StatTextBounded(contents: seq<char>, stale: seq<char>)
    ensures |CString(StatBuffer(contents, stale))| < BufferSize
  {
  }

  /** When /proc/stat fills the buffer with non-NUL bytes, the parsed text is
      exactly its first 255 bytes and what the buffer held before is irrelevant. */
  lemma StatTextFull(contents: seq<char>, stale: seq<char>)
    requires |contents| >= BufferSize - 1 && '\0' !in contents[..BufferSize - 1]
    ensures CString(StatBuffer(contents, stale)) == contents[..BufferSize - 1]
  {
    var buf := StatBuffer(contents, stale);
    assert buf[..BufferSize - 1] == contents[..BufferSize - 1];
    CStringAt(buf, BufferSize - 1);
  }

  /** A short read is not terminated after the bytes read: the parsed text
      runs on into the stale bytes up to the first NUL among them. */
  lemma StatTextShortRead(contents: seq<char>, stale: seq<char>)
    requires |contents| < BufferSize - 1 && '\0' !in contents
    requires |stale| == BufferSize && '\0' !in stale[|contents|..BufferSize - 1]
    ensures CString(StatBuffer(contents, stale)) == contents + stale[|contents|..BufferSize - 1]
  {
    var buf := StatBuffer(contents, stale);
    var text := contents + stale[|contents|..BufferSize - 1];
    assert buf[..BufferSize - 1] == text;
    assert forall c :: c in text ==> c in contents || c in stale[|contents|..BufferSize - 1];
    CStringAt(buf, BufferSize - 1);
  }

  /** The sample a read yields: nothing when the open fails or the text does not
      hold the eight counters (`parse` stands for the sscanf of the `cpu` line). */
  function StatSample(file: StatFile, stale: seq<char>, parse: string -> Option<CpuFields>): Option<CpuFields> {
    match file
    case OpenFailed => None
    case Opened(contents) => parse(CString(StatBuffer(contents, stale)))
  }

  /** The stack buffer, `kernel_read` of at most 255 bytes into it, and the
      terminator written into its last cell. */
  method ReadIntoBuffer(contents: seq<char>, stale: seq<char>) returns (buffer: array<char>)
    ensures fresh(buffer) && buffer[..] == StatBuffer(contents, stale)
  {
    buffer := new char[BufferSize](i requires 0 <= i < BufferSize => if i < |stale| then stale[i] else '\0');
    var n := ReadCount(|contents|);
    forall i | 0 <= i < n {
      buffer[i] := contents[i];
    }
    buffer[BufferSize - 1] := '\0';
    assert buffer[..] == StatBuffer(contents, stale);
  }

  /** get_cpu_usage: an open or parse failure reports 0 and keeps the previous
      sample; a parsed sample reports the usage against the previous one and
      replaces it. */
  method GetCpuUsage(counters: CpuCounters, file: StatFile, stale: seq<char>, parse: string -> Option<CpuFields>)
    returns (usage: u64)
    modifies counters
    ensures StatSample(file, stale, parse).None? ==>
      usage == 0 && counters.prevIdle == old(counters.prevIdle) && counters.prevTotal == old(counters.prevTotal)
    ensures StatSample(file, stale, parse).Some? ==>
      var f := StatSample(file, stale, parse).value;
      usage == UsageFromDelta(Wrap64(Total(f) - old(counters.prevTotal)), Wrap64(TotalIdle(f) - old(counters.prevIdle))) &&
      counters.prevIdle == TotalIdle(f) && counters.prevTotal == Total(f)
  {
    if file.OpenFailed? {
      return 0;
    }
    var buffer := ReadIntoBuffer(file.contents, stale);
    var parsed := parse(CString(buffer[..]));
    if parsed.Some? {
      usage := counters.Advance(parsed.value);
    } else {
      usage := 0;
    }
  }

  /** cpu_show: one JSON object with the single member `porcentajeUso`. */
  method CpuShow(counters: CpuCounters, file: StatFile, stale: seq<char>, parse: string -> Option<CpuFields>)
    returns (doc: seq<JsonField>)
    modifies counters
    ensures Keys(doc) == ["porcentajeUso"]
    ensures StatSample(file, stale, parse).None? ==> doc[0].value == 0
    ensures StatSample(file, stale, parse).Some? ==>
      var f := StatSample(file, stale, parse).value;
      doc[0].value == UsageFromDelta(Wrap64(Total(f) - old(counters.prevTotal)), Wrap64(TotalIdle(f) - old(counters.prevIdle)))
  {
    var usage := GetCpuUsage(counters, file, stale, parse);
    doc := [JsonField("porcentajeUso", usage)];
  }
}
