/** The population controller: parsing of the `docker ps` listing of stress
    containers into three pools, and the two-pass capping that stops the
    surplus high-consumption containers (CPU pool first, then RAM pool) and then,
    on a fresh listing, the surplus low-consumption ones. */
module CleanCont {
  import opened Common

  /** At most this many low-consumption containers may keep running. */
  const DesiredLowContainers: nat := 3
  /** At most this many high-consumption (CPU plus RAM) containers may keep running. */
  const DesiredHighContainers: nat := 2

  const LowPrefix: string := "stress-low-"
  const HighCpuPrefix: string := "stress-high-cpu-"
  const HighRamPrefix: string := "stress-high-ram-"

  datatype ContainerInfo = ContainerInfo(id: string, name: string, image: string)

  /** What running `docker ps` produced: a failure, or its standard output. */
  datatype ListOutcome = CmdFailed | Output(text: string)

  // ---------------------------------------------------------------------------
  // Lines and fields
  // ---------------------------------------------------------------------------

  /** Go `unicode.IsSpace`, the separator test of `strings.Fields`. */
  predicate IsSpace(c: char) {
    c == '\t' || c == '\n' || c == '\U{000B}' || c == '\U{000C}' || c == '\r' || c == ' ' ||
    c == '\U{0085}' || c == '\U{00A0}' || c == '\U{1680}' || ('\U{2000}' <= c <= '\U{200A}') ||
    c == '\U{2028}' || c == '\U{2029}' || c == '\U{202F}' || c == '\U{205F}' || c == '\U{3000}'
  }

  /** The length of the run of non-space characters at the start of `s`. */
  function WordLen(s: string): (n: nat)
    ensures n <= |s|
    ensures forall i :: 0 <= i < n ==> !IsSpace(s[i])
    ensures n < |s| ==> IsSpace(s[n])
  {
    if s == [] || IsSpace(s[0]) then 0 else 1 + WordLen(s[1..])
  }

  /** Go `strings.Fields`: the maximal runs of non-space characters, in order. */
  function Fields(s: string): seq<string>
    decreases |s|
  {
    if s == [] then []
    else if IsSpace(s[0]) then Fields(s[1..])
    else
      var n := WordLen(s);
      [s[..n]] + Fields(s[n..])
  }

  /** A field is a non-empty word without spaces. */
  predicate IsWord(w: string) {
    w != [] && forall i :: 0 <= i < |w| ==> !IsSpace(w[i])
  }

  /** Every field is a word. */
  lemma {:induction false} FieldsAreWords(s: string)
    ensures forall k :: 0 <= k < |Fields(s)| ==> IsWord(Fields(s)[k])
    decreases |s|
  {
    if s != [] {
      if IsSpace(s[0]) {
        FieldsAreWords(s[1..]);
      } else {
        FieldsAreWords(s[WordLen(s)..]);
      }
    }
  }

  /** Words joined by single spaces. */
  function JoinWords(ws: seq<string>): string {
    if ws == [] then ""
    else if |ws| == 1 then ws[0]
    else ws[0] + " " + JoinWords(ws[1..])
  }

  /** The word at the head of a string ends where the next space starts. */
  lemma {:induction false} WordLenOfWord(w: string, rest: string)
    requires IsWord(w) && (rest == [] || IsSpace(rest[0]))
    ensures WordLen(w + rest) == |w|
    decreases |w|
  {
    var s := w + rest;
    assert s[0] == w[0];
    assert s[1..] == w[1..] + rest;
    if |w| > 1 {
      WordLenOfWord(w[1..], rest);
    } else {
      assert s[1..] == rest;
    }
  }

  /** Fields undoes the joining of words by single spaces. */
  lemma {:induction false} FieldsOfJoinWords(ws: seq<string>)
    requires forall k :: 0 <= k < |ws| ==> IsWord(ws[k])
    ensures Fields(JoinWords(ws)) == ws
  {
    if |ws| == 1 {
      WordLenOfWord(ws[0], "");
      assert ws[0] + "" == ws[0];
      assert ws[0][|ws[0]|..] == [];
      assert ws[0][..|ws[0]|] == ws[0];
    } else if |ws| > 1 {
      var w := ws[0];
      var rest := JoinWords(ws[1..]);
      var s := w + " " + rest;
      WordLenOfWord(w, " " + rest);
      assert s == w + (" " + rest);
      assert s[..|w|] == w;
      assert s[|w|..] == " " + rest;
      assert (" " + rest)[1..] == rest;
      FieldsOfJoinWords(ws[1..]);
      assert ws == [w] + ws[1..];
    }
  }

  /** A line without its trailing carriage return, as `bufio.ScanLines` returns it. */
  function DropCR(line: string): string {
    if |line| > 0 && line[|line| - 1] == '\r' then line[..|line| - 1] else line
  }

  /** The lines `bufio.Scanner` with `ScanLines` yields: split at each newline,
      a trailing carriage return dropped, and a last line only when text remains
      after the final newline. */
  function Lines(s: string): seq<string>
    decreases |s|
  {
    if s == [] then []
    else
      var k := IndexOf(s, '\n');
      if k == |s| then [DropCR(s)]
      else [DropCR(s[..k])] + Lines(s[k + 1..])
  }

  /** No line contains a newline. */
  lemma {:induction false} LinesHaveNoNewline(s: string)
    ensures forall k, i :: 0 <= k < |Lines(s)| && 0 <= i < |Lines(s)[k]| ==> Lines(s)[k][i] != '\n'
    decreases |s|
  {
    if s != [] {
      var k := IndexOf(s, '\n');
      if k < |s| {
        LinesHaveNoNewline(s[k + 1..]);
        var first := DropCR(s[..k]);
        assert forall i :: 0 <= i < |first| ==> first[i] == s[i];
      }
    }
  }

  // ---------------------------------------------------------------------------
  // The listing
  // ---------------------------------------------------------------------------

  /** One listing line as a container: fewer than two fields is no container;
      the image is the third field, or "" when there is none. */
  function ParseLine(line: string): (r: Option<ContainerInfo>)
    ensures r.Some? <==> |Fields(line)| >= 2
    ensures r.Some? ==> r.value.id == Fields(line)[0] && r.value.name == Fields(line)[1]
    ensures r.Some? ==> r.value.image == if |Fields(line)| >= 3 then Fields(line)[2] else ""
  {
    var parts := Fields(line);
    if |parts| < 2 then None
    else Some(ContainerInfo(parts[0], parts[1], if |parts| >= 3 then parts[2] else ""))
  }

  /** A line "id name image" built from words parses back to that container. */
  lemma ParseLineRoundTrip(c: ContainerInfo)
    requires IsWord(c.id) && IsWord(c.name) && IsWord(c.image)
    ensures ParseLine(JoinWords([c.id, c.name, c.image])) == Some(c)
  {
    FieldsOfJoinWords([c.id, c.name, c.image]);
  }

  /** The three pools of a listing. */
  datatype Listing = Listing(lows: seq<ContainerInfo>, highsCpu: seq<ContainerInfo>, highsRam: seq<ContainerInfo>)

  /** The pool a name belongs to, by prefix, in the order the switch tests them. */
  datatype Pool = Low | HighCpu | HighRam | NoPool

  function PoolOf(name: string): (p: Pool)
    ensures p == Low <==> HasPrefix(name, LowPrefix)
    ensures p == HighCpu <==> HasPrefix(name, HighCpuPrefix)
    ensures p == HighRam <==> HasPrefix(name, HighRamPrefix)
  {
    PrefixesExclusive(name);
    if HasPrefix(name, LowPrefix) then Low
    else if HasPrefix(name, HighCpuPrefix) then HighCpu
    else if HasPrefix(name, HighRamPrefix) then HighRam
    else NoPool
  }

  /** No name has two of the three prefixes, so the order of the tests does not
      matter. */
  lemma PrefixesExclusive(name: string)
    ensures !(HasPrefix(name, LowPrefix) && HasPrefix(name, HighCpuPrefix))
    ensures !(HasPrefix(name, LowPrefix) && HasPrefix(name, HighRamPrefix))
    ensures !(HasPrefix(name, HighCpuPrefix) && HasPrefix(name, HighRamPrefix))
  {
    if HasPrefix(name, LowPrefix) {
      assert name[7] == LowPrefix[7] == 'l';
    }
    if HasPrefix(name, HighCpuPrefix) {
      assert name[7] == HighCpuPrefix[7] == 'h';
      assert name[12] == HighCpuPrefix[12] == 'c';
    }
    if HasPrefix(name, HighRamPrefix) {
      assert name[12] == HighRamPrefix[12] == 'r';
    }
  }

  /** Appends a container to the pool its name selects; other names are dropped. */
  function Route(l: Listing, c: ContainerInfo): Listing {
    match PoolOf(c.name)
    case Low => l.(lows := l.lows + [c])
    case HighCpu => l.(highsCpu := l.highsCpu + [c])
    case HighRam => l.(highsRam := l.highsRam + [c])
    case NoPool => l
  }

  /** The pools built from a sequence of lines, in line order. */
  function ParseListing(lines: seq<string>): Listing {
    if lines == [] then Listing([], [], [])
    else
      var l := ParseListing(lines[..|lines| - 1]);
      match ParseLine(lines[|lines| - 1])
      case None => l
      case Some(c) => Route(l, c)
  }

  /** The containers parsed from a sequence of lines, in line order. */
  function Parsed(lines: seq<string>): seq<ContainerInfo> {
    if lines == [] then []
    else
      var cs := Parsed(lines[..|lines| - 1]);
      match ParseLine(lines[|lines| - 1])
      case None => cs
      case Some(c) => cs + [c]
  }

  /** The containers of a sequence whose names are in a pool, in order. */
  function InPool(cs: seq<ContainerInfo>, p: Pool): seq<ContainerInfo> {
    if cs == [] then []
    else InPool(cs[..|cs| - 1], p) + (if PoolOf(cs[|cs| - 1].name) == p then [cs[|cs| - 1]] else [])
  }

  /** Each pool is exactly the parsed containers with its prefix, in listing
      order. */
  lemma {:induction false} ParseListingPools(lines: seq<string>)
    ensures ParseListing(lines).lows == InPool(Parsed(lines), Low)
    ensures ParseListing(lines).highsCpu == InPool(Parsed(lines), HighCpu)
    ensures ParseListing(lines).highsRam == InPool(Parsed(lines), HighRam)
  {
    if lines != [] {
      var init := lines[..|lines| - 1];
      ParseListingPools(init);
      match ParseLine(lines[|lines| - 1])
      case None =>
      case Some(c) =>
        var cs := Parsed(init) + [c];
        assert cs[..|cs| - 1] == Parsed(init);
    }
  }

  /** Every container of a pool has that pool's prefix. */
  lemma {:induction false} InPoolPrefix(cs: seq<ContainerInfo>, p: Pool)
    ensures forall c :: c in InPool(cs, p) ==> c in cs && PoolOf(c.name) == p
  {
    if cs != [] {
      InPoolPrefix(cs[..|cs| - 1], p);
      assert forall c :: c in cs[..|cs| - 1] ==> c in cs;
    }
  }

  /** The pools parsed from a listing: `None` when the command failed. */
  function ListingOf(out: ListOutcome): Option<Listing> {
    match out
    case CmdFailed => None
    case Output(text) => Some(ParseListing(Lines(text)))
  }

  /** listStressContainers: scans the listing line by line, splitting each into
      fields and appending the container to the pool its name selects. */
  method ListStressContainers(out: ListOutcome) returns (r: Option<Listing>)
    ensures r == ListingOf(out)
  {
    if out.CmdFailed? {
      return None;
    }
    var lines := Lines(out.text);
    var lows: seq<ContainerInfo> := [];
    var highsCpu: seq<ContainerInfo> := [];
    var highsRam: seq<ContainerInfo> := [];
    for i := 0 to |lines|
      invariant Listing(lows, highsCpu, highsRam) == ParseListing(lines[..i])
    {
      assert lines[..i + 1][..i] == lines[..i];
      var parts := Fields(lines[i]);
      if |parts| < 2 {
        continue;
      }
      var id := parts[0];
      var name := parts[1];
      var image := "";
      if |parts| >= 3 {
        image := parts[2];
      }
      var ci := ContainerInfo(id, name, image);
      PrefixesExclusive(name);
      if HasPrefix(name, LowPrefix) {
        lows := lows + [ci];
      } else if HasPrefix(name, HighCpuPrefix) {
        highsCpu := highsCpu + [ci];
      } else if HasPrefix(name, HighRamPrefix) {
        highsRam := highsRam + [ci];
      }
    }
    assert lines[..|lines|] == lines;
    r := Some(Listing(lows, highsCpu, highsRam));
  }

  // ---------------------------------------------------------------------------
  // enforceRules
  // ---------------------------------------------------------------------------

  /** The reason logged with a stop. */
  datatype StopReason = ExcessHighCpu | ExcessHighRam | ExcessLow

  /** A container enforceRules decides to stop, with the reason. */
  datatype Target = Target(info: ContainerInfo, reason: StopReason)

  /** A `docker stop` that was issued, and whether it succeeded. */
  datatype Stop = Stop(info: ContainerInfo, reason: StopReason, ok: bool)

  function Tagged(cs: seq<ContainerInfo>, reason: StopReason): (ts: seq<Target>)
    ensures |ts| == |cs|
    ensures forall i :: 0 <= i < |cs| ==> ts[i] == Target(cs[i], reason)
  {
    seq(|cs|, i requires 0 <= i < |cs| => Target(cs[i], reason))
  }

  /** How many containers a pool holds beyond its cap. */
  function Excess(count: nat, cap: nat): nat {
    if count > cap then count - cap else 0
  }

  /** The high pass: the first `excess` containers of the CPU pool followed by
      the RAM pool. */
  function HighTargets(l: Listing): seq<Target> {
    var pool := Tagged(l.highsCpu, ExcessHighCpu) + Tagged(l.highsRam, ExcessHighRam);
    pool[..Excess(|pool|, DesiredHighContainers)]
  }

  /** The low pass: the first `excess` containers of the low pool. */
  function LowTargets(l: Listing): seq<Target> {
    Tagged(l.lows, ExcessLow)[..Excess(|l.lows|, DesiredLowContainers)]
  }

  /** Every stop enforceRules issues, in order: nothing when the first listing
      fails; the high pass on the first listing; the low pass on the second
      listing, when it succeeds. */
  function Plan(first: ListOutcome, second: ListOutcome): seq<Target> {
    match ListingOf(first)
    case None => []
    case Some(l1) =>
      HighTargets(l1) + match ListingOf(second) { case None => [] case Some(l2) => LowTargets(l2) }
  }

  /** Issuing the planned stops, where the ids in `failing` fail to stop. */
  function Executed(plan: seq<Target>, failing: set<string>): (r: seq<Stop>)
    ensures |r| == |plan|
    ensures forall i :: 0 <= i < |plan| ==> r[i] == Stop(plan[i].info, plan[i].reason, plan[i].info.id !in failing)
  {
    seq(|plan|, i requires 0 <= i < |plan| => Stop(plan[i].info, plan[i].reason, plan[i].info.id !in failing))
  }

  /** The high pass stops exactly the surplus over two, CPU pool first, and
      leaves at most two high containers; it stops nothing when the pool is
      within its cap. */
  lemma HighTargetsCount(l: Listing)
    ensures |HighTargets(l)| == Excess(|l.highsCpu| + |l.highsRam|, DesiredHighContainers)
    ensures |l.highsCpu| + |l.highsRam| - |HighTargets(l)| <= DesiredHighContainers
    ensures |l.highsCpu| + |l.highsRam| <= DesiredHighContainers ==> HighTargets(l) == []
    ensures forall i :: 0 <= i < |HighTargets(l)| && i < |l.highsCpu| ==>
      HighTargets(l)[i] == Target(l.highsCpu[i], ExcessHighCpu)
    ensures forall i :: |l.highsCpu| <= i < |HighTargets(l)| ==>
      HighTargets(l)[i] == Target(l.highsRam[i - |l.highsCpu|], ExcessHighRam)
  {
  }

  /** The low pass stops exactly the surplus over three, in listing order, and
      leaves at most three. */
  lemma LowTargetsCount(l: Listing)
    ensures |LowTargets(l)| == Excess(|l.lows|, DesiredLowContainers)
    ensures |l.lows| - |LowTargets(l)| <= DesiredLowContainers
    ensures |l.lows| <= DesiredLowContainers ==> LowTargets(l) == []
    ensures forall i :: 0 <= i < |LowTargets(l)| ==> LowTargets(l)[i] == Target(l.lows[i], ExcessLow)
  {
  }

  /** Five high containers, three on CPU and two on RAM: the three CPU ones go. */
  lemma HighTargetsExample(c1: ContainerInfo, c2: ContainerInfo, c3: ContainerInfo, r1: ContainerInfo, r2: ContainerInfo)
    ensures HighTargets(Listing([], [c1, c2, c3], [r1, r2])) ==
      [Target(c1, ExcessHighCpu), Target(c2, ExcessHighCpu), Target(c3, ExcessHighCpu)]
  {
  }

  /** One CPU and three RAM containers: the CPU one and then the first RAM one go. */
  lemma HighTargetsSpill(c1: ContainerInfo, r1: ContainerInfo, r2: ContainerInfo, r3: ContainerInfo)
    ensures HighTargets(Listing([], [c1], [r1, r2, r3])) ==
      [Target(c1, ExcessHighCpu), Target(r1, ExcessHighRam)]
  {
  }

  /** stopContainer: issues the stop; a failure is only logged. */
  method StopContainer(c: ContainerInfo, reason: StopReason, failing: set<string>) returns (s: Stop)
    ensures s == Stop(c, reason, c.id !in failing)
  {
    var ok := c.id !in failing;
    s := Stop(c, reason, ok);
  }

  /** One capping pass over a pool, in order: stops containers while `toKill`
      is positive; a failed stop still counts. */
  method StopSurplus(pool: seq<ContainerInfo>, reason: StopReason, toKill: int, failing: set<string>)
    returns (stops: seq<Stop>, left: int)
    ensures var n := if toKill <= 0 then 0 else if toKill < |pool| then toKill else |pool|;
      stops == Executed(Tagged(pool, reason)[..n], failing) && left == toKill - n
  {
    stops := [];
    left := toKill;
    var i := 0;
    while i < |pool|
      invariant 0 <= i <= |pool|
      invariant left == toKill - i
      invariant i > 0 ==> i <= toKill
      invariant stops == Executed(Tagged(pool, reason)[..i], failing)
    {
      if left <= 0 {
        break;
      }
      var s := StopContainer(pool[i], reason, failing);
      stops := stops + [s];
      left := left - 1;
      i := i + 1;
    }
  }

  /** enforceRules: lists the stress containers; stops the surplus high ones,
      CPU pool first; lists again and stops the surplus low ones. The stops that
      fail (`failing`) do not change which containers are targeted. */
  method EnforceRules(first: ListOutcome, second: ListOutcome, failing: set<string>) returns (stops: seq<Stop>)
    ensures stops == Executed(Plan(first, second), failing)
  {
    stops := [];
    var l1 := ListStressContainers(first);
    if l1.None? {
      return;
    }
    var lows := l1.value.lows;
    var highsCpu := l1.value.highsCpu;
    var highsRam := l1.value.highsRam;
    var highCount := |highsCpu| + |highsRam|;
    ghost var pool := Tagged(highsCpu, ExcessHighCpu) + Tagged(highsRam, ExcessHighRam);

    if highCount > DesiredHighContainers {
      var toKill := highCount - DesiredHighContainers;
      var cpuStops, left := StopSurplus(highsCpu, ExcessHighCpu, toKill, failing);
      var ramStops, _ := StopSurplus(highsRam, ExcessHighRam, left, failing);
      stops := cpuStops + ramStops;
      HighPassSplit(highsCpu, highsRam, toKill, failing);
    }
    assert stops == Executed(HighTargets(l1.value), failing);

    var l2 := ListStressContainers(second);
    if l2.None? {
      return;
    }
    lows := l2.value.lows;
    if |lows| > DesiredLowContainers {
      var toKill := |lows| - DesiredLowContainers;
      var lowStops, _ := StopSurplus(lows, ExcessLow, toKill, failing);
      stops := stops + lowStops;
    }
    ExecutedAppend(HighTargets(l1.value), LowTargets(l2.value), failing);
  }

  /** The CPU pass followed by the RAM pass stops the first `toKill` of the
      concatenated pool. */
  lemma HighPassSplit(cpu: seq<ContainerInfo>, ram: seq<ContainerInfo>, toKill: int, failing: set<string>)
    requires 0 < toKill <= |cpu| + |ram|
    ensures var n := if toKill < |cpu| then toKill else |cpu|;
      var m := if toKill - n <= 0 then 0 else if toKill - n < |ram| then toKill - n else |ram|;
      Executed(Tagged(cpu, ExcessHighCpu)[..n], failing) + Executed(Tagged(ram, ExcessHighRam)[..m], failing)
      == Executed((Tagged(cpu, ExcessHighCpu) + Tagged(ram, ExcessHighRam))[..toKill], failing)
  {
  }

  /** Issuing two plans one after the other issues their concatenation. */
  lemma ExecutedAppend(a: seq<Target>, b: seq<Target>, failing: set<string>)
    ensures Executed(a, failing) + Executed(b, failing) == Executed(a + b, failing)
  {
  }
}
