/** The workload snapshot read from the continfo /proc file, and the counting logic
    of its console summary. */
module ReadCont {
  import opened Common

  /** One entry of the snapshot's `procesos` array. */
  datatype ContProcess = ContProcess(
    pid: int,
    nombre: string,
    cmdlineOrContId: string,
    vszKb: u64,
    rssKb: u64,
    memPercent: u64,
    cpuTimeNs: u64,
    estado: string,
    containerRelated: string)

  datatype ContInfoSnapshot = ContInfoSnapshot(
    totalRamKb: u64,
    freeRamKb: u64,
    usedRamKb: u64,
    tsMs: i64,
    procesos: seq<ContProcess>)

  /** ReadContInfo: a failed read or a failed JSON parse is an error and no
      snapshot is handed on. */
  function ReadContInfo(outcome: ReadOutcome<ContInfoSnapshot>): (r: Result<ContInfoSnapshot>)
    ensures r.Ok? <==> outcome.Parsed?
    ensures r.Ok? ==> r.value == outcome.doc
  {
    match outcome
    case Parsed(doc) => Ok(doc)
    case OpenFailed => Err("read")
    case ReadFailed => Err("read")
    case ParseFailed => Err("parse")
  }

  /** The kernel module marks a process container-related with the string "yes". */
  predicate IsContainerRelated(p: ContProcess) {
    p.containerRelated == "yes"
  }

  /** The container-related entries of a list, in list order. */
  function RelatedEntries(ps: seq<ContProcess>): seq<ContProcess> {
    if ps == [] then []
    else
      var last := ps[|ps| - 1];
      RelatedEntries(ps[..|ps| - 1]) + (if IsContainerRelated(last) then [last] else [])
  }

  /** Each container-related entry survives as often as it occurs; no other
      entry survives. */
  lemma {:induction false} RelatedEntriesCounts(ps: seq<ContProcess>)
    ensures forall p :: multiset(RelatedEntries(ps))[p] == if IsContainerRelated(p) then multiset(ps)[p] else 0
  {
    if ps != [] {
      var init := ps[..|ps| - 1];
      RelatedEntriesCounts(init);
      assert ps == init + [ps[|ps| - 1]];
    }
  }

  /** Exactly the container-related entries survive, each as often as it occurs. */
  lemma RelatedEntriesExact(ps: seq<ContProcess>)
    ensures forall p :: p in RelatedEntries(ps) <==> p in ps && IsContainerRelated(p)
    ensures forall p :: IsContainerRelated(p) ==> multiset(RelatedEntries(ps))[p] == multiset(ps)[p]
    ensures forall p :: !IsContainerRelated(p) ==> multiset(RelatedEntries(ps))[p] == 0
  {
    RelatedEntriesCounts(ps);
    forall p
      ensures p in RelatedEntries(ps) <==> p in ps && IsContainerRelated(p)
    {
      assert p in RelatedEntries(ps) <==> p in multiset(RelatedEntries(ps));
      assert p in ps <==> p in multiset(ps);
    }
  }

  /** One numbered card of the console listing. */
  datatype ContainerCard = ContainerCard(number: nat, entry: ContProcess)

  /** What the console summary of a workload snapshot shows. */
  datatype ContainersView = ContainersView(cards: seq<ContainerCard>, noneDetected: bool, total: nat)

  /** PrintContainers with the printing left out: every container-related entry
      gets a card numbered 1..count in snapshot order, all other entries are
      skipped, the "none detected" line appears exactly when count is 0 and the
      total line otherwise reports count. */
  method PrintContainers(snap: ContInfoSnapshot) returns (v: ContainersView)
    ensures |v.cards| == |RelatedEntries(snap.procesos)|
    ensures forall i :: 0 <= i < |v.cards| ==> v.cards[i] == ContainerCard(i + 1, RelatedEntries(snap.procesos)[i])
    ensures v.noneDetected <==> |v.cards| == 0
    ensures !v.noneDetected ==> v.total == |v.cards|
  {
    var ps := snap.procesos;
    var cards: seq<ContainerCard> := [];
    var count := 0;
    for i := 0 to |ps|
      invariant count == |cards| == |RelatedEntries(ps[..i])|
      invariant forall k :: 0 <= k < |cards| ==> cards[k] == ContainerCard(k + 1, RelatedEntries(ps[..i])[k])
    {
      assert ps[..i + 1][..i] == ps[..i];
      if ps[i].containerRelated == "yes" {
        count := count + 1;
        cards := cards + [ContainerCard(count, ps[i])];
      }
    }
    assert ps[..|ps|] == ps;
    v := ContainersView(cards, count == 0, count);
  }
}
