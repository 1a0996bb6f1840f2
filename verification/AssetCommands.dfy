/** What the asset operations do, stated without any of the views they consult: an ordinary
    change appends one row that starts from the fact in force, a correction appends a pair
    that rewrites the last block.  `AssetRecord` proves that the stored procedures, with all
    their checks on raw history, do exactly this. */
module AssetCommands {
  import opened HistoryRows
  import opened HistoryViews
  import opened HistoryChain
  import opened HistoryHealth

  const MAX_VERSION: int := 0x7fff_ffff

  /** What an operation may refer to; it only ever grows. */
  datatype World = World(actors: set<Id>, locations: set<Id>, parties: set<Id>, evidence: Evidence)

  predicate Grows(w: World, w': World) {
    && w.actors <= w'.actors && w.locations <= w'.locations && w.parties <= w'.parties
    && w.evidence.linked <= w'.evidence.linked && w.evidence.disposal <= w'.evidence.disposal
  }

  /** The maintained columns of the asset row.  `assignment` names the establishing event. */
  datatype Projections = Projections(state: Fact, location: Fact, custodian: Fact, owner: Fact, assignment: Fact)

  function Get(p: Projections, k: Class): Fact {
    match k
    case Transition => p.state
    case Movement => p.location
    case Custody => p.custodian
    case Ownership => p.owner
    case Assignment => p.assignment
  }

  function Set(p: Projections, k: Class, f: Fact): Projections {
    match k
    case Transition => p.(state := f)
    case Movement => p.(location := f)
    case Custody => p.(custodian := f)
    case Ownership => p.(owner := f)
    case Assignment => p.(assignment := f)
  }

  datatype Asset = Asset(version: int, current: Projections, log: seq<Row>, base: Baseline, world: World)

  datatype Error =
    | StaleVersion | MalformedHistory | AuthorityIncomplete | HistoryInconsistent
    | HistoryNotFound | OrdinaryRootRequired | NotEffectiveHead | CreationNotCorrectable
    | InvalidTarget | EvidenceRequired | MetadataRequired | VersionOverflow | DuplicateKey

  datatype Outcome = Done(row: Row) | Failed(error: Error)

  /** An ordinary change: a transition, a move, a custody or ownership change, an assignment
      or (target `Null`) an unassignment.  `claimed` is the from-state of a transition. */
  datatype Change = Change(
    cls: Class, id: Id, expected: Option<int>, claimed: Fact, to: Fact,
    reason: string, actor: Id, occurredAt: Time, evidence: Option<Id>)

  datatype Fix = Fix(
    cls: Class, root: Id, expected: Option<int>, to: Fact,
    reason: string, actor: Id, correctionAt: Option<Time>, occurredAt: Option<Time>,
    pair: Id, reversal: Id, corrected: Id, evidence: Option<Id>)

  // ----- admission

  predicate EndpointExists(w: World, f: Fact) {
    f.Assignee? &&
    match f.kind
    case ACTOR => f.target in w.actors
    case LOCATION => f.target in w.locations
    case PARTY => f.target in w.parties
  }

  /** The target is one that class k may move to from `prior`. */
  predicate TargetOk(w: World, k: Class, prior: Fact, to: Fact) {
    match k
    case Transition => to.InState?
    case Movement => to == Null || (to.Ref? && to.id in w.locations)
    case Custody => to == Null || (to.Ref? && to.id in w.parties)
    case Ownership => to.Ref? && to.id in w.parties
    case Assignment => (to == Null && prior != Null) || EndpointExists(w, to)
  }

  predicate IdTaken(log: seq<Row>, k: Class, id: Id) {
    exists i :: 0 <= i < |log| && log[i].cls == k && log[i].id == id
  }

  predicate PairTaken(log: seq<Row>, k: Class, pair: Id) {
    exists i :: 0 <= i < |log| && log[i].cls == k && log[i].pair == Some(pair)
  }

  function Now(a: Asset, k: Class): Fact {
    FactAt(a.log, k, a.base, |a.log|)
  }

  function RefOf(k: Class, evidence: Option<Id>): Option<Id> {
    if k == Transition then evidence else None
  }

  predicate EvidenceFits(w: World, k: Class, to: Fact, role: Role, evidence: Option<Id>) {
    k == Transition ==> EvidenceAdmitted(w.evidence, to, role, evidence)
  }

  // ----- ordinary changes

  function ChangeRow(a: Asset, q: Change): Row {
    Row(q.cls, q.id, a.version + 1, Now(a, q.cls), q.to, NONE, None, None, 0, q.reason, q.actor, q.occurredAt, None,
        RefOf(q.cls, q.evidence))
  }

  function ChangeOutcome(a: Asset, q: Change): Outcome {
    if q.expected != Some(a.version) then Failed(StaleVersion)
    else if q.cls == Transition && q.claimed != Now(a, Transition) then Failed(HistoryInconsistent)
    else if !TargetOk(a.world, q.cls, Now(a, q.cls), q.to) then Failed(InvalidTarget)
    else if a.version + 1 > MAX_VERSION then Failed(VersionOverflow)
    else if !EvidenceFits(a.world, q.cls, q.to, NONE, q.evidence) then Failed(EvidenceRequired)
    else if IdTaken(a.log, q.cls, q.id) then Failed(DuplicateKey)
    else Done(ChangeRow(a, q))
  }

  function ApplyChange(a: Asset, q: Change): Asset {
    if ChangeOutcome(a, q).Done? then
      var row := ChangeRow(a, q);
      a.(version := a.version + 1, log := a.log + [row], current := Set(a.current, q.cls, Projected(row)))
    else a
  }

  // ----- corrections

  function Last(a: Asset): Row
    requires |a.log| > 0
  {
    a.log[|a.log| - 1]
  }

  function ReversalRow(a: Asset, q: Fix): Row
    requires |a.log| > 0
  {
    var head := Last(a);
    Row(q.cls, q.reversal, a.version + 1, head.from, head.to, REVERSAL, Some(q.root), Some(q.pair), head.generation + 1,
        Normalize(q.reason), q.actor, head.occurredAt, q.correctionAt, head.evidence)
  }

  function CorrectedRow(a: Asset, q: Fix): Row
    requires |a.log| > 0
  {
    var head := Last(a);
    Row(q.cls, q.corrected, a.version + 2, head.from, q.to, CORRECTED, Some(q.root), Some(q.pair), head.generation + 1,
        Normalize(q.reason), q.actor, if q.occurredAt.Some? then q.occurredAt.value else head.occurredAt, q.correctionAt,
        RefOf(q.cls, q.evidence))
  }

  predicate OrdinaryRow(log: seq<Row>, k: Class, id: Id) {
    exists i :: 0 <= i < |log| && log[i].cls == k && log[i].id == id && log[i].role == NONE
  }

  /** The correction names the root of the last block. */
  predicate NamesLastBlock(a: Asset, q: Fix) {
    |a.log| > 0 && Last(a).cls == q.cls && RootOf(Last(a)) == q.root
  }

  predicate MetadataOk(q: Fix) {
    1 <= |Normalize(q.reason)| <= 4000 && q.correctionAt.Some?
  }

  predicate ReversalKeysFree(log: seq<Row>, q: Fix) {
    !IdTaken(log, q.cls, q.reversal) && !PairTaken(log, q.cls, q.pair)
  }

  predicate CorrectedKeyFree(log: seq<Row>, q: Fix) {
    !IdTaken(log, q.cls, q.corrected) && q.reversal != q.corrected
  }

  function FixOutcome(a: Asset, q: Fix): Outcome
    requires |a.log| > 0
  {
    if q.expected != Some(a.version) then Failed(StaleVersion)
    else if !IdTaken(a.log, q.cls, q.root) then Failed(HistoryNotFound)
    else if !OrdinaryRow(a.log, q.cls, q.root) then Failed(OrdinaryRootRequired)
    else if !NamesLastBlock(a, q) then Failed(NotEffectiveHead)
    else if q.cls == Transition && Last(a).from == Null then Failed(CreationNotCorrectable)
    else if !TargetOk(a.world, q.cls, Last(a).from, q.to) then Failed(InvalidTarget)
    else if !MetadataOk(q) then Failed(MetadataRequired)
    else if a.version + 2 > MAX_VERSION then Failed(VersionOverflow)
    else if !ReversalKeysFree(a.log, q) then Failed(DuplicateKey)
    else if !EvidenceFits(a.world, q.cls, q.to, CORRECTED, q.evidence) then Failed(EvidenceRequired)
    else if !CorrectedKeyFree(a.log, q) then Failed(DuplicateKey)
    else Done(CorrectedRow(a, q))
  }

  function ApplyFix(a: Asset, q: Fix): Asset
    requires |a.log| > 0
  {
    if FixOutcome(a, q).Done? then
      var row := CorrectedRow(a, q);
      a.(version := a.version + 2, log := a.log + [ReversalRow(a, q), row], current := Set(a.current, q.cls, Projected(row)))
    else a
  }

  // ----- the invariant

  /** The projection of class k after the first n rows. */
  function ProjectionAt(log: seq<Row>, k: Class, b: Baseline, n: nat): Fact
    requires n <= |log|
  {
    var at := LastOf(log, k, n);
    if at.Some? then Projected(log[at.value]) else Base(b, k)
  }

  predicate ProjectionsAgree(a: Asset) {
    forall k :: Get(a.current, k) == ProjectionAt(a.log, k, a.base, |a.log|)
  }

  predicate TypedAt(log: seq<Row>, w: World, i: int)
    requires 0 <= i < |log|
  {
    && (log[i].cls == Transition ==> log[i].to.InState? && (log[i].from == Null <==> i == 0))
    && (log[i].cls == Assignment ==> log[i].to == Null || EndpointExists(w, log[i].to))
    && (log[i].cls == Ownership ==> log[i].to.Ref?)
  }

  predicate FactsTyped(log: seq<Row>, w: World) {
    forall i :: 0 <= i < |log| ==> TypedAt(log, w, i)
  }

  predicate Valid(a: Asset) {
    && |a.log| > 0 && a.version == |a.log| <= MAX_VERSION
    && a.log[0].cls == Transition && a.log[0].to == InState(RECEIVED)
    && Sound(a.log, a.base, a.world.evidence)
    && FactsTyped(a.log, a.world)
    && ProjectionsAgree(a)
    && a.base.owner.Ref?
  }

  /** The asset as receiving creates it. */
  function Created(id: Id, reason: string, actor: Id, at: Time, b: Baseline, w: World): Asset {
    Asset(1, Projections(InState(RECEIVED), b.location, b.custodian, b.owner, Null),
          [Row(Transition, id, 1, Null, InState(RECEIVED), NONE, None, None, 0, reason, actor, at, None, None)], b, w)
  }

  lemma {:induction false} CreatedValid(id: Id, reason: string, actor: Id, at: Time, b: Baseline, w: World)
    requires b.owner.Ref?
    ensures Valid(Created(id, reason, actor, at, b, w))
  {}

  // ----- preservation

  lemma {:induction false} FactsStable(log: seq<Row>, more: seq<Row>, k: Class, n: nat)
    requires n <= |log|
    ensures LastOf(log + more, k, n) == LastOf(log, k, n)
  {
    assert (log + more)[..n] == log[..n];
    LastOfPrefix(log, log + more, k, n);
  }

  lemma {:induction false} CoherentAppend(log: seq<Row>, more: seq<Row>, b: Baseline)
    requires Coherent(log, b)
    requires forall i :: 0 <= i < |more| && more[i].role == NONE ==> i == 0 && more[i].from == FactAt(log, more[i].cls, b, |log|)
    ensures Coherent(log + more, b)
  {
    var l := log + more;
    forall i | 0 <= i < |l| ensures Sourced(l, b, i) {
      if i < |log| {
        assert Sourced(log, b, i);
        FactsStable(log, more, l[i].cls, i);
      } else {
        assert l[i] == more[i - |log|];
        FactsStable(log, more, l[i].cls, |log|);
      }
    }
  }

  lemma {:induction false} ChangeKeepsSound(a: Asset, q: Change)
    requires Valid(a) && ChangeOutcome(a, q).Done?
    ensures Sound(a.log + [ChangeRow(a, q)], a.base, a.world.evidence)
  {
    var row := ChangeRow(a, q);
    var l := a.log + [row];
    forall i | 0 < i < |l| ensures Link(l, i) {
      if i < |a.log| { assert Link(a.log, i); }
    }
    CoherentAppend(a.log, [row], a.base);
  }

  lemma {:induction false} FixKeepsChain(a: Asset, q: Fix)
    requires Valid(a) && FixOutcome(a, q).Done?
    ensures Chain(a.log + [ReversalRow(a, q), CorrectedRow(a, q)])
  {
    NormalizeIdempotent(q.reason);
    var l := a.log + [ReversalRow(a, q), CorrectedRow(a, q)];
    forall i | 0 < i < |l| ensures Link(l, i) {
      if i < |a.log| { assert Link(a.log, i); }
    }
  }

  lemma {:induction false} FixKeepsSound(a: Asset, q: Fix)
    requires Valid(a) && FixOutcome(a, q).Done?
    ensures Sound(a.log + [ReversalRow(a, q), CorrectedRow(a, q)], a.base, a.world.evidence)
  {
    FixKeepsChain(a, q);
    var more := [ReversalRow(a, q), CorrectedRow(a, q)];
    CoherentAppend(a.log, more, a.base);
    var last := |a.log| - 1;
    assert a.log[last].cls == Transition ==>
        EvidenceAdmitted(a.world.evidence, a.log[last].to, a.log[last].role, a.log[last].evidence);
  }

  lemma {:induction false} LastOfAppend(log: seq<Row>, row: Row, k: Class)
    ensures LastOf(log + [row], k, |log| + 1) == if row.cls == k then Some(|log|) else LastOf(log, k, |log|)
  {
    assert (log + [row])[|log|] == row;
    FactsStable(log, [row], k, |log|);
  }

  lemma {:induction false} ProjectionAppend(log: seq<Row>, row: Row, k: Class, b: Baseline)
    ensures ProjectionAt(log + [row], k, b, |log| + 1) ==
            if row.cls == k then Projected(row) else ProjectionAt(log, k, b, |log|)
  {
    LastOfAppend(log, row, k);
    assert forall i :: 0 <= i < |log| ==> (log + [row])[i] == log[i];
  }

  lemma {:induction false} ProjectionsAppend(a: Asset, row: Row)
    requires ProjectionsAgree(a)
    ensures ProjectionsAgree(a.(log := a.log + [row], current := Set(a.current, row.cls, Projected(row))))
  {
    forall k ensures Get(Set(a.current, row.cls, Projected(row)), k) ==
                     ProjectionAt(a.log + [row], k, a.base, |a.log| + 1) {
      ProjectionAppend(a.log, row, k, a.base);
      assert Get(a.current, k) == ProjectionAt(a.log, k, a.base, |a.log|);
    }
  }

  lemma {:induction false} ChangeKeepsTypes(a: Asset, q: Change)
    requires Valid(a) && ChangeOutcome(a, q).Done?
    ensures FactsTyped(ApplyChange(a, q).log, a.world)
  {
    var a' := ApplyChange(a, q);
    var p := LastOf(a.log, Transition, |a.log|);
    assert a.log[0].cls == Transition;
    assert TypedAt(a.log, a.world, p.value);
    forall i | 0 <= i < |a'.log| ensures TypedAt(a'.log, a.world, i) {
      if i < |a.log| { assert TypedAt(a.log, a.world, i) && a'.log[i] == a.log[i]; }
    }
  }

  lemma {:induction false} ChangeKeepsValid(a: Asset, q: Change)
    requires Valid(a)
    ensures Valid(ApplyChange(a, q))
  {
    if ChangeOutcome(a, q).Done? {
      ChangeKeepsSound(a, q);
      ProjectionsAppend(a, ChangeRow(a, q));
      ChangeKeepsTypes(a, q);
      assert ApplyChange(a, q).log[0] == a.log[0];
    }
  }

  /** Appending a pair of class c moves the projection of c to the second row, and no other. */
  lemma {:induction false} ProjectionsAppendPair(a: Asset, rev: Row, row: Row)
    requires ProjectionsAgree(a) && rev.cls == row.cls
    ensures ProjectionsAgree(a.(log := a.log + [rev, row], current := Set(a.current, row.cls, Projected(row))))
  {
    var l := a.log + [rev];
    assert a.log + [rev, row] == l + [row];
    forall k ensures Get(Set(a.current, row.cls, Projected(row)), k) == ProjectionAt(l + [row], k, a.base, |l| + 1) {
      ProjectionAppend(a.log, rev, k, a.base);
      ProjectionAppend(l, row, k, a.base);
      assert Get(a.current, k) == ProjectionAt(a.log, k, a.base, |a.log|);
    }
  }

  lemma {:induction false} FixKeepsTypes(a: Asset, q: Fix)
    requires Valid(a) && FixOutcome(a, q).Done?
    ensures FactsTyped(ApplyFix(a, q).log, a.world)
  {
    var a', n := ApplyFix(a, q), |a.log|;
    assert TypedAt(a.log, a.world, n - 1);
    forall i | 0 <= i < |a'.log| ensures TypedAt(a'.log, a.world, i) {
      if i < n { assert TypedAt(a.log, a.world, i) && a'.log[i] == a.log[i]; }
    }
  }

  lemma {:induction false} FixKeepsValid(a: Asset, q: Fix)
    requires Valid(a)
    ensures Valid(ApplyFix(a, q))
  {
    if FixOutcome(a, q).Done? {
      FixKeepsSound(a, q);
      ProjectionsAppendPair(a, ReversalRow(a, q), CorrectedRow(a, q));
      FixKeepsTypes(a, q);
      assert ApplyFix(a, q).log[0] == a.log[0];
    }
  }
}
