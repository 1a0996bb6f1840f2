/** The stored procedures of the asset tables.  Each locks the asset row, re-reads raw
    history through the views, and refuses anything that looks inconsistent.  They are
    proved to do what `AssetCommands` says, so no integrity check ever refuses a request
    that the plain description admits. */
module AssetRecord {
  import opened HistoryRows
  import opened HistoryViews
  import opened HistoryChain
  import opened HistoryHealth
  import opened AssetCommands
  import opened AssetEffects

  /** Every class passes the anomaly view. */
  predicate NoAnomalies(log: seq<Row>, b: Baseline, ev: Evidence) {
    forall k :: WellFormed(log, k, b, ev)
  }

  /** `assert_asset_correction_authority`: projections, anomalies and version counts. */
  predicate Authority(a: Asset) {
    && (forall k :: Get(a.current, k) == Expected(a.log, k, a.base))
    && NoAnomalies(a.log, a.base, a.world.evidence)
    && CountsOk(a.log, a.version)
  }

  lemma {:induction false} ExpectedHolds(a: Asset, k: Class)
    requires Valid(a)
    ensures Get(a.current, k) == Expected(a.log, k, a.base)
    ensures Latest(a.log, k, None) == LastOf(a.log, k, |a.log|)
  {
    LatestIsLast(a.log, k, |a.log|, None);
    assert Get(a.current, k) == ProjectionAt(a.log, k, a.base, |a.log|);
  }

  /** The authority check accepts every asset that the operations can produce. */
  lemma {:induction false} AuthorityHolds(a: Asset)
    requires Valid(a)
    ensures Authority(a)
  {
    forall k ensures Get(a.current, k) == Expected(a.log, k, a.base) { ExpectedHolds(a, k); }
    forall k ensures WellFormed(a.log, k, a.base, a.world.evidence) {
      SoundIsWellFormed(a.log, k, a.base, a.world.evidence);
    }
    ChainCounts(a.log);
  }

  /** The row of class k with the given identity. */
  function Find(log: seq<Row>, k: Class, id: Id, n: nat := |log|): (r: Option<nat>)
    requires n <= |log|
    ensures r.Some? ==> r.value < n && log[r.value].cls == k && log[r.value].id == id
    ensures r.None? ==> forall i :: 0 <= i < n && log[i].cls == k ==> log[i].id != id
  {
    if n == 0 then None
    else if log[n - 1].cls == k && log[n - 1].id == id then Some(n - 1)
    else Find(log, k, id, n - 1)
  }

  predicate HeadOf(log: seq<Row>, k: Class, root: Id, i: int) {
    EffectiveAt(log, k, i) && (log[i].id == root || log[i].root == Some(root))
  }

  /** The effective row that speaks for a root. */
  function FindHead(log: seq<Row>, k: Class, root: Id, n: nat := |log|): (r: Option<nat>)
    requires n <= |log|
    ensures r.Some? ==> r.value < n && HeadOf(log, k, root, r.value)
    ensures r.None? ==> forall i :: 0 <= i < n ==> !HeadOf(log, k, root, i)
  {
    if n == 0 then None
    else if HeadOf(log, k, root, n - 1) then Some(n - 1)
    else FindHead(log, k, root, n - 1)
  }

  /** For an ordinary root, "its effective row is the newest row" means "its block is last". */
  lemma {:induction false} HeadIsLastBlock(a: Asset, q: Fix)
    requires Valid(a) && OrdinaryRow(a.log, q.cls, q.root)
    ensures var at := FindHead(a.log, q.cls, q.root);
            && (at.Some? && a.log[at.value].version == a.version <==> NamesLastBlock(a, q))
            && (NamesLastBlock(a, q) ==> at == Some(|a.log| - 1))
  {
    var log, n := a.log, |a.log| - 1;
    var r :| 0 <= r < |log| && log[r].cls == q.cls && log[r].id == q.root && log[r].role == NONE;
    BlockPosition(log, n);
    var at := FindHead(log, q.cls, q.root);
    if NamesLastBlock(a, q) {
      EffectiveIsBlockEnd(log, q.cls, n);
      assert HeadOf(log, q.cls, q.root, n);
    } else if at.Some? {
      BlockPosition(log, at.value);
    }
  }

  /** The fact before the root of a block, as the correction procedure queries it. */
  lemma {:induction false} PreviousOfBlock(log: seq<Row>, b: Baseline, n: nat, r: nat)
    requires Chain(log) && Keys(log) && Coherent(log, b) && n < |log| && r == RootIndex(log, n)
    ensures log[n].cls == log[r].cls
    ensures PriorFact(log, log[n].cls, b, log[r].version) == log[n].from
    ensures Latest(log, log[n].cls, Some(log[r].version)) == LastOf(log, log[n].cls, r)
  {
    BlockPosition(log, n);
    PriorIsSource(log, b, r);
    LatestIsLast(log, log[r].cls, r, Some(r + 1));
  }

  /** Any assignment in force names an endpoint that exists. */
  lemma {:induction false} PriorEndpoint(a: Asset)
    requires Valid(a)
    ensures Now(a, Assignment) == Null || EndpointExists(a.world, Now(a, Assignment))
  {
    PriorEndpointAt(a, |a.log|);
  }

  lemma {:induction false} PriorEndpointAt(a: Asset, n: nat)
    requires Valid(a) && n <= |a.log|
    ensures var f := FactAt(a.log, Assignment, a.base, n); f == Null || EndpointExists(a.world, f)
  {
    var at := LastOf(a.log, Assignment, n);
    if at.Some? { assert TypedAt(a.log, a.world, at.value); }
  }

  /** The newest row decides the projection of its class. */
  lemma {:induction false} LastProjected(a: Asset)
    requires Valid(a)
    ensures Get(a.current, Last(a).cls) == Projected(Last(a))
  {
    assert Get(a.current, Last(a).cls) == ProjectionAt(a.log, Last(a).cls, a.base, |a.log|);
  }

  /** The last block is the creation block exactly when no transition precedes its root. */
  lemma {:induction false} CreationIsFirst(a: Asset)
    requires Valid(a) && Last(a).cls == Transition
    ensures Last(a).from == Null <==> LastOf(a.log, Transition, RootIndex(a.log, |a.log| - 1)).None?
  {
    BlockPosition(a.log, |a.log| - 1);
    var r := RootIndex(a.log, |a.log| - 1);
    assert TypedAt(a.log, a.world, r) && a.log[0].cls == Transition;
  }

  // ----- admission, as the procedures check it

  /** The fact and the projection that effective history implies, when it is known. */
  datatype Prior = Unknown | Known(fact: Fact, projected: Fact)

  function PriorOf(a: Asset, k: Class): Prior {
    var latest := Latest(a.log, k, None);
    if latest.Some? then
      var h := a.log[latest.value];
      if h.version > a.version then Unknown else Known(h.to, Projected(h))
    else if k == Transition then Unknown
    else Known(Base(a.base, k), Base(a.base, k))
  }

  lemma {:induction false} PriorIsNow(a: Asset, k: Class)
    requires Valid(a)
    ensures PriorOf(a, k) == Known(Now(a, k), Get(a.current, k))
  {
    ExpectedHolds(a, k);
    assert a.log[0].cls == Transition;
  }

  /** The rows about to be committed pass the deferred pair check of their table. */
  predicate CommitOk(a: Asset, k: Class, rows: seq<Row>) {
    WellFormed(a.log + rows, k, a.base, a.world.evidence)
  }

  /** The checks of an ordinary procedure, in order, up to the insertion of its row. */
  function ChangeAdmission(a: Asset, q: Change, prior: Prior): Outcome {
    if q.expected != Some(a.version) then Failed(StaleVersion)
    else if !NoAnomalies(a.log, a.base, a.world.evidence) then Failed(MalformedHistory)
    else if prior.Unknown? || (q.cls == Transition && q.claimed != prior.fact) then Failed(HistoryInconsistent)
    else if Get(a.current, q.cls) != prior.projected then Failed(HistoryInconsistent)
    else if q.cls == Assignment && prior.fact != Null && !EndpointExists(a.world, prior.fact) then Failed(InvalidTarget)
    else if !TargetOk(a.world, q.cls, prior.fact, q.to) then Failed(InvalidTarget)
    else if a.version + 1 > MAX_VERSION then Failed(VersionOverflow)
    else if !EvidenceFits(a.world, q.cls, q.to, NONE, q.evidence) then Failed(EvidenceRequired)
    else if IdTaken(a.log, q.cls, q.id) then Failed(DuplicateKey)
    else
      var row := Row(q.cls, q.id, a.version + 1, prior.fact, q.to, NONE, None, None, 0, q.reason, q.actor,
                     q.occurredAt, None, RefOf(q.cls, q.evidence));
      if CommitOk(a, q.cls, [row]) then Done(row) else Failed(MalformedHistory)
  }

  /** No check on raw history ever refuses an ordinary change that the plain rule admits. */
  lemma {:induction false} ChangeAdmissionAgrees(a: Asset, q: Change)
    requires Valid(a)
    ensures ChangeAdmission(a, q, PriorOf(a, q.cls)) == ChangeOutcome(a, q)
  {
    AuthorityHolds(a);
    PriorIsNow(a, q.cls);
    PriorEndpoint(a);
    if ChangeOutcome(a, q).Done? {
      ChangeKeepsSound(a, q);
      SoundIsWellFormed(a.log + [ChangeRow(a, q)], q.cls, a.base, a.world.evidence);
    }
  }

  /** The checks of a correction once its root and effective head are found. */
  function ReplaceAdmission(a: Asset, q: Fix, head: Row, preceded: bool, prior: Fact): Outcome {
    if Get(a.current, q.cls) != Projected(head) then Failed(HistoryInconsistent)
    else if q.cls == Transition && !preceded then Failed(CreationNotCorrectable)
    else if !TargetOk(a.world, q.cls, prior, q.to) then Failed(InvalidTarget)
    else if q.cls == Assignment && prior != Null && !EndpointExists(a.world, prior) then Failed(InvalidTarget)
    else if !MetadataOk(q) then Failed(MetadataRequired)
    else if a.version + 2 > MAX_VERSION then Failed(VersionOverflow)
    else if !ReversalKeysFree(a.log, q) then Failed(DuplicateKey)
    else if !EvidenceFits(a.world, q.cls, q.to, CORRECTED, q.evidence) then Failed(EvidenceRequired)
    else if !CorrectedKeyFree(a.log, q) then Failed(DuplicateKey)
    else
      var produced := ProducedRow(a, q, head, prior);
      if CommitOk(a, q.cls, [CancellingRow(a, q, head), produced]) then Done(produced) else Failed(MalformedHistory)
  }

  /** The REVERSAL row copies the cancelled assertion. */
  function CancellingRow(a: Asset, q: Fix, head: Row): Row {
    Row(q.cls, q.reversal, a.version + 1, head.from, head.to, REVERSAL, Some(q.root), Some(q.pair), head.generation + 1,
        Normalize(q.reason), q.actor, head.occurredAt, q.correctionAt, head.evidence)
  }

  /** The CORRECTED row starts from the fact before the root. */
  function ProducedRow(a: Asset, q: Fix, head: Row, prior: Fact): Row {
    Row(q.cls, q.corrected, a.version + 2, prior, q.to, CORRECTED, Some(q.root), Some(q.pair), head.generation + 1,
        Normalize(q.reason), q.actor, if q.occurredAt.Some? then q.occurredAt.value else head.occurredAt, q.correctionAt,
        RefOf(q.cls, q.evidence))
  }

  /** A correction of an ordinary root that has been found. */
  function RootAdmission(a: Asset, q: Fix, original: Row): Outcome {
    var head := FindHead(a.log, q.cls, q.root);
    if head.None? || a.log[head.value].version != a.version then Failed(NotEffectiveHead)
    else ReplaceAdmission(a, q, a.log[head.value], Latest(a.log, q.cls, Some(original.version)).Some?,
                          PriorFact(a.log, q.cls, a.base, original.version))
  }

  /** The checks of a correction procedure, in order. */
  function FixAdmission(a: Asset, q: Fix): Outcome {
    if q.expected != Some(a.version) then Failed(StaleVersion)
    else if !Authority(a) then Failed(AuthorityIncomplete)
    else
      var original := Find(a.log, q.cls, q.root);
      if original.None? then Failed(HistoryNotFound)
      else if a.log[original.value].role != NONE then Failed(OrdinaryRootRequired)
      else RootAdmission(a, q, a.log[original.value])
  }

  lemma {:induction false} ReplaceAgrees(a: Asset, q: Fix, preceded: bool)
    requires |a.log| > 0 && NamesLastBlock(a, q)
    requires q.expected == Some(a.version) && IdTaken(a.log, q.cls, q.root) && OrdinaryRow(a.log, q.cls, q.root)
    requires Get(a.current, q.cls) == Projected(Last(a))
    requires q.cls == Transition ==> (preceded <==> Last(a).from != Null)
    requires q.cls == Assignment ==> Last(a).from == Null || EndpointExists(a.world, Last(a).from)
    requires FixOutcome(a, q).Done? ==> CommitOk(a, q.cls, [ReversalRow(a, q), CorrectedRow(a, q)])
    ensures ReplaceAdmission(a, q, Last(a), preceded, Last(a).from) == FixOutcome(a, q)
  {}

  lemma {:induction false} FixCommits(a: Asset, q: Fix)
    requires Valid(a) && FixOutcome(a, q).Done?
    ensures CommitOk(a, q.cls, [ReversalRow(a, q), CorrectedRow(a, q)])
  {
    FixKeepsSound(a, q);
    SoundIsWellFormed(a.log + [ReversalRow(a, q), CorrectedRow(a, q)], q.cls, a.base, a.world.evidence);
  }

  lemma {:induction false} ReplaceAdmissionAgrees(a: Asset, q: Fix, r: nat)
    requires Valid(a) && NamesLastBlock(a, q) && r == RootIndex(a.log, |a.log| - 1)
    requires q.expected == Some(a.version) && IdTaken(a.log, q.cls, q.root) && OrdinaryRow(a.log, q.cls, q.root)
    ensures ReplaceAdmission(a, q, Last(a), Latest(a.log, q.cls, Some(a.log[r].version)).Some?,
                             PriorFact(a.log, q.cls, a.base, a.log[r].version)) == FixOutcome(a, q)
  {
    LastBlockFacts(a, r);
    if FixOutcome(a, q).Done? { FixCommits(a, q); }
    ReplaceAgrees(a, q, Latest(a.log, q.cls, Some(a.log[r].version)).Some?);
  }

  /** What the queries of a correction find when its root is that of the last block. */
  lemma {:induction false} LastBlockFacts(a: Asset, r: nat)
    requires Valid(a) && r == RootIndex(a.log, |a.log| - 1)
    ensures var k := Last(a).cls;
            && PriorFact(a.log, k, a.base, a.log[r].version) == Last(a).from
            && Get(a.current, k) == Projected(Last(a))
            && (k == Transition ==> (Latest(a.log, k, Some(a.log[r].version)).Some? <==> Last(a).from != Null))
            && (k == Assignment ==> Last(a).from == Null || EndpointExists(a.world, Last(a).from))
  {
    PreviousOfBlock(a.log, a.base, |a.log| - 1, r);
    LastProjected(a);
    PriorEndpointAt(a, r);
    if Last(a).cls == Transition { CreationIsFirst(a); }
  }

  lemma {:induction false} OutcomeOffHead(a: Asset, q: Fix, r: nat)
    requires q.expected == Some(a.version) && !NamesLastBlock(a, q)
    requires r < |a.log| && a.log[r].cls == q.cls && a.log[r].id == q.root && a.log[r].role == NONE
    ensures FixOutcome(a, q) == Failed(NotEffectiveHead)
  {}

  lemma {:induction false} RootAdmissionAgrees(a: Asset, q: Fix, r: nat)
    requires Valid(a) && q.expected == Some(a.version)
    requires r < |a.log| && a.log[r].cls == q.cls && a.log[r].id == q.root && a.log[r].role == NONE
    ensures RootAdmission(a, q, a.log[r]) == FixOutcome(a, q)
  {
    assert IdTaken(a.log, q.cls, q.root) && OrdinaryRow(a.log, q.cls, q.root);
    HeadIsLastBlock(a, q);
    if NamesLastBlock(a, q) {
      LastBlockRoot(a, q, r);
      ReplaceAdmissionAgrees(a, q, r);
    } else {
      OutcomeOffHead(a, q, r);
    }
  }

  lemma {:induction false} LastBlockRoot(a: Asset, q: Fix, r: nat)
    requires Valid(a) && NamesLastBlock(a, q)
    requires r < |a.log| && a.log[r].cls == q.cls && a.log[r].id == q.root
    ensures r == RootIndex(a.log, |a.log| - 1)
  {
    BlockPosition(a.log, |a.log| - 1);
  }

  /** A primary key finds an ordinary row exactly when there is one. */
  lemma {:induction false} FindDecides(a: Asset, k: Class, id: Id)
    requires Valid(a)
    ensures var at := Find(a.log, k, id);
            && (at.None? <==> !IdTaken(a.log, k, id))
            && (at.Some? ==> (a.log[at.value].role == NONE <==> OrdinaryRow(a.log, k, id)))
  {}

  /** No check on raw history ever refuses a correction that the plain rule admits. */
  lemma {:induction false} FixAdmissionAgrees(a: Asset, q: Fix)
    requires Valid(a)
    ensures FixAdmission(a, q) == FixOutcome(a, q)
  {
    AuthorityHolds(a);
    FindDecides(a, q.cls, q.root);
    var original := Find(a.log, q.cls, q.root);
    if q.expected == Some(a.version) && original.Some? && a.log[original.value].role == NONE {
      RootAdmissionAgrees(a, q, original.value);
    }
  }

  class AssetTables {
    var version: int
    var current: Projections
    var log: seq<Row>
    var facts: Option<Baseline>
    var assignmentFacts: bool
    var world: World

    ghost function Snapshot(): Asset
      reads this
      requires facts.Some?
    {
      Asset(version, current, log, facts.value, world)
    }

    ghost predicate Intact()
      reads this
    {
      facts.Some? && assignmentFacts && Valid(Snapshot())
    }

    /** Receiving creates the asset with its first transition and both witnesses. */
    constructor (id: Id, reason: string, actor: Id, at: Time, b: Baseline, w: World)
      requires b.owner.Ref?
      ensures Intact() && Snapshot() == Created(id, reason, actor, at, b, w)
    {
      version := 1;
      current := Projections(InState(RECEIVED), b.location, b.custodian, b.owner, Null);
      log := [Row(Transition, id, 1, Null, InState(RECEIVED), NONE, None, None, 0, reason, actor, at, None, None)];
      facts := Some(b);
      assignmentFacts := true;
      world := w;
      new;
      CreatedValid(id, reason, actor, at, b, w);
    }

    method AdmitChange(q: Change) returns (o: Outcome)
      requires Intact()
      ensures o == ChangeOutcome(Snapshot(), q)
    {
      var a := Asset(version, current, log, facts.value, world);
      ChangeAdmissionAgrees(a, q);
      o := ChangeAdmission(a, q, PriorOf(a, q.cls));
    }

    method AdmitFix(q: Fix) returns (o: Outcome)
      requires Intact()
      ensures o == FixOutcome(Snapshot(), q)
    {
      var a := Asset(version, current, log, facts.value, world);
      FixAdmissionAgrees(a, q);
      o := FixAdmission(a, q);
    }

    /** The REVERSAL row for an admitted correction, copied from the effective head. */
    method Cancelling(q: Fix) returns (row: Row)
      requires Intact() && OrdinaryRow(log, q.cls, q.root) && NamesLastBlock(Snapshot(), q)
      ensures row == ReversalRow(Snapshot(), q)
    {
      HeadIsLastBlock(Snapshot(), q);
      var head := FindHead(log, q.cls, q.root);
      row := CancellingRow(Asset(version, current, log, facts.value, world), q, log[head.value]);
    }

    /** `transition_asset`, `move_asset`, `change_custody`, `change_ownership`, `assign_asset`
        and `unassign_asset`. */
    method Record(q: Change) returns (o: Outcome)
      requires Intact()
      modifies this
      ensures Intact()
      ensures o == ChangeOutcome(old(Snapshot()), q)
      ensures Snapshot() == ApplyChange(old(Snapshot()), q)
      ensures o.Done? ==> Now(Snapshot(), q.cls) == q.to && Get(current, q.cls) == Shown(q.cls, q.to, q.id)
      ensures o.Done? ==> forall k :: k != q.cls ==>
                Now(Snapshot(), k) == Now(old(Snapshot()), k) && Get(current, k) == Get(old(current), k)
    {
      ghost var a := Snapshot();
      ChangeKeepsValid(a, q);
      if ChangeOutcome(a, q).Done? { ChangeTakesEffect(a, q); }
      o := AdmitChange(q);
      if o.Done? {
        log := log + [o.row];
        current := Set(current, q.cls, Projected(o.row));
        version := version + 1;
      }
      assert Snapshot() == ApplyChange(a, q);
    }

    /** `correct_transition`, `correct_movement`, `correct_custody`, `correct_ownership` and
        `correct_assignment`. */
    method Correct(q: Fix) returns (o: Outcome)
      requires Intact()
      modifies this
      ensures Intact()
      ensures o == FixOutcome(old(Snapshot()), q)
      ensures Snapshot() == ApplyFix(old(Snapshot()), q)
      ensures o.Done? ==> Now(Snapshot(), q.cls) == q.to && Get(current, q.cls) == Shown(q.cls, q.to, q.corrected)
      ensures o.Done? ==> forall k :: k != q.cls ==>
                Now(Snapshot(), k) == Now(old(Snapshot()), k) && Get(current, k) == Get(old(current), k)
    {
      ghost var a := Snapshot();
      FixKeepsValid(a, q);
      if FixOutcome(a, q).Done? { FixTakesEffect(a, q); }
      o := AdmitFix(q);
      if o.Done? {
        var cancelling := Cancelling(q);
        log := log + [cancelling, o.row];
        current := Set(current, q.cls, Projected(o.row));
        version := version + 2;
      }
      assert Snapshot() == ApplyFix(a, q);
    }
  }
}
