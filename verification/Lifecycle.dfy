/** The lifecycle graph and its memory of holds.  Legality is checked by the service, around
    the database lock; sessions interleave freely, and still every effective history is a
    legal path. */
module Lifecycle {
  import opened HistoryRows
  import opened HistoryViews
  import opened HistoryChain
  import opened HistoryHealth
  import opened AssetCommands
  import opened AssetRecord
  import opened AssetRuns
  import opened EffectiveEvents
  import opened Sorting

  // ----- the graph

  function Successors(s: State): set<State> {
    match s
    case RECEIVED => {IN_STOCK, ON_HOLD}
    case IN_STOCK => {CONFIGURING, ON_HOLD, RETIRED}
    case CONFIGURING => {READY, ON_HOLD}
    case READY => {DEPLOYED, IN_STOCK, ON_HOLD}
    case DEPLOYED => {ON_HOLD, OUT_OF_SERVICE, READY}
    case ON_HOLD => {OUT_OF_SERVICE}
    case OUT_OF_SERVICE => {CONFIGURING, RETIRED}
    case RETIRED => {}
  }

  /** `validate_edge`: a hold may also return to the state it was entered from. */
  predicate ValidEdge(from: State, to: State, previous: Fact) {
    to in Successors(from) || (from == ON_HOLD && previous == InState(to))
  }

  /** Row r may follow the transition p. */
  predicate Edge(p: Row, r: Row) {
    p.to.InState? && r.to.InState? && ValidEdge(p.to.state, r.to.state, p.from)
  }

  // ----- every recorded transition was legal when it was recorded

  predicate LegalAt(log: seq<Row>, i: int)
    requires Chain(log) && 0 <= i < |log|
  {
    log[i].cls == Transition && log[i].role != REVERSAL && RootIndex(log, i) > 0 ==>
      var p := LastOf(log, Transition, RootIndex(log, i));
      p.Some? && Edge(log[p.value], log[i])
  }

  predicate Legal(log: seq<Row>)
    requires Chain(log)
  {
    forall i :: 0 <= i < |log| ==> LegalAt(log, i)
  }

  lemma {:induction false} RootStable(log: seq<Row>, more: seq<Row>, i: nat)
    requires Chain(log) && Chain(log + more) && i < |log|
    ensures RootIndex(log + more, i) == RootIndex(log, i)
  {
    if log[i].role != NONE { RootStable(log, more, i - 1); }
  }

  lemma {:induction false} LegalStable(log: seq<Row>, more: seq<Row>, i: nat)
    requires Chain(log) && Chain(log + more) && i < |log| && LegalAt(log, i)
    ensures LegalAt(log + more, i)
  {
    RootStable(log, more, i);
    FactsStable(log, more, Transition, RootIndex(log, i));
  }

  /** A transition appended after a legal edge keeps the history legal. */
  lemma {:induction false} ChangeKeepsLegal(a: Asset, q: Change)
    requires Valid(a) && Legal(a.log)
    requires q.cls == Transition && ChangeOutcome(a, q).Done? ==>
               var p := LastOf(a.log, Transition, |a.log|);
               p.Some? && a.log[p.value].to.InState? && q.to.InState?
               && ValidEdge(a.log[p.value].to.state, q.to.state, a.log[p.value].from)
    ensures Valid(ApplyChange(a, q)) && Legal(ApplyChange(a, q).log)
  {
    ChangeKeepsValid(a, q);
    if ChangeOutcome(a, q).Done? { RowKeepsLegal(a.log, ChangeRow(a, q)); }
  }

  lemma {:induction false} RowKeepsLegal(log: seq<Row>, row: Row)
    requires Chain(log) && Legal(log) && Chain(log + [row]) && row.role == NONE
    requires row.cls == Transition ==> var p := LastOf(log, Transition, |log|); p.Some? && Edge(log[p.value], row)
    ensures Legal(log + [row])
  {
    var l := log + [row];
    forall i | 0 <= i < |l| ensures LegalAt(l, i) {
      if i < |log| {
        assert LegalAt(log, i);
        LegalStable(log, [row], i);
      } else {
        FactsStable(log, [row], Transition, |log|);
      }
    }
  }

  /** A correction of a transition is legal against the transition before its root. */
  predicate FixEdge(log: seq<Row>, q: Fix)
    requires Chain(log) && |log| > 0
  {
    var p := LastOf(log, Transition, RootIndex(log, |log| - 1));
    p.Some? && log[p.value].to.InState? && q.to.InState?
    && ValidEdge(log[p.value].to.state, q.to.state, log[p.value].from)
  }

  lemma {:induction false} FixKeepsLegal(a: Asset, q: Fix)
    requires Valid(a) && Legal(a.log)
    requires q.cls == Transition && FixOutcome(a, q).Done? ==> FixEdge(a.log, q)
    ensures Valid(ApplyFix(a, q)) && Legal(ApplyFix(a, q).log)
  {
    FixKeepsValid(a, q);
    if FixOutcome(a, q).Done? {
      PairKeepsLegal(a.log, [ReversalRow(a, q), CorrectedRow(a, q)], q);
    }
  }

  lemma {:induction false} PairKeepsLegal(log: seq<Row>, more: seq<Row>, q: Fix)
    requires Chain(log) && Legal(log) && Chain(log + more) && |log| > 0 && |more| == 2
    requires more[0].role == REVERSAL && more[1].role == CORRECTED && more[1].to == q.to
    requires more[1].cls == Transition ==> FixEdge(log, q)
    ensures Legal(log + more)
  {
    var n, l := |log|, log + more;
    forall i | 0 <= i < |l| ensures LegalAt(l, i) {
      if i < n {
        assert LegalAt(log, i);
        LegalStable(log, more, i);
      } else if i == n + 1 {
        CorrectedLegal(log, more, q);
      }
    }
  }

  lemma {:induction false} CorrectedLegal(log: seq<Row>, more: seq<Row>, q: Fix)
    requires Chain(log) && Chain(log + more) && |log| > 0 && |more| == 2
    requires more[0].role == REVERSAL && more[1].role == CORRECTED && more[1].to == q.to
    requires more[1].cls == Transition ==> FixEdge(log, q)
    ensures LegalAt(log + more, |log| + 1)
  {
    var l, n := log + more, |log|;
    RootStable(log, more, n - 1);
    assert l[n] == more[0] && l[n + 1] == more[1];
    assert RootIndex(l, n) == RootIndex(l, n - 1);
    FactsStable(log, more, Transition, RootIndex(log, n - 1));
  }

  // ----- interleaved sessions

  /** A service request on its way through check, lock, read and commit. */
  datatype Phase =
    | Idle
    | Checked(change: Change)      // static edge validated, no lock held
    | Waiting(change: Change)      // leaving a hold: the asset row is to be locked first
    | Locked(change: Change)
    | Read(change: Change)         // hold entry read under the lock and validated
    | FixWaiting(fix: Fix)
    | FixLocked(fix: Fix)
    | FixRead(fix: Fix)            // prior transition read under the lock and validated

  datatype System = System(asset: Asset, lock: Option<Id>, sessions: map<Id, Phase>)

  datatype Event =
    | BeginTransition(session: Id, change: Change)
    | BeginFix(session: Id, fix: Fix)
    | Lock(session: Id)
    | ReadUnderLock(session: Id)
    | Commit(session: Id)
    | Abort(session: Id)
    | Other(command: Command)

  function PhaseOf(s: System, sid: Id): Phase {
    if sid in s.sessions then s.sessions[sid] else Idle
  }

  function Enter(s: System, sid: Id, p: Phase): System {
    s.(sessions := s.sessions[sid := p])
  }

  function Release(s: System, sid: Id): System {
    s.(sessions := s.sessions[sid := Idle], lock := if s.lock == Some(sid) then None else s.lock)
  }

  /** The checks that `transition_asset` makes before it locks anything. */
  predicate StaticCheck(q: Change) {
    && q.cls == Transition && q.claimed.InState? && q.to.InState?
    && (q.claimed != InState(ON_HOLD) ==> ValidEdge(q.claimed.state, q.to.state, Null))
    && (q.to == InState(RETIRED) ==> q.evidence.Some?)
  }

  /** What `transition_asset` reads and validates once it holds the row of an asset on hold. */
  predicate HoldCheck(log: seq<Row>, q: Change) {
    var at := Latest(log, Transition, None);
    at.Some? && log[at.value].to == InState(ON_HOLD) && q.to.InState?
    && ValidEdge(ON_HOLD, q.to.state, log[at.value].from)
  }

  /** What `correct_transition` reads and validates once it holds the asset row. */
  predicate FixCheck(a: Asset, q: Fix) {
    && q.cls == Transition && q.to.InState? && q.expected == Some(a.version)
    && (q.to == InState(RETIRED) ==> q.evidence.Some?)
    && OrdinaryRow(a.log, Transition, q.root)
    && (exists r :: 0 <= r < |a.log| && PriorEdge(a.log, q, r))
    && !HasIssue(a)
  }

  predicate PriorEdge(log: seq<Row>, q: Fix, r: int)
    requires 0 <= r < |log|
  {
    log[r].cls == Transition && log[r].id == q.root && log[r].role == NONE && q.to.InState?
    && (var at := Latest(log, Transition, Some(log[r].version));
        at.Some? && log[at.value].to.InState?
        && ValidEdge(log[at.value].to.state, q.to.state, log[at.value].from))
  }

  /** A corrected transition that the graph or its evidence does not support. */
  predicate IssueAt(a: Asset, i: int)
    requires 0 <= i < |a.log|
  {
    a.log[i].cls == Transition && a.log[i].role == CORRECTED &&
    exists r :: 0 <= r < |a.log| && RootIssue(a, i, r)
  }

  predicate RootIssue(a: Asset, i: int, r: int)
    requires 0 <= i < |a.log| && 0 <= r < |a.log|
  {
    a.log[r].cls == Transition && a.log[i].root == Some(a.log[r].id) &&
    var at := Latest(a.log, Transition, Some(a.log[r].version));
    at.None? || !Edge(a.log[at.value], a.log[i])
    || (a.log[i].to == InState(RETIRED)
        && !(a.log[i].evidence.Some? && a.log[i].evidence.value in a.world.evidence.disposal))
  }

  predicate HasIssue(a: Asset) {
    exists i :: 0 <= i < |a.log| && IssueAt(a, i)
  }

  /** `classify_lifecycle_issues` over the corrected transitions of one asset. */
  method ClassifyIssues(a: Asset) returns (found: bool)
    ensures found <==> HasIssue(a)
  {
    found := false;
    for i := 0 to |a.log|
      invariant found <==> exists j :: 0 <= j < i && IssueAt(a, j)
    {
      if IssueAt(a, i) { found := true; }
    }
  }

  function Step(s: System, e: Event): System
    requires Valid(s.asset)
  {
    match e
    case BeginTransition(sid, q) =>
      if PhaseOf(s, sid) != Idle || !StaticCheck(q) then s
      else Enter(s, sid, if q.claimed == InState(ON_HOLD) then Waiting(q) else Checked(q))
    case BeginFix(sid, q) =>
      if PhaseOf(s, sid) != Idle || q.cls != Transition then s else Enter(s, sid, FixWaiting(q))
    case Lock(sid) =>
      if s.lock.Some? then s
      else (match PhaseOf(s, sid)
            case Waiting(q) => Enter(s, sid, Locked(q)).(lock := Some(sid))
            case FixWaiting(q) => Enter(s, sid, FixLocked(q)).(lock := Some(sid))
            case _ => s)
    case ReadUnderLock(sid) =>
      (match PhaseOf(s, sid)
       case Locked(q) => if HoldCheck(s.asset.log, q) then Enter(s, sid, Read(q)) else Release(s, sid)
       case FixLocked(q) => if FixCheck(s.asset, q) then Enter(s, sid, FixRead(q)) else Release(s, sid)
       case _ => s)
    case Commit(sid) =>
      (match PhaseOf(s, sid)
       case Checked(q) =>
         if s.lock.Some? then s else Release(s, sid).(asset := ApplyChange(s.asset, q))
       case Read(q) => Release(s, sid).(asset := ApplyChange(s.asset, q))
       case FixRead(q) => Release(s, sid).(asset := ApplyFix(s.asset, q))
       case _ => s)
    case Abort(sid) => Release(s, sid)
    case Other(c) =>
      if c.Enlarge? || (s.lock.None? && !Lifecycling(c)) then s.(asset := Exec(s.asset, c)) else s
  }

  predicate Lifecycling(c: Command) {
    (c.Ordinary? && c.change.cls == Transition) || (c.Correction? && c.fix.cls == Transition)
  }

  /** What a session in flight may rely on. */
  predicate SessionOk(s: System, sid: Id, p: Phase) {
    match p
    case Idle => true
    case Checked(q) => StaticCheck(q) && q.claimed != InState(ON_HOLD)
    case Waiting(q) => StaticCheck(q) && q.claimed == InState(ON_HOLD)
    case Locked(q) => s.lock == Some(sid) && StaticCheck(q)
    case Read(q) => s.lock == Some(sid) && StaticCheck(q) && HoldCheck(s.asset.log, q)
    case FixWaiting(q) => q.cls == Transition
    case FixLocked(q) => s.lock == Some(sid) && q.cls == Transition
    case FixRead(q) => s.lock == Some(sid) && q.cls == Transition && FixCheckedBy(s.asset.log, q)
  }

  predicate FixCheckedBy(log: seq<Row>, q: Fix) {
    exists r :: 0 <= r < |log| && PriorEdge(log, q, r)
  }

  ghost predicate Inv(s: System) {
    && Valid(s.asset) && Legal(s.asset.log)
    && forall sid :: sid in s.sessions ==> SessionOk(s, sid, s.sessions[sid])
  }

  // ----- preservation

  lemma {:induction false} CheckedEdge(a: Asset, q: Change)
    requires Valid(a) && StaticCheck(q) && ChangeOutcome(a, q).Done?
    requires q.claimed == InState(ON_HOLD) ==> HoldCheck(a.log, q)
    ensures var p := LastOf(a.log, Transition, |a.log|);
            p.Some? && a.log[p.value].to.InState? && ValidEdge(a.log[p.value].to.state, q.to.state, a.log[p.value].from)
  {
    LatestIsLast(a.log, Transition, |a.log|, None);
    assert a.log[0].cls == Transition;
  }

  lemma {:induction false} ReadEdge(a: Asset, q: Change)
    requires Valid(a) && HoldCheck(a.log, q)
    ensures var p := LastOf(a.log, Transition, |a.log|);
            p.Some? && a.log[p.value].to.InState? && q.to.InState?
            && ValidEdge(a.log[p.value].to.state, q.to.state, a.log[p.value].from)
  {
    LatestIsLast(a.log, Transition, |a.log|, None);
  }

  lemma {:induction false} CheckedFixEdge(a: Asset, q: Fix)
    requires Valid(a) && q.cls == Transition && FixCheckedBy(a.log, q) && FixOutcome(a, q).Done?
    ensures FixEdge(a.log, q)
  {
    var r :| 0 <= r < |a.log| && PriorEdge(a.log, q, r);
    assert NamesLastBlock(a, q);
    LastBlockRoot(a, q, r);
    LatestIsLast(a.log, Transition, r, Some(r + 1));
  }

  /** While a session holds the lock, or when nothing is appended, its reading stays true. */
  lemma {:induction false} CommitKeepsInv(s: System, sid: Id, a': Asset)
    requires Inv(s) && (s.lock.None? || s.lock == Some(sid)) && Valid(a') && Legal(a'.log)
    ensures Inv(Release(s, sid).(asset := a'))
  {
    var s' := Release(s, sid).(asset := a');
    forall x | x in s'.sessions ensures SessionOk(s', x, s'.sessions[x]) {
      if x != sid { assert SessionOk(s, x, s.sessions[x]); }
    }
  }

  lemma {:induction false} OtherKeepsInv(s: System, c: Command)
    requires Inv(s)
    ensures Inv(Step(s, Other(c)))
  {
    var s' := Step(s, Other(c));
    ExecValid(s.asset, c);
    if c.Enlarge? || (s.lock.None? && !Lifecycling(c)) {
      match c
      case Ordinary(q) => ChangeKeepsLegal(s.asset, q);
      case Correction(q) => FixKeepsLegal(s.asset, q);
      case Enlarge(w) =>
    }
    forall x | x in s'.sessions ensures SessionOk(s', x, s'.sessions[x]) {
      assert SessionOk(s, x, s.sessions[x]);
    }
  }

  lemma {:induction false} CommitStep(s: System, sid: Id)
    requires Inv(s)
    ensures Inv(Step(s, Commit(sid)))
  {
    var p := PhaseOf(s, sid);
    assert SessionOk(s, sid, p);
    match p
    case Checked(q) =>
      if s.lock.None? {
        if ChangeOutcome(s.asset, q).Done? { CheckedEdge(s.asset, q); }
        ChangeKeepsLegal(s.asset, q);
        CommitKeepsInv(s, sid, ApplyChange(s.asset, q));
      }
    case Read(q) =>
      ReadEdge(s.asset, q);
      ChangeKeepsLegal(s.asset, q);
      CommitKeepsInv(s, sid, ApplyChange(s.asset, q));
    case FixRead(q) =>
      if FixOutcome(s.asset, q).Done? { CheckedFixEdge(s.asset, q); }
      FixKeepsLegal(s.asset, q);
      CommitKeepsInv(s, sid, ApplyFix(s.asset, q));
    case _ =>
  }

  /** What a step that commits nothing does to its own session and to the lock. */
  lemma {:induction false} QuietOwn(s: System, e: Event)
    requires Valid(s.asset) && !e.Commit? && !e.Other? && SessionOk(s, e.session, PhaseOf(s, e.session))
    ensures var s', sid := Step(s, e), e.session;
            && s'.asset == s.asset
            && SessionOk(s', sid, PhaseOf(s', sid))
            && (s'.lock == s.lock || (s.lock.None? && s'.lock == Some(sid)) || (s.lock == Some(sid) && s'.lock.None?))
            && forall x :: x != sid && x in s'.sessions ==> x in s.sessions && s'.sessions[x] == s.sessions[x]
  {}

  lemma {:induction false} QuietStep(s: System, e: Event)
    requires Inv(s) && !e.Commit? && !e.Other?
    ensures Inv(Step(s, e))
  {
    var s', sid := Step(s, e), e.session;
    assert SessionOk(s, sid, PhaseOf(s, sid));
    QuietOwn(s, e);
    forall x | x in s'.sessions && x != sid ensures SessionOk(s', x, s'.sessions[x]) {
      assert SessionOk(s, x, s.sessions[x]);
    }
  }

  /** Every interleaving of every kind of session keeps the recorded lifecycle legal. */
  lemma {:induction false} StepSafe(s: System, e: Event)
    requires Inv(s)
    ensures Inv(Step(s, e))
  {
    if e.Commit? {
      CommitStep(s, e.session);
    } else if e.Other? {
      OtherKeepsInv(s, e.command);
    } else {
      QuietStep(s, e);
    }
  }

  function RunEvents(s: System, es: seq<Event>): System
    requires Inv(s)
    decreases |es|
  {
    if es == [] then s else
    StepSafe(s, es[0]);
    RunEvents(Step(s, es[0]), es[1..])
  }

  // ----- the effective path

  /** Consecutive effective transitions chain up along legal edges. */
  ghost predicate LegalPath(path: seq<Row>) {
    && path != [] && path[0].from == Null && path[0].to == InState(RECEIVED)
    && forall i :: 0 < i < |path| ==> Hop(path, i)
  }

  predicate Hop(path: seq<Row>, i: int)
    requires 0 < i < |path|
  {
    path[i].from == path[i - 1].to && Edge(path[i - 1], path[i])
  }

  /** The effective transition before an effective one is the last row before its root. */
  lemma {:induction false} PreviousEffective(log: seq<Row>, x: nat, y: nat)
    requires Chain(log) && Keys(log) && x < y < |log|
    requires EffectiveAt(log, Transition, x) && EffectiveAt(log, Transition, y)
    requires forall z :: x < z < y ==> !EffectiveAt(log, Transition, z)
    ensures RootIndex(log, y) > 0 && LastOf(log, Transition, RootIndex(log, y)) == Some(x)
  {
    EffectiveIsBlockEnd(log, Transition, x);
    var r := RootIndex(log, y);
    if x >= r { BlockContiguous(log, y, x + 1); }
    LastIsEffective(log, Transition, r);
  }

  /** Positions in the effective list follow positions in the log. */
  lemma {:induction false} ShownAt(log: seq<Row>, k: Class, path: seq<Row>, i: nat) returns (x: nat)
    requires Chain(log) && Shows(log, k, path) && i < |path|
    ensures x < |log| && log[x] == path[i] && EffectiveAt(log, k, x) && path[i].version == x + 1
  {
    assert path[i] in path;
    x :| 0 <= x < |log| && log[x] == path[i];
  }

  lemma {:induction false} NoneBetween(log: seq<Row>, k: Class, path: seq<Row>, i: nat, x: nat, y: nat)
    requires Chain(log) && Shows(log, k, path) && 0 < i < |path|
    requires x < |log| && y < |log| && log[x] == path[i - 1] && log[y] == path[i]
    ensures x < y && forall z :: x < z < y ==> !EffectiveAt(log, k, z)
  {
    assert log[x].version <= log[y].version;
  }

  lemma {:induction false} HopHolds(a: Asset, path: seq<Row>, i: nat)
    requires Valid(a) && Legal(a.log) && Shows(a.log, Transition, path) && 0 < i < |path|
    ensures Hop(path, i)
  {
    var x := ShownAt(a.log, Transition, path, i - 1);
    var y := ShownAt(a.log, Transition, path, i);
    NoneBetween(a.log, Transition, path, i, x, y);
    PreviousEffective(a.log, x, y);
    var r := RootIndex(a.log, y);
    assert LegalAt(a.log, y);
    BlockPosition(a.log, y);
    assert Sourced(a.log, a.base, r);
  }

  lemma {:induction false} StartHolds(a: Asset, path: seq<Row>)
    requires Valid(a) && Shows(a.log, Transition, path)
    ensures path != [] && path[0].from == Null && path[0].to == InState(RECEIVED)
  {
    var log := a.log;
    if |log| > 1 { assert Link(log, 1) && TypedAt(log, a.world, 1); }
    assert TypedAt(log, a.world, 0);
    EffectiveIsBlockEnd(log, Transition, 0);
    var n :| 0 <= n < |path| && path[n] == log[0];
    var x := ShownAt(log, Transition, path, 0);
    assert path[0].version <= path[n].version;
  }

  /** In every reachable state the effective transitions form a legal path. */
  lemma {:induction false} EffectivePathLegal(a: Asset, path: seq<Row>)
    requires Valid(a) && Legal(a.log) && Shows(a.log, Transition, path)
    ensures LegalPath(path)
  {
    StartHolds(a, path);
    forall i | 0 < i < |path| ensures Hop(path, i) { HopHolds(a, path, i); }
  }

  /** Holds never nest: a hold is always entered from a state that is not a hold. */
  lemma {:induction false} HoldsDoNotNest(path: seq<Row>, i: nat)
    requires LegalPath(path) && i < |path| && path[i].to == InState(ON_HOLD)
    ensures i > 0 && path[i].from != InState(ON_HOLD)
    decreases i
  {
    assert i > 0 && Hop(path, i);
    if path[i].from == InState(ON_HOLD) { HoldsDoNotNest(path, i - 1); }
  }

  /** A hold is left only to the state it was entered from or to OUT_OF_SERVICE. */
  lemma {:induction false} HoldExit(path: seq<Row>, i: nat)
    requires LegalPath(path) && i + 1 < |path| && path[i].to == InState(ON_HOLD)
    ensures path[i + 1].to == path[i].from || path[i + 1].to == InState(OUT_OF_SERVICE)
    ensures path[i + 1].to != InState(ON_HOLD)
  {
    assert Hop(path, i + 1);
    HoldsDoNotNest(path, i);
  }

  lemma {:induction false} RetiredStops(path: seq<Row>, i: nat)
    requires LegalPath(path) && i + 1 < |path|
    ensures path[i].to != InState(RETIRED)
  {
    assert Hop(path, i + 1);
  }

  /** Nothing follows a retirement. */
  lemma {:induction false} RetiredIsLast(path: seq<Row>, i: nat)
    requires LegalPath(path) && i < |path| && path[i].to == InState(RETIRED)
    ensures i == |path| - 1
  {
    if i + 1 < |path| { RetiredStops(path, i); }
  }

  /** The graph read backwards: where each state may be entered from. */
  function Entrances(to: State): set<State> {
    match to
    case RECEIVED => {}
    case IN_STOCK => {RECEIVED, READY}
    case CONFIGURING => {IN_STOCK, OUT_OF_SERVICE}
    case READY => {CONFIGURING, DEPLOYED}
    case DEPLOYED => {READY}
    case ON_HOLD => {RECEIVED, IN_STOCK, CONFIGURING, READY, DEPLOYED}
    case OUT_OF_SERVICE => {DEPLOYED, ON_HOLD}
    case RETIRED => {IN_STOCK, OUT_OF_SERVICE}
  }

  /** A legal path enters a state only through these edges or back from a hold on it. */
  lemma {:induction false} EntryLaw(path: seq<Row>, i: nat)
    requires LegalPath(path) && 0 < i < |path|
    ensures var p, to := path[i - 1], path[i].to;
            && p.to.InState? && to.InState?
            && (p.to.state in Entrances(to.state) || (i > 1 && p.to == InState(ON_HOLD) && path[i - 2].to == to))
  {
    assert Hop(path, i);
    if path[i - 1].to == InState(ON_HOLD) {
      HoldsDoNotNest(path, i - 1);
      assert Hop(path, i - 1);
    }
  }

  /** Every edge of the graph can be taken, and a hold can return, from any such state. */
  lemma {:induction false} EdgesOpen(from: State, to: State, entered: Fact)
    ensures ValidEdge(from, to, entered) <==> from in Entrances(to) || (from == ON_HOLD && entered == InState(to))
  {
  }

  predicate Ready(f: Fact) {
    f == InState(READY) || f == InState(DEPLOYED)
  }

  /** Nothing is ready or deployed, or on hold from there, that was not configured before. */
  lemma {:induction false} ConfiguredFirst(path: seq<Row>, i: nat)
    requires LegalPath(path) && i < |path|
    requires Ready(path[i].to) || (path[i].to == InState(ON_HOLD) && Ready(path[i].from))
    ensures exists j :: 0 <= j < i && path[j].to == InState(CONFIGURING)
  {
    assert i > 0 && Hop(path, i);
    if path[i - 1].to != InState(CONFIGURING) { ConfiguredFirst(path, i - 1); }
  }

  /** DEPLOYED is entered only from READY, or back from a hold that was entered from it. */
  lemma {:induction false} DeployedFromReady(path: seq<Row>, i: nat)
    requires LegalPath(path) && i < |path| && path[i].to == InState(DEPLOYED)
    ensures i > 0 && (path[i - 1].to == InState(READY)
                      || (i > 1 && path[i - 1].to == InState(ON_HOLD) && path[i - 2].to == InState(DEPLOYED)))
  {
    EntryLaw(path, i);
  }

  // ----- legal requests get through

  /** The next transition follows an edge of the graph, or returns from a hold. */
  predicate NextIsLegal(log: seq<Row>, q: Change) {
    var p := LastOf(log, Transition, |log|);
    p.Some? && log[p.value].to.InState? && q.to.InState? && ValidEdge(log[p.value].to.state, q.to.state, log[p.value].from)
  }

  lemma {:induction false} LegalPassesChecks(a: Asset, q: Change)
    requires Valid(a) && q.cls == Transition && ChangeOutcome(a, q).Done? && NextIsLegal(a.log, q)
    ensures StaticCheck(q) && (q.claimed == InState(ON_HOLD) ==> HoldCheck(a.log, q))
  {
    LatestIsLast(a.log, Transition, |a.log|, None);
    assert q.claimed == Now(a, Transition);
  }

  lemma {:induction false} PlainCommits(s: System, sid: Id, q: Change)
    requires Valid(s.asset) && PhaseOf(s, sid) == Idle && s.lock.None? && StaticCheck(q) && q.claimed != InState(ON_HOLD)
    ensures var s1 := Step(s, BeginTransition(sid, q));
            Valid(s1.asset) && Step(s1, Commit(sid)).asset == ApplyChange(s.asset, q)
  {
  }

  lemma {:induction false} HoldEnters(s: System, sid: Id, q: Change)
    requires Valid(s.asset) && PhaseOf(s, sid) == Idle && s.lock.None? && StaticCheck(q) && q.claimed == InState(ON_HOLD)
    ensures var s2 := Enter(s, sid, Locked(q)).(lock := Some(sid));
            Valid(Step(s, BeginTransition(sid, q)).asset) && Step(Step(s, BeginTransition(sid, q)), Lock(sid)) == s2
  {
    var s1 := Enter(s, sid, Waiting(q));
    assert Step(s, BeginTransition(sid, q)) == s1 && PhaseOf(s1, sid) == Waiting(q);
  }

  lemma {:induction false} HoldLeaves(s: System, sid: Id, q: Change)
    requires Valid(s.asset) && PhaseOf(s, sid) == Locked(q) && HoldCheck(s.asset.log, q)
    ensures Valid(Step(s, ReadUnderLock(sid)).asset)
    ensures Step(Step(s, ReadUnderLock(sid)), Commit(sid)).asset == ApplyChange(s.asset, q)
  {
    var s1 := Enter(s, sid, Read(q));
    assert Step(s, ReadUnderLock(sid)) == s1 && PhaseOf(s1, sid) == Read(q);
  }

  lemma {:induction false} HoldCommits(s: System, sid: Id, q: Change)
    requires Valid(s.asset) && PhaseOf(s, sid) == Idle && s.lock.None? && StaticCheck(q) && q.claimed == InState(ON_HOLD)
    requires HoldCheck(s.asset.log, q)
    ensures var s1 := Step(s, BeginTransition(sid, q));
            Valid(s1.asset) &&
            var s2 := Step(s1, Lock(sid));
            Valid(s2.asset) &&
            var s3 := Step(s2, ReadUnderLock(sid));
            Valid(s3.asset) && Step(s3, Commit(sid)).asset == ApplyChange(s.asset, q)
  {
    HoldEnters(s, sid, q);
    HoldLeaves(Enter(s, sid, Locked(q)).(lock := Some(sid)), sid, q);
  }

  /** A legal request of an idle session, while no other session holds the asset, commits:
      after the static check, or on hold after lock and read. */
  lemma {:induction false} LegalTransitionCommits(s: System, sid: Id, q: Change)
    requires Inv(s) && PhaseOf(s, sid) == Idle && s.lock.None?
    requires q.cls == Transition && ChangeOutcome(s.asset, q).Done? && NextIsLegal(s.asset.log, q)
    ensures exists steps :: |steps| <= 4 && RunEvents(s, steps).asset == ApplyChange(s.asset, q)
  {
    LegalPassesChecks(s.asset, q);
    var begin, commit := BeginTransition(sid, q), Commit(sid);
    if q.claimed == InState(ON_HOLD) {
      HoldCommits(s, sid, q);
      RunFour(s, begin, Lock(sid), ReadUnderLock(sid), commit);
    } else {
      PlainCommits(s, sid, q);
      RunTwo(s, begin, commit);
    }
  }

  lemma {:induction false} RunTwo(s: System, a: Event, b: Event)
    requires Inv(s)
    ensures Valid(Step(s, a).asset) && RunEvents(s, [a, b]) == Step(Step(s, a), b)
  {
    StepSafe(s, a);
    var t := Step(s, a);
    StepSafe(t, b);
    assert [a, b][1..] == [b] && [b][1..] == [];
    assert RunEvents(Step(t, b), []) == Step(t, b);
    assert RunEvents(t, [b]) == Step(t, b);
  }

  lemma {:induction false} RunFour(s: System, a: Event, b: Event, c: Event, d: Event)
    requires Inv(s)
    ensures Valid(Step(s, a).asset) && Valid(Step(Step(s, a), b).asset) && Valid(Step(Step(Step(s, a), b), c).asset)
    ensures RunEvents(s, [a, b, c, d]) == Step(Step(Step(Step(s, a), b), c), d)
  {
    StepSafe(s, a);
    var t := Step(s, a);
    StepSafe(t, b);
    var u := Step(t, b);
    RunTwo(u, c, d);
    assert [a, b, c, d][1..] == [b, c, d] && [b, c, d][1..] == [c, d];
    assert RunEvents(t, [b, c, d]) == RunEvents(u, [c, d]);
  }

  /** The lifecycle check of the correction service never blocks a reachable asset. */
  lemma {:induction false} NoLifecycleIssue(a: Asset)
    requires Valid(a) && Legal(a.log)
    ensures !HasIssue(a)
  {
    forall i, r | 0 <= i < |a.log| && 0 <= r < |a.log| && a.log[i].cls == Transition && a.log[i].role == CORRECTED
      ensures !RootIssue(a, i, r)
    {
      NoRootIssue(a, i, r);
    }
  }

  lemma {:induction false} NoRootIssue(a: Asset, i: nat, r: nat)
    requires Valid(a) && Legal(a.log) && i < |a.log| && r < |a.log|
    requires a.log[i].cls == Transition && a.log[i].role == CORRECTED
    ensures !RootIssue(a, i, r)
  {
    if a.log[r].cls == Transition && a.log[i].root == Some(a.log[r].id) {
      BlockPosition(a.log, i);
      assert r == RootIndex(a.log, i);
      CorrectedHasPrior(a, i);
      LatestIsLast(a.log, Transition, r, Some(r + 1));
      assert LegalAt(a.log, i);
    }
  }

  lemma {:induction false} CorrectedHasPrior(a: Asset, i: nat)
    requires Valid(a) && i < |a.log| && a.log[i].cls == Transition && a.log[i].role == CORRECTED
    ensures RootIndex(a.log, i) > 0
  {
    BlockPosition(a.log, i);
    assert TypedAt(a.log, a.world, i) && TypedAt(a.log, a.world, RootIndex(a.log, i));
  }

  /** On valid histories the check finds exactly the corrected transitions that are off the
      graph: evidence is kept by the tables themselves. */
  lemma {:induction false} IssuesAreIllegal(a: Asset)
    requires Valid(a)
    ensures HasIssue(a) <==>
              exists i :: 0 <= i < |a.log| && a.log[i].cls == Transition && a.log[i].role == CORRECTED && !LegalAt(a.log, i)
  {
    forall i | 0 <= i < |a.log| && a.log[i].cls == Transition && a.log[i].role == CORRECTED
      ensures IssueAt(a, i) <==> !LegalAt(a.log, i)
    {
      IssueIsIllegal(a, i);
    }
  }

  lemma {:induction false} IssueIsIllegal(a: Asset, i: nat)
    requires Valid(a) && i < |a.log| && a.log[i].cls == Transition && a.log[i].role == CORRECTED
    ensures IssueAt(a, i) <==> !LegalAt(a.log, i)
  {
    var r := RootIndex(a.log, i);
    BlockPosition(a.log, i);
    CorrectedHasPrior(a, i);
    LatestIsLast(a.log, Transition, r, Some(r + 1));
    assert RootIssue(a, i, r) <==> !LegalAt(a.log, i);
    forall x | 0 <= x < |a.log| && RootIssue(a, i, x) ensures x == r { }
  }

  // ----- legal corrections get through

  lemma {:induction false} FixParts(a: Asset, q: Fix)
    requires |a.log| > 0 && q.cls == Transition && FixOutcome(a, q).Done?
    ensures q.expected == Some(a.version) && OrdinaryRow(a.log, Transition, q.root) && NamesLastBlock(a, q)
    ensures q.to == InState(RETIRED) ==> q.evidence.Some?
  {
  }

  lemma {:induction false} LastPriorEdge(log: seq<Row>, q: Fix)
    requires Chain(log) && Keys(log) && |log| > 0 && FixEdge(log, q)
    requires log[|log| - 1].cls == Transition && RootOf(log[|log| - 1]) == q.root
    ensures FixCheckedBy(log, q) && q.to.InState?
  {
    var r := RootIndex(log, |log| - 1);
    PriorOfLast(log);
    assert PriorEdge(log, q, r);
  }

  lemma {:induction false} RootOfLast(log: seq<Row>)
    requires Chain(log) && |log| > 0
    ensures var r := RootIndex(log, |log| - 1);
            && log[r].role == NONE && log[r].version == r + 1
            && log[r].cls == log[|log| - 1].cls && log[r].id == RootOf(log[|log| - 1])
  {
    BlockPosition(log, |log| - 1);
  }

  /** The root of the last block, and the transition that its correction starts from. */
  lemma {:induction false} PriorOfLast(log: seq<Row>)
    requires Chain(log) && Keys(log) && |log| > 0
    ensures var r := RootIndex(log, |log| - 1);
            && log[r].role == NONE && log[r].version == r + 1
            && log[r].cls == log[|log| - 1].cls && log[r].id == RootOf(log[|log| - 1])
            && Latest(log, Transition, Some(log[r].version)) == LastOf(log, Transition, r)
  {
    RootOfLast(log);
    var r := RootIndex(log, |log| - 1);
    LatestIsLast(log, Transition, r, Some(r + 1));
  }

  lemma {:induction false} FixPassesChecks(a: Asset, q: Fix)
    requires Valid(a) && Legal(a.log) && q.cls == Transition && FixOutcome(a, q).Done? && FixEdge(a.log, q)
    ensures FixCheck(a, q)
  {
    FixParts(a, q);
    LastPriorEdge(a.log, q);
    NoLifecycleIssue(a);
  }

  lemma {:induction false} FixEnters(s: System, sid: Id, q: Fix)
    requires Valid(s.asset) && PhaseOf(s, sid) == Idle && s.lock.None? && q.cls == Transition
    ensures var s2 := Enter(s, sid, FixLocked(q)).(lock := Some(sid));
            Valid(Step(s, BeginFix(sid, q)).asset) && Step(Step(s, BeginFix(sid, q)), Lock(sid)) == s2
  {
    var s1 := Enter(s, sid, FixWaiting(q));
    assert Step(s, BeginFix(sid, q)) == s1 && PhaseOf(s1, sid) == FixWaiting(q);
  }

  lemma {:induction false} FixReads(s: System, sid: Id, q: Fix)
    requires Valid(s.asset) && PhaseOf(s, sid) == FixLocked(q) && FixCheck(s.asset, q)
    ensures Step(s, ReadUnderLock(sid)) == Enter(s, sid, FixRead(q))
  {
  }

  lemma {:induction false} FixWrites(s: System, sid: Id, q: Fix)
    requires Valid(s.asset) && PhaseOf(s, sid) == FixRead(q)
    ensures Step(s, Commit(sid)).asset == ApplyFix(s.asset, q)
  {
  }

  /** A legal correction of a transition, while no other session holds the asset, commits. */
  lemma {:induction false} LegalFixCommits(s: System, sid: Id, q: Fix)
    requires Inv(s) && PhaseOf(s, sid) == Idle && s.lock.None?
    requires q.cls == Transition && FixOutcome(s.asset, q).Done? && FixEdge(s.asset.log, q)
    ensures exists steps :: |steps| <= 4 && RunEvents(s, steps).asset == ApplyFix(s.asset, q)
  {
    FixPassesChecks(s.asset, q);
    FixEnters(s, sid, q);
    var locked := Enter(s, sid, FixLocked(q)).(lock := Some(sid));
    FixReads(locked, sid, q);
    FixWrites(Enter(locked, sid, FixRead(q)), sid, q);
    RunFour(s, BeginFix(sid, q), Lock(sid), ReadUnderLock(sid), Commit(sid));
  }

  /** A newly received asset, with no session on its way. */
  lemma {:induction false} CreationSafe(id: Id, reason: string, actor: Id, at: Time, b: Baseline, w: World)
    requires b.owner.Ref?
    ensures Inv(System(Created(id, reason, actor, at, b, w), None, map[]))
  {
    CreatedValid(id, reason, actor, at, b, w);
    var log := Created(id, reason, actor, at, b, w).log;
    forall i | 0 <= i < |log| ensures LegalAt(log, i) { assert RootIndex(log, 0) == 0; }
  }

  /** From creation on, any interleaving leaves an asset whose effective transitions form a
      legal path and whose corrected transitions raise no issue. */
  lemma {:induction false} SessionsSafe(s: System, es: seq<Event>)
    requires Inv(s)
    ensures var s' := RunEvents(s, es);
            && Inv(s') && !HasIssue(s'.asset)
            && forall path :: Shows(s'.asset.log, Transition, path) ==> LegalPath(path)
    decreases |es|
  {
    if es == [] {
      NoLifecycleIssue(s.asset);
      forall path | Shows(s.asset.log, Transition, path) ensures LegalPath(path) {
        EffectivePathLegal(s.asset, path);
      }
    } else {
      StepSafe(s, es[0]);
      SessionsSafe(Step(s, es[0]), es[1..]);
    }
  }
}
