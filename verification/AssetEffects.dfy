/** What a caller of the asset operations gets: which requests are accepted, and which facts
    and projections are in force afterwards. */
module AssetEffects {
  import opened HistoryRows
  import opened HistoryViews
  import opened HistoryChain
  import opened AssetCommands

  /** The projection that shows fact `f` once row `id` has recorded it: the fact itself, and
      for an assignment the event that established it. */
  function Shown(k: Class, f: Fact, id: Id): Fact {
    if k == Assignment && f != Null then Ref(id) else f
  }

  lemma {:induction false} NowAppend(a: Asset, row: Row, k: Class)
    ensures FactAt(a.log + [row], k, a.base, |a.log| + 1) == if row.cls == k then row.to else Now(a, k)
  {
    LastOfAppend(a.log, row, k);
    assert forall i :: 0 <= i < |a.log| ==> (a.log + [row])[i] == a.log[i];
  }

  /** A committed change puts the requested target in force in its class, shows it in the
      projection, and leaves the facts and projections of the other classes alone. */
  lemma {:induction false} ChangeTakesEffect(a: Asset, q: Change)
    requires ChangeOutcome(a, q).Done?
    ensures var a' := ApplyChange(a, q);
            && a'.version == a.version + 1 && a'.base == a.base && a'.world == a.world
            && Now(a', q.cls) == q.to && Get(a'.current, q.cls) == Shown(q.cls, q.to, q.id)
            && (forall k :: k != q.cls ==> Now(a', k) == Now(a, k) && Get(a'.current, k) == Get(a.current, k))
  {
    var row := ChangeRow(a, q);
    var a' := ApplyChange(a, q);
    forall k ensures Now(a', k) == if k == q.cls then row.to else Now(a, k) { NowAppend(a, row, k); }
    forall k | k != q.cls ensures Get(a'.current, k) == Get(a.current, k) { }
  }

  /** The one row that a change appends. */
  lemma {:induction false} ChangeLeavesRow(a: Asset, q: Change)
    requires ChangeOutcome(a, q).Done?
    ensures var log := ApplyChange(a, q).log;
            && |log| == |a.log| + 1 && log[..|a.log|] == a.log && ChangeOutcome(a, q).row == log[|a.log|]
            && var row := log[|a.log|];
               && row.cls == q.cls && row.id == q.id && row.version == a.version + 1 && row.role == NONE
               && row.from == Now(a, q.cls) && row.to == q.to
               && row.reason == q.reason && row.actor == q.actor && row.occurredAt == q.occurredAt
               && row.evidence == (if q.cls == Transition then q.evidence else None)
  {
  }

  /** What the operations accept as a target: any state (the graph is the service's), a known
      location or none, a known party or none, a known party, a known assignee, or none where
      there is one. */
  predicate Reachable(w: World, k: Class, prior: Fact, to: Fact) {
    match k
    case Transition => to.InState?
    case Movement => to == Null || (to.Ref? && to.id in w.locations)
    case Custody => to == Null || (to.Ref? && to.id in w.parties)
    case Ownership => to.Ref? && to.id in w.parties
    case Assignment =>
      if to == Null then prior != Null
      else to.Assignee? && to.target in (match to.kind case ACTOR => w.actors case LOCATION => w.locations case PARTY => w.parties)
  }

  /** What a transition must show: disposal evidence for a retirement, linked evidence if any. */
  predicate Supported(w: World, k: Class, to: Fact, evidence: Option<Id>) {
    k == Transition ==>
      if to == InState(RETIRED) then evidence.Some? && evidence.value in w.evidence.disposal
      else evidence.Some? ==> evidence.value in w.evidence.linked || evidence.value in w.evidence.disposal
  }

  /** A change is accepted exactly at the expected version, from the claimed state, to a
      target of its class, with its evidence, under a new identity. */
  lemma {:induction false} ChangeAccepted(a: Asset, q: Change)
    ensures ChangeOutcome(a, q).Done? <==>
              && q.expected == Some(a.version) && a.version < MAX_VERSION
              && (q.cls == Transition ==> q.claimed == Now(a, Transition))
              && Reachable(a.world, q.cls, Now(a, q.cls), q.to) && Supported(a.world, q.cls, q.to, q.evidence)
              && (forall i :: 0 <= i < |a.log| && a.log[i].cls == q.cls ==> a.log[i].id != q.id)
  {
  }

  /** A committed correction puts the requested target in force in its class, as if the
      corrected operation had asked for it, and touches no other class. */
  lemma {:induction false} FixTakesEffect(a: Asset, q: Fix)
    requires |a.log| > 0 && FixOutcome(a, q).Done?
    ensures var a' := ApplyFix(a, q);
            && a'.version == a.version + 2 && a'.base == a.base && a'.world == a.world
            && Now(a', q.cls) == q.to && Get(a'.current, q.cls) == Shown(q.cls, q.to, q.corrected)
            && (forall k :: k != q.cls ==> Now(a', k) == Now(a, k) && Get(a'.current, k) == Get(a.current, k))
  {
    var rev, row := ReversalRow(a, q), CorrectedRow(a, q);
    var a' := ApplyFix(a, q);
    var mid := a.(log := a.log + [rev]);
    assert a'.log == mid.log + [row];
    forall k ensures Now(a', k) == if k == q.cls then row.to else Now(a, k) {
      NowAppend(a, rev, k);
      NowAppend(mid, row, k);
    }
    forall k | k != q.cls ensures Get(a'.current, k) == Get(a.current, k) { }
  }

  /** The two rows that a correction appends: the cancelled assertion as it was, then its
      replacement from the same starting fact, with the request's performer, time and reason. */
  lemma {:induction false} FixLeavesPair(a: Asset, q: Fix)
    requires |a.log| > 0 && FixOutcome(a, q).Done?
    ensures var log, n := ApplyFix(a, q).log, |a.log|;
            && |log| == n + 2 && log[..n] == a.log && FixOutcome(a, q).row == log[n + 1]
            && log[n].role == REVERSAL && log[n].version == a.version + 1 && log[n].id == q.reversal
            && log[n].from == a.log[n - 1].from && log[n].to == a.log[n - 1].to
            && log[n].occurredAt == a.log[n - 1].occurredAt && log[n].evidence == a.log[n - 1].evidence
            && log[n + 1].role == CORRECTED && log[n + 1].version == a.version + 2 && log[n + 1].id == q.corrected
            && log[n + 1].from == a.log[n - 1].from && log[n + 1].to == q.to
            && log[n + 1].occurredAt == (if q.occurredAt.Some? then q.occurredAt.value else a.log[n - 1].occurredAt)
            && log[n + 1].evidence == (if q.cls == Transition then q.evidence else None)
            && (forall i :: n <= i < n + 2 ==>
                  && log[i].cls == q.cls && log[i].root == Some(q.root) && log[i].pair == Some(q.pair)
                  && log[i].generation == a.log[n - 1].generation + 1 && log[i].actor == q.actor
                  && log[i].reason == Normalize(q.reason) && log[i].correctionAt == q.correctionAt)
  {
  }

  /** A correction is accepted exactly at the expected version, for the ordinary root of the
      last block, to a target of its class, with reason, time, evidence and new identities. */
  lemma {:induction false} FixAccepted(a: Asset, q: Fix)
    requires |a.log| > 0
    ensures FixOutcome(a, q).Done? <==>
              && q.expected == Some(a.version) && a.version + 2 <= MAX_VERSION
              && (exists i :: 0 <= i < |a.log| && a.log[i].cls == q.cls && a.log[i].id == q.root && a.log[i].role == NONE)
              && a.log[|a.log| - 1].cls == q.cls && RootOf(a.log[|a.log| - 1]) == q.root
              && (q.cls == Transition ==> a.log[|a.log| - 1].from != Null)
              && Reachable(a.world, q.cls, a.log[|a.log| - 1].from, q.to) && Supported(a.world, q.cls, q.to, q.evidence)
              && 1 <= |Normalize(q.reason)| <= 4000 && q.correctionAt.Some? && q.reversal != q.corrected
              && (forall i :: 0 <= i < |a.log| && a.log[i].cls == q.cls ==>
                    a.log[i].id != q.reversal && a.log[i].id != q.corrected && a.log[i].pair != Some(q.pair))
  {
    if i :| 0 <= i < |a.log| && a.log[i].cls == q.cls && a.log[i].id == q.root && a.log[i].role == NONE {
      assert IdTaken(a.log, q.cls, q.root);
    }
  }
}
