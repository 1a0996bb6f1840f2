/** Every step on a receipt keeps its invariant. */
module ReceiptSafety {
  import opened HistoryRows
  import opened Sorting
  import opened RecordPairs
  import opened Disagreements
  import opened ReceiptBook
  import opened ReceiptViews
  import opened ReceiptStable
  import opened ReceiptInvariant
  import opened ReceiptEvaluation
  import opened ReceiptSteps

  // ----- what is in force, through sources and directly

  lemma {:induction false} SourceIsHead(b: Book, r: nat)
    requires Paired(b.lines, b.fixes) && r < |b.lines|
    ensures SourceOf(b, r).source == Head(b.fixes, r)
  {
    var h := Head(b.fixes, r);
    if h.Some? { HeadHasGeneration(b.lines, b.fixes, h.value); }
  }

  lemma {:induction false} NowPo(b: Book, r: nat)
    requires Paired(b.lines, b.fixes) && r < |b.lines|
    ensures NowLines(b)[r].poLine == Effective(b.lines, b.fixes, r).poLine
  {
    SourceIsHead(b, r);
  }

  /** Every line in force names a bound comparator, if it names one. */
  ghost predicate LinesBound(b: Book) {
    forall r :: 0 <= r < |b.lines| ==> PoBound(b, Effective(b.lines, b.fixes, r).poLine)
  }

  predicate PoBound(b: Book, po: Option<nat>) {
    po.Some? ==> IsBound(b, po.value)
  }

  lemma {:induction false} ComparatorIffBound(b: Book, po: nat)
    requires Referenced(b)
    ensures Comparator(NowExpectations(b), po).Some? <==> IsBound(b, po)
  {
    var exps := NowExpectations(b);
    ComparatorFound(exps, po);
    forall i | 0 <= i < |exps| ensures exps[i].poLine == b.bindings[i].poLine { }
  }

  lemma {:induction false} BoundIffLines(b: Book)
    requires Referenced(b) && Paired(b.lines, b.fixes)
    ensures Bound(NowLines(b), NowExpectations(b)) <==> LinesBound(b)
  {
    forall r | 0 <= r < |b.lines|
      ensures HasComparator(NowLines(b)[r], NowExpectations(b)) <==> PoBound(b, Effective(b.lines, b.fixes, r).poLine)
    {
      NowPo(b, r);
      var po := Effective(b.lines, b.fixes, r).poLine;
      if po.Some? { ComparatorIffBound(b, po.value); }
    }
  }

  // ----- steps that leave the receipt's own tables alone

  /** Only the order, the registry or the events of observations move. */
  ghost predicate Quiet(b: Book, b': Book) {
    && Later(b, b') && b'.fixes == b.fixes && b'.bindings == b.bindings && b'.evaluations == b.evaluations
    && b'.reconciled == b.reconciled && b'.hasOrder == b.hasOrder && b'.packing == b.packing && |b'.observations| == |b.observations|
    && Paired(PoRoots(b'.poLines), b'.poFixes) && PinsOk(b') && Flow(b')
    && b'.registry.unreadable <= b'.registry.assets
  }

  lemma {:induction false} SightStays(b: Book, b': Book)
    requires Quiet(b, b') && Referenced(b) && PinsOk(b)
    requires forall r :: 0 <= r < |b.lines| ==> LineKnown(b.registry, b.lines[r])
    ensures Referenced(b') && NowLines(b') == NowLines(b) && NowExpectations(b') == NowExpectations(b)
  {
    assert Sources(b') == Sources(b) && Pins(b') == Pins(b);
    forall r | 0 <= r < |b.lines| ensures Seen(b', SourceOf(b, r)) == Seen(b, SourceOf(b, r)) {
      assert LineKnown(b.registry, b.lines[r]);
      SeenStays(b, b', SourceOf(b, r));
    }
    assert NowLines(b') == NowLines(b);
    forall i | 0 <= i < |b.bindings| ensures Pinned(b', Pins(b)[i]) == Pinned(b, Pins(b)[i]) {
      assert PinOk(b, b.bindings[i]);
    }
    assert NowExpectations(b') == NowExpectations(b);
  }

  lemma {:induction false} QuietTables(b: Book, b': Book)
    requires Quiet(b, b') && TablesOk(b)
    ensures TablesOk(b')
  {
    forall r | 0 <= r < |b'.lines| ensures LineKnown(b'.registry, b'.lines[r]) && Fits(b', r) {
      assert LineKnown(b.registry, b.lines[r]) && Fits(b, r);
    }
  }

  lemma {:induction false} QuietEvaluations(b: Book, b': Book)
    requires Quiet(b, b') && TablesOk(b) && AllEvaluationsOk(b) && Numbered(b')
    ensures AllEvaluationsOk(b')
  {
    forall at | 0 <= at < |b'.evaluations| ensures EvaluationOk(b', at) { PastStays(b, b', at); }
  }

  lemma {:induction false} QuietExact(b: Book, b': Book)
    requires Quiet(b, b') && Referenced(b) && Referenced(b') && Exact(b)
    requires NowLines(b') == NowLines(b) && NowExpectations(b') == NowExpectations(b)
    ensures Exact(b')
  {
    forall o ensures Alive(b', o) <==> Alive(b, o) { }
    forall o | 0 <= o < |b.observations| ensures b'.observations[o].key == b.observations[o].key {
      assert Continues(b.observations[o], b'.observations[o], |b.evaluations|);
    }
    forall k ensures AliveWith(b', k) <==> AliveWith(b, k) { }
  }

  lemma {:induction false} QuietKeeps(b: Book, b': Book)
    requires Inv(b) && Quiet(b, b')
    ensures Inv(b')
  {
    SightStays(b, b');
    QuietTables(b, b');
    QuietEvaluations(b, b');
    QuietExact(b, b');
  }

  lemma {:induction false} OperateKeeps(b: Book, o: nat, was: Status, to: Status, note: Id, actor: Id, at: Time)
    requires Inv(b) && Operate(b, o, was, to, note, actor, at).Some?
    ensures Inv(Operate(b, o, was, to, note, actor, at).value)
  {
    var b' := Operate(b, o, was, to, note, actor, at).value;
    forall i | 0 <= i < |b.observations|
      ensures Continues(b.observations[i], b'.observations[i], |b.evaluations|) && Flowing(b'.observations[i], |b.evaluations|)
    {
      assert Flowing(b.observations[i], |b.evaluations|);
      if i == o { EventContinues(b.observations[o], to, Said(note), actor, at, |b.evaluations|); }
    }
    forall i | 0 <= i < |b'.bindings| ensures PinOk(b', b'.bindings[i]) { assert PinOk(b, b.bindings[i]); }
    QuietKeeps(b, b');
  }

  lemma {:induction false} EventContinues(o: Observation, to: Status, note: Note, actor: Id, at: Time, n: nat)
    requires Flowing(o, n) && LegalEdge(o.status, to)
    ensures Continues(o, WithEvent(o, to, note, actor, at, None), n) && Flowing(WithEvent(o, to, note, actor, at, None), n)
  {
    var o' := WithEvent(o, to, note, actor, at, None);
    assert o'.events[..|o.events|] == o.events;
    forall i | 0 <= i < |o'.events| ensures EventFlows(o'.events, i, n) {
      if i < |o.events| { assert EventFlows(o.events, i, n); }
    }
  }

  lemma {:induction false} RegisterKeeps(b: Book, u: Unit)
    requires Inv(b) && New(b.registry, u)
    ensures Inv(Register(b, u).value)
  {
    var b' := Register(b, u).value;
    forall i | 0 <= i < |b'.bindings| ensures PinOk(b', b'.bindings[i]) { assert PinOk(b, b.bindings[i]); }
    QuietKeeps(b, b');
  }

  /** A bound line cannot be corrected, so its pin stays at its live head. */
  lemma {:induction false} AmendKeeps(b: Book, po: nat, expected: int, value: PoValue, stamp: Stamp)
    requires Inv(b) && Amend(b, po, expected, value, stamp).Some?
    ensures Inv(Amend(b, po, expected, value, stamp).value)
  {
    var b' := Amend(b, po, expected, value, stamp).value;
    var roots := PoRoots(b.poLines);
    PairAppends(roots, b.poFixes, po, value, Normalized(stamp), None, None);
    forall i | 0 <= i < |b'.bindings| ensures PinOk(b', b'.bindings[i]) {
      assert PinOk(b, b.bindings[i]);
      HeadAfterPair(roots, b.poFixes, po, value, Normalized(stamp), None, None, b.bindings[i].poLine);
    }
    QuietKeeps(b, b');
  }

  lemma {:induction false} SupersedeKeeps(b: Book, po: nat, value: PoValue)
    requires Inv(b) && Supersede(b, po, value).Some?
    ensures Inv(Supersede(b, po, value).value)
  {
    var b' := Supersede(b, po, value).value;
    RootAppends(PoRoots(b.poLines), b.poFixes, value);
    assert PoRoots(b'.poLines) == PoRoots(b.poLines) + [value];
    forall i | 0 <= i < |b'.bindings| ensures PinOk(b', b'.bindings[i]) { assert PinOk(b, b.bindings[i]); }
    QuietKeeps(b, b');
  }

  // ----- correction

  lemma {:induction false} PairedTables(b: Book, x: Fix)
    requires TablesOk(b) && FixAccepted(b, x)
    ensures TablesOk(WithFix(b, x))
  {
    var p := WithFix(b, x);
    var v := Edited(NowValue(b, x.line), x.edit);
    var was, now := Conflict(b, x.line, NowValue(b, x.line)), Conflict(b, x.line, v);
    PairAppends(b.lines, b.fixes, x.line, v, Normalized(x.stamp), was, now);
    forall r | 0 <= r < |p.lines| ensures LineKnown(p.registry, p.lines[r]) && Fits(p, r) {
      assert LineKnown(b.registry, b.lines[r]) && Fits(b, r);
      HeadAfterPair(b.lines, b.fixes, x.line, v, Normalized(x.stamp), was, now, r);
    }
  }

  lemma {:induction false} PairedValue(b: Book, x: Fix, r: nat)
    requires FixAccepted(b, x) && r < |b.lines|
    ensures var p := WithFix(b, x);
            Effective(p.lines, p.fixes, r) == if r == x.line then Edited(NowValue(b, x.line), x.edit) else Effective(b.lines, b.fixes, r)
  {
    var v := Edited(NowValue(b, x.line), x.edit);
    HeadAfterPair(b.lines, b.fixes, x.line, v, Normalized(x.stamp), Conflict(b, x.line, NowValue(b, x.line)), Conflict(b, x.line, v), r);
  }

  /** Binding adds at most one comparator, pinned at the live head. */
  lemma {:induction false} BindPins(b: Book, po: nat, expected: int, cause: Option<nat>)
    requires PinsOk(b) && Bind(b, po, expected, cause).Some?
    requires cause.Some? ==> cause.value < |b.fixes| && cause.value % 2 == 1
    ensures var b' := Bind(b, po, expected, cause).value;
            && PinsOk(b') && IsBound(b', po) && b' == b.(bindings := b'.bindings) && b.bindings <= b'.bindings
            && (forall i :: |b.bindings| <= i < |b'.bindings| ==> b'.bindings[i].introducedBy == cause)
  {
    var b' := Bind(b, po, expected, cause).value;
    if !IsBound(b, po) {
      assert b'.bindings[|b.bindings|].poLine == po;
      forall i | 0 <= i < |b'.bindings| ensures PinOk(b', b'.bindings[i]) {
        if i < |b.bindings| { assert PinOk(b, b.bindings[i]); }
      }
    }
  }

  /** What a correction has in place before it evaluates. */
  lemma {:induction false} PreparedShape(b: Book, x: Fix)
    requires Inv(b) && Prepared(b, x).Some?
    ensures var p := Prepared(b, x).value;
            && p == WithFix(b, x).(bindings := p.bindings) && b.bindings <= p.bindings && PinsOk(p)
            && PoBound(p, Edited(NowValue(b, x.line), x.edit).poLine)
            && (forall i :: |b.bindings| <= i < |p.bindings| ==> p.bindings[i].introducedBy == Some(|b.fixes| + 1))
  {
    var q := WithFix(b, x);
    forall i | 0 <= i < |q.bindings| ensures PinOk(q, q.bindings[i]) { assert PinOk(b, b.bindings[i]); }
    var v := Edited(NowValue(b, x.line), x.edit);
    if v.poLine.Some? { BindPins(q, v.poLine.value, x.expectedPo, Some(|b.fixes| + 1)); }
  }

  lemma {:induction false} PreparedLater(b: Book, x: Fix)
    requires Inv(b) && Prepared(b, x).Some?
    ensures var p := Prepared(b, x).value;
            Later(b, p) && Numbered(p) && TablesOk(p) && Referenced(p) && |p.fixes| == 2 * |p.evaluations| + 2
  {
    var p := Prepared(b, x).value;
    PreparedShape(b, x);
    PairedTables(b, x);
    assert TablesOk(p) by {
      var q := WithFix(b, x);
      forall r | 0 <= r < |p.lines| ensures LineKnown(p.registry, p.lines[r]) && Fits(p, r) {
        assert LineKnown(q.registry, q.lines[r]) && Fits(q, r);
      }
    }
    forall i | 0 <= i < |p.bindings| ensures p.bindings[i].poLine < |p.poLines| { assert PinOk(p, p.bindings[i]); }
    forall i | |b.bindings| <= i < |p.bindings| ensures Introduced(b, p.bindings[i]) { }
  }

  lemma {:induction false} PreparedBound(b: Book, x: Fix)
    requires Inv(b) && Prepared(b, x).Some? && Referenced(Prepared(b, x).value) && Paired(b.lines, Prepared(b, x).value.fixes)
    ensures var p := Prepared(b, x).value; Bound(NowLines(p), NowExpectations(p))
  {
    var p := Prepared(b, x).value;
    PreparedShape(b, x);
    BoundIffLines(b);
    forall r | 0 <= r < |p.lines| ensures PoBound(p, Effective(p.lines, p.fixes, r).poLine) {
      PairedValue(b, x, r);
      if r != x.line { BoundGrows(b, p, Effective(b.lines, b.fixes, r).poLine); }
    }
    BoundIffLines(p);
  }

  lemma {:induction false} BoundGrows(b: Book, b': Book, po: Option<nat>)
    requires b.bindings <= b'.bindings && PoBound(b, po)
    ensures PoBound(b', po)
  {
    if po.Some? {
      var i :| 0 <= i < |b.bindings| && b.bindings[i].poLine == po.value;
      assert b'.bindings[i].poLine == po.value;
    }
  }

  lemma {:induction false} PreparedEvaluations(b: Book, x: Fix)
    requires Inv(b) && Prepared(b, x).Some?
    ensures AllEvaluationsOk(Prepared(b, x).value) && AliveDistinct(Prepared(b, x).value)
  {
    var p := Prepared(b, x).value;
    PreparedShape(b, x);
    PreparedLater(b, x);
    forall at | 0 <= at < |p.evaluations| ensures EvaluationOk(p, at) { PastStays(b, p, at); }
    assert p.observations == b.observations && p.evaluations == b.evaluations;
    forall o ensures Alive(p, o) <==> Alive(b, o) { }
  }

  lemma {:induction false} PreparedIsMid(b: Book, x: Fix)
    requires Inv(b) && Prepared(b, x).Some?
    ensures Mid(Prepared(b, x).value)
  {
    PreparedShape(b, x);
    PreparedLater(b, x);
    PreparedBound(b, x);
    PreparedEvaluations(b, x);
  }

  lemma {:induction false} CorrectIs(b: Book, x: Fix, p: Book)
    requires Prepared(b, x) == Some(p) && Referenced(p) && CanEvaluate(p) && |p.fixes| == |b.fixes| + 2
    ensures Correct(b, x) == Some(Evaluated(p, |p.fixes| - 1))
  {
  }

  lemma {:induction false} PreparedReady(b: Book, x: Fix, p: Book)
    requires Inv(b) && Prepared(b, x) == Some(p)
    ensures Mid(p) && CanEvaluate(p) && |p.fixes| == |b.fixes| + 2
  {
    PreparedIsMid(b, x);
    NeverRaises(p);
    PreparedShape(b, x);
  }

  /** A correction that passes its admission goes through: the evaluation cannot raise, the
      completeness check accepts it, and the invariant holds again. */
  lemma {:induction false} CorrectKeeps(b: Book, x: Fix, p: Book)
    requires Inv(b) && Prepared(b, x) == Some(p)
    ensures Correct(b, x).Some? && Inv(Correct(b, x).value) && Complete(Correct(b, x).value, |b.fixes| + 1)
  {
    PreparedReady(b, x, p);
    CorrectIs(b, x, p);
    MidCompletes(p);
  }

  /** All that the service needs to know once the pair and the comparator are in place. */
  lemma {:induction false} CorrectReady(b: Book, x: Fix, p: Book)
    requires Inv(b) && Prepared(b, x) == Some(p)
    ensures Referenced(p) && CanEvaluate(p) && |p.fixes| == |b.fixes| + 2
    ensures Correct(b, x) == Some(Evaluated(p, |b.fixes| + 1))
    ensures Inv(Evaluated(p, |b.fixes| + 1)) && Complete(Evaluated(p, |b.fixes| + 1), |b.fixes| + 1)
  {
    PreparedReady(b, x, p);
    CorrectIs(b, x, p);
    MidCompletes(p);
  }

  lemma {:induction false} MidCompletes(p: Book)
    requires Mid(p)
    ensures Inv(Evaluated(p, |p.fixes| - 1)) && Complete(Evaluated(p, |p.fixes| - 1), |p.fixes| - 1)
  {
    var q := Evaluated(p, |p.fixes| - 1);
    var d := Desired(p);
    var x := Uncovered(p, d, |d|);
    DesiredOnce(p);
    SupportedDiffer(p, d);
    OpensUncovered(p, d, x);
    EvaluatedIsMade(p, d, x);
    EvaluationKeeps(p, q, d, x);
    EvaluationIsComplete(p, q, d, x);
  }
}
