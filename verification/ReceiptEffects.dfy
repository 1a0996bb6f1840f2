/** What a caller of the receipt operations gets: which requests are accepted, and what is in
    force afterwards, field by field. */
module ReceiptEffects {
  import opened HistoryRows
  import opened RecordPairs
  import opened Disagreements
  import opened ReceiptBook
  import opened ReceiptInvariant
  import opened ReceiptSteps
  import ReceiptSafety
  import ReceiptRuns

  // ----- corrections of receipt lines

  lemma {:induction false} CorrectShape(b: Book, x: Fix, b': Book)
    requires Correct(b, x) == Some(b')
    ensures FixAccepted(b, x) && b'.lines == b.lines && b'.fixes == WithFix(b, x).fixes
  {
  }

  /** Afterwards the corrected line has the supplied value in every field that was supplied
      and its former value in every other; all other lines are as they were. */
  lemma {:induction false} CorrectionTakesEffect(b: Book, x: Fix, b': Book)
    requires Correct(b, x) == Some(b')
    ensures b'.lines == b.lines && x.line < |b.lines|
    ensures var was, now, e := NowValue(b, x.line), NowValue(b', x.line), x.edit;
            && now.poLine == (if e.poLine.Some? then e.poLine.value else was.poLine)
            && now.item == (if e.item.Some? then e.item.value else was.item)
            && now.quantity == (if e.quantity.Some? then e.quantity.value else was.quantity)
            && now.uom == (if e.uom.Some? then e.uom.value else was.uom)
            && now.condition == (if e.condition.Some? then e.condition.value else was.condition)
            && now.packing == (if e.packing.Some? then e.packing.value else was.packing)
            && now.observed == (if e.observed.Some? then e.observed.value else was.observed)
            && now.serialized == was.serialized && now.asset == was.asset
    ensures forall r: nat :: r < |b.lines| && r != x.line ==> NowValue(b', r) == NowValue(b, r)
  {
    CorrectShape(b, x, b');
    forall r: nat | r < |b.lines|
      ensures NowValue(b', r) == if r == x.line then Edited(NowValue(b, x.line), x.edit) else NowValue(b, r)
    {
      ReceiptSafety.PairedValue(b, x, r);
    }
  }

  /** The two rows that remain: what was in force, then what replaces it, both of the next
      generation, with the performer, the time and the trimmed reason of the request. */
  lemma {:induction false} CorrectionLeavesPair(b: Book, x: Fix, b': Book)
    requires Correct(b, x) == Some(b')
    ensures x.line < |b.lines| && b'.lines == b.lines
    ensures var n := |b.fixes|;
            && |b'.fixes| == n + 2 && b'.fixes[..n] == b.fixes
            && b'.fixes[n].role == REVERSAL && b'.fixes[n].value == NowValue(b, x.line)
            && b'.fixes[n + 1].role == CORRECTED && b'.fixes[n + 1].value == NowValue(b', x.line)
            && (forall i :: n <= i < n + 2 ==>
                  && b'.fixes[i].root == x.line && b'.fixes[i].generation == x.expected + 1
                  && b'.fixes[i].stamp == Stamp(x.stamp.actor, x.stamp.occurredAt, Normalize(x.stamp.reason), x.stamp.transaction))
  {
    CorrectShape(b, x, b');
    ReceiptSafety.PairedValue(b, x, x.line);
    PairRows(b, x);
  }

  lemma {:induction false} PairRows(b: Book, x: Fix)
    requires FixAccepted(b, x)
    ensures var fixes, n := WithFix(b, x).fixes, |b.fixes|;
            && |fixes| == n + 2 && fixes[..n] == b.fixes
            && fixes[n].role == REVERSAL && fixes[n].value == NowValue(b, x.line)
            && fixes[n + 1].role == CORRECTED && fixes[n + 1].value == Edited(NowValue(b, x.line), x.edit)
            && (forall i :: n <= i < n + 2 ==>
                  && fixes[i].root == x.line && fixes[i].generation == x.expected + 1
                  && fixes[i].stamp == Stamp(x.stamp.actor, x.stamp.occurredAt, Normalize(x.stamp.reason), x.stamp.transaction))
  {
  }

  /** The conditions that the service and its guards name for a correction. */
  predicate Acceptable(b: Book, x: Fix) {
    && b.reconciled && x.line < |b.lines| && x.expected == Generation(b.fixes, x.line)
    && 0 < |Normalize(x.stamp.reason)| <= 4000
    && var r, v := b.lines[x.line], Edited(NowValue(b, x.line), x.edit);
       && (r.serialized ==> v.quantity == 1.0 && v.item == r.item)
       && (!r.serialized ==> v.observed.None? && !x.serialized)
       && (r.asset.Some? ==> v.observed.None?)
       && (v.packing.Some? ==> b.packing)
       && (r.observed.Some? ==> v.observed.Some? && v.observed.value in b.registry.serials)
       && (v.poLine.Some? && v.poLine != NowValue(b, x.line).poLine ==>
             b.hasOrder && b.issued && v.poLine.value < |b.poLines| && !HasSuccessor(b, v.poLine.value))
       && (v.poLine.Some? && !IsBound(b, v.poLine.value) ==> x.expectedPo == Generation(b.poFixes, v.poLine.value))
  }

  lemma {:induction false} PreparedAccepted(b: Book, x: Fix)
    requires forall po: nat :: IsBound(b, po) ==> b.hasOrder
    requires x.line < |b.lines| && NowValue(b, x.line).poLine.Some? ==> IsBound(b, NowValue(b, x.line).poLine.value)
    ensures Prepared(b, x).Some? <==> Acceptable(b, x)
  {
    NormalizeIdempotent(x.stamp.reason);
  }

  /** In every reachable state a correction is accepted exactly under these conditions; the
      evaluation that follows adds none. */
  lemma {:induction false} CorrectionAccepted(b: Book, x: Fix)
    requires Inv(b)
    ensures Correct(b, x).Some? <==> Acceptable(b, x)
  {
    ReceiptRuns.GoesThrough(b, x);
    if x.line < |b.lines| { OrderGiven(b, x); }
    BoundHasOrder(b);
    PreparedAccepted(b, x);
  }

  lemma {:induction false} BoundHasOrder(b: Book)
    requires TablesOk(b)
    ensures forall po: nat :: IsBound(b, po) ==> b.hasOrder
  {
  }

  lemma {:induction false} OrderGiven(b: Book, x: Fix)
    requires Inv(b) && x.line < |b.lines|
    ensures NowValue(b, x.line).poLine.Some? ==> IsBound(b, NowValue(b, x.line).poLine.value)
  {
    ReceiptSafety.BoundIffLines(b);
    assert ReceiptSafety.PoBound(b, Effective(b.lines, b.fixes, x.line).poLine);
  }

  // ----- evaluations read what is in force

  /** The line that an evaluation sees is the line in force: the corrected facts, the asset
      of its capture, the owner of the identifier it now names, and its readability. */
  lemma {:induction false} EvaluatesInForce(b: Book, r: nat)
    requires Inv(b) && r < |b.lines|
    ensures var v := NowValue(b, r);
            NowLines(b)[r] == Received(
              r, v.poLine, v.item, v.quantity, v.uom, v.condition, v.packing, v.asset,
              if b.lines[r].observed.Some? then Lookup(b.registry, v.observed) else None,
              v.asset.Some? && v.asset.value in b.registry.unreadable)
  {
    assert Fits(b, r);
    ReceiptSafety.SourceIsHead(b, r);
  }

  // ----- capture

  /** A captured line carries the facts of the request; a known identifier is noted as seen
      again, any other unit becomes a new asset under its identifier. */
  lemma {:induction false} ReceiveTakesEffect(b: Book, x: Capture, b': Book)
    requires Receive(b, x) == Some(b')
    ensures |b'.lines| == |b.lines| + 1 && b'.lines[..|b.lines|] == b.lines && b'.reconciled == b.reconciled
    ensures var v := b'.lines[|b.lines|];
            && v.poLine == x.poLine && v.item == x.item && v.quantity == x.quantity && v.uom == x.uom
            && v.condition == x.condition && v.packing == x.packing && v.serialized == x.serialized
            && (x.unit.None? ==> v.asset.None? && v.observed.None? && b'.registry == b.registry)
            && (x.unit.Some? ==>
                  var u, g, g' := x.unit.value, b.registry, b'.registry;
                  if u.serial.Some? && u.serial.value in g.serials
                  then v.asset.None? && v.observed == u.serial && g' == g
                  else
                    && v.asset == Some(u.asset) && v.observed.None? && g'.assets == g.assets + {u.asset}
                    && (if u.serial.Some? then g'.serials == g.serials[u.serial.value := u.asset] && g'.unreadable == g.unreadable
                        else g'.serials == g.serials && g'.unreadable == g.unreadable + {u.asset}))
    ensures x.poLine.Some? ==> IsBound(b', x.poLine.value)
    ensures b.observations <= b'.observations
  {
    if x.poLine.Some? && !IsBound(b, x.poLine.value) {
      assert b'.bindings[|b.bindings|].poLine == x.poLine.value;
    }
  }

  /** A capture is accepted exactly while the receipt is open, the order line it names is an
      active one at the expected generation, and the unit fits the item. */
  lemma {:induction false} ReceiveAccepted(b: Book, x: Capture)
    ensures Receive(b, x).Some? <==>
              && !b.reconciled && (x.serialized <==> x.unit.Some?) && (x.serialized ==> x.quantity == 1.0)
              && (x.packing.Some? ==> b.packing)
              && (x.poLine.Some? ==>
                    && b.hasOrder && b.issued && x.poLine.value < |b.poLines| && !HasSuccessor(b, x.poLine.value)
                    && (IsBound(b, x.poLine.value) || Generation(b.poFixes, x.poLine.value) == x.expectedPo))
              && (x.unit.Some? && !(x.unit.value.serial.Some? && x.unit.value.serial.value in b.registry.serials) ==>
                    x.unit.value.asset !in b.registry.assets)
  {
  }

  // ----- operators and procurement

  /** An operator's decision shows as the status of the exception and as its last event. */
  lemma {:induction false} OperateTakesEffect(b: Book, o: nat, was: Status, to: Status, note: Id, actor: Id, at: Time, b': Book)
    requires Operate(b, o, was, to, note, actor, at) == Some(b')
    ensures o < |b.observations| == |b'.observations| && b' == b.(observations := b'.observations)
    ensures var p, q := b.observations[o], b'.observations[o];
            && p.status == was && q.status == to && q.key == p.key && q.origin == p.origin && q.eventSeq == |q.events|
            && |q.events| == |p.events| + 1 && q.events[..|p.events|] == p.events
            && var e := q.events[|p.events|];
               && e.from == was && e.to == to && e.sequence == |q.events| && e.note == Said(note)
               && e.actor == actor && e.occurredAt == at && e.evaluation.None?
    ensures forall i :: 0 <= i < |b.observations| && i != o ==> b'.observations[i] == b.observations[i]
  {
  }

  /** A procurement correction puts the new value in force for its line and no other. */
  lemma {:induction false} AmendTakesEffect(b: Book, po: nat, expected: int, value: PoValue, stamp: Stamp, b': Book)
    requires Amend(b, po, expected, value, stamp) == Some(b')
    ensures po < |b.poLines| && b'.poLines == b.poLines && Live(b', po) == value
    ensures Generation(b'.poFixes, po) == expected + 1
    ensures forall i: nat :: i < |b.poLines| && i != po ==> Live(b', i) == Live(b, i)
  {
    forall i: nat | i < |b.poLines|
      ensures Live(b', i) == if i == po then value else Live(b, i)
      ensures i == po ==> Generation(b'.poFixes, i) == expected + 1
    {
      HeadAfterPair(PoRoots(b.poLines), b.poFixes, po, value, Normalized(stamp), None, None, i);
    }
  }
}
