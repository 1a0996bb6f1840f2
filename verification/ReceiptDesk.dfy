/** The receiving and correction services, working on the tables in place.  A method that
    returns false has rolled its transaction back. */
module ReceiptDesk {
  import opened HistoryRows
  import opened Sorting
  import opened RecordPairs
  import opened Disagreements
  import opened ReceiptBook
  import opened ReceiptViews
  import opened ReceiptInvariant
  import opened ReceiptSteps
  import ReceiptEvaluation
  import ReceiptSafety
  import ReceiptCapture
  import ReceiptRuns

  class Desk {
    var book: Book

    constructor (b: Book)
      requires ReceiptRuns.Starts(b)
      ensures book == b && Valid()
    {
      ReceiptRuns.StartKeeps(b);
      book := b;
    }

    ghost predicate Valid()
      reads this
    {
      Inv(book)
    }

    // ----- comparators

    /** `_bind_comparator`; `cause` is the correction that selects the line. */
    method BindComparator(po: nat, expected: int, cause: Option<nat>) returns (ok: bool)
      modifies this
      ensures ok <==> Bind(old(book), po, expected, cause).Some?
      ensures book == if ok then Bind(old(book), po, expected, cause).value else old(book)
      ensures ok <==> && old(book).hasOrder
                      && (IsBound(old(book), po)
                          || (old(book).issued && po < |old(book).poLines| && !HasSuccessor(old(book), po)
                              && Generation(old(book).poFixes, po) == expected))
    {
      if !book.hasOrder {
        ok := false;
      } else {
        var exists' := FindBinding(po);
        if exists' {
          ok := true;
        } else {
          var source := LatestSource(po);
          var actual := if source.Some? then book.poFixes[source.value].generation else 0;
          ok := actual == expected && Admissible(book, po);
          if ok {
            book := book.(bindings := book.bindings + [Binding(po, expected, source, cause)]);
          }
        }
      }
    }

    method FindBinding(po: nat) returns (found: bool)
      ensures found <==> IsBound(book, po)
    {
      found := false;
      for i := 0 to |book.bindings|
        invariant found <==> exists k :: 0 <= k < i && book.bindings[k].poLine == po
      {
        found := found || book.bindings[i].poLine == po;
      }
    }

    /** The CORRECTED row of the highest generation. */
    method LatestSource(po: nat) returns (at: Option<nat>)
      ensures at == Head(book.poFixes, po)
    {
      at := None;
      var log := book.poFixes;
      for i := 0 to |log|
        invariant at == Head(log[..i], po)
      {
        assert log[..i + 1][..i] == log[..i];
        if log[i].root == po && log[i].role == CORRECTED
           && (at.None? || log[i].generation > log[at.value].generation) {
          at := Some(i);
        }
      }
      assert log[..|log|] == log;
    }

    // ----- capture

    /** `add_line`: the comparator, the line, its asset and its exceptions. */
    method RecordLine(x: Capture) returns (ok: bool)
      requires Valid()
      modifies this
      ensures Valid() && (ok <==> Receive(old(book), x).Some?)
      ensures book == if ok then Receive(old(book), x).value else old(book)
      ensures book == Take(old(book), DoReceive(x)) && (ok <==> Outcome(old(book), DoReceive(x)).Some?)
    {
      ghost var saved := book;
      ok := WriteLine(x);
      if ok { ReceiptCapture.ReceiveKeeps(saved, x); }
    }

    /** `_record_line`. */
    method WriteLine(x: Capture) returns (ok: bool)
      modifies this
      ensures ok <==> Receive(old(book), x).Some?
      ensures book == if ok then Receive(old(book), x).value else old(book)
    {
      var saved := book;
      ok := !book.reconciled;
      if ok && x.poLine.Some? { ok := BindComparator(x.poLine.value, x.expectedPo, None); }
      ok := ok && CaptureAdmitted(saved, x);
      if ok {
        ghost var bound := book;
        var conflict := if x.unit.Some? then Lookup(book.registry, x.unit.value.serial) else None;
        var v := LineValue(x.poLine, x.item, x.quantity, x.uom, x.condition, x.packing, x.serialized,
                           if x.unit.Some? && conflict.None? then Some(x.unit.value.asset) else None,
                           if conflict.Some? then x.unit.value.serial else None);
        var l := Received(|book.lines|, v.poLine, v.item, v.quantity, v.uom, v.condition, v.packing, v.asset, conflict,
                          x.unit.Some? && x.unit.value.serial.None?);
        var raised := LineExceptions(l, LiveComparator(book, x.poLine));
        book := book.(lines := book.lines + [v],
                      registry := if v.asset.Some? then Registered(book.registry, x.unit.value) else book.registry,
                      observations := book.observations + raised);
        assert v == LineFrom(bound, x) && l == Captured(bound, |bound.lines|, x);
        assert book == LineAdded(bound, x);
      } else {
        book := saved;
      }
    }

    /** `_line_exceptions`. */
    method LineExceptions(l: Received, c: Option<Expectation>) returns (raised: seq<Observation>)
      requires l.poLine.Some? <==> c.Some?
      ensures var kinds := Kinds(l, c);
              raised == OpenAll(seq(|kinds|, i requires 0 <= i < |kinds| => LineKey(l, kinds[i])), None)
    {
      var kinds := KindsOf(l, c);
      raised := Raise(l, kinds);
    }

    /** `_exception` for each type of a line. */
    method Raise(l: Received, kinds: seq<ExceptionType>) returns (raised: seq<Observation>)
      ensures raised == OpenAll(seq(|kinds|, i requires 0 <= i < |kinds| => LineKey(l, kinds[i])), None)
    {
      raised := [];
      for i := 0 to |kinds|
        invariant |raised| == i
        invariant forall k :: 0 <= k < i ==> raised[k] == Open(LineKey(l, kinds[k]), None)
      {
        raised := raised + [Open(LineKey(l, kinds[i]), None)];
      }
    }

    /** `_reconcile`: closes the population and sums it against live expectations. */
    method ReconcileReceipt() returns (ok: bool)
      requires Valid()
      modifies this
      ensures Valid() && (ok <==> !old(book).reconciled) && (ok <==> Reconcile(old(book)).Some?) && book.reconciled
      ensures book == if ok then Reconcile(old(book)).value else old(book)
    {
      ok := !book.reconciled;
      if ok {
        ghost var was := book;
        var keys := QuantityExceptions(book);
        book := book.(reconciled := true, observations := book.observations + OpenAll(keys, None));
        ReceiptCapture.ReconcileKeeps(was, book);
      }
    }

    method QuantityExceptions(b: Book) returns (keys: seq<Key>)
      ensures keys == Shortfalls(b, |b.bindings|)
    {
      keys := [];
      var lines := NowLines(b);
      for i := 0 to |b.bindings|
        invariant keys == Shortfalls(b, i)
      {
        var live := LiveComparator(b, Some(b.bindings[i].poLine));
        if live.Some? {
          var total, mismatched := UnitSum(lines, live.value.poLine, live.value.uom);
          if !mismatched && total != live.value.quantity {
            keys := keys + [TotalKey(if total < live.value.quantity then SHORT else OVER, live.value.poLine)];
          }
        }
      }
    }

    method UnitSum(lines: seq<Received>, poLine: nat, uom: Id) returns (total: real, mismatched: bool)
      ensures total == UnitTotal(lines, poLine, uom) && mismatched == Mixed(lines, poLine, uom)
    {
      total, mismatched := 0.0, false;
      for i := 0 to |lines|
        invariant total == UnitTotal(lines[..i], poLine, uom)
        invariant mismatched <==> exists k :: 0 <= k < i && lines[k].poLine == Some(poLine) && lines[k].uom != uom
      {
        assert lines[..i + 1][..i] == lines[..i];
        if lines[i].poLine == Some(poLine) {
          if lines[i].uom == uom { total := total + lines[i].quantity; } else { mismatched := true; }
        }
      }
      assert lines[..|lines|] == lines;
    }

    // ----- re-evaluation

    /** `_evaluate` of the correction at position `cause`. */
    method Evaluate(cause: nat) returns (ok: bool)
      requires cause < |book.fixes| && Referenced(book)
      modifies this
      ensures ok <==> CanEvaluate(old(book))
      ensures book == if ok then Evaluated(old(book), cause) else old(book)
    {
      var b := book;
      var lines, pins := Population();
      var desired := Classify(SeenAll(b, lines), PinnedAll(b, pins));
      ok := desired.Some?;
      if ok {
        var judged, links, claimed, unique := Judge(b, cause, desired.value);
        ok := unique;
        if ok {
          var keys := Unclaimed(b, desired.value, claimed);
          var c := b.fixes[cause];
          var raised := OpenAll(keys, Some(|b.evaluations|));
          var more := NewLinks(|b.observations|, |keys|);
          var e := Evaluation(c.root, cause, c.generation, NextSequence(b.evaluations), c.stamp.actor, c.stamp.occurredAt,
                              c.stamp.transaction, lines, pins, links + more);
          book := b.(evaluations := b.evaluations + [e], observations := judged + raised);
        }
      }
    }

    /** The sources that an evaluation pins: every line's head and every comparator. */
    method Population() returns (lines: seq<LineSource>, pins: seq<ExpectationSource>)
      ensures lines == Sources(book) && pins == Pins(book)
    {
      lines, pins := [], [];
      for i := 0 to |book.lines|
        invariant |lines| == i && forall k :: 0 <= k < i ==> lines[k] == SourceOf(book, k)
      {
        var g := Generation(book.fixes, i);
        lines := lines + [LineSource(i, g, if g == 0 then None else Head(book.fixes, i))];
      }
      for i := 0 to |book.bindings|
        invariant |pins| == i
        invariant forall k :: 0 <= k < i ==>
                    pins[k] == ExpectationSource(book.bindings[k].poLine, book.bindings[k].generation, book.bindings[k].source)
      {
        pins := pins + [ExpectationSource(book.bindings[i].poLine, book.bindings[i].generation, book.bindings[i].source)];
      }
    }

    /** The loop over observations: support, duplicate check, link, automatic resolution. */
    method Judge(b: Book, cause: nat, desired: seq<Key>)
      returns (judged: seq<Observation>, links: seq<Link>, claimed: set<Key>, unique: bool)
      requires cause < |b.fixes|
      ensures unique <==> NoDuplicate(b, desired)
      ensures judged == JudgedAll(b, cause, desired) && links == OldLinks(b, desired)
      ensures forall k :: k in claimed <==> Claimed(b, desired, |b.observations|, k)
    {
      judged, links, claimed, unique := [], [], {}, true;
      var c := b.fixes[cause];
      for i := 0 to |b.observations|
        invariant |judged| == i && forall n :: 0 <= n < i ==> judged[n] == Judged(b, cause, desired, n)
        invariant |links| == i
        invariant forall n :: 0 <= n < i ==> links[n] == Link(n, Supported(b, desired, n), b.observations[n].eventSeq)
        invariant forall k :: k in claimed <==> Claimed(b, desired, i, k)
        invariant unique <==> DistinctUpTo(b, desired, i)
      {
        var o := b.observations[i];
        var supported := Prior(b.evaluations, i) != Some(false) && o.key in desired;
        DistinctNext(b, desired, i);
        ClaimedNext(b, desired, i);
        if supported {
          unique := unique && o.key !in claimed;
          claimed := claimed + {o.key};
        }
        links := links + [Link(i, supported, o.eventSeq)];
        if !supported && o.status in {OPEN, ACKNOWLEDGED} {
          judged := judged + [WithEvent(o, RESOLVED, Superseded(c.pair), c.stamp.actor, c.stamp.occurredAt, Some(|b.evaluations|))];
        } else {
          judged := judged + [o];
        }
      }
    }

    /** The loop over the disagreements that no observation claims. */
    method Unclaimed(b: Book, desired: seq<Key>, claimed: set<Key>) returns (keys: seq<Key>)
      requires forall k :: k in claimed <==> Claimed(b, desired, |b.observations|, k)
      ensures keys == Uncovered(b, desired, |desired|)
    {
      keys := [];
      for i := 0 to |desired|
        invariant keys == Uncovered(b, desired, i)
      {
        if desired[i] !in claimed { keys := keys + [desired[i]]; }
      }
    }

    // ----- corrections

    /** `correct_receipt_line`.  The checks of the source that cannot fail here are asserted. */
    method CorrectReceiptLine(x: Fix) returns (ok: bool)
      requires Valid()
      modifies this
      ensures Valid() && (ok <==> Correct(old(book), x).Some?)
      ensures book == if ok then Correct(old(book), x).value else old(book)
      ensures ok ==> Complete(book, |old(book).fixes| + 1)
    {
      var saved := book;
      ReceiptRuns.Healthy(saved);
      assert !Anomalous(saved.lines, saved.fixes, x.line) && AllHeld(saved);
      ok := Prepare(x);
      if ok {
        ReceiptSafety.CorrectReady(saved, x, book);
        var done := Evaluate(|saved.fixes| + 1);
        assert done;
      }
    }

    /** The pair and the comparator of a correction. */
    method Prepare(x: Fix) returns (ok: bool)
      modifies this
      ensures ok <==> Prepared(old(book), x).Some?
      ensures book == if ok then Prepared(old(book), x).value else old(book)
    {
      var saved := book;
      ok := FixAccepted(book, x);
      if ok {
        InsertPair(x);
        var v := Edited(NowValue(saved, x.line), x.edit);
        if v.poLine.Some? { ok := BindComparator(v.poLine.value, x.expectedPo, Some(|saved.fixes| + 1)); }
        if !ok { book := saved; }
      }
    }

    /** `_pair`: the effective values are repeated, then replaced. */
    method InsertPair(x: Fix)
      requires x.line < |book.lines|
      modifies this
      ensures book == WithFix(old(book), x)
    {
      var head := NowValue(book, x.line);
      var replacement := Edited(head, x.edit);
      var g := Generation(book.fixes, x.line) + 1;
      var pair, stamp := |book.fixes|, Normalized(x.stamp);
      var reversal := Entry(x.line, pair, g, REVERSAL, head, Conflict(book, x.line, head), stamp);
      var corrected := Entry(x.line, pair, g, CORRECTED, replacement, Conflict(book, x.line, replacement), stamp);
      book := book.(fixes := book.fixes + [reversal, corrected]);
    }

    /** `transition_exception` for an operator: one more event, and the status it names. */
    method TransitionException(o: nat, expected: Status, to: Status, note: Id, actor: Id, at: Time) returns (ok: bool)
      requires Valid()
      modifies this
      ensures Valid()
      ensures ok <==> o < |old(book).observations| && LegalEdge(expected, to) && old(book).observations[o].status == expected
      ensures book == if ok then Operate(old(book), o, expected, to, note, actor, at).value else old(book)
    {
      ok := LegalEdge(expected, to) && o < |book.observations| && book.observations[o].status == expected;
      if ok {
        ReceiptSafety.OperateKeeps(book, o, expected, to, note, actor, at);
        var row := Decided(book.observations[o], to, note, actor, at);
        book := book.(observations := book.observations[o := row]);
      }
    }

    method Decided(row: Observation, to: Status, note: Id, actor: Id, at: Time) returns (r: Observation)
      ensures r == WithEvent(row, to, Said(note), actor, at, None)
    {
      var event := StatusEvent(|row.events| + 1, row.status, to, Said(note), actor, at, None);
      r := row.(status := to, eventSeq := event.sequence, events := row.events + [event]);
    }

    /** `create_receipt`, after its header: comparators, lines and reconciliation in one
        transaction give what the single calls give one after the other. */
    method CreateReceipt(targets: seq<(nat, int)>, lines: seq<Capture>, reconcile: bool) returns (ok: bool)
      requires Valid() && !book.reconciled
      modifies this
      ensures Valid()
      ensures ok <==> AllAccepted(old(book), Calls(targets, lines, reconcile))
      ensures book == if ok then Run(old(book), Calls(targets, lines, reconcile)) else old(book)
    {
      var saved := book;
      ok := BindAll(targets);
      RunsJoin(saved, Binds(targets), Receives(lines));
      RunsJoin(saved, Binds(targets) + Receives(lines), Closes(reconcile));
      if ok {
        ok := RecordAll(lines);
        if ok && reconcile {
          ok := ReconcileReceipt();
        }
      }
      if !ok { book := saved; }
    }

    method BindAll(targets: seq<(nat, int)>) returns (ok: bool)
      requires Valid() && !book.reconciled
      modifies this
      ensures ok <==> AllAccepted(old(book), Binds(targets))
      ensures ok ==> book == Run(old(book), Binds(targets)) && Valid() && !book.reconciled
    {
      ghost var calls := Binds(targets);
      ok := true;
      var i := 0;
      while i < |targets| && ok
        invariant i <= |targets| && ok == AllAccepted(old(book), calls[..i])
        invariant ok ==> book == Run(old(book), calls[..i]) && Valid() && !book.reconciled
        decreases |targets| - i
      {
        NextCall(old(book), calls, i);
        KeepsBinding(book, targets[i].0, targets[i].1);
        ok := BindComparator(targets[i].0, targets[i].1, None);
        i := i + 1;
      }
      if ok { assert calls[..i] == calls; } else { Refused(old(book), calls, i); }
    }

    method RecordAll(lines: seq<Capture>) returns (ok: bool)
      requires Valid()
      modifies this
      ensures ok <==> AllAccepted(old(book), Receives(lines))
      ensures ok ==> book == Run(old(book), Receives(lines))
      ensures Valid()
    {
      ghost var calls := Receives(lines);
      ok := true;
      var i := 0;
      while i < |lines| && ok
        invariant i <= |lines| && ok == AllAccepted(old(book), calls[..i]) && Valid()
        invariant ok ==> book == Run(old(book), calls[..i])
        decreases |lines| - i
      {
        NextCall(old(book), calls, i);
        ok := RecordLine(lines[i]);
        i := i + 1;
      }
      if ok { assert calls[..i] == calls; } else { Refused(old(book), calls, i); }
    }
  }

  lemma {:induction false} KeepsBinding(b: Book, po: nat, expected: int)
    requires Inv(b) && !b.reconciled
    ensures Bind(b, po, expected, None).Some? ==>
              Inv(Bind(b, po, expected, None).value) && !Bind(b, po, expected, None).value.reconciled
  {
    if Bind(b, po, expected, None).Some? { ReceiptCapture.BindKeeps(b, po, expected); }
  }

  function Binds(targets: seq<(nat, int)>): seq<Step> {
    seq(|targets|, i requires 0 <= i < |targets| => DoBind(targets[i].0, targets[i].1))
  }

  function Receives(lines: seq<Capture>): seq<Step> {
    seq(|lines|, i requires 0 <= i < |lines| => DoReceive(lines[i]))
  }

  function Closes(reconcile: bool): seq<Step> {
    if reconcile then [DoReconcile] else []
  }

  /** The single calls that a receipt creation amounts to. */
  function Calls(targets: seq<(nat, int)>, lines: seq<Capture>, reconcile: bool): seq<Step> {
    Binds(targets) + Receives(lines) + Closes(reconcile)
  }

  /** Every one of the calls is accepted in its turn. */
  ghost predicate AllAccepted(b: Book, steps: seq<Step>) {
    steps == [] ||
    var n := |steps| - 1;
    AllAccepted(b, steps[..n]) && Outcome(Run(b, steps[..n]), steps[n]).Some?
  }

  lemma {:induction false} NextCall(b: Book, steps: seq<Step>, i: nat)
    requires i < |steps|
    ensures AllAccepted(b, steps[..i + 1]) <==> AllAccepted(b, steps[..i]) && Outcome(Run(b, steps[..i]), steps[i]).Some?
    ensures Run(b, steps[..i + 1]) == Take(Run(b, steps[..i]), steps[i])
  {
    assert steps[..i + 1][..i] == steps[..i];
  }

  lemma {:induction false} Refused(b: Book, steps: seq<Step>, n: nat)
    requires n <= |steps| && !AllAccepted(b, steps[..n])
    ensures !AllAccepted(b, steps)
    decreases |steps| - n
  {
    if n < |steps| {
      NextCall(b, steps, n);
      Refused(b, steps, n + 1);
    } else {
      assert steps[..n] == steps;
    }
  }

  lemma {:induction false} RunsJoin(b: Book, xs: seq<Step>, ys: seq<Step>)
    ensures Run(b, xs + ys) == Run(Run(b, xs), ys)
    ensures AllAccepted(b, xs + ys) <==> AllAccepted(b, xs) && AllAccepted(Run(b, xs), ys)
  {
    if ys == [] {
      assert xs + ys == xs;
    } else {
      var n := |ys| - 1;
      assert (xs + ys)[..|xs| + n] == xs + ys[..n];
      RunsJoin(b, xs, ys[..n]);
    }
  }

  // ----- the duplicate check

  ghost predicate DistinctUpTo(b: Book, desired: seq<Key>, n: nat)
    requires n <= |b.observations|
  {
    forall i, j :: 0 <= i < j < n && Supported(b, desired, i) && Supported(b, desired, j) ==>
                     b.observations[i].key != b.observations[j].key
  }

  lemma {:induction false} DistinctNext(b: Book, desired: seq<Key>, n: nat)
    requires n < |b.observations|
    ensures DistinctUpTo(b, desired, n + 1) <==>
              DistinctUpTo(b, desired, n) && (Supported(b, desired, n) ==> !Claimed(b, desired, n, b.observations[n].key))
  {
  }

  lemma {:induction false} ClaimedNext(b: Book, desired: seq<Key>, n: nat)
    requires n < |b.observations|
    ensures forall k :: Claimed(b, desired, n + 1, k) <==>
                          Claimed(b, desired, n, k) || (Supported(b, desired, n) && b.observations[n].key == k)
  {
    forall k | Claimed(b, desired, n, k) || (Supported(b, desired, n) && b.observations[n].key == k)
      ensures Claimed(b, desired, n + 1, k)
    {
      if Claimed(b, desired, n, k) {
        var i :| 0 <= i < n && b.observations[i].key == k && Supported(b, desired, i);
        assert 0 <= i < n + 1;
      }
    }
  }
}
