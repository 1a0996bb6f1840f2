/** What holds of a receipt between transactions. */
module ReceiptInvariant {
  import opened HistoryRows
  import opened RecordPairs
  import opened Disagreements
  import opened ReceiptBook
  import opened ReceiptViews
  import opened ReceiptStable

  /** No evaluation has retired the observation. */
  ghost predicate Alive(b: Book, o: nat) {
    !RetiredBefore(b, o, |b.evaluations| + 1)
  }

  /** The disagreements that ought to be on record. */
  function Want(b: Book): seq<Key>
    requires Referenced(b)
  {
    if b.reconciled then Found(NowLines(b), NowExpectations(b)) else AllLineKeys(NowLines(b), NowExpectations(b))
  }

  predicate Flowing(o: Observation, evaluations: nat) {
    && o.eventSeq == |o.events|
    && o.status == (if o.events == [] then OPEN else o.events[|o.events| - 1].to)
    && (forall i :: 0 <= i < |o.events| ==> EventFlows(o.events, i, evaluations))
    && (o.origin.Some? ==> o.origin.value < evaluations)
  }

  predicate EventFlows(events: seq<StatusEvent>, i: nat, evaluations: nat)
    requires i < |events|
  {
    && events[i].sequence == i + 1
    && events[i].from == (if i == 0 then OPEN else events[i - 1].to)
    && LegalEdge(events[i].from, events[i].to)
    && (events[i].evaluation.Some? ==> events[i].evaluation.value < evaluations)
  }

  /** The comparator stands for the live value of its line. */
  predicate PinOk(b: Book, p: Binding) {
    && p.poLine < |b.poLines| && p.generation == Generation(b.poFixes, p.poLine) && p.source == Head(b.poFixes, p.poLine)
    && (p.introducedBy.Some? ==> p.introducedBy.value < |b.fixes| && p.introducedBy.value % 2 == 1)
  }

  ghost predicate PinsOk(b: Book) {
    && (forall i :: 0 <= i < |b.bindings| ==> PinOk(b, b.bindings[i]))
    && (forall i, j :: 0 <= i < j < |b.bindings| ==> b.bindings[i].poLine != b.bindings[j].poLine)
  }

  /** What corrections may never change of a captured line, and what they must respect: its
      identity, one unit of the captured item when serialized, no conflict where an asset was
      created, a known identifier where one was seen, packing counts only with a reference. */
  predicate Fits(b: Book, r: nat)
    requires r < |b.lines|
  {
    var was, now := b.lines[r], Effective(b.lines, b.fixes, r);
    && now.serialized == was.serialized && now.asset == was.asset
    && (was.serialized ==> now.quantity == 1.0 && now.item == was.item)
    && (!was.serialized ==> now.observed.None?)
    && (was.asset.Some? ==> now.observed.None?)
    && (now.packing.Some? ==> b.packing)
    && (was.observed.Some? ==> Lookup(b.registry, now.observed).Some?)
    && (var h := Head(b.fixes, r);
        h.Some? ==> b.fixes[h.value].derived == if was.observed.Some? then Lookup(b.registry, now.observed) else None)
  }

  ghost predicate Flow(b: Book) {
    forall o :: 0 <= o < |b.observations| ==> Flowing(b.observations[o], |b.evaluations|)
  }

  ghost predicate TablesOk(b: Book) {
    && Paired(PoRoots(b.poLines), b.poFixes) && Paired(b.lines, b.fixes) && Numbered(b)
    && (forall r :: 0 <= r < |b.lines| ==> LineKnown(b.registry, b.lines[r]) && Fits(b, r))
    && Flow(b) && b.registry.unreadable <= b.registry.assets
    && (!b.reconciled ==> b.fixes == [])
    && (!b.hasOrder ==> b.bindings == [])
  }

  /** One evaluation is free of anomalies, and its rows are where they were put. */
  ghost predicate EvaluationOk(b: Book, at: nat)
    requires at < |b.evaluations|
  {
    var e := b.evaluations[at];
    && Held(b, at) && PinsExist(b, e) && e.correction < |b.fixes| && Matches(b, e.correction, e)
    && (forall i :: 0 <= i < |e.links| ==> LinkOk(b, e, i))
  }

  predicate LinkOk(b: Book, e: Evaluation, i: nat)
    requires i < |e.links|
  {
    e.links[i].exception == i && i < |b.observations| && e.links[i].prior <= |b.observations[i].events|
  }

  ghost predicate AllEvaluationsOk(b: Book) {
    forall at :: 0 <= at < |b.evaluations| ==> EvaluationOk(b, at)
  }

  /** Observations that are alive never share a key. */
  ghost predicate AliveDistinct(b: Book) {
    forall i, j :: 0 <= i < j < |b.observations| && Alive(b, i) && Alive(b, j) ==>
                     b.observations[i].key != b.observations[j].key
  }

  ghost predicate AliveWith(b: Book, k: Key) {
    exists o :: 0 <= o < |b.observations| && Alive(b, o) && b.observations[o].key == k
  }

  /** Observations alive and disagreements wanted match one to one. */
  ghost predicate Exact(b: Book)
    requires Referenced(b)
  {
    && AliveDistinct(b)
    && (forall k :: k in Want(b) <==> AliveWith(b, k))
  }

  ghost predicate Steady(b: Book) {
    TablesOk(b) && PinsOk(b) && AllEvaluationsOk(b) && Referenced(b) && Bound(NowLines(b), NowExpectations(b))
  }

  ghost predicate Inv(b: Book) {
    Steady(b) && |b.fixes| == 2 * |b.evaluations| && Exact(b)
  }

  /** A correction pair is in place and its evaluation is not. */
  ghost predicate Mid(b: Book) {
    Steady(b) && |b.fixes| == 2 * |b.evaluations| + 2 && b.reconciled && AliveDistinct(b)
  }

  // ----- consequences

  /** The support flag of the latest link tells whether the observation is alive. */
  lemma {:induction false} PriorTells(b: Book, o: nat, n: nat)
    requires Numbered(b) && AllEvaluationsOk(b) && n <= |b.evaluations|
    ensures Prior(b.evaluations[..n], o) == Some(false) <==> RetiredBefore(b, o, n + 1)
  {
    if n > 0 {
      PriorTells(b, o, n - 1);
      var e := b.evaluations[n - 1];
      assert b.evaluations[..n][..n - 1] == b.evaluations[..n - 1];
      assert b.evaluations[..n][n - 1] == e;
      LinkAt(b, n - 1, o);
      RetiredNext(b, o, n);
    }
  }

  lemma {:induction false} LinkAt(b: Book, at: nat, o: nat)
    requires Numbered(b) && AllEvaluationsOk(b) && at < |b.evaluations|
    ensures var links := b.evaluations[at].links;
            && LinkOf(links, o) == (if o < |links| then Some(links[o]) else None)
            && (o < |links| && links[o].supported ==> !RetiredBefore(b, o, at + 1))
  {
    var e := b.evaluations[at];
    assert EvaluationOk(b, at);
    LinkAtPrefix(b, e, o, |e.links|);
    assert e.links[..|e.links|] == e.links;
    if o < |e.links| { assert LinkOk(b, e, o); }
  }

  lemma {:induction false} LinkAtPrefix(b: Book, e: Evaluation, o: nat, n: nat)
    requires n <= |e.links| && forall i :: 0 <= i < |e.links| ==> LinkOk(b, e, i)
    ensures LinkOf(e.links[..n], o) == if o < n then Some(e.links[o]) else None
  {
    if n > 0 {
      assert LinkOk(b, e, n - 1);
      assert e.links[..n][..n - 1] == e.links[..n - 1];
      LinkAtPrefix(b, e, o, n - 1);
    }
  }

  lemma {:induction false} RetiredNext(b: Book, o: nat, n: nat)
    requires Numbered(b) && AllEvaluationsOk(b) && 0 < n <= |b.evaluations|
    ensures var links := b.evaluations[n - 1].links;
            RetiredBefore(b, o, n + 1) <==> RetiredBefore(b, o, n) || (o < |links| && !links[o].supported)
  {
    var links := b.evaluations[n - 1].links;
    assert EvaluationOk(b, n - 1);
    if RetiredBefore(b, o, n + 1) && !RetiredBefore(b, o, n) {
      var j, i :| 0 <= j < |b.evaluations| && 0 <= i < |b.evaluations[j].links| && b.evaluations[j].sequence < n + 1
                  && b.evaluations[j].links[i].exception == o && !b.evaluations[j].links[i].supported;
      assert j == n - 1;
      assert LinkOk(b, b.evaluations[j], i);
    }
    if o < |links| && !links[o].supported {
      assert LinkOk(b, b.evaluations[n - 1], o);
      assert b.evaluations[n - 1].links[o].exception == o;
    }
  }

  lemma {:induction false} PriorIsAlive(b: Book, o: nat)
    requires Numbered(b) && AllEvaluationsOk(b)
    ensures Prior(b.evaluations, o) == Some(false) <==> !Alive(b, o)
  {
    PriorTells(b, o, |b.evaluations|);
    assert b.evaluations[..|b.evaluations|] == b.evaluations;
  }

  /** Once bound, a purchase-order line reads the same live and pinned. */
  lemma {:induction false} PinnedIsLive(b: Book, i: nat)
    requires PinsOk(b) && Referenced(b) && i < |b.bindings|
    ensures var p := b.bindings[i];
            var v := Live(b, p.poLine);
            NowExpectations(b)[i] == Expectation(p.poLine, v.item, v.quantity, v.uom)
  {
    assert PinOk(b, b.bindings[i]);
  }

  lemma {:induction false} ExpectationsKeyed(b: Book)
    requires PinsOk(b) && Referenced(b)
    ensures Keyed(NowExpectations(b))
  {
    var exps := NowExpectations(b);
    forall i, j | 0 <= i < j < |exps| ensures exps[i].poLine != exps[j].poLine {
      assert b.bindings[i].poLine != b.bindings[j].poLine;
    }
  }

  lemma {:induction false} LinesNumbered(b: Book)
    ensures OneEach(NowLines(b))
  {
  }

  lemma {:induction false} LatestIsLast(o: Observation, n: nat, evaluations: nat)
    requires Flowing(o, evaluations) && n <= |o.events|
    ensures Latest(o.events[..n]) == if n == 0 then None else Some(o.events[n - 1])
  {
    if n > 0 {
      assert o.events[..n][..n - 1] == o.events[..n - 1];
      assert EventFlows(o.events, n - 1, evaluations);
      LatestIsLast(o, n - 1, evaluations);
      if n > 1 { assert EventFlows(o.events, n - 2, evaluations); }
    }
  }

  lemma {:induction false} EventAtIs(o: Observation, n: nat, s: int, evaluations: nat)
    requires Flowing(o, evaluations) && n <= |o.events|
    ensures EventAt(o.events[..n], s) == if 1 <= s <= n then Some(o.events[s - 1]) else None
  {
    if n > 0 {
      assert o.events[..n][..n - 1] == o.events[..n - 1];
      assert EventFlows(o.events, n - 1, evaluations);
      EventAtIs(o, n - 1, s, evaluations);
    }
  }

  /** The workflow view reports no such observation. */
  lemma {:induction false} FlowingIsHeld(o: Observation, evaluations: nat)
    requires Flowing(o, evaluations)
    ensures WorkflowHeld(o)
  {
    assert o.events[..|o.events|] == o.events;
    LatestIsLast(o, |o.events|, evaluations);
    forall i | 0 <= i < |o.events| ensures EventHeld(o.events, i) {
      assert EventFlows(o.events, i, evaluations);
      EventAtIs(o, |o.events|, i, evaluations);
    }
    if o.events != [] { assert EventFlows(o.events, |o.events| - 1, evaluations); }
  }

  /** Every CORRECTED row has its evaluation. */
  lemma {:induction false} PresentWhenNumbered(b: Book)
    requires TablesOk(b) && AllEvaluationsOk(b) && |b.fixes| == 2 * |b.evaluations|
    ensures EvaluationsPresent(b)
  {
    forall c | 0 <= c < |b.fixes| && b.fixes[c].role == CORRECTED
      ensures exists j :: 0 <= j < |b.evaluations| && b.evaluations[j].correction == c
      ensures forall j :: 0 <= j < |b.evaluations| && b.evaluations[j].correction == c ==> Matches(b, c, b.evaluations[j])
    {
      assert PairAt(b.lines, b.fixes, if c % 2 == 0 then c else c - 1);
      assert b.evaluations[c / 2].correction == c;
      assert EvaluationOk(b, c / 2);
    }
  }
}
