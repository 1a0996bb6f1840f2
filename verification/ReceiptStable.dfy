/** A past evaluation stays as it was judged, whatever is appended later. */
module ReceiptStable {
  import opened HistoryRows
  import opened RecordPairs
  import opened Disagreements
  import opened ReceiptBook
  import opened ReceiptViews

  /** Captured identities are known to the registry. */
  predicate LineKnown(g: Registry, v: LineValue) {
    (v.observed.Some? ==> v.observed.value in g.serials) && (v.asset.Some? ==> v.asset.value in g.assets)
  }

  /** The registry only gains new assets with new identifiers. */
  predicate RegistryLater(g: Registry, g': Registry) {
    && (forall s :: s in g.serials ==> s in g'.serials && g'.serials[s] == g.serials[s])
    && g.assets <= g'.assets
    && (forall a :: a in g.assets ==> (a in g'.unreadable <==> a in g.unreadable))
  }

  /** Evaluations are numbered from 1 and follow the pairs one by one. */
  ghost predicate Numbered(b: Book) {
    && 2 * |b.evaluations| <= |b.fixes|
    && forall j :: 0 <= j < |b.evaluations| ==> b.evaluations[j].sequence == j + 1 && b.evaluations[j].correction == 2 * j + 1
  }

  predicate SourceIn(s: LineSource, fixes: nat) {
    s.source.Some? ==> s.source.value < fixes
  }

  predicate PinIn(s: ExpectationSource, poFixes: nat) {
    s.source.Some? ==> s.source.value < poFixes
  }

  ghost predicate PinsExist(b: Book, e: Evaluation) {
    && (forall i :: 0 <= i < |e.lines| ==> SourceIn(e.lines[i], |b.fixes|))
    && (forall i :: 0 <= i < |e.expectations| ==> PinIn(e.expectations[i], |b.poFixes|))
  }

  /** Observation o' continues o: nothing recorded changes, and nothing new is dated back. */
  ghost predicate Continues(o: Observation, o': Observation, evaluations: nat) {
    && o'.key == o.key && o'.origin == o.origin && |o.events| <= |o'.events| && o'.events[..|o.events|] == o.events
    && forall i :: |o.events| <= i < |o'.events| ==>
         o'.events[i].sequence > |o.events| && (o'.events[i].evaluation.Some? ==> o'.events[i].evaluation.value >= evaluations)
  }

  ghost predicate Later(b: Book, b': Book) {
    && b'.lines == b.lines && b.fixes <= b'.fixes && b.poLines <= b'.poLines && b.poFixes <= b'.poFixes
    && RegistryLater(b.registry, b'.registry)
    && b.evaluations <= b'.evaluations && b.bindings <= b'.bindings && |b.observations| <= |b'.observations|
    && (forall o :: 0 <= o < |b.observations| ==> Continues(b.observations[o], b'.observations[o], |b.evaluations|))
    && (forall i :: |b.bindings| <= i < |b'.bindings| ==> Introduced(b, b'.bindings[i]))
    && (forall o :: |b.observations| <= o < |b'.observations| ==>
          b'.observations[o].origin.Some? && b'.observations[o].origin.value >= |b.evaluations|)
  }

  /** A comparator that a later correction brings in. */
  predicate Introduced(b: Book, p: Binding) {
    p.introducedBy.Some? && p.introducedBy.value >= 2 * |b.evaluations|
  }

  /** The setting in which one evaluation is compared before and after. */
  ghost predicate Compared(b: Book, b': Book, at: nat) {
    && Later(b, b') && Numbered(b) && Numbered(b')
    && (forall r :: 0 <= r < |b.lines| ==> LineKnown(b.registry, b.lines[r]))
    && at < |b.evaluations| && References(b, b.evaluations[at]) && PinsExist(b, b.evaluations[at])
    && (forall o :: 0 <= o < |b.observations| ==> b.observations[o].origin.Some? ==> b.observations[o].origin.value < |b.evaluations|)
    && (forall i :: 0 <= i < |b.evaluations[at].links| ==> b.evaluations[at].links[i].prior <= |b.observations[b.evaluations[at].links[i].exception].events|)
  }

  lemma {:induction false} SeenStays(b: Book, b': Book, s: LineSource)
    requires Later(b, b') && s.line < |b.lines| && LineKnown(b.registry, b.lines[s.line]) && SourceIn(s, |b.fixes|)
    ensures Seen(b', s) == Seen(b, s)
  {
  }

  lemma {:induction false} ListedStays(b: Book, b': Book, at: nat, k: Key)
    requires Compared(b, b', at)
    ensures References(b', b'.evaluations[at])
    ensures ListedIn(b', b'.evaluations[at], k) <==> ListedIn(b, b.evaluations[at], k)
  {
    var e := b.evaluations[at];
    forall i | 0 <= i < |e.lines| ensures Seen(b', e.lines[i]) == Seen(b, e.lines[i]) { SeenStays(b, b', e.lines[i]); }
    assert SeenAll(b', e.lines) == SeenAll(b, e.lines);
    forall i | 0 <= i < |e.expectations| ensures Pinned(b', e.expectations[i]) == Pinned(b, e.expectations[i]) {
      assert PinIn(e.expectations[i], |b.poFixes|);
    }
    assert PinnedAll(b', e.expectations) == PinnedAll(b, e.expectations);
  }

  /** What was evaluated by then is the same before and after. */
  lemma {:induction false} EvaluatedByStays(b: Book, b': Book, c: nat, until: int)
    requires Later(b, b') && Numbered(b) && Numbered(b') && until <= |b.evaluations|
    ensures EvaluatedBy(b', c, until) <==> EvaluatedBy(b, c, until)
  {
    if EvaluatedBy(b, c, until) {
      var j :| 0 <= j < |b.evaluations| && b.evaluations[j].correction == c && b.evaluations[j].sequence <= until;
      assert b'.evaluations[j] == b.evaluations[j];
    }
    if EvaluatedBy(b', c, until) {
      var j :| 0 <= j < |b'.evaluations| && b'.evaluations[j].correction == c && b'.evaluations[j].sequence <= until;
      assert b'.evaluations[j] == b.evaluations[j];
    }
  }

  lemma {:induction false} CountsStays(b: Book, b': Book, line: nat, until: int, c: nat)
    requires Later(b, b') && Numbered(b) && Numbered(b') && until <= |b.evaluations|
    ensures Counts(b', line, until, c) <==> Counts(b, line, until, c)
    ensures Counts(b, line, until, c) ==> b'.fixes[c] == b.fixes[c]
  {
    EvaluatedByStays(b, b', c, until);
    if EvaluatedBy(b, c, until) {
      var j :| 0 <= j < |b.evaluations| && b.evaluations[j].correction == c && b.evaluations[j].sequence <= until;
      assert c < |b.fixes|;
    }
  }

  lemma {:induction false} LinesStay(b: Book, b': Book, at: nat)
    requires Compared(b, b', at) && LinesHeld(b, b.evaluations[at])
    ensures LinesHeld(b', b'.evaluations[at])
  {
    var e := b.evaluations[at];
    forall i | 0 <= i < |e.lines| ensures GenerationThen(b', e.lines[i].line, e.sequence, e.lines[i].generation) {
      var line, g := e.lines[i].line, e.lines[i].generation;
      assert GenerationThen(b, line, e.sequence, g);
      forall c: nat ensures Counts(b', line, e.sequence, c) <==> Counts(b, line, e.sequence, c)
                    ensures Counts(b, line, e.sequence, c) ==> b'.fixes[c] == b.fixes[c]
      {
        CountsStays(b, b', line, e.sequence, c);
      }
    }
  }

  lemma {:induction false} KnownByStays(b: Book, b': Book, i: nat, until: int)
    requires Later(b, b') && Numbered(b) && Numbered(b') && until <= |b.evaluations| && i < |b'.bindings|
    ensures KnownBy(b', b'.bindings[i], until) <==> i < |b.bindings| && KnownBy(b, b.bindings[i], until)
  {
    var p := b'.bindings[i];
    if p.introducedBy.Some? { EvaluatedByStays(b, b', p.introducedBy.value, until); }
    if i >= |b.bindings| { assert Introduced(b, p); }
  }

  lemma {:induction false} BoundByStays(b: Book, b': Book, s: ExpectationSource, until: int)
    requires Later(b, b') && Numbered(b) && Numbered(b') && until <= |b.evaluations| && BoundBy(b, s, until)
    ensures BoundBy(b', s, until)
  {
    var i :| 0 <= i < |b.bindings| && IsPinOf(b.bindings[i], s) && KnownBy(b, b.bindings[i], until);
    KnownByStays(b, b', i, until);
    assert b'.bindings[i] == b.bindings[i];
  }

  lemma {:induction false} ExpectationsStay(b: Book, b': Book, at: nat)
    requires Compared(b, b', at) && ExpectationsHeld(b, b.evaluations[at])
    ensures ExpectationsHeld(b', b'.evaluations[at])
  {
    var e := b.evaluations[at];
    assert b'.evaluations[at] == e && e.sequence <= |b.evaluations|;
    forall i | 0 <= i < |b'.bindings| && KnownBy(b', b'.bindings[i], e.sequence) ensures PinnedIn(e, b'.bindings[i]) {
      KnownByStays(b, b', i, e.sequence);
      assert b'.bindings[i] == b.bindings[i];
    }
    forall j | 0 <= j < |e.expectations| ensures BoundBy(b', e.expectations[j], e.sequence) {
      BoundByStays(b, b', e.expectations[j], e.sequence);
    }
  }

  lemma {:induction false} LinksStay(b: Book, b': Book, at: nat)
    requires Compared(b, b', at) && LinksHeld(b, b.evaluations[at])
    ensures LinksHeld(b', b'.evaluations[at])
  {
    var e := b.evaluations[at];
    forall o | 0 <= o < |b'.observations| && OpenedBy(b', o, e.sequence) ensures HasLink(e, o) {
      if o < |b.observations| {
        assert Continues(b.observations[o], b'.observations[o], |b.evaluations|);
        assert OpenedBy(b, o, e.sequence);
      }
    }
  }

  lemma {:induction false} RetiredStays(b: Book, b': Book, o: nat, until: int)
    requires Later(b, b') && Numbered(b) && Numbered(b') && until <= |b.evaluations|
    ensures RetiredBefore(b', o, until) <==> RetiredBefore(b, o, until)
  {
    if RetiredBefore(b, o, until) {
      var j, i :| 0 <= j < |b.evaluations| && 0 <= i < |b.evaluations[j].links| && b.evaluations[j].sequence < until
                  && b.evaluations[j].links[i].exception == o && !b.evaluations[j].links[i].supported;
      assert b'.evaluations[j] == b.evaluations[j];
    }
    if RetiredBefore(b', o, until) {
      var j, i :| 0 <= j < |b'.evaluations| && 0 <= i < |b'.evaluations[j].links| && b'.evaluations[j].sequence < until
                  && b'.evaluations[j].links[i].exception == o && !b'.evaluations[j].links[i].supported;
      assert b'.evaluations[j] == b.evaluations[j];
    }
  }

  lemma {:induction false} SupportStays(b: Book, b': Book, at: nat)
    requires Compared(b, b', at) && SupportHeld(b, b.evaluations[at])
    ensures References(b', b'.evaluations[at]) && SupportHeld(b', b'.evaluations[at])
  {
    var e := b.evaluations[at];
    forall k ensures ListedIn(b', e, k) <==> ListedIn(b, e, k) { ListedStays(b, b', at, k); }
    forall i | 0 <= i < |e.links|
      ensures var x := e.links[i];
              x.supported <==> ListedIn(b', e, b'.observations[x.exception].key) && !RetiredBefore(b', x.exception, e.sequence)
    {
      var x := e.links[i];
      RetiredStays(b, b', x.exception, e.sequence);
      assert Continues(b.observations[x.exception], b'.observations[x.exception], |b.evaluations|);
    }
  }

  lemma {:induction false} CoverageStays(b: Book, b': Book, at: nat)
    requires Compared(b, b', at) && CoverageHeld(b, b.evaluations[at])
    ensures References(b', b'.evaluations[at]) && CoverageHeld(b', b'.evaluations[at])
  {
    var e := b.evaluations[at];
    forall i: nat, k ensures Covers(b', e, k, i) <==> Covers(b, e, k, i) {
      if i < |e.links| {
        var o := e.links[i].exception;
        assert Continues(b.observations[o], b'.observations[o], |b.evaluations|);
      }
    }
    forall k ensures ListedIn(b', e, k) <==> ListedIn(b, e, k) { ListedStays(b, b', at, k); }
    forall k | ListedIn(b', e, k)
      ensures exists i: nat :: Covers(b', e, k, i) && forall j: nat :: Covers(b', e, k, j) ==> j == i
    {
      var i: nat :| Covers(b, e, k, i) && forall j: nat :: Covers(b, e, k, j) ==> j == i;
      assert Covers(b', e, k, i);
    }
  }

  lemma {:induction false} EventAtStays(s: seq<StatusEvent>, t: seq<StatusEvent>, n: int)
    requires s <= t && forall i :: |s| <= i < |t| ==> t[i].sequence > n
    ensures EventAt(t, n) == EventAt(s, n)
    decreases |t|
  {
    if |s| < |t| {
      EventAtStays(s, t[..|t| - 1], n);
    } else {
      assert s == t;
    }
  }

  lemma {:induction false} ConsequenceStays(o: Observation, o': Observation, evaluations: nat, at: nat, e: Evaluation, x: Link, pair: nat)
    requires Continues(o, o', evaluations) && at < evaluations && x.prior <= |o.events|
    requires ConsequenceOf(o.events, at, e, x, pair)
    ensures ConsequenceOf(o'.events, at, e, x, pair)
  {
    EventAtStays(o.events, o'.events, x.prior);
    forall i: nat ensures CausedBy(o'.events, at, i) <==> CausedBy(o.events, at, i) {
      if i < |o.events| { assert o'.events[i] == o'.events[..|o.events|][i]; }
    }
    forall i: nat | CausedBy(o.events, at, i) ensures o'.events[i] == o.events[i] {
      assert o'.events[i] == o'.events[..|o.events|][i];
    }
  }

  lemma {:induction false} ConsequencesStay(b: Book, b': Book, at: nat)
    requires Compared(b, b', at) && ConsequencesHeld(b, at)
    ensures References(b', b'.evaluations[at]) && ConsequencesHeld(b', at)
  {
    var e := b.evaluations[at];
    forall i | 0 <= i < |e.links|
      ensures ConsequenceOf(b'.observations[e.links[i].exception].events, at, e, e.links[i], b'.fixes[e.correction].pair)
    {
      var o := e.links[i].exception;
      ConsequenceStays(b.observations[o], b'.observations[o], |b.evaluations|, at, e, e.links[i], b.fixes[e.correction].pair);
    }
  }

  /** A past evaluation stays free of anomalies under everything that is appended later. */
  lemma {:induction false} HeldStays(b: Book, b': Book, at: nat)
    requires Compared(b, b', at) && Held(b, at)
    ensures Held(b', at)
  {
    LinesStay(b, b', at);
    ExpectationsStay(b, b', at);
    LinksStay(b, b', at);
    SupportStays(b, b', at);
    CoverageStays(b, b', at);
    ConsequencesStay(b, b', at);
  }
}
