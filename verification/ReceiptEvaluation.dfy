/** Re-evaluation restores the one-to-one match, never raises, and passes every check. */
module ReceiptEvaluation {
  import opened HistoryRows
  import opened Sorting
  import opened RecordPairs
  import opened Disagreements
  import opened ReceiptBook
  import opened ReceiptViews
  import opened ReceiptStable
  import opened ReceiptInvariant

  function Desired(b: Book): seq<Key>
    requires Referenced(b)
  {
    Found(NowLines(b), NowExpectations(b))
  }

  ghost function Last(q: Book): Evaluation
    requires q.evaluations != []
  {
    q.evaluations[|q.evaluations| - 1]
  }

  /** Book q is p after the evaluation of its last correction, described row by row: `d` are
      the disagreements found, `x` those that get a new observation. */
  ghost predicate Made(p: Book, q: Book, d: seq<Key>, x: seq<Key>) {
    && |p.fixes| == 2 * |p.evaluations| + 2
    && q == p.(evaluations := q.evaluations, observations := q.observations)
    && |q.evaluations| == |p.evaluations| + 1 && q.evaluations[..|p.evaluations|] == p.evaluations
    && |q.observations| == |p.observations| + |x|
    && RowOf(p, Last(q), |q.observations|)
    && (forall o :: 0 <= o < |q.observations| ==> ObservationOf(p, q, d, x, o))
    && (forall o :: 0 <= o < |q.observations| ==> LinkFor(p, d, Last(q), o))
  }

  ghost predicate RowOf(p: Book, e: Evaluation, n: nat)
    requires p.fixes != []
  {
    && |e.links| == n && e.lines == Sources(p) && e.expectations == Pins(p) && e.correction == |p.fixes| - 1
    && e.sequence == NextSequence(p.evaluations) && Matches(p, |p.fixes| - 1, e)
  }

  ghost predicate ObservationOf(p: Book, q: Book, d: seq<Key>, x: seq<Key>, o: nat)
    requires p.fixes != [] && o < |q.observations| == |p.observations| + |x|
  {
    q.observations[o] == if o < |p.observations| then Judged(p, |p.fixes| - 1, d, o)
                         else Open(x[o - |p.observations|], Some(|p.evaluations|))
  }

  ghost predicate LinkFor(p: Book, d: seq<Key>, e: Evaluation, i: nat)
    requires i < |e.links|
  {
    && e.links[i].exception == i
    && e.links[i].supported == (i < |p.observations| ==> Supported(p, d, i))
    && e.links[i].prior == (if i < |p.observations| then p.observations[i].eventSeq else 0)
  }

  /** New observations are opened for what no supported observation covers, each once. */
  ghost predicate Opens(p: Book, d: seq<Key>, x: seq<Key>) {
    && Distinct(x) && (forall k :: k in x <==> k in d && !Claimed(p, d, |p.observations|, k))
    && NoDuplicate(p, d)
  }

  lemma {:induction false} EvaluatedIsMade(p: Book, d: seq<Key>, x: seq<Key>)
    requires Referenced(p) && |p.fixes| == 2 * |p.evaluations| + 2
    requires d == Desired(p) && x == Uncovered(p, d, |d|)
    ensures Made(p, Evaluated(p, |p.fixes| - 1), d, x)
  {
    var q := Evaluated(p, |p.fixes| - 1);
    var e := NewEvaluation(p, |p.fixes| - 1, d);
    assert q.evaluations == p.evaluations + [e] && Last(q) == e;
    var old', extra := JudgedAll(p, |p.fixes| - 1, d), OpenAll(x, Some(|p.evaluations|));
    assert q.observations == old' + extra;
    MadeObservations(p, q, d, x);
    MadeRow(p, d, x);
    MadeLinks(p, e, d, x);
  }

  lemma {:induction false} MadeRow(p: Book, d: seq<Key>, x: seq<Key>)
    requires p.fixes != [] && x == Uncovered(p, d, |d|)
    ensures var e := NewEvaluation(p, |p.fixes| - 1, d);
            e.links == OldLinks(p, d) + NewLinks(|p.observations|, |x|) && RowOf(p, e, |p.observations| + |x|)
  {
  }

  lemma {:induction false} MadeObservations(p: Book, q: Book, d: seq<Key>, x: seq<Key>)
    requires p.fixes != []
    requires q.observations == JudgedAll(p, |p.fixes| - 1, d) + OpenAll(x, Some(|p.evaluations|))
    ensures |q.observations| == |p.observations| + |x|
    ensures forall o :: 0 <= o < |q.observations| ==> ObservationOf(p, q, d, x, o)
  {
  }

  lemma {:induction false} MadeLinks(p: Book, e: Evaluation, d: seq<Key>, x: seq<Key>)
    requires e.links == OldLinks(p, d) + NewLinks(|p.observations|, |x|)
    ensures |e.links| == |p.observations| + |x|
    ensures forall i :: 0 <= i < |e.links| ==> LinkFor(p, d, e, i)
  {
  }

  lemma {:induction false} DesiredOnce(p: Book)
    requires PinsOk(p) && Referenced(p)
    ensures Distinct(Desired(p)) && Keyed(NowExpectations(p))
  {
    ExpectationsKeyed(p);
    LinesNumbered(p);
    FoundDistinct(NowLines(p), NowExpectations(p));
  }

  // ----- it never raises

  lemma {:induction false} SupportedIsAlive(p: Book, desired: seq<Key>, i: nat)
    requires Numbered(p) && AllEvaluationsOk(p) && i < |p.observations|
    ensures Supported(p, desired, i) <==> Alive(p, i) && p.observations[i].key in desired
  {
    PriorIsAlive(p, i);
  }

  lemma {:induction false} SupportedDiffer(p: Book, desired: seq<Key>)
    requires Numbered(p) && AllEvaluationsOk(p) && AliveDistinct(p)
    ensures NoDuplicate(p, desired)
  {
    forall i, j | 0 <= i < j < |p.observations| && Supported(p, desired, i) && Supported(p, desired, j)
      ensures p.observations[i].key != p.observations[j].key
    {
      SupportedIsAlive(p, desired, i);
      SupportedIsAlive(p, desired, j);
    }
  }

  /** "Comparator source missing" and "Duplicate supported observation" are unreachable. */
  lemma {:induction false} NeverRaises(p: Book)
    requires Mid(p)
    ensures CanEvaluate(p)
  {
    SupportedDiffer(p, Desired(p));
  }

  // ----- the new observations

  lemma {:induction false} UncoveredAre(b: Book, desired: seq<Key>, n: nat, k: Key)
    requires n <= |desired|
    ensures k in Uncovered(b, desired, n) <==> k in desired[..n] && !Claimed(b, desired, |b.observations|, k)
  {
    if n > 0 {
      UncoveredAre(b, desired, n - 1, k);
      assert desired[..n] == desired[..n - 1] + [desired[n - 1]];
    }
  }

  lemma {:induction false} UncoveredOnce(b: Book, desired: seq<Key>, n: nat)
    requires n <= |desired| && Distinct(desired)
    ensures Distinct(Uncovered(b, desired, n))
  {
    if n > 0 {
      UncoveredOnce(b, desired, n - 1);
      UncoveredAre(b, desired, n - 1, desired[n - 1]);
      assert desired[n - 1] !in desired[..n - 1];
    }
  }

  lemma {:induction false} OpensUncovered(p: Book, d: seq<Key>, x: seq<Key>)
    requires Distinct(d) && x == Uncovered(p, d, |d|) && NoDuplicate(p, d)
    ensures Opens(p, d, x)
  {
    UncoveredOnce(p, d, |d|);
    assert d[..|d|] == d;
    forall k ensures k in x <==> k in d && !Claimed(p, d, |p.observations|, k) { UncoveredAre(p, d, |d|, k); }
  }

  /** The observations of q: the judged ones of p, then one per uncovered disagreement. */
  lemma {:induction false} NewObservations(p: Book, q: Book, d: seq<Key>, x: seq<Key>, o: nat)
    requires Made(p, q, d, x) && o < |q.observations|
    ensures |q.observations| == |p.observations| + |x|
    ensures q.observations[o] == (if o < |p.observations| then Judged(p, |p.fixes| - 1, d, o)
                                  else Open(x[o - |p.observations|], Some(|p.evaluations|)))
  {
    assert ObservationOf(p, q, d, x, o);
  }

  lemma {:induction false} NewLink(p: Book, q: Book, d: seq<Key>, x: seq<Key>, i: nat)
    requires Made(p, q, d, x) && i < |q.observations|
    ensures q.evaluations != [] && |Last(q).links| == |q.observations| && Last(q).links[i].exception == i
    ensures Last(q).links[i].supported == (i < |p.observations| ==> Supported(p, d, i))
    ensures Last(q).links[i].prior == (if i < |p.observations| then p.observations[i].eventSeq else 0)
  {
    assert LinkFor(p, d, Last(q), i);
  }

  lemma {:induction false} NextIs(b: Book, n: nat)
    requires Numbered(b) && n <= |b.evaluations|
    ensures NextSequence(b.evaluations[..n]) == n + 1
  {
    if n > 0 {
      assert b.evaluations[..n][..n - 1] == b.evaluations[..n - 1];
      NextIs(b, n - 1);
    }
  }

  // ----- the new state is numbered and later

  lemma {:induction false} IsNumbered(p: Book, q: Book, d: seq<Key>, x: seq<Key>)
    requires Made(p, q, d, x) && Numbered(p)
    ensures Numbered(q) && q.evaluations != [] && q.evaluations == p.evaluations + [Last(q)]
    ensures Last(q).sequence == |p.evaluations| + 1 && Last(q).correction == |p.fixes| - 1
  {
    NextIs(p, |p.evaluations|);
    assert p.evaluations[..|p.evaluations|] == p.evaluations;
  }

  lemma {:induction false} JudgedContinues(p: Book, desired: seq<Key>, o: nat)
    requires o < |p.observations| && Flowing(p.observations[o], |p.evaluations|) && p.fixes != []
    ensures Continues(p.observations[o], Judged(p, |p.fixes| - 1, desired, o), |p.evaluations|)
    ensures Flowing(Judged(p, |p.fixes| - 1, desired, o), |p.evaluations| + 1)
  {
    var was := p.observations[o];
    var now := Judged(p, |p.fixes| - 1, desired, o);
    var n := |p.evaluations| + 1;
    assert now.events[..|was.events|] == was.events;
    forall i | 0 <= i < |now.events| ensures EventFlows(now.events, i, n) {
      if i < |was.events| { assert EventFlows(was.events, i, |p.evaluations|); }
    }
  }

  lemma {:induction false} IsLater(p: Book, q: Book, d: seq<Key>, x: seq<Key>)
    requires Made(p, q, d, x) && Numbered(p) && Flow(p)
    ensures Later(p, q) && Flow(q)
  {
    IsNumbered(p, q, d, x);
    forall o | 0 <= o < |q.observations|
      ensures o < |p.observations| ==> Continues(p.observations[o], q.observations[o], |p.evaluations|)
      ensures o >= |p.observations| ==> q.observations[o].origin.Some? && q.observations[o].origin.value >= |p.evaluations|
      ensures Flowing(q.observations[o], |p.evaluations| + 1)
    {
      NewObservations(p, q, d, x, o);
      if o < |p.observations| {
        assert Flowing(p.observations[o], |p.evaluations|);
        JudgedContinues(p, d, o);
      }
    }
  }

  // ----- past evaluations

  /** The setting for HeldStays, for every past evaluation. */
  lemma {:induction false} IsCompared(b: Book, b': Book, at: nat)
    requires TablesOk(b) && AllEvaluationsOk(b) && at < |b.evaluations| && Later(b, b') && Numbered(b')
    ensures Compared(b, b', at)
  {
    assert EvaluationOk(b, at);
    var e := b.evaluations[at];
    forall i | 0 <= i < |e.links| ensures e.links[i].prior <= |b.observations[e.links[i].exception].events| {
      assert LinkOk(b, e, i);
    }
    forall o | 0 <= o < |b.observations| ensures b.observations[o].origin.Some? ==> b.observations[o].origin.value < |b.evaluations| {
      assert Flowing(b.observations[o], |b.evaluations|);
    }
  }

  /** A past evaluation stays free of anomalies in any later book. */
  lemma {:induction false} PastStays(b: Book, b': Book, at: nat)
    requires TablesOk(b) && AllEvaluationsOk(b) && at < |b.evaluations| && Later(b, b') && Numbered(b')
    ensures at < |b'.evaluations| && EvaluationOk(b', at)
  {
    IsCompared(b, b', at);
    assert EvaluationOk(b, at);
    HeldStays(b, b', at);
    RowsStay(b, b', at);
  }

  lemma {:induction false} RowsStay(b: Book, b': Book, at: nat)
    requires at < |b.evaluations| && EvaluationOk(b, at) && Later(b, b')
    ensures at < |b'.evaluations|
    ensures var e := b'.evaluations[at];
            && PinsExist(b', e) && e.correction < |b'.fixes| && Matches(b', e.correction, e)
            && (forall i :: 0 <= i < |e.links| ==> LinkOk(b', e, i))
  {
    var e := b.evaluations[at];
    assert b'.evaluations[at] == e;
    assert b'.fixes[e.correction] == b.fixes[e.correction];
    forall i | 0 <= i < |e.links| ensures LinkOk(b', e, i) {
      assert LinkOk(b, e, i);
      assert Continues(b.observations[i], b'.observations[i], |b.evaluations|);
    }
    forall i | 0 <= i < |e.lines| ensures SourceIn(e.lines[i], |b'.fixes|) { assert SourceIn(e.lines[i], |b.fixes|); }
    forall i | 0 <= i < |e.expectations| ensures PinIn(e.expectations[i], |b'.poFixes|) { assert PinIn(e.expectations[i], |b.poFixes|); }
  }

  /** What earlier evaluations retired does not change. */
  lemma {:induction false} RetiredSame(p: Book, q: Book, d: seq<Key>, x: seq<Key>, o: nat)
    requires Made(p, q, d, x) && Numbered(p)
    ensures RetiredBefore(q, o, |p.evaluations| + 1) <==> !Alive(p, o)
  {
    IsNumbered(p, q, d, x);
    if RetiredBefore(q, o, |p.evaluations| + 1) {
      var j, i :| 0 <= j < |q.evaluations| && 0 <= i < |q.evaluations[j].links| && q.evaluations[j].sequence < |p.evaluations| + 1
                  && q.evaluations[j].links[i].exception == o && !q.evaluations[j].links[i].supported;
      assert q.evaluations[j] == p.evaluations[j];
    }
    if !Alive(p, o) {
      var j, i :| 0 <= j < |p.evaluations| && 0 <= i < |p.evaluations[j].links| && p.evaluations[j].sequence < |p.evaluations| + 1
                  && p.evaluations[j].links[i].exception == o && !p.evaluations[j].links[i].supported;
      assert q.evaluations[j] == p.evaluations[j];
    }
  }

  // ----- the new evaluation's rows

  lemma {:induction false} NewLinkOk(p: Book, q: Book, d: seq<Key>, x: seq<Key>, i: nat)
    requires Made(p, q, d, x) && Flow(p) && i < |q.observations|
    ensures q.evaluations != [] && |Last(q).links| == |q.observations| && LinkOk(q, Last(q), i)
  {
    NewLink(p, q, d, x, i);
    NewObservations(p, q, d, x, i);
    if i < |p.observations| {
      assert Flowing(p.observations[i], |p.evaluations|);
      JudgedContinues(p, d, i);
    }
  }

  lemma {:induction false} NewRow(p: Book, q: Book, d: seq<Key>, x: seq<Key>)
    requires Made(p, q, d, x)
    ensures q.evaluations != []
    ensures var e := Last(q);
            e.lines == Sources(p) && e.expectations == Pins(p) && e.correction == |q.fixes| - 1 && Matches(q, e.correction, e)
  {
  }

  lemma {:induction false} NewSources(p: Book, q: Book, d: seq<Key>, x: seq<Key>)
    requires Made(p, q, d, x) && PinsOk(p)
    ensures q.evaluations != []
    ensures var e := Last(q);
            && e.lines == Sources(p) && e.expectations == Pins(p) && e.correction < |q.fixes|
            && (forall i :: 0 <= i < |e.lines| ==> e.lines[i].line < |q.lines|)
            && (forall i :: 0 <= i < |e.expectations| ==> e.expectations[i].poLine < |q.poLines|)
            && PinsExist(q, e) && Matches(q, e.correction, e)
  {
    NewRow(p, q, d, x);
    var e := Last(q);
    forall i | 0 <= i < |e.lines| ensures SourceIn(e.lines[i], |q.fixes|) && e.lines[i].line < |q.lines| {
      assert e.lines[i] == SourceOf(p, i);
    }
    forall i | 0 <= i < |e.expectations| ensures PinIn(e.expectations[i], |q.poFixes|) && e.expectations[i].poLine < |q.poLines| {
      assert PinOk(p, p.bindings[i]);
    }
  }

  lemma {:induction false} NewRefers(p: Book, q: Book, d: seq<Key>, x: seq<Key>)
    requires Made(p, q, d, x) && Flow(p) && PinsOk(p)
    ensures q.evaluations != [] && References(q, Last(q)) && |Last(q).links| == |q.observations|
    ensures forall i :: 0 <= i < |Last(q).links| ==> LinkOk(q, Last(q), i)
  {
    NewSources(p, q, d, x);
    var e := Last(q);
    forall i | 0 <= i < |e.links| ensures LinkOk(q, e, i) { NewLinkOk(p, q, d, x, i); }
    forall i | 0 <= i < |e.links| ensures e.links[i].exception < |q.observations| { assert LinkOk(q, e, i); }
  }

  lemma {:induction false} SameSight(p: Book, q: Book)
    requires Referenced(p) && q == p.(evaluations := q.evaluations, observations := q.observations)
    ensures Referenced(q) && NowLines(q) == NowLines(p) && NowExpectations(q) == NowExpectations(p)
    ensures SeenAll(q, Sources(p)) == NowLines(p) && PinnedAll(q, Pins(p)) == NowExpectations(p)
  {
    assert Sources(q) == Sources(p) && Pins(q) == Pins(p);
    assert SeenAll(q, Sources(p)) == SeenAll(p, Sources(p));
    assert PinnedAll(q, Pins(p)) == PinnedAll(p, Pins(p));
  }

  lemma {:induction false} NewListed(p: Book, q: Book, d: seq<Key>, x: seq<Key>, k: Key)
    requires Made(p, q, d, x) && Flow(p) && PinsOk(p) && Referenced(p) && d == Desired(p)
    ensures q.evaluations != [] && References(q, Last(q))
    ensures ListedIn(q, Last(q), k) <==> k in d
  {
    NewRefers(p, q, d, x);
    NewSources(p, q, d, x);
    SameSight(p, q);
    ExpectationsKeyed(p);
    FormsAgree(NowLines(p), NowExpectations(p), k);
  }

  lemma {:induction false} AllEvaluated(p: Book, q: Book, d: seq<Key>, x: seq<Key>, c: nat)
    requires Made(p, q, d, x) && Numbered(p)
    ensures EvaluatedBy(q, c, |p.evaluations| + 1) <==> c < |p.fixes| && c % 2 == 1
  {
    IsNumbered(p, q, d, x);
    AllCauses(q, c);
  }

  lemma {:induction false} AllCauses(q: Book, c: nat)
    requires Numbered(q)
    ensures EvaluatedBy(q, c, |q.evaluations|) <==> c < 2 * |q.evaluations| && c % 2 == 1
  {
    if c < 2 * |q.evaluations| && c % 2 == 1 { assert q.evaluations[c / 2].correction == c; }
  }

  lemma {:induction false} OddIsCorrected(roots: seq<LineValue>, fixes: seq<Entry<LineValue>>, c: nat)
    requires Paired(roots, fixes) && c < |fixes|
    ensures fixes[c].role == CORRECTED <==> c % 2 == 1
  {
    assert PairAt(roots, fixes, if c % 2 == 0 then c else c - 1);
  }

  lemma {:induction false} NewGeneration(p: Book, q: Book, d: seq<Key>, x: seq<Key>, line: nat)
    requires Made(p, q, d, x) && Numbered(p) && Paired(p.lines, p.fixes)
    ensures GenerationThen(q, line, |p.evaluations| + 1, Generation(p.fixes, line))
  {
    var until, g := |p.evaluations| + 1, Generation(p.fixes, line);
    forall c: nat | Counts(q, line, until, c) ensures p.fixes[c].generation <= g && Head(p.fixes, line).Some? {
      AllEvaluated(p, q, d, x, c);
      OddIsCorrected(p.lines, p.fixes, c);
      HeadIsMax(p.fixes, line, c);
    }
    var h := Head(p.fixes, line);
    if h.Some? {
      OddIsCorrected(p.lines, p.fixes, h.value);
      AllEvaluated(p, q, d, x, h.value);
      assert Counts(q, line, until, h.value);
    }
  }

  lemma {:induction false} NewLinesHeld(p: Book, q: Book, d: seq<Key>, x: seq<Key>)
    requires Made(p, q, d, x) && Numbered(p) && Paired(p.lines, p.fixes) && PinsOk(p)
    ensures q.evaluations != [] && LinesHeld(q, Last(q))
  {
    IsNumbered(p, q, d, x);
    NewSources(p, q, d, x);
    var e := Last(q);
    forall r | 0 <= r < |q.lines| ensures HasLine(e, r) { assert e.lines[r].line == r; }
    forall i | 0 <= i < |e.lines| ensures GenerationThen(q, e.lines[i].line, e.sequence, e.lines[i].generation) {
      NewGeneration(p, q, d, x, i);
    }
  }

  lemma {:induction false} NewExpectationsHeld(p: Book, q: Book, d: seq<Key>, x: seq<Key>)
    requires Made(p, q, d, x) && Numbered(p) && PinsOk(p)
    ensures q.evaluations != [] && ExpectationsHeld(q, Last(q))
  {
    IsNumbered(p, q, d, x);
    NewSources(p, q, d, x);
    var e := Last(q);
    forall i | 0 <= i < |q.bindings|
      ensures IsPinOf(q.bindings[i], e.expectations[i]) && KnownBy(q, q.bindings[i], e.sequence)
    {
      assert PinOk(p, p.bindings[i]);
      if p.bindings[i].introducedBy.Some? { AllEvaluated(p, q, d, x, p.bindings[i].introducedBy.value); }
    }
    forall i | 0 <= i < |q.bindings| ensures PinnedIn(e, q.bindings[i]) { assert IsPinOf(q.bindings[i], e.expectations[i]); }
    forall j | 0 <= j < |e.expectations| ensures BoundBy(q, e.expectations[j], e.sequence) {
      assert IsPinOf(q.bindings[j], e.expectations[j]);
    }
  }

  // ----- support

  lemma {:induction false} NewIsAlive(p: Book, o: nat)
    requires AllEvaluationsOk(p) && o >= |p.observations|
    ensures Alive(p, o)
  {
    forall j, i | 0 <= j < |p.evaluations| && 0 <= i < |p.evaluations[j].links| ensures p.evaluations[j].links[i].exception != o {
      assert EvaluationOk(p, j);
      assert LinkOk(p, p.evaluations[j], i);
    }
  }

  /** A link of the new evaluation is supported exactly for a living, still true observation. */
  lemma {:induction false} NewSupport(p: Book, q: Book, d: seq<Key>, x: seq<Key>, i: nat)
    requires Made(p, q, d, x) && Opens(p, d, x) && Numbered(p) && AllEvaluationsOk(p) && i < |q.observations|
    ensures q.evaluations != [] && i < |Last(q).links|
    ensures Last(q).links[i].supported <==> Alive(p, i) && q.observations[i].key in d
  {
    NewLink(p, q, d, x, i);
    NewObservations(p, q, d, x, i);
    if i < |p.observations| {
      SupportedIsAlive(p, d, i);
    } else {
      NewIsAlive(p, i);
      assert q.observations[i].key in x;
    }
  }

  lemma {:induction false} NewSupportHeld(p: Book, q: Book, d: seq<Key>, x: seq<Key>)
    requires Mid(p) && Made(p, q, d, x) && Opens(p, d, x) && d == Desired(p)
    ensures q.evaluations != [] && References(q, Last(q)) && SupportHeld(q, Last(q)) && LinksHeld(q, Last(q))
  {
    NewRefers(p, q, d, x);
    IsNumbered(p, q, d, x);
    var e := Last(q);
    forall i | 0 <= i < |e.links|
      ensures e.links[i].exception == i
      ensures e.links[i].supported <==> ListedIn(q, e, q.observations[i].key) && !RetiredBefore(q, i, e.sequence)
    {
      NewLink(p, q, d, x, i);
      NewSupport(p, q, d, x, i);
      NewListed(p, q, d, x, q.observations[i].key);
      RetiredSame(p, q, d, x, i);
    }
    forall o | 0 <= o < |q.observations| ensures HasLink(e, o) { assert e.links[o].exception == o; }
  }

  // ----- coverage

  /** Observations with supported links never share a key. */
  lemma {:induction false} CoversDiffer(p: Book, q: Book, d: seq<Key>, x: seq<Key>, a: nat, b: nat)
    requires Made(p, q, d, x) && Opens(p, d, x)
    requires a < b < |q.observations| && q.evaluations != [] && b < |Last(q).links|
    requires Last(q).links[a].supported && Last(q).links[b].supported
    ensures q.observations[a].key != q.observations[b].key
  {
    NewLink(p, q, d, x, a);
    NewLink(p, q, d, x, b);
    NewObservations(p, q, d, x, a);
    NewObservations(p, q, d, x, b);
    if b >= |p.observations| {
      assert q.observations[b].key in x;
    }
  }

  lemma {:induction false} CoverAt(p: Book, q: Book, d: seq<Key>, x: seq<Key>, o: nat)
    requires Made(p, q, d, x) && o < |q.observations| && (o < |p.observations| ==> Supported(p, d, o))
    ensures q.evaluations != []
    ensures Covers(q, Last(q), if o < |p.observations| then p.observations[o].key else q.observations[o].key, o)
  {
    NewLink(p, q, d, x, o);
    NewObservations(p, q, d, x, o);
  }

  lemma {:induction false} ExtraAt(p: Book, q: Book, d: seq<Key>, x: seq<Key>, i: nat)
    requires Made(p, q, d, x) && i < |x|
    ensures |p.observations| + i < |q.observations| && q.observations[|p.observations| + i].key == x[i]
  {
    NewObservations(p, q, d, x, |p.observations| + i);
  }

  /** A wanted key has an observation with a supported link. */
  lemma {:induction false} NewCover(p: Book, q: Book, d: seq<Key>, x: seq<Key>, k: Key) returns (o: nat)
    requires Made(p, q, d, x) && Opens(p, d, x) && k in d
    ensures q.evaluations != [] && Covers(q, Last(q), k, o)
  {
    if Claimed(p, d, |p.observations|, k) {
      o :| 0 <= o < |p.observations| && p.observations[o].key == k && Supported(p, d, o);
    } else {
      var i :| 0 <= i < |x| && x[i] == k;
      ExtraAt(p, q, d, x, i);
      o := |p.observations| + i;
    }
    CoverAt(p, q, d, x, o);
  }

  lemma {:induction false} CoverUnique(p: Book, q: Book, d: seq<Key>, x: seq<Key>, k: Key, o: nat, j: nat)
    requires Made(p, q, d, x) && Flow(p) && PinsOk(p) && Opens(p, d, x)
    requires q.evaluations != [] && Covers(q, Last(q), k, o) && Covers(q, Last(q), k, j)
    ensures o == j
  {
    NewRefers(p, q, d, x);
    assert LinkOk(q, Last(q), o) && LinkOk(q, Last(q), j);
    if o < j { CoversDiffer(p, q, d, x, o, j); }
    if j < o { CoversDiffer(p, q, d, x, j, o); }
  }

  lemma {:induction false} NewCoverageHeld(p: Book, q: Book, d: seq<Key>, x: seq<Key>)
    requires Made(p, q, d, x) && Flow(p) && PinsOk(p) && Opens(p, d, x) && Referenced(p) && d == Desired(p)
    ensures q.evaluations != [] && References(q, Last(q)) && CoverageHeld(q, Last(q))
  {
    NewRefers(p, q, d, x);
    forall k | ListedIn(q, Last(q), k)
      ensures exists i: nat :: Covers(q, Last(q), k, i) && forall j: nat :: Covers(q, Last(q), k, j) ==> j == i
    {
      NewListed(p, q, d, x, k);
      var o := NewCover(p, q, d, x, k);
      forall j: nat | Covers(q, Last(q), k, j) ensures j == o { CoverUnique(p, q, d, x, k, o, j); }
    }
  }

  // ----- workflow consequences

  /** The last event of an observation, as the prior of the link that counts them. */
  lemma {:induction false} PriorIsLast(was: Observation, more: seq<StatusEvent>, at: nat)
    requires Flowing(was, at) && forall i :: 0 <= i < |more| ==> more[i].sequence > |was.events|
    ensures var n := |was.events|;
            && EventAt(was.events + more, n) == (if n == 0 then None else Some(was.events[n - 1]))
            && was.status == (if n == 0 then OPEN else was.events[n - 1].to)
            && (forall i: nat :: i < n ==> !CausedBy(was.events + more, at, i))
  {
    var n := |was.events|;
    assert was.events[..n] == was.events;
    EventAtIs(was, n, n, at);
    EventAtStays(was.events, was.events + more, n);
    forall i: nat | i < n ensures !CausedBy(was.events + more, at, i) {
      assert EventFlows(was.events, i, at);
      assert (was.events + more)[i] == was.events[i];
    }
  }

  /** An observation that is left alone has its consequence already. */
  lemma {:induction false} LeftAlone(was: Observation, at: nat, e: Evaluation, x: Link, pair: nat)
    requires Flowing(was, at) && x.prior == |was.events| && (x.supported || was.status !in {OPEN, ACKNOWLEDGED})
    ensures ConsequenceOf(was.events, at, e, x, pair)
  {
    PriorIsLast(was, [], at);
    assert was.events + [] == was.events;
  }

  /** A retired observation that was open gets its resolution. */
  lemma {:induction false} Retired(was: Observation, at: nat, e: Evaluation, x: Link, pair: nat)
    requires Flowing(was, at) && x.prior == |was.events| && !x.supported && was.status in {OPEN, ACKNOWLEDGED}
    ensures ConsequenceOf(WithEvent(was, RESOLVED, Superseded(pair), e.actor, e.occurredAt, Some(at)).events, at, e, x, pair)
  {
    var now := WithEvent(was, RESOLVED, Superseded(pair), e.actor, e.occurredAt, Some(at));
    var n := |was.events|;
    PriorIsLast(was, [now.events[n]], at);
    assert now.events == was.events + [now.events[n]];
    assert CausedBy(now.events, at, n) && Resolves(now.events[n], e, x, pair);
    forall i: nat | CausedBy(now.events, at, i) ensures i == n { }
  }

  /** What an evaluation does to the events of one observation. */
  lemma {:induction false} EventsJudged(was: Observation, now: Observation, at: nat, e: Evaluation, x: Link, pair: nat)
    requires Flowing(was, at) && x.prior == |was.events|
    requires now == if !x.supported && was.status in {OPEN, ACKNOWLEDGED}
                    then WithEvent(was, RESOLVED, Superseded(pair), e.actor, e.occurredAt, Some(at)) else was
    ensures ConsequenceOf(now.events, at, e, x, pair)
  {
    if !x.supported && was.status in {OPEN, ACKNOWLEDGED} {
      Retired(was, at, e, x, pair);
    } else {
      LeftAlone(was, at, e, x, pair);
    }
  }

  lemma {:induction false} NewConsequence(p: Book, q: Book, d: seq<Key>, x: seq<Key>, i: nat)
    requires Made(p, q, d, x) && Flow(p) && i < |q.observations|
    ensures q.evaluations != [] && i < |Last(q).links|
    ensures ConsequenceOf(q.observations[i].events, |p.evaluations|, Last(q), Last(q).links[i], p.fixes[|p.fixes| - 1].pair)
  {
    NewLink(p, q, d, x, i);
    NewObservations(p, q, d, x, i);
    var e, pair := Last(q), p.fixes[|p.fixes| - 1].pair;
    if i < |p.observations| {
      assert Flowing(p.observations[i], |p.evaluations|);
      EventsJudged(p.observations[i], q.observations[i], |p.evaluations|, e, e.links[i], pair);
    }
  }

  lemma {:induction false} NewConsequencesHeld(p: Book, q: Book, d: seq<Key>, x: seq<Key>)
    requires Made(p, q, d, x) && Numbered(p) && Flow(p) && PinsOk(p)
    ensures q.evaluations != [] && References(q, Last(q)) && ConsequencesHeld(q, |q.evaluations| - 1)
  {
    NewRefers(p, q, d, x);
    IsNumbered(p, q, d, x);
    var e := Last(q);
    assert q.fixes[e.correction] == p.fixes[|p.fixes| - 1] && |q.evaluations| - 1 == |p.evaluations|;
    forall i | 0 <= i < |e.links|
      ensures ConsequenceOf(q.observations[e.links[i].exception].events, |q.evaluations| - 1, e, e.links[i], q.fixes[e.correction].pair)
    {
      NewLink(p, q, d, x, i);
      NewConsequence(p, q, d, x, i);
    }
  }

  lemma {:induction false} NewIsOk(p: Book, q: Book, d: seq<Key>, x: seq<Key>)
    requires Mid(p) && Made(p, q, d, x) && Opens(p, d, x) && d == Desired(p)
    ensures q.evaluations != [] && EvaluationOk(q, |q.evaluations| - 1)
  {
    NewRefers(p, q, d, x);
    NewSources(p, q, d, x);
    NewLinesHeld(p, q, d, x);
    NewExpectationsHeld(p, q, d, x);
    NewSupportHeld(p, q, d, x);
    NewCoverageHeld(p, q, d, x);
    NewConsequencesHeld(p, q, d, x);
  }

  // ----- the match is restored

  lemma {:induction false} AliveNext(p: Book, q: Book, d: seq<Key>, x: seq<Key>, o: nat)
    requires Made(p, q, d, x) && Numbered(p) && o < |q.observations|
    ensures q.evaluations != [] && o < |Last(q).links|
    ensures Alive(q, o) <==> Alive(p, o) && Last(q).links[o].supported
  {
    NewLink(p, q, d, x, o);
    IsNumbered(p, q, d, x);
    RetiredSame(p, q, d, x, o);
    var n := |p.evaluations|;
    if !Alive(q, o) {
      var j, i :| 0 <= j < |q.evaluations| && 0 <= i < |q.evaluations[j].links| && q.evaluations[j].sequence < n + 2
                  && q.evaluations[j].links[i].exception == o && !q.evaluations[j].links[i].supported;
      if j == n { NewLink(p, q, d, x, i); }
    }
    if !Last(q).links[o].supported { assert q.evaluations[n].links[o].exception == o; }
  }

  /** After an evaluation an observation is alive exactly when its link is supported. */
  lemma {:induction false} AliveIsSupported(p: Book, q: Book, d: seq<Key>, x: seq<Key>, o: nat)
    requires Made(p, q, d, x) && Opens(p, d, x) && Numbered(p) && AllEvaluationsOk(p) && o < |q.observations|
    ensures q.evaluations != [] && o < |Last(q).links|
    ensures Alive(q, o) <==> Last(q).links[o].supported
  {
    AliveNext(p, q, d, x, o);
    NewSupport(p, q, d, x, o);
  }

  lemma {:induction false} ExactAgain(p: Book, q: Book, d: seq<Key>, x: seq<Key>)
    requires Mid(p) && Made(p, q, d, x) && Opens(p, d, x) && d == Desired(p)
    ensures Referenced(q) && Exact(q)
  {
    SameSight(p, q);
    NewRefers(p, q, d, x);
    forall i, j | 0 <= i < j < |q.observations| && Alive(q, i) && Alive(q, j)
      ensures q.observations[i].key != q.observations[j].key
    {
      AliveIsSupported(p, q, d, x, i);
      AliveIsSupported(p, q, d, x, j);
      CoversDiffer(p, q, d, x, i, j);
    }
    forall k ensures k in Want(q) <==> AliveWith(q, k) { WantIsAlive(p, q, d, x, k); }
  }

  lemma {:induction false} WantIsAlive(p: Book, q: Book, d: seq<Key>, x: seq<Key>, k: Key)
    requires Mid(p) && Made(p, q, d, x) && Opens(p, d, x)
    ensures k in d <==> AliveWith(q, k)
  {
    if k in d {
      var o := NewCover(p, q, d, x, k);
      NewRefers(p, q, d, x);
      assert LinkOk(q, Last(q), o);
      AliveIsSupported(p, q, d, x, o);
    }
    if AliveWith(q, k) {
      var o :| 0 <= o < |q.observations| && Alive(q, o) && q.observations[o].key == k;
      AliveIsSupported(p, q, d, x, o);
      NewSupport(p, q, d, x, o);
    }
  }

  lemma {:induction false} TablesAfter(p: Book, q: Book, d: seq<Key>, x: seq<Key>)
    requires Mid(p) && Made(p, q, d, x) && Opens(p, d, x) && d == Desired(p)
    ensures TablesOk(q) && PinsOk(q)
  {
    IsNumbered(p, q, d, x);
    IsLater(p, q, d, x);
    forall r | 0 <= r < |q.lines| ensures LineKnown(q.registry, q.lines[r]) && Fits(q, r) {
      assert LineKnown(p.registry, p.lines[r]) && Fits(p, r);
    }
    forall i | 0 <= i < |q.bindings| ensures PinOk(q, q.bindings[i]) { assert PinOk(p, p.bindings[i]); }
  }

  lemma {:induction false} PastAfter(p: Book, q: Book, d: seq<Key>, x: seq<Key>, at: nat)
    requires Mid(p) && Made(p, q, d, x) && Opens(p, d, x) && d == Desired(p) && at < |p.evaluations|
    ensures at < |q.evaluations| && EvaluationOk(q, at)
  {
    IsNumbered(p, q, d, x);
    IsLater(p, q, d, x);
    PastStays(p, q, at);
  }

  lemma {:induction false} EvaluationsAfter(p: Book, q: Book, d: seq<Key>, x: seq<Key>)
    requires Mid(p) && Made(p, q, d, x) && Opens(p, d, x) && d == Desired(p)
    ensures AllEvaluationsOk(q)
  {
    NewIsOk(p, q, d, x);
    forall at | 0 <= at < |q.evaluations| - 1 ensures EvaluationOk(q, at) { PastAfter(p, q, d, x, at); }
    AllOk(q);
  }

  lemma {:induction false} AllOk(q: Book)
    requires q.evaluations != [] && EvaluationOk(q, |q.evaluations| - 1)
    requires forall at :: 0 <= at < |q.evaluations| - 1 ==> EvaluationOk(q, at)
    ensures AllEvaluationsOk(q)
  {
    forall at | 0 <= at < |q.evaluations| ensures EvaluationOk(q, at) { }
  }

  /** The evaluation of a correction completes its transaction. */
  lemma {:induction false} EvaluationKeeps(p: Book, q: Book, d: seq<Key>, x: seq<Key>)
    requires Mid(p) && Made(p, q, d, x) && Opens(p, d, x) && d == Desired(p)
    ensures Inv(q)
  {
    TablesAfter(p, q, d, x);
    EvaluationsAfter(p, q, d, x);
    SameSight(p, q);
    ExactAgain(p, q, d, x);
    IsNumbered(p, q, d, x);
  }

  // ----- the completeness check

  lemma {:induction false} ComparatorPlace(exps: seq<Expectation>, po: nat)
    requires Comparator(exps, po).Some?
    ensures exists j :: 0 <= j < |exps| && exps[j].poLine == po
  {
    ComparatorFound(exps, po);
  }

  lemma {:induction false} PopulationRows(p: Book, q: Book, d: seq<Key>, x: seq<Key>)
    requires Made(p, q, d, x) && PinsOk(p)
    ensures q.evaluations != []
    ensures var e := Last(q);
            && (forall r :: 0 <= r < |q.lines| ==> HasLine(e, r))
            && (forall i :: 0 <= i < |q.bindings| ==> PinnedIn(e, q.bindings[i]))
            && (forall j :: 0 <= j < |e.expectations| ==> IsPin(q, e.expectations[j]))
            && (forall i :: 0 <= i < |e.lines| ==> e.lines[i].generation == Generation(q.fixes, e.lines[i].line))
  {
    NewSources(p, q, d, x);
    var e := Last(q);
    forall r | 0 <= r < |q.lines| ensures HasLine(e, r) { assert e.lines[r].line == r; }
    forall i | 0 <= i < |q.bindings| ensures PinnedIn(e, q.bindings[i]) && IsPin(q, e.expectations[i]) {
      assert IsPinOf(q.bindings[i], e.expectations[i]);
    }
  }

  lemma {:induction false} PopulationExpected(p: Book, q: Book, d: seq<Key>, x: seq<Key>, i: nat)
    requires Made(p, q, d, x) && Referenced(p) && Bound(NowLines(p), NowExpectations(p)) && i < |p.lines|
    ensures q.evaluations != [] && i < |Last(q).lines| && Last(q).lines[i].line < |q.lines|
    ensures Expects(Last(q), Seen(q, Last(q).lines[i]).poLine)
  {
    NewRow(p, q, d, x);
    LineExpected(p, i, Last(q));
    assert Last(q).lines[i] == SourceOf(p, i);
    assert NowLines(p)[i] == Seen(p, SourceOf(p, i));
  }

  lemma {:induction false} PopulationAfter(p: Book, q: Book, d: seq<Key>, x: seq<Key>)
    requires Made(p, q, d, x) && Flow(p) && PinsOk(p) && Referenced(p) && Bound(NowLines(p), NowExpectations(p))
    ensures q.evaluations != [] && References(q, Last(q)) && PopulationComplete(q, Last(q))
  {
    NewRefers(p, q, d, x);
    NewRow(p, q, d, x);
    PopulationRows(p, q, d, x);
    forall i | 0 <= i < |Last(q).lines| ensures Expects(Last(q), Seen(q, Last(q).lines[i]).poLine) {
      PopulationExpected(p, q, d, x, i);
    }
  }

  lemma {:induction false} LineExpected(p: Book, i: nat, e: Evaluation)
    requires Referenced(p) && Bound(NowLines(p), NowExpectations(p)) && i < |p.lines| && e.expectations == Pins(p)
    ensures Expects(e, NowLines(p)[i].poLine)
  {
    assert HasComparator(NowLines(p)[i], NowExpectations(p));
    var po := NowLines(p)[i].poLine;
    if po.Some? {
      ComparatorPlace(NowExpectations(p), po.value);
      var j :| 0 <= j < |NowExpectations(p)| && NowExpectations(p)[j].poLine == po.value;
      assert e.expectations[j].poLine == po.value;
    }
  }

  lemma {:induction false} SupportAfter(p: Book, q: Book, d: seq<Key>, x: seq<Key>)
    requires Mid(p) && Made(p, q, d, x) && Opens(p, d, x) && d == Desired(p)
    ensures q.evaluations != [] && References(q, Last(q)) && SupportComplete(q, Last(q))
  {
    NewRefers(p, q, d, x);
    NewCoverageHeld(p, q, d, x);
    NewSupportHeld(p, q, d, x);
    var e := Last(q);
    forall o | 0 <= o < |q.observations| ensures HasLink(e, o) {
      assert LinkOk(q, e, o);
      assert e.links[o].exception == o;
    }
  }

  /** The completeness check accepts every evaluation. */
  lemma {:induction false} EvaluationIsComplete(p: Book, q: Book, d: seq<Key>, x: seq<Key>)
    requires Mid(p) && Made(p, q, d, x) && Opens(p, d, x) && d == Desired(p)
    ensures Complete(q, |p.fixes| - 1)
  {
    EvaluationKeeps(p, q, d, x);
    PresentWhenNumbered(q);
    IsNumbered(p, q, d, x);
    PopulationAfter(p, q, d, x);
    SupportAfter(p, q, d, x);
    NewConsequencesHeld(p, q, d, x);
    forall at | 0 <= at < |q.evaluations| ensures Held(q, at) { assert EvaluationOk(q, at); }
    forall o | 0 <= o < |q.observations| ensures WorkflowHeld(q.observations[o]) {
      FlowingIsHeld(q.observations[o], |q.evaluations|);
    }
    var at := |q.evaluations| - 1;
    assert q.evaluations[at] == Last(q);
  }
}
