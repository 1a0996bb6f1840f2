/** The database's checks of evaluations: the historical health view over all of them, the
    workflow view, and the completeness check of a new one. */
module ReceiptViews {
  import opened HistoryRows
  import opened RecordPairs
  import opened Disagreements
  import opened ReceiptBook

  /** Foreign keys: every row that belongs to an evaluation names existing rows. */
  ghost predicate References(b: Book, e: Evaluation) {
    && e.correction < |b.fixes|
    && (forall i :: 0 <= i < |e.lines| ==> e.lines[i].line < |b.lines|)
    && (forall i :: 0 <= i < |e.expectations| ==> e.expectations[i].poLine < |b.poLines|)
    && (forall i :: 0 <= i < |e.links| ==> e.links[i].exception < |b.observations|)
  }

  predicate HasLine(e: Evaluation, line: nat) {
    exists i :: 0 <= i < |e.lines| && e.lines[i].line == line
  }

  predicate HasLink(e: Evaluation, exception: nat) {
    exists i :: 0 <= i < |e.links| && e.links[i].exception == exception
  }

  /** The disagreement view lists the key for the evaluation. */
  ghost predicate ListedIn(b: Book, e: Evaluation, k: Key)
    requires References(b, e)
  {
    Listed(SeenAll(b, e.lines), PinnedAll(b, e.expectations), k)
  }

  // ----- receipt_evaluation_anomalies, negated, one predicate per issue

  predicate Matches(b: Book, c: nat, e: Evaluation)
    requires c < |b.fixes|
  {
    var f := b.fixes[c];
    && e.line == f.root && e.generation == f.generation && e.actor == f.stamp.actor
    && e.occurredAt == f.stamp.occurredAt && e.transaction == f.stamp.transaction
  }

  ghost predicate EvaluationsPresent(b: Book) {
    forall c :: 0 <= c < |b.fixes| && b.fixes[c].role == CORRECTED ==>
      (&& (exists j :: 0 <= j < |b.evaluations| && b.evaluations[j].correction == c)
       && (forall j :: 0 <= j < |b.evaluations| && b.evaluations[j].correction == c ==> Matches(b, c, b.evaluations[j])))
  }

  /** Correction c has been evaluated by the evaluation numbered `until`. */
  ghost predicate EvaluatedBy(b: Book, c: nat, until: int) {
    exists j :: 0 <= j < |b.evaluations| && b.evaluations[j].correction == c && b.evaluations[j].sequence <= until
  }

  ghost predicate Counts(b: Book, line: nat, until: int, c: nat) {
    c < |b.fixes| && b.fixes[c].root == line && EvaluatedBy(b, c, until)
  }

  /** g is COALESCE(max(generation), 0) over the corrections evaluated until then. */
  ghost predicate GenerationThen(b: Book, line: nat, until: int, g: int) {
    if exists c: nat :: Counts(b, line, until, c)
    then (exists c: nat :: Counts(b, line, until, c) && b.fixes[c].generation == g)
         && (forall c: nat :: Counts(b, line, until, c) ==> b.fixes[c].generation <= g)
    else g == 0
  }

  ghost predicate LinesHeld(b: Book, e: Evaluation) {
    && (forall r :: 0 <= r < |b.lines| ==> HasLine(e, r))
    && (forall i :: 0 <= i < |e.lines| ==> GenerationThen(b, e.lines[i].line, e.sequence, e.lines[i].generation))
  }

  ghost predicate KnownBy(b: Book, p: Binding, until: int) {
    p.introducedBy.Some? ==> EvaluatedBy(b, p.introducedBy.value, until)
  }

  predicate IsPinOf(p: Binding, s: ExpectationSource) {
    s.poLine == p.poLine && s.generation == p.generation && s.source == p.source
  }

  ghost predicate PinnedIn(e: Evaluation, p: Binding) {
    exists j :: 0 <= j < |e.expectations| && IsPinOf(p, e.expectations[j])
  }

  ghost predicate BoundBy(b: Book, s: ExpectationSource, until: int) {
    exists i :: 0 <= i < |b.bindings| && IsPinOf(b.bindings[i], s) && KnownBy(b, b.bindings[i], until)
  }

  ghost predicate ExpectationsHeld(b: Book, e: Evaluation) {
    && (forall i :: 0 <= i < |b.bindings| && KnownBy(b, b.bindings[i], e.sequence) ==> PinnedIn(e, b.bindings[i]))
    && (forall j :: 0 <= j < |e.expectations| ==> BoundBy(b, e.expectations[j], e.sequence))
  }

  ghost predicate OpenedBy(b: Book, o: nat, until: int)
    requires o < |b.observations|
  {
    var origin := b.observations[o].origin;
    origin.Some? ==> origin.value < |b.evaluations| && b.evaluations[origin.value].sequence <= until
  }

  ghost predicate LinksHeld(b: Book, e: Evaluation) {
    forall o :: 0 <= o < |b.observations| && OpenedBy(b, o, e.sequence) ==> HasLink(e, o)
  }

  /** An evaluation before the one numbered `until` retired the exception. */
  ghost predicate RetiredBefore(b: Book, o: nat, until: int) {
    exists j, i :: 0 <= j < |b.evaluations| && 0 <= i < |b.evaluations[j].links| && b.evaluations[j].sequence < until
                   && b.evaluations[j].links[i].exception == o && !b.evaluations[j].links[i].supported
  }

  ghost predicate SupportHeld(b: Book, e: Evaluation)
    requires References(b, e)
  {
    forall i :: 0 <= i < |e.links| ==>
      var x := e.links[i];
      (x.supported <==> ListedIn(b, e, b.observations[x.exception].key) && !RetiredBefore(b, x.exception, e.sequence))
  }

  predicate Covers(b: Book, e: Evaluation, k: Key, i: nat) {
    i < |e.links| && e.links[i].exception < |b.observations| && e.links[i].supported
    && b.observations[e.links[i].exception].key == k
  }

  /** Exactly one supported link covers every listed disagreement. */
  ghost predicate CoverageHeld(b: Book, e: Evaluation)
    requires References(b, e)
  {
    forall k :: ListedIn(b, e, k) ==> exists i: nat :: Covers(b, e, k, i) && forall j: nat :: Covers(b, e, k, j) ==> j == i
  }

  function EventAt(events: seq<StatusEvent>, sequence: int): Option<StatusEvent> {
    if events == [] then None
    else if events[|events| - 1].sequence == sequence then Some(events[|events| - 1])
    else EventAt(events[..|events| - 1], sequence)
  }

  /** The resolution that a retired exception must have from the evaluation numbered `at`. */
  predicate Resolves(r: StatusEvent, e: Evaluation, x: Link, pair: nat) {
    && r.to == RESOLVED && r.sequence == x.prior + 1 && r.actor == e.actor && r.occurredAt == e.occurredAt
    && r.note == Superseded(pair)
  }

  predicate CausedBy(events: seq<StatusEvent>, at: nat, i: nat) {
    i < |events| && events[i].evaluation == Some(at)
  }

  ghost predicate ConsequenceOf(events: seq<StatusEvent>, at: nat, e: Evaluation, x: Link, pair: nat) {
    var prior := EventAt(events, x.prior);
    var status := if prior.Some? then prior.value.to else OPEN;
    && (x.prior > 0 ==> prior.Some?)
    && (!x.supported && status in {OPEN, ACKNOWLEDGED} ==>
          (exists i: nat :: CausedBy(events, at, i)) && forall i: nat :: CausedBy(events, at, i) ==> Resolves(events[i], e, x, pair))
    && (x.supported || (prior.Some? && status in {RESOLVED, WAIVED}) ==> forall i: nat :: !CausedBy(events, at, i))
  }

  ghost predicate ConsequencesHeld(b: Book, at: nat)
    requires at < |b.evaluations| && References(b, b.evaluations[at])
  {
    var e := b.evaluations[at];
    forall i :: 0 <= i < |e.links| ==>
      ConsequenceOf(b.observations[e.links[i].exception].events, at, e, e.links[i], b.fixes[e.correction].pair)
  }

  /** The health view reports nothing about one evaluation. */
  ghost predicate Held(b: Book, at: nat)
    requires at < |b.evaluations|
  {
    var e := b.evaluations[at];
    && References(b, e) && LinesHeld(b, e) && ExpectationsHeld(b, e) && LinksHeld(b, e) && SupportHeld(b, e)
    && CoverageHeld(b, e) && ConsequencesHeld(b, at)
  }

  ghost predicate AllHeld(b: Book) {
    EvaluationsPresent(b) && forall at :: 0 <= at < |b.evaluations| ==> Held(b, at)
  }

  // ----- exception_workflow_anomalies, negated

  function Latest(events: seq<StatusEvent>): Option<StatusEvent> {
    if events == [] then None
    else
      var n := |events| - 1;
      var before := Latest(events[..n]);
      if before.Some? && before.value.sequence > events[n].sequence then before else Some(events[n])
  }

  predicate EventHeld(events: seq<StatusEvent>, i: nat)
    requires i < |events|
  {
    var p := EventAt(events, events[i].sequence - 1);
    && events[i].from == (if p.Some? then p.value.to else OPEN)
    && (events[i].sequence > 1 ==> p.Some?)
    && LegalEdge(events[i].from, events[i].to)
  }

  ghost predicate WorkflowHeld(o: Observation) {
    var last := Latest(o.events);
    && o.status == (if last.Some? then last.value.to else OPEN)
    && o.eventSeq == (if last.Some? then last.value.sequence else 0)
    && o.eventSeq == |o.events|
    && (forall i :: 0 <= i < |o.events| ==> EventHeld(o.events, i))
  }

  // ----- assert_receipt_correction_complete

  ghost predicate IsPin(b: Book, s: ExpectationSource) {
    exists i :: 0 <= i < |b.bindings| && IsPinOf(b.bindings[i], s)
  }

  ghost predicate Expects(e: Evaluation, po: Option<nat>) {
    po.Some? ==> exists j :: 0 <= j < |e.expectations| && e.expectations[j].poLine == po.value
  }

  ghost predicate PopulationComplete(b: Book, e: Evaluation)
    requires References(b, e)
  {
    && (forall r :: 0 <= r < |b.lines| ==> HasLine(e, r))
    && (forall i :: 0 <= i < |b.bindings| ==> PinnedIn(e, b.bindings[i]))
    && (forall j :: 0 <= j < |e.expectations| ==> IsPin(b, e.expectations[j]))
    && (forall i :: 0 <= i < |e.lines| ==> e.lines[i].generation == Generation(b.fixes, e.lines[i].line))
    && (forall i :: 0 <= i < |e.lines| ==> Expects(e, Seen(b, e.lines[i]).poLine))
  }

  ghost predicate SupportComplete(b: Book, e: Evaluation)
    requires References(b, e)
  {
    && (forall o :: 0 <= o < |b.observations| ==> HasLink(e, o))
    && (forall i :: 0 <= i < |e.links| ==>
          var x := e.links[i];
          || (x.supported <==> ListedIn(b, e, b.observations[x.exception].key))
          || (!x.supported && RetiredBefore(b, x.exception, e.sequence)))
    && CoverageHeld(b, e)
  }

  /** The check accepts the evaluation of the CORRECTED row at position c. */
  ghost predicate Complete(b: Book, c: nat) {
    && AllHeld(b) && (forall o :: 0 <= o < |b.observations| ==> WorkflowHeld(b.observations[o]))
    && exists at :: 0 <= at < |b.evaluations| && b.evaluations[at].correction == c && References(b, b.evaluations[at])
         && PopulationComplete(b, b.evaluations[at]) && SupportComplete(b, b.evaluations[at]) && ConsequencesHeld(b, at)
  }
}
