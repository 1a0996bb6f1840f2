/** One receipt with its purchase order: the tables, and what is in force in them.
    An identity is the position of its row in its table; no order of identities is used. */
module ReceiptBook {
  import opened HistoryRows
  import opened RecordPairs
  import opened Disagreements

  datatype PoValue = PoValue(item: Id, quantity: real, uom: Id)

  datatype PoLine = PoLine(value: PoValue, supersedes: Option<nat>)

  datatype Serial = Serial(kind: Id, value: Id)

  /** Canonical identifiers of all assets, and the assets whose identifier is unreadable. */
  datatype Registry = Registry(serials: map<Serial, Id>, unreadable: set<Id>, assets: set<Id>)

  /** The facts of a receipt line.  `observed` is set where a known identifier was seen again. */
  datatype LineValue = LineValue(
    poLine: Option<nat>, item: Id, quantity: real, uom: Id, condition: Condition, packing: Option<real>,
    serialized: bool, asset: Option<Id>, observed: Option<Serial>)

  /** A comparator: a purchase-order line pinned at a generation and its source row. */
  datatype Binding = Binding(poLine: nat, generation: int, source: Option<nat>, introducedBy: Option<nat>)

  datatype Status = OPEN | ACKNOWLEDGED | RESOLVED | WAIVED

  datatype Note = Superseded(pair: nat) | Said(text: Id)

  datatype StatusEvent = StatusEvent(
    sequence: int, from: Status, to: Status, note: Note, actor: Id, occurredAt: Time, evaluation: Option<nat>)

  /** An exception with its workflow row and its status events. */
  datatype Observation = Observation(key: Key, origin: Option<nat>, status: Status, eventSeq: int, events: seq<StatusEvent>)

  datatype LineSource = LineSource(line: nat, generation: int, source: Option<nat>)

  datatype ExpectationSource = ExpectationSource(poLine: nat, generation: int, source: Option<nat>)

  datatype Link = Link(exception: nat, supported: bool, prior: int)

  /** A re-evaluation with the rows that belong to it. */
  datatype Evaluation = Evaluation(
    line: nat, correction: nat, generation: int, sequence: int, actor: Id, occurredAt: Time, transaction: Id,
    lines: seq<LineSource>, expectations: seq<ExpectationSource>, links: seq<Link>)

  /** `hasOrder`, `issued` and `packing` say whether there is an order, that it is issued,
      and that the receipt has a packing reference. */
  datatype Book = Book(
    hasOrder: bool, issued: bool, packing: bool, poLines: seq<PoLine>, poFixes: seq<Entry<PoValue>>,
    registry: Registry, lines: seq<LineValue>, fixes: seq<Entry<LineValue>>, bindings: seq<Binding>,
    reconciled: bool, observations: seq<Observation>, evaluations: seq<Evaluation>)

  function Lookup(g: Registry, s: Option<Serial>): Option<Id> {
    if s.Some? && s.value in g.serials then Some(g.serials[s.value]) else None
  }

  function PoRoots(poLines: seq<PoLine>): seq<PoValue> {
    seq(|poLines|, i requires 0 <= i < |poLines| => poLines[i].value)
  }

  /** The live effective value of a purchase-order line. */
  function Live(b: Book, po: nat): PoValue
    requires po < |b.poLines|
  {
    Effective(PoRoots(b.poLines), b.poFixes, po)
  }

  predicate HasSuccessor(b: Book, po: nat) {
    exists i :: 0 <= i < |b.poLines| && b.poLines[i].supersedes == Some(po)
  }

  predicate IsBound(b: Book, po: nat) {
    exists i :: 0 <= i < |b.bindings| && b.bindings[i].poLine == po
  }

  // ----- rows as an evaluation reads them

  /** A line seen through its pinned source: the original, or one of its corrections. */
  function Seen(b: Book, s: LineSource): Received
    requires s.line < |b.lines|
  {
    var r := b.lines[s.line];
    var pinned := s.source.Some? && s.source.value < |b.fixes|;
    var v := if pinned then b.fixes[s.source.value].value else r;
    Received(s.line, v.poLine, v.item, v.quantity, v.uom, v.condition, v.packing, r.asset,
             if pinned then b.fixes[s.source.value].derived else Lookup(b.registry, r.observed),
             r.asset.Some? && r.asset.value in b.registry.unreadable)
  }

  function SeenAll(b: Book, ss: seq<LineSource>): seq<Received>
    requires forall i :: 0 <= i < |ss| ==> ss[i].line < |b.lines|
  {
    seq(|ss|, i requires 0 <= i < |ss| => Seen(b, ss[i]))
  }

  function Pinned(b: Book, s: ExpectationSource): Expectation
    requires s.poLine < |b.poLines|
  {
    var v := if s.source.Some? && s.source.value < |b.poFixes| then b.poFixes[s.source.value].value
             else b.poLines[s.poLine].value;
    Expectation(s.poLine, v.item, v.quantity, v.uom)
  }

  function PinnedAll(b: Book, ss: seq<ExpectationSource>): seq<Expectation>
    requires forall i :: 0 <= i < |ss| ==> ss[i].poLine < |b.poLines|
  {
    seq(|ss|, i requires 0 <= i < |ss| => Pinned(b, ss[i]))
  }

  // ----- what is in force now

  function SourceOf(b: Book, line: nat): LineSource {
    var g := Generation(b.fixes, line);
    LineSource(line, g, if g == 0 then None else Head(b.fixes, line))
  }

  function Sources(b: Book): seq<LineSource> {
    seq(|b.lines|, i requires 0 <= i < |b.lines| => SourceOf(b, i))
  }

  function Pins(b: Book): seq<ExpectationSource> {
    seq(|b.bindings|, i requires 0 <= i < |b.bindings| =>
      ExpectationSource(b.bindings[i].poLine, b.bindings[i].generation, b.bindings[i].source))
  }

  /** Every comparator names a purchase-order line. */
  predicate Referenced(b: Book) {
    forall i :: 0 <= i < |b.bindings| ==> b.bindings[i].poLine < |b.poLines|
  }

  function NowLines(b: Book): seq<Received> {
    SeenAll(b, Sources(b))
  }

  function NowExpectations(b: Book): seq<Expectation>
    requires Referenced(b)
  {
    PinnedAll(b, Pins(b))
  }

  // ----- exception workflow

  predicate LegalEdge(from: Status, to: Status) {
    (from == OPEN && to in {ACKNOWLEDGED, RESOLVED, WAIVED}) || (from == ACKNOWLEDGED && to in {RESOLVED, WAIVED})
  }

  function WithEvent(o: Observation, to: Status, note: Note, actor: Id, at: Time, evaluation: Option<nat>): Observation {
    o.(status := to, eventSeq := |o.events| + 1,
       events := o.events + [StatusEvent(|o.events| + 1, o.status, to, note, actor, at, evaluation)])
  }

  function Open(key: Key, origin: Option<nat>): Observation {
    Observation(key, origin, OPEN, 0, [])
  }

  function OpenAll(keys: seq<Key>, origin: Option<nat>): seq<Observation> {
    seq(|keys|, i requires 0 <= i < |keys| => Open(keys[i], origin))
  }

  // ----- evaluation links

  function LinkOf(links: seq<Link>, exception: nat): Option<Link> {
    if links == [] then None
    else if links[|links| - 1].exception == exception then Some(links[|links| - 1])
    else LinkOf(links[..|links| - 1], exception)
  }

  /** The support flag in the latest evaluation that links the exception. */
  function Prior(evaluations: seq<Evaluation>, exception: nat): Option<bool> {
    if evaluations == [] then None
    else
      var last := LinkOf(evaluations[|evaluations| - 1].links, exception);
      if last.Some? then Some(last.value.supported) else Prior(evaluations[..|evaluations| - 1], exception)
  }

  // ----- re-evaluation after the correction at position `cause`

  function Supported(b: Book, desired: seq<Key>, i: nat): bool
    requires i < |b.observations|
  {
    Prior(b.evaluations, i) != Some(false) && b.observations[i].key in desired
  }

  ghost predicate Claimed(b: Book, desired: seq<Key>, n: nat, k: Key)
    requires n <= |b.observations|
  {
    exists i :: 0 <= i < n && b.observations[i].key == k && Supported(b, desired, i)
  }

  /** No two supported observations share a key. */
  ghost predicate NoDuplicate(b: Book, desired: seq<Key>) {
    forall i, j :: 0 <= i < j < |b.observations| && Supported(b, desired, i) && Supported(b, desired, j) ==>
                     b.observations[i].key != b.observations[j].key
  }

  function Judged(b: Book, cause: nat, desired: seq<Key>, i: nat): Observation
    requires i < |b.observations| && cause < |b.fixes|
  {
    var o := b.observations[i];
    var c := b.fixes[cause];
    if !Supported(b, desired, i) && o.status in {OPEN, ACKNOWLEDGED}
    then WithEvent(o, RESOLVED, Superseded(c.pair), c.stamp.actor, c.stamp.occurredAt, Some(|b.evaluations|))
    else o
  }

  function JudgedAll(b: Book, cause: nat, desired: seq<Key>): seq<Observation>
    requires cause < |b.fixes|
  {
    seq(|b.observations|, i requires 0 <= i < |b.observations| => Judged(b, cause, desired, i))
  }

  /** The disagreements that no supported observation covers. */
  ghost function Uncovered(b: Book, desired: seq<Key>, n: nat): seq<Key>
    requires n <= |desired|
  {
    if n == 0 then []
    else Uncovered(b, desired, n - 1) + (if Claimed(b, desired, |b.observations|, desired[n - 1]) then [] else [desired[n - 1]])
  }

  function OldLinks(b: Book, desired: seq<Key>): seq<Link> {
    seq(|b.observations|, i requires 0 <= i < |b.observations| =>
      Link(i, Supported(b, desired, i), b.observations[i].eventSeq))
  }

  function NewLinks(from: nat, n: nat): seq<Link> {
    seq(n, i requires 0 <= i < n => Link(from + i, true, 0))
  }

  function NextSequence(evaluations: seq<Evaluation>): int {
    if evaluations == [] then 1
    else
      var last := evaluations[|evaluations| - 1].sequence + 1;
      var before := NextSequence(evaluations[..|evaluations| - 1]);
      if before < last then last else before
  }

  ghost function NewEvaluation(b: Book, cause: nat, desired: seq<Key>): Evaluation
    requires cause < |b.fixes|
  {
    var c := b.fixes[cause];
    Evaluation(c.root, cause, c.generation, NextSequence(b.evaluations), c.stamp.actor, c.stamp.occurredAt, c.stamp.transaction,
               Sources(b), Pins(b),
               OldLinks(b, desired) + NewLinks(|b.observations|, |Uncovered(b, desired, |desired|)|))
  }

  ghost function Evaluated(b: Book, cause: nat): Book
    requires cause < |b.fixes| && Referenced(b)
  {
    var desired := Found(NowLines(b), NowExpectations(b));
    b.(evaluations := b.evaluations + [NewEvaluation(b, cause, desired)],
       observations := JudgedAll(b, cause, desired)
                       + OpenAll(Uncovered(b, desired, |desired|), Some(|b.evaluations|)))
  }

  /** Nothing in an evaluation raises. */
  ghost predicate CanEvaluate(b: Book)
    requires Referenced(b)
  {
    Bound(NowLines(b), NowExpectations(b)) && NoDuplicate(b, Found(NowLines(b), NowExpectations(b)))
  }
}
