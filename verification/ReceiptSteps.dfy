/** The operations on a receipt and its order, as steps that commit whole or not at all. */
module ReceiptSteps {
  import opened HistoryRows
  import opened RecordPairs
  import opened Disagreements
  import opened ReceiptBook

  // ----- binding a comparator

  /** The admission of a purchase-order line as a comparator: on the order, issued, active. */
  predicate Admissible(b: Book, po: nat) {
    b.hasOrder && b.issued && po < |b.poLines| && !HasSuccessor(b, po)
  }

  /** `_bind_comparator`. */
  function Bind(b: Book, po: nat, expected: int, cause: Option<nat>): Option<Book> {
    if !b.hasOrder then None
    else if IsBound(b, po) then Some(b)
    else if !Admissible(b, po) || Generation(b.poFixes, po) != expected then None
    else Some(b.(bindings := b.bindings + [Binding(po, expected, Head(b.poFixes, po), cause)]))
  }

  // ----- capture

  /** A serialized unit: its identifier, None when unreadable, and the asset it would become. */
  datatype Unit = Unit(serial: Option<Serial>, asset: Id)

  /** `serialized` is what the catalog says of the item. */
  datatype Capture = Capture(
    poLine: Option<nat>, expectedPo: int, item: Id, quantity: real, uom: Id, condition: Condition,
    packing: Option<real>, serialized: bool, unit: Option<Unit>)

  function LineFrom(b: Book, x: Capture): LineValue {
    var conflict := x.unit.Some? && Lookup(b.registry, x.unit.value.serial).Some?;
    LineValue(x.poLine, x.item, x.quantity, x.uom, x.condition, x.packing, x.serialized,
              if x.unit.Some? && !conflict then Some(x.unit.value.asset) else None,
              if conflict then x.unit.value.serial else None)
  }

  function Registered(g: Registry, u: Unit): Registry {
    Registry(if u.serial.Some? then g.serials[u.serial.value := u.asset] else g.serials,
             if u.serial.None? then g.unreadable + {u.asset} else g.unreadable,
             g.assets + {u.asset})
  }

  /** A unit enters the registry as a new asset with a new identifier. */
  predicate New(g: Registry, u: Unit) {
    u.asset !in g.assets && (u.serial.Some? ==> u.serial.value !in g.serials)
  }

  /** The line as capture classifies it, by the live value of its purchase-order line. */
  function Captured(b: Book, line: nat, x: Capture): Received {
    var v := LineFrom(b, x);
    Received(line, v.poLine, v.item, v.quantity, v.uom, v.condition, v.packing, v.asset, Lookup(b.registry, v.observed),
             x.unit.Some? && x.unit.value.serial.None?)
  }

  function LiveComparator(b: Book, po: Option<nat>): Option<Expectation> {
    if po.Some? && po.value < |b.poLines| then
      var v := Live(b, po.value);
      Some(Expectation(po.value, v.item, v.quantity, v.uom))
    else None
  }

  predicate CaptureAdmitted(b: Book, x: Capture) {
    && (x.poLine.Some? ==> Admissible(b, x.poLine.value))
    && (x.serialized <==> x.unit.Some?)
    && (x.serialized ==> x.quantity == 1.0)
    && (x.packing.Some? ==> b.packing)
    && (x.unit.Some? && Lookup(b.registry, x.unit.value.serial).None? ==> New(b.registry, x.unit.value))
  }

  function LineAdded(b: Book, x: Capture): Book {
    var l := Captured(b, |b.lines|, x);
    var kinds := Kinds(l, LiveComparator(b, x.poLine));
    b.(lines := b.lines + [LineFrom(b, x)],
       registry := if LineFrom(b, x).asset.Some? then Registered(b.registry, x.unit.value) else b.registry,
       observations := b.observations
                       + OpenAll(seq(|kinds|, i requires 0 <= i < |kinds| => LineKey(l, kinds[i])), None))
  }

  /** `_record_line` in its transaction. */
  function Receive(b: Book, x: Capture): Option<Book> {
    if b.reconciled then None
    else
      var bound := if x.poLine.Some? then Bind(b, x.poLine.value, x.expectedPo, None) else Some(b);
      if bound.None? || !CaptureAdmitted(b, x) then None else Some(LineAdded(bound.value, x))
  }

  /** The quantity exception of one comparator, from the sum over lines in its unit. */
  function Shortfall(lines: seq<Received>, p: Expectation): seq<Key> {
    var total := UnitTotal(lines, p.poLine, p.uom);
    if Mixed(lines, p.poLine, p.uom) then []
    else if total != p.quantity then [TotalKey(if total < p.quantity then SHORT else OVER, p.poLine)]
    else []
  }

  function Shortfalls(b: Book, n: nat): seq<Key>
    requires n <= |b.bindings|
  {
    if n == 0 then []
    else
      var live := LiveComparator(b, Some(b.bindings[n - 1].poLine));
      Shortfalls(b, n - 1) + (if live.Some? then Shortfall(NowLines(b), live.value) else [])
  }

  /** `_reconcile`. */
  function Reconcile(b: Book): Option<Book> {
    if b.reconciled then None
    else Some(b.(reconciled := true, observations := b.observations + OpenAll(Shortfalls(b, |b.bindings|), None)))
  }

  // ----- receipt-line correction

  /** The fields that a correction supplies; the others keep their effective value. */
  datatype Edit = Edit(
    poLine: Option<Option<nat>>, item: Option<Id>, quantity: Option<real>, uom: Option<Id>,
    condition: Option<Condition>, packing: Option<Option<real>>, observed: Option<Option<Serial>>)

  function Or<T>(o: Option<T>, v: T): T {
    if o.Some? then o.value else v
  }

  function Edited(v: LineValue, e: Edit): LineValue {
    v.(poLine := Or(e.poLine, v.poLine), item := Or(e.item, v.item), quantity := Or(e.quantity, v.quantity),
       uom := Or(e.uom, v.uom), condition := Or(e.condition, v.condition), packing := Or(e.packing, v.packing),
       observed := Or(e.observed, v.observed))
  }

  function NowValue(b: Book, line: nat): LineValue
    requires line < |b.lines|
  {
    Effective(b.lines, b.fixes, line)
  }

  /** What the guard derives for a row about a line that was captured as a conflict. */
  function Conflict(b: Book, line: nat, v: LineValue): Option<Id>
    requires line < |b.lines|
  {
    if b.lines[line].observed.Some? then Lookup(b.registry, v.observed) else None
  }

  /** The guard on the CORRECTED row; `serialized` is what the catalog says of its item. */
  predicate FixAdmitted(b: Book, line: nat, v: LineValue, serialized: bool)
    requires line < |b.lines|
  {
    var r := b.lines[line];
    && (r.serialized ==> v.quantity == 1.0 && v.item == r.item)
    && (!r.serialized ==> v.observed.None? && !serialized)
    && (r.asset.Some? ==> v.observed.None?)
    && (v.packing.Some? ==> b.packing)
    && (v.poLine.Some? && v.poLine != NowValue(b, line).poLine ==> Admissible(b, v.poLine.value))
    && (r.observed.Some? ==> Lookup(b.registry, v.observed).Some?)
  }

  datatype Fix = Fix(line: nat, edit: Edit, serialized: bool, expected: int, expectedPo: int, stamp: Stamp)

  function Normalized(s: Stamp): Stamp {
    s.(reason := Normalize(s.reason))
  }

  /** The pair of rows that a correction inserts. */
  function WithFix(b: Book, x: Fix): Book
    requires x.line < |b.lines|
  {
    var v := Edited(NowValue(b, x.line), x.edit);
    b.(fixes := WithPair(b.lines, b.fixes, x.line, v, Normalized(x.stamp),
                         Conflict(b, x.line, NowValue(b, x.line)), Conflict(b, x.line, v)))
  }

  predicate FixAccepted(b: Book, x: Fix) {
    && b.reconciled && x.line < |b.lines| && x.expected == Generation(b.fixes, x.line)
    && ReasonStored(Normalize(x.stamp.reason))
    && FixAdmitted(b, x.line, Edited(NowValue(b, x.line), x.edit), x.serialized)
  }

  /** The state in which `_evaluate` starts. */
  function Prepared(b: Book, x: Fix): Option<Book> {
    if !FixAccepted(b, x) then None
    else
      var v := Edited(NowValue(b, x.line), x.edit);
      var p := WithFix(b, x);
      if v.poLine.Some? then Bind(p, v.poLine.value, x.expectedPo, Some(|b.fixes| + 1)) else Some(p)
  }

  /** `correct_receipt_line`. */
  ghost function Correct(b: Book, x: Fix): Option<Book> {
    var p := Prepared(b, x);
    if p.None? || !Referenced(p.value) || !CanEvaluate(p.value) then None
    else if |b.fixes| + 1 < |p.value.fixes| then Some(Evaluated(p.value, |b.fixes| + 1))
    else None
  }

  // ----- the rest of the world

  /** `transition_exception` for an operator. */
  function Operate(b: Book, o: nat, expected: Status, to: Status, note: Id, actor: Id, at: Time): Option<Book> {
    if o >= |b.observations| || !LegalEdge(expected, to) || b.observations[o].status != expected then None
    else Some(b.(observations := b.observations[o := WithEvent(b.observations[o], to, Said(note), actor, at, None)]))
  }

  /** `correct_procurement`.  Only this receipt's comparators are known here, so fewer
      corrections are refused than in the source. */
  function Amend(b: Book, po: nat, expected: int, value: PoValue, stamp: Stamp): Option<Book> {
    if !b.issued || po >= |b.poLines| || IsBound(b, po) || expected != Generation(b.poFixes, po)
       || !ReasonStored(Normalize(stamp.reason)) then None
    else Some(b.(poFixes := WithPair(PoRoots(b.poLines), b.poFixes, po, value, Normalized(stamp), None, None)))
  }

  /** A new purchase-order line takes the place of an active one. */
  function Supersede(b: Book, po: nat, value: PoValue): Option<Book> {
    if !b.issued || po >= |b.poLines| || HasSuccessor(b, po) then None
    else Some(b.(poLines := b.poLines + [PoLine(value, Some(po))]))
  }

  /** Another receipt creates an asset. */
  function Register(b: Book, u: Unit): Option<Book> {
    if New(b.registry, u) then Some(b.(registry := Registered(b.registry, u))) else None
  }

  // ----- runs

  datatype Step =
    | DoBind(po: nat, expected: int)
    | DoReceive(capture: Capture)
    | DoReconcile
    | DoCorrect(fix: Fix)
    | DoOperate(o: nat, was: Status, to: Status, note: Id, actor: Id, at: Time)
    | DoAmend(po: nat, expected: int, value: PoValue, stamp: Stamp)
    | DoSupersede(po: nat, value: PoValue)
    | DoRegister(u: Unit)

  ghost function Outcome(b: Book, s: Step): Option<Book> {
    match s
    case DoBind(po, expected) => if b.reconciled then None else Bind(b, po, expected, None)
    case DoReceive(x) => Receive(b, x)
    case DoReconcile => Reconcile(b)
    case DoCorrect(x) => Correct(b, x)
    case DoOperate(o, was, to, note, actor, at) => Operate(b, o, was, to, note, actor, at)
    case DoAmend(po, expected, value, stamp) => Amend(b, po, expected, value, stamp)
    case DoSupersede(po, value) => Supersede(b, po, value)
    case DoRegister(u) => Register(b, u)
  }

  ghost function Take(b: Book, s: Step): Book {
    var r := Outcome(b, s);
    if r.Some? then r.value else b
  }

  ghost function Run(b: Book, steps: seq<Step>): Book {
    if steps == [] then b else Take(Run(b, steps[..|steps| - 1]), steps[|steps| - 1])
  }

  /** A new receipt; its order may have been corrected and superseded before. */
  function Opened(hasOrder: bool, packing: bool, poLines: seq<PoLine>, poFixes: seq<Entry<PoValue>>, registry: Registry): Book {
    Book(hasOrder, true, packing, poLines, poFixes, registry, [], [], [], false, [], [])
  }
}
