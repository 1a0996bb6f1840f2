/** Comparing received lines with what was ordered: the classification that the service
    computes, and the view by which the database checks it. */
module Disagreements {
  import opened HistoryRows
  import opened Sorting

  datatype Condition = GOOD | DAMAGED | OPENED | UNKNOWN

  datatype ExceptionType =
    | UNEXPECTED_ITEM | SUBSTITUTION | UOM_MISMATCH | DAMAGED_GOODS | OPENED_GOODS | QUANTITY_VARIANCE
    | SERIAL_UNREADABLE | SERIAL_MISMATCH | SHORT | OVER

  /** A received line as it is evaluated.  Line identities are positions. */
  datatype Received = Received(
    line: nat, poLine: Option<nat>, item: Id, quantity: real, uom: Id, condition: Condition,
    packing: Option<real>, asset: Option<Id>, conflicting: Option<Id>, unreadable: bool)

  /** What one purchase-order line led to expect. */
  datatype Expectation = Expectation(poLine: nat, item: Id, quantity: real, uom: Id)

  /** What identifies a disagreement: its type and its typed relationships. */
  datatype Key = Key(kind: ExceptionType, line: Option<nat>, poLine: Option<nat>, asset: Option<Id>, conflicting: Option<Id>)

  /** The relationships of a line's exception. */
  function LineKey(l: Received, kind: ExceptionType): Key {
    Key(kind, Some(l.line), l.poLine,
        if kind == QUANTITY_VARIANCE || kind == SERIAL_MISMATCH then None else l.asset,
        if kind == SERIAL_MISMATCH then l.conflicting else None)
  }

  function TotalKey(kind: ExceptionType, poLine: nat): Key {
    Key(kind, None, Some(poLine), None, None)
  }

  function When(b: bool, kind: ExceptionType): (s: seq<ExceptionType>)
    ensures forall x :: x in s <==> b && x == kind
    ensures |s| <= 1
  {
    if b then [kind] else []
  }

  function ConditionKind(c: Condition): (s: seq<ExceptionType>)
    ensures forall x :: x in s <==> (c == DAMAGED && x == DAMAGED_GOODS) || (c == OPENED && x == OPENED_GOODS)
    ensures |s| <= 1
  {
    match c
    case GOOD => []
    case UNKNOWN => []
    case DAMAGED => [DAMAGED_GOODS]
    case OPENED => [OPENED_GOODS]
  }

  // ----- sums

  function Total(lines: seq<Received>, poLine: nat): real {
    if lines == [] then 0.0
    else
      var n := |lines| - 1;
      Total(lines[..n], poLine) + (if lines[n].poLine == Some(poLine) then lines[n].quantity else 0.0)
  }

  /** The sum over the lines with the expected unit only. */
  function UnitTotal(lines: seq<Received>, poLine: nat, uom: Id): real {
    if lines == [] then 0.0
    else
      var n := |lines| - 1;
      UnitTotal(lines[..n], poLine, uom)
      + (if lines[n].poLine == Some(poLine) && lines[n].uom == uom then lines[n].quantity else 0.0)
  }

  predicate Mixed(lines: seq<Received>, poLine: nat, uom: Id) {
    exists i :: 0 <= i < |lines| && lines[i].poLine == Some(poLine) && lines[i].uom != uom
  }

  /** Receiving filters the sum by unit and re-evaluation does not; where it matters they agree. */
  lemma {:induction false} TotalsAgree(lines: seq<Received>, poLine: nat, uom: Id)
    requires !Mixed(lines, poLine, uom)
    ensures UnitTotal(lines, poLine, uom) == Total(lines, poLine)
  {
    if lines != [] {
      var n := |lines| - 1;
      assert lines[n].poLine == Some(poLine) ==> lines[n].uom == uom;
      TotalsAgree(lines[..n], poLine, uom);
    }
  }

  // ----- the service's classification

  function Comparator(exps: seq<Expectation>, poLine: nat): Option<Expectation> {
    if exps == [] then None
    else
      var n := |exps| - 1;
      if exps[n].poLine == poLine then Some(exps[n]) else Comparator(exps[..n], poLine)
  }

  /** The types that compare a line with its order; an unknown comparator gives none. */
  function OrderKinds(l: Received, c: Option<Expectation>): seq<ExceptionType> {
    if l.poLine.None? then [UNEXPECTED_ITEM]
    else if c.None? then []
    else When(l.item != c.value.item, SUBSTITUTION) + When(l.uom != c.value.uom, UOM_MISMATCH)
  }

  /** The types that the line's own facts give. */
  function OwnKinds(l: Received): seq<ExceptionType> {
    ConditionKind(l.condition) + When(l.packing.Some? && l.packing.value != l.quantity, QUANTITY_VARIANCE)
    + (When(l.unreadable, SERIAL_UNREADABLE) + When(l.conflicting.Some?, SERIAL_MISMATCH))
  }

  function Kinds(l: Received, c: Option<Expectation>): seq<ExceptionType> {
    OrderKinds(l, c) + OwnKinds(l)
  }

  function ComparatorOf(l: Received, exps: seq<Expectation>): Option<Expectation> {
    if l.poLine.None? then None else Comparator(exps, l.poLine.value)
  }

  function LineKeys(l: Received, exps: seq<Expectation>): seq<Key> {
    var kinds := Kinds(l, ComparatorOf(l, exps));
    seq(|kinds|, i requires 0 <= i < |kinds| => LineKey(l, kinds[i]))
  }

  function KeysAgainst(exps: seq<Expectation>): Received -> seq<Key> {
    (l: Received) => LineKeys(l, exps)
  }

  function AllLineKeys(lines: seq<Received>, exps: seq<Expectation>): seq<Key> {
    Gather(lines, KeysAgainst(exps))
  }

  function TotalKeys(lines: seq<Received>, p: Expectation): seq<Key> {
    var total := Total(lines, p.poLine);
    if !Mixed(lines, p.poLine, p.uom) && total != p.quantity
    then [TotalKey(if total < p.quantity then SHORT else OVER, p.poLine)]
    else []
  }

  function TotalsOver(lines: seq<Received>): Expectation -> seq<Key> {
    (p: Expectation) => TotalKeys(lines, p)
  }

  function AllTotalKeys(lines: seq<Received>, exps: seq<Expectation>): seq<Key> {
    Gather(exps, TotalsOver(lines))
  }

  function Found(lines: seq<Received>, exps: seq<Expectation>): seq<Key> {
    AllLineKeys(lines, exps) + AllTotalKeys(lines, exps)
  }

  /** Every named comparator is there. */
  ghost predicate Bound(lines: seq<Received>, exps: seq<Expectation>) {
    forall i :: 0 <= i < |lines| ==> HasComparator(lines[i], exps)
  }

  predicate HasComparator(l: Received, exps: seq<Expectation>) {
    l.poLine.Some? ==> Comparator(exps, l.poLine.value).Some?
  }

  /** The dictionary from purchase-order lines to expectations. */
  ghost predicate Mapped(exps: seq<Expectation>, comparators: map<nat, Expectation>) {
    forall p: nat :: (p in comparators <==> Comparator(exps, p).Some?)
                     && (p in comparators ==> comparators[p] == Comparator(exps, p).value)
  }

  method Comparators(exps: seq<Expectation>) returns (comparators: map<nat, Expectation>)
    ensures Mapped(exps, comparators)
  {
    comparators := map[];
    for i := 0 to |exps|
      invariant Mapped(exps[..i], comparators)
    {
      assert exps[..i + 1][..i] == exps[..i];
      comparators := comparators[exps[i].poLine := exps[i]];
    }
    assert exps[..|exps|] == exps;
  }

  /** `_disagreements`; None where a comparator is missing. */
  method Classify(lines: seq<Received>, exps: seq<Expectation>) returns (result: Option<seq<Key>>)
    ensures result.Some? <==> Bound(lines, exps)
    ensures result.Some? ==> result.value == Found(lines, exps)
  {
    var comparators := Comparators(exps);
    result := ClassifyLines(lines, exps, comparators);
    if result.Some? {
      var totals := ClassifyTotals(lines, exps);
      result := Some(result.value + totals);
    }
  }

  method ClassifyLines(lines: seq<Received>, exps: seq<Expectation>, comparators: map<nat, Expectation>)
    returns (result: Option<seq<Key>>)
    requires Mapped(exps, comparators)
    ensures result.Some? <==> Bound(lines, exps)
    ensures result.Some? ==> result.value == AllLineKeys(lines, exps)
  {
    ghost var f := KeysAgainst(exps);
    result := Some([]);
    for i := 0 to |lines|
      invariant result.Some? <==> Bound(lines[..i], exps)
      invariant result.Some? ==> result.value == Gather(lines[..i], f)
    {
      var keys := KeysOf(lines[i], exps, comparators);
      BoundNext(lines, exps, i);
      GatherNext(lines, f, i);
      if keys.None? || result.None? {
        result := None;
      } else {
        result := Some(result.value + keys.value);
      }
    }
    assert lines[..|lines|] == lines;
  }

  lemma {:induction false} BoundNext(lines: seq<Received>, exps: seq<Expectation>, i: nat)
    requires i < |lines|
    ensures Bound(lines[..i + 1], exps) <==> Bound(lines[..i], exps) && HasComparator(lines[i], exps)
  {
    assert lines[..i + 1] == lines[..i] + [lines[i]];
  }

  method KeysOf(l: Received, exps: seq<Expectation>, comparators: map<nat, Expectation>) returns (keys: Option<seq<Key>>)
    requires Mapped(exps, comparators)
    ensures keys.Some? <==> HasComparator(l, exps)
    ensures keys.Some? ==> keys.value == KeysAgainst(exps)(l)
  {
    if l.poLine.Some? && l.poLine.value !in comparators {
      keys := None;
    } else {
      var c := if l.poLine.Some? then Some(comparators[l.poLine.value]) else None;
      var kinds := KindsOf(l, c);
      keys := Some(seq(|kinds|, k requires 0 <= k < |kinds| => LineKey(l, kinds[k])));
    }
  }

  method ClassifyTotals(lines: seq<Received>, exps: seq<Expectation>) returns (keys: seq<Key>)
    ensures keys == AllTotalKeys(lines, exps)
  {
    keys := [];
    for i := 0 to |exps|
      invariant keys == AllTotalKeys(lines, exps[..i])
    {
      var p := exps[i];
      var total, mismatch := Sum(lines, p.poLine, p.uom);
      if !mismatch && total != p.quantity {
        keys := keys + [TotalKey(if total < p.quantity then SHORT else OVER, p.poLine)];
      }
      GatherNext(exps, TotalsOver(lines), i);
    }
    assert exps[..|exps|] == exps;
  }

  /** One expectation per purchase-order line. */
  ghost predicate Keyed(exps: seq<Expectation>) {
    forall i, j :: 0 <= i < j < |exps| ==> exps[i].poLine != exps[j].poLine
  }

  /** The list of types that the service builds for one line. */
  method KindsOf(l: Received, c: Option<Expectation>) returns (kinds: seq<ExceptionType>)
    requires l.poLine.Some? <==> c.Some?
    ensures kinds == Kinds(l, c)
  {
    kinds := [];
    if l.poLine.None? {
      kinds := [UNEXPECTED_ITEM];
    } else {
      if l.item != c.value.item { kinds := [SUBSTITUTION]; }
      if l.uom != c.value.uom { kinds := kinds + [UOM_MISMATCH]; }
    }
    var own := OwnKindsOf(l);
    kinds := kinds + own;
  }

  method OwnKindsOf(l: Received) returns (kinds: seq<ExceptionType>)
    ensures kinds == OwnKinds(l)
  {
    kinds := ConditionKind(l.condition);
    if l.packing.Some? && l.packing.value != l.quantity { kinds := kinds + [QUANTITY_VARIANCE]; }
    ghost var first := kinds;
    assert first == ConditionKind(l.condition) + When(l.packing.Some? && l.packing.value != l.quantity, QUANTITY_VARIANCE);
    if l.unreadable { kinds := kinds + [SERIAL_UNREADABLE]; }
    if l.conflicting.Some? { kinds := kinds + [SERIAL_MISMATCH]; }
    assert kinds == first + (When(l.unreadable, SERIAL_UNREADABLE) + When(l.conflicting.Some?, SERIAL_MISMATCH));
  }

  /** The aggregate query of one comparator. */
  method Sum(lines: seq<Received>, poLine: nat, uom: Id) returns (total: real, mismatch: bool)
    ensures total == Total(lines, poLine) && mismatch == Mixed(lines, poLine, uom)
  {
    total, mismatch := 0.0, false;
    for i := 0 to |lines|
      invariant total == Total(lines[..i], poLine)
      invariant mismatch <==> exists k :: 0 <= k < i && lines[k].poLine == Some(poLine) && lines[k].uom != uom
    {
      assert lines[..i + 1][..i] == lines[..i];
      if lines[i].poLine == Some(poLine) {
        total := total + lines[i].quantity;
        mismatch := mismatch || lines[i].uom != uom;
      }
    }
    assert lines[..|lines|] == lines;
  }

  // ----- the database's view

  /** When the view lists a type for a line; the comparator comes by a left join. */
  ghost predicate Holds(l: Received, exps: seq<Expectation>, kind: ExceptionType) {
    match kind
    case UNEXPECTED_ITEM => l.poLine.None?
    case SUBSTITUTION => exists i :: 0 <= i < |exps| && l.poLine == Some(exps[i].poLine) && l.item != exps[i].item
    case UOM_MISMATCH => exists i :: 0 <= i < |exps| && l.poLine == Some(exps[i].poLine) && l.uom != exps[i].uom
    case DAMAGED_GOODS => l.condition == DAMAGED
    case OPENED_GOODS => l.condition == OPENED
    case QUANTITY_VARIANCE => l.packing.Some? && l.quantity != l.packing.value
    case SERIAL_UNREADABLE => l.unreadable
    case SERIAL_MISMATCH => l.conflicting.Some?
    case SHORT => false
    case OVER => false
  }

  predicate Unbalanced(lines: seq<Received>, p: Expectation, kind: ExceptionType) {
    && !Mixed(lines, p.poLine, p.uom)
    && ((kind == SHORT && Total(lines, p.poLine) < p.quantity) || (kind == OVER && Total(lines, p.poLine) > p.quantity))
  }

  /** The row that the view derives from a line, column by column. */
  ghost predicate Gives(l: Received, exps: seq<Expectation>, k: Key) {
    && Holds(l, exps, k.kind)
    && k.line == Some(l.line) && k.poLine == l.poLine
    && k.asset == (if k.kind in {QUANTITY_VARIANCE, SERIAL_MISMATCH} then None else l.asset)
    && k.conflicting == (if k.kind == SERIAL_MISMATCH then l.conflicting else None)
  }

  ghost predicate LineListed(lines: seq<Received>, exps: seq<Expectation>, k: Key) {
    exists i :: 0 <= i < |lines| && Gives(lines[i], exps, k)
  }

  ghost predicate TotalListed(lines: seq<Received>, exps: seq<Expectation>, k: Key) {
    && k.line.None? && k.asset.None? && k.conflicting.None?
    && exists i :: 0 <= i < |exps| && Unbalanced(lines, exps[i], k.kind) && k.poLine == Some(exps[i].poLine)
  }

  /** The view `receipt_evaluation_disagreements` lists the key. */
  ghost predicate Listed(lines: seq<Received>, exps: seq<Expectation>, k: Key) {
    LineListed(lines, exps, k) || TotalListed(lines, exps, k)
  }

  // ----- the two agree

  lemma {:induction false} ComparatorFound(exps: seq<Expectation>, poLine: nat)
    ensures var c := Comparator(exps, poLine);
            && (c.Some? ==> exists i :: 0 <= i < |exps| && exps[i] == c.value && exps[i].poLine == poLine)
            && (Keyed(exps) ==> forall i :: 0 <= i < |exps| && exps[i].poLine == poLine ==> c == Some(exps[i]))
            && (c.None? ==> forall i :: 0 <= i < |exps| ==> exps[i].poLine != poLine)
  {
    if exps != [] {
      var n := |exps| - 1;
      ComparatorFound(exps[..n], poLine);
      if exps[n].poLine != poLine && Comparator(exps[..n], poLine).Some? {
        var i :| 0 <= i < n && exps[..n][i] == Comparator(exps[..n], poLine).value && exps[..n][i].poLine == poLine;
        assert exps[i] == exps[..n][i];
      }
      forall i | 0 <= i < n ensures exps[..n][i] == exps[i] { }
    }
  }

  lemma {:induction false} OrderKindsHold(l: Received, exps: seq<Expectation>, kind: ExceptionType)
    requires Keyed(exps)
    ensures kind in OrderKinds(l, ComparatorOf(l, exps)) <==>
              kind in {UNEXPECTED_ITEM, SUBSTITUTION, UOM_MISMATCH} && Holds(l, exps, kind)
  {
    if l.poLine.Some? { ComparatorFound(exps, l.poLine.value); }
  }

  lemma {:induction false} KindsHold(l: Received, exps: seq<Expectation>, kind: ExceptionType)
    requires Keyed(exps)
    ensures kind in Kinds(l, ComparatorOf(l, exps)) <==> Holds(l, exps, kind)
  {
    OrderKindsHold(l, exps, kind);
    assert kind in OwnKinds(l) <==> kind !in {UNEXPECTED_ITEM, SUBSTITUTION, UOM_MISMATCH} && Holds(l, exps, kind);
  }

  lemma {:induction false} LineKeysHold(l: Received, exps: seq<Expectation>, k: Key)
    requires Keyed(exps)
    ensures k in LineKeys(l, exps) <==> Gives(l, exps, k)
  {
    var kinds := Kinds(l, ComparatorOf(l, exps));
    KindsHold(l, exps, k.kind);
    if k in LineKeys(l, exps) {
      var i :| 0 <= i < |kinds| && LineKeys(l, exps)[i] == k;
      assert kinds[i] in kinds;
    }
    if Holds(l, exps, k.kind) && k == LineKey(l, k.kind) {
      var i :| 0 <= i < |kinds| && kinds[i] == k.kind;
      assert LineKeys(l, exps)[i] == k;
    }
  }

  lemma {:induction false} AllLineKeysHold(lines: seq<Received>, exps: seq<Expectation>, k: Key)
    requires Keyed(exps)
    ensures k in AllLineKeys(lines, exps) <==> LineListed(lines, exps, k)
  {
    GatherMembers(lines, KeysAgainst(exps), k);
    forall i | 0 <= i < |lines| ensures k in KeysAgainst(exps)(lines[i]) <==> Gives(lines[i], exps, k) {
      LineKeysHold(lines[i], exps, k);
    }
  }

  lemma {:induction false} AllTotalKeysHold(lines: seq<Received>, exps: seq<Expectation>, k: Key)
    ensures k in AllTotalKeys(lines, exps) <==> TotalListed(lines, exps, k)
  {
    GatherMembers(exps, TotalsOver(lines), k);
    forall i | 0 <= i < |exps|
      ensures k in TotalsOver(lines)(exps[i]) <==> Unbalanced(lines, exps[i], k.kind) && k == TotalKey(k.kind, exps[i].poLine)
    { }
  }

  /** The service finds exactly what the view lists. */
  lemma {:induction false} FormsAgree(lines: seq<Received>, exps: seq<Expectation>, k: Key)
    requires Keyed(exps)
    ensures k in Found(lines, exps) <==> Listed(lines, exps, k)
  {
    AllLineKeysHold(lines, exps, k);
    AllTotalKeysHold(lines, exps, k);
  }

  // ----- each disagreement once

  ghost predicate OneEach(lines: seq<Received>) {
    forall i, j :: 0 <= i < j < |lines| ==> lines[i].line != lines[j].line
  }

  lemma {:induction false} KindsDistinct(l: Received, c: Option<Expectation>)
    ensures Distinct(Kinds(l, c))
  {
    var first := ConditionKind(l.condition) + When(l.packing.Some? && l.packing.value != l.quantity, QUANTITY_VARIANCE);
    var second := When(l.unreadable, SERIAL_UNREADABLE) + When(l.conflicting.Some?, SERIAL_MISMATCH);
    DistinctConcat(ConditionKind(l.condition), When(l.packing.Some? && l.packing.value != l.quantity, QUANTITY_VARIANCE));
    DistinctConcat(When(l.unreadable, SERIAL_UNREADABLE), When(l.conflicting.Some?, SERIAL_MISMATCH));
    DistinctConcat(first, second);
    assert Distinct(OrderKinds(l, c));
    DistinctConcat(OrderKinds(l, c), OwnKinds(l));
  }

  lemma {:induction false} LineKeysDistinct(l: Received, exps: seq<Expectation>)
    ensures Distinct(LineKeys(l, exps))
  {
    var kinds := Kinds(l, ComparatorOf(l, exps));
    KindsDistinct(l, ComparatorOf(l, exps));
    forall i, j | 0 <= i < j < |kinds| ensures LineKeys(l, exps)[i] != LineKeys(l, exps)[j] {
      assert kinds[i] != kinds[j];
    }
  }

  lemma {:induction false} AllLineKeysDistinct(lines: seq<Received>, exps: seq<Expectation>)
    requires OneEach(lines)
    ensures Distinct(AllLineKeys(lines, exps))
  {
    var f := KeysAgainst(exps);
    forall i | 0 <= i < |lines| ensures Distinct(f(lines[i])) { LineKeysDistinct(lines[i], exps); }
    forall i, k | 0 <= i < |lines| && k in f(lines[i]) ensures k.line == Some(lines[i].line) { }
    GatherDistinct(lines, f);
  }

  lemma {:induction false} AllTotalKeysDistinct(lines: seq<Received>, exps: seq<Expectation>)
    requires Keyed(exps)
    ensures Distinct(AllTotalKeys(lines, exps))
  {
    GatherDistinct(exps, TotalsOver(lines));
  }

  lemma {:induction false} FoundDistinct(lines: seq<Received>, exps: seq<Expectation>)
    requires Keyed(exps) && OneEach(lines)
    ensures Distinct(Found(lines, exps))
  {
    AllLineKeysDistinct(lines, exps);
    AllTotalKeysDistinct(lines, exps);
    forall k | k in AllLineKeys(lines, exps) ensures k !in AllTotalKeys(lines, exps) {
      AllLineKeysHold(lines, exps, k);
      AllTotalKeysHold(lines, exps, k);
    }
    DistinctConcat(AllLineKeys(lines, exps), AllTotalKeys(lines, exps));
  }

  /** SHORT and OVER exclude each other, and any line in another unit excludes both. */
  lemma {:induction false} TotalsExclusive(lines: seq<Received>, exps: seq<Expectation>, poLine: nat)
    requires Keyed(exps)
    ensures !(TotalKey(SHORT, poLine) in Found(lines, exps) && TotalKey(OVER, poLine) in Found(lines, exps))
    ensures (exists j :: 0 <= j < |exps| && exps[j].poLine == poLine && Mixed(lines, poLine, exps[j].uom)) ==>
              TotalKey(SHORT, poLine) !in Found(lines, exps) && TotalKey(OVER, poLine) !in Found(lines, exps)
  {
    FormsAgree(lines, exps, TotalKey(SHORT, poLine));
    FormsAgree(lines, exps, TotalKey(OVER, poLine));
  }

  // ----- what a quantity exception means

  /** The sum over several deliveries is the sum of their sums. */
  lemma {:induction false} TotalConcat(a: seq<Received>, b: seq<Received>, poLine: nat)
    ensures Total(a + b, poLine) == Total(a, poLine) + Total(b, poLine)
  {
    if b == [] {
      assert a + b == a;
    } else {
      var n := |b| - 1;
      assert (a + b)[..|a| + n] == a + b[..n];
      TotalConcat(a, b[..n], poLine);
    }
  }

  /** One line counts with its quantity if it names the order line, and not otherwise. */
  lemma {:induction false} TotalSingle(l: Received, poLine: nat)
    ensures Total([l], poLine) == if l.poLine == Some(poLine) then l.quantity else 0.0
    ensures Total([], poLine) == 0.0
  {
    assert [l][..0] == [];
    assert Total([l][..0], poLine) == 0.0;
  }

  /** All lines that name the order line are in its unit. */
  ghost predicate InUnit(lines: seq<Received>, p: Expectation) {
    forall i :: 0 <= i < |lines| && lines[i].poLine == Some(p.poLine) ==> lines[i].uom == p.uom
  }

  /** SHORT is found exactly when everything received against the order line is in its unit
      and sums up to less than expected, OVER exactly when it sums up to more. */
  lemma {:induction false} TotalsMean(lines: seq<Received>, exps: seq<Expectation>, j: nat)
    requires Keyed(exps) && j < |exps|
    ensures TotalKey(SHORT, exps[j].poLine) in Found(lines, exps) <==>
              InUnit(lines, exps[j]) && Total(lines, exps[j].poLine) < exps[j].quantity
    ensures TotalKey(OVER, exps[j].poLine) in Found(lines, exps) <==>
              InUnit(lines, exps[j]) && Total(lines, exps[j].poLine) > exps[j].quantity
  {
    TotalListedAt(lines, exps, j, SHORT);
    TotalListedAt(lines, exps, j, OVER);
  }

  lemma {:induction false} TotalListedAt(lines: seq<Received>, exps: seq<Expectation>, j: nat, kind: ExceptionType)
    requires Keyed(exps) && j < |exps|
    ensures TotalKey(kind, exps[j].poLine) in Found(lines, exps) <==> Unbalanced(lines, exps[j], kind)
  {
    var k := TotalKey(kind, exps[j].poLine);
    FormsAgree(lines, exps, k);
    if TotalListed(lines, exps, k) {
      var i :| 0 <= i < |exps| && Unbalanced(lines, exps[i], k.kind) && k.poLine == Some(exps[i].poLine);
      assert i == j;
    }
  }
}
