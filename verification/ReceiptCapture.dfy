/** While a receipt is open, the exceptions on record are exactly those its lines demand,
    and reconciliation adds exactly the quantity exceptions. */
module ReceiptCapture {
  import opened HistoryRows
  import opened Sorting
  import opened RecordPairs
  import opened Disagreements
  import opened ReceiptBook
  import opened ReceiptViews
  import opened ReceiptStable
  import opened ReceiptInvariant
  import opened ReceiptSteps
  import ReceiptSafety

  function KeysOn(b: Book): seq<Key> {
    seq(|b.observations|, i requires 0 <= i < |b.observations| => b.observations[i].key)
  }

  /** Without evaluations every observation is alive. */
  lemma {:induction false} ExactKeys(b: Book)
    requires Referenced(b) && b.evaluations == []
    ensures Exact(b) <==> Distinct(KeysOn(b)) && forall k :: k in Want(b) <==> k in KeysOn(b)
  {
    forall o ensures Alive(b, o) { }
    forall k ensures AliveWith(b, k) <==> k in KeysOn(b) { KeyOnRecord(b, k); }
    var ks := KeysOn(b);
    assert AliveDistinct(b) <==> Distinct(ks) by {
      forall i, j | 0 <= i < j < |b.observations| ensures ks[i] == b.observations[i].key && ks[j] == b.observations[j].key { }
    }
  }

  lemma {:induction false} KeyOnRecord(b: Book, k: Key)
    requires b.evaluations == []
    ensures AliveWith(b, k) <==> k in KeysOn(b)
  {
    forall o ensures Alive(b, o) { }
    if k in KeysOn(b) {
      var i :| 0 <= i < |KeysOn(b)| && KeysOn(b)[i] == k;
      assert Alive(b, i) && b.observations[i].key == k;
    }
    if AliveWith(b, k) {
      var o :| 0 <= o < |b.observations| && Alive(b, o) && b.observations[o].key == k;
      assert KeysOn(b)[o] == k;
    }
  }

  lemma {:induction false} KeysAppend(b: Book, b': Book, keys: seq<Key>, origin: Option<nat>)
    requires b'.observations == b.observations + OpenAll(keys, origin)
    ensures KeysOn(b') == KeysOn(b) + keys
  {
  }

  // ----- comparators

  lemma {:induction false} ComparatorAppended(exps: seq<Expectation>, p: Expectation, po: nat)
    ensures Comparator(exps + [p], po) == if p.poLine == po then Some(p) else Comparator(exps, po)
  {
    assert (exps + [p])[..|exps|] == exps;
  }

  /** A comparator that no line names changes no classification. */
  lemma {:induction false} UnnamedComparator(lines: seq<Received>, exps: seq<Expectation>, p: Expectation)
    requires forall i :: 0 <= i < |lines| ==> lines[i].poLine != Some(p.poLine)
    ensures AllLineKeys(lines, exps + [p]) == AllLineKeys(lines, exps)
  {
    forall i | 0 <= i < |lines| ensures KeysAgainst(exps + [p])(lines[i]) == KeysAgainst(exps)(lines[i]) {
      if lines[i].poLine.Some? { ComparatorAppended(exps, p, lines[i].poLine.value); }
    }
    GatherSame(lines, KeysAgainst(exps + [p]), KeysAgainst(exps));
  }

  /** The pinned comparator of a bound line is its live value. */
  lemma {:induction false} LiveIsPinned(b: Book, po: nat)
    requires PinsOk(b) && Referenced(b) && IsBound(b, po)
    ensures LiveComparator(b, Some(po)) == Comparator(NowExpectations(b), po)
  {
    var i :| 0 <= i < |b.bindings| && b.bindings[i].poLine == po;
    PinnedIsLive(b, i);
    ExpectationsKeyed(b);
    ComparatorFound(NowExpectations(b), po);
    assert NowExpectations(b)[i].poLine == po;
  }

  // ----- binding

  lemma {:induction false} BindKeeps(b: Book, po: nat, expected: int)
    requires Inv(b) && !b.reconciled && Bind(b, po, expected, None).Some?
    ensures Inv(Bind(b, po, expected, None).value)
  {
    if !IsBound(b, po) {
      var b' := Bind(b, po, expected, None).value;
      ReceiptSafety.BindPins(b, po, expected, None);
      BindTables(b, b');
      BindSight(b, po, expected);
      ExactKeys(b);
      ExactKeys(b');
      assert KeysOn(b') == KeysOn(b);
      BindBound(b, b');
    }
  }

  lemma {:induction false} BindTables(b: Book, b': Book)
    requires TablesOk(b) && b' == b.(bindings := b'.bindings) && b.hasOrder && PinsOk(b')
    ensures TablesOk(b') && Referenced(b')
  {
    forall r | 0 <= r < |b'.lines| ensures LineKnown(b'.registry, b'.lines[r]) && Fits(b', r) {
      assert LineKnown(b.registry, b.lines[r]) && Fits(b, r);
    }
    forall i | 0 <= i < |b'.bindings| ensures b'.bindings[i].poLine < |b'.poLines| { assert PinOk(b', b'.bindings[i]); }
  }

  lemma {:induction false} BindBound(b: Book, b': Book)
    requires Steady(b) && TablesOk(b') && Referenced(b') && b' == b.(bindings := b'.bindings) && b.bindings <= b'.bindings
    ensures Bound(NowLines(b'), NowExpectations(b'))
  {
    ReceiptSafety.BoundIffLines(b);
    forall r | 0 <= r < |b'.lines| ensures ReceiptSafety.PoBound(b', Effective(b'.lines, b'.fixes, r).poLine) {
      ReceiptSafety.BoundGrows(b, b', Effective(b.lines, b.fixes, r).poLine);
    }
    ReceiptSafety.BoundIffLines(b');
  }

  lemma {:induction false} BindSight(b: Book, po: nat, expected: int)
    requires Steady(b) && !b.reconciled && Bind(b, po, expected, None).Some? && !IsBound(b, po)
    requires Referenced(Bind(b, po, expected, None).value)
    ensures Want(Bind(b, po, expected, None).value) == Want(b)
  {
    var b' := Bind(b, po, expected, None).value;
    var n := |b.bindings|;
    assert NowLines(b') == NowLines(b);
    var p := NowExpectations(b')[n];
    assert NowExpectations(b') == NowExpectations(b) + [p];
    forall i | 0 <= i < |NowLines(b)| ensures NowLines(b)[i].poLine != Some(po) {
      assert HasComparator(NowLines(b)[i], NowExpectations(b));
      if NowLines(b)[i].poLine.Some? { ReceiptSafety.ComparatorIffBound(b, NowLines(b)[i].poLine.value); }
    }
    UnnamedComparator(NowLines(b), NowExpectations(b), p);
  }

  // ----- one more line

  /** The setting of `LineAdded`: an open receipt with the comparator bound. */
  ghost predicate Adds(b: Book, x: Capture, b': Book) {
    && Inv(b) && !b.reconciled && CaptureAdmitted(b, x) && ReceiptSafety.PoBound(b, x.poLine)
    && b' == LineAdded(b, x)
  }

  lemma {:induction false} RegistryAdds(b: Book, x: Capture)
    requires CaptureAdmitted(b, x) && b.registry.unreadable <= b.registry.assets
    ensures var g := LineAdded(b, x).registry;
            && RegistryLater(b.registry, g) && g.unreadable <= g.assets && LineKnown(g, LineFrom(b, x))
            && (LineFrom(b, x).asset.Some? ==> (LineFrom(b, x).asset.value in g.unreadable <==> x.unit.value.serial.None?))
            && Lookup(g, LineFrom(b, x).observed) == Lookup(b.registry, LineFrom(b, x).observed)
  {
  }

  /** The captured line reads the same through the evaluation's view, and so do the others. */
  lemma {:induction false} LineAdds(b: Book, x: Capture, r: nat)
    requires CaptureAdmitted(b, x) && b.registry.unreadable <= b.registry.assets && b.fixes == [] && r <= |b.lines|
    requires r < |b.lines| ==> LineKnown(b.registry, b.lines[r])
    ensures var b' := LineAdded(b, x);
            Seen(b', SourceOf(b', r)) == if r < |b.lines| then Seen(b, SourceOf(b, r)) else Captured(b, r, x)
  {
    RegistryAdds(b, x);
    assert LineAdded(b, x).lines[|b.lines|] == LineFrom(b, x);
  }

  lemma {:induction false} LinesAdd(b: Book, x: Capture, b': Book)
    requires CaptureAdmitted(b, x) && b.registry.unreadable <= b.registry.assets && b.fixes == [] && b' == LineAdded(b, x)
    requires forall r :: 0 <= r < |b.lines| ==> LineKnown(b.registry, b.lines[r])
    ensures NowLines(b') == NowLines(b) + [Captured(b, |b.lines|, x)]
  {
    var n := |b.lines|;
    assert |b'.lines| == n + 1;
    forall r | 0 <= r <= n ensures Seen(b', SourceOf(b', r)) == if r < n then Seen(b, SourceOf(b, r)) else Captured(b, r, x) {
      LineAdds(b, x, r);
    }
    forall r | 0 <= r <= n ensures NowLines(b')[r] == (NowLines(b) + [Captured(b, n, x)])[r] {
      assert NowLines(b')[r] == Seen(b', SourceOf(b', r));
    }
  }

  lemma {:induction false} ExpectationsAdd(b: Book, x: Capture, b': Book)
    requires Adds(b, x, b')
    ensures Referenced(b') && NowExpectations(b') == NowExpectations(b)
  {
    assert Pins(b') == Pins(b);
  }

  lemma {:induction false} KeysAdd(b: Book, x: Capture, b': Book)
    requires Adds(b, x, b')
    ensures KeysOn(b') == KeysOn(b) + LineKeys(Captured(b, |b.lines|, x), NowExpectations(b))
  {
    var l := Captured(b, |b.lines|, x);
    if x.poLine.Some? { LiveIsPinned(b, x.poLine.value); }
    assert LiveComparator(b, x.poLine) == ComparatorOf(l, NowExpectations(b));
    var kinds := Kinds(l, LiveComparator(b, x.poLine));
    KeysAppend(b, b', seq(|kinds|, i requires 0 <= i < |kinds| => LineKey(l, kinds[i])), None);
  }

  lemma {:induction false} WantAdds(b: Book, x: Capture, b': Book)
    requires Adds(b, x, b') && Referenced(b')
    ensures Want(b') == Want(b) + LineKeys(Captured(b, |b.lines|, x), NowExpectations(b))
  {
    LinesAdd(b, x, b');
    ExpectationsAdd(b, x, b');
    var l := Captured(b, |b.lines|, x);
    var f := KeysAgainst(NowExpectations(b));
    GatherNext(NowLines(b'), f, |b.lines|);
    assert NowLines(b')[..|b.lines|] == NowLines(b) && NowLines(b')[..|b.lines| + 1] == NowLines(b');
  }

  /** Exceptions of different lines differ. */
  lemma {:induction false} NewKeysDiffer(b: Book, l: Received)
    requires PinsOk(b) && Referenced(b) && l.line == |b.lines|
    ensures forall k :: k in AllLineKeys(NowLines(b), NowExpectations(b)) ==> k !in LineKeys(l, NowExpectations(b))
  {
    ExpectationsKeyed(b);
    forall k | k in AllLineKeys(NowLines(b), NowExpectations(b)) ensures k !in LineKeys(l, NowExpectations(b)) {
      AllLineKeysHold(NowLines(b), NowExpectations(b), k);
      LineKeysHold(l, NowExpectations(b), k);
    }
  }

  lemma {:induction false} ExactAdds(b: Book, x: Capture, b': Book)
    requires Adds(b, x, b')
    ensures Referenced(b') && Exact(b')
  {
    ExpectationsAdd(b, x, b');
    KeysAdd(b, x, b');
    WantAdds(b, x, b');
    ExactKeys(b);
    ExactKeys(b');
    var l := Captured(b, |b.lines|, x);
    NewKeysDiffer(b, l);
    LineKeysDistinct(l, NowExpectations(b));
    DistinctConcat(KeysOn(b), LineKeys(l, NowExpectations(b)));
  }

  lemma {:induction false} LineFits(b: Book, x: Capture, r: nat)
    requires CaptureAdmitted(b, x) && b.registry.unreadable <= b.registry.assets && b.fixes == [] && r <= |b.lines|
    requires r < |b.lines| ==> LineKnown(b.registry, b.lines[r]) && Fits(b, r)
    ensures var b' := LineAdded(b, x); LineKnown(b'.registry, b'.lines[r]) && Fits(b', r)
  {
    RegistryAdds(b, x);
    assert LineAdded(b, x).lines[|b.lines|] == LineFrom(b, x);
  }

  lemma {:induction false} TablesAdd(b: Book, x: Capture, b': Book)
    requires Adds(b, x, b')
    ensures TablesOk(b') && PinsOk(b')
  {
    RegistryAdds(b, x);
    forall r | 0 <= r < |b'.lines| ensures LineKnown(b'.registry, b'.lines[r]) && Fits(b', r) { LineFits(b, x, r); }
    RestAdds(b, x);
  }

  lemma {:induction false} RestAdds(b: Book, x: Capture)
    requires Flow(b) && PinsOk(b)
    ensures Flow(LineAdded(b, x)) && PinsOk(LineAdded(b, x))
  {
    var b' := LineAdded(b, x);
    forall i | 0 <= i < |b'.bindings| ensures PinOk(b', b'.bindings[i]) { assert PinOk(b, b.bindings[i]); }
    forall o | 0 <= o < |b'.observations| ensures Flowing(b'.observations[o], |b'.evaluations|) {
      if o < |b.observations| { assert Flowing(b.observations[o], |b.evaluations|); }
    }
  }

  lemma {:induction false} BoundAdds(b: Book, x: Capture, b': Book)
    requires Adds(b, x, b') && Referenced(b') && Paired(b'.lines, b'.fixes)
    ensures Bound(NowLines(b'), NowExpectations(b'))
  {
    ReceiptSafety.BoundIffLines(b);
    forall r | 0 <= r < |b'.lines| ensures ReceiptSafety.PoBound(b', Effective(b'.lines, b'.fixes, r).poLine) {
      if r < |b.lines| { assert ReceiptSafety.PoBound(b, Effective(b.lines, b.fixes, r).poLine); }
    }
    ReceiptSafety.BoundIffLines(b');
  }

  lemma {:induction false} LineAddedKeeps(b: Book, x: Capture, b': Book)
    requires Adds(b, x, b')
    ensures Inv(b')
  {
    TablesAdd(b, x, b');
    ExactAdds(b, x, b');
    BoundAdds(b, x, b');
  }

  lemma {:induction false} AdmissionStays(b: Book, x: Capture, bound: Book)
    requires CaptureAdmitted(b, x) && bound == b.(bindings := bound.bindings)
    ensures CaptureAdmitted(bound, x)
  {
  }

  /** Capturing a line keeps the record exact. */
  lemma {:induction false} ReceiveKeeps(b: Book, x: Capture)
    requires Inv(b) && Receive(b, x).Some?
    ensures Inv(Receive(b, x).value)
  {
    var bound := if x.poLine.Some? then Bind(b, x.poLine.value, x.expectedPo, None) else Some(b);
    if x.poLine.Some? {
      BindKeeps(b, x.poLine.value, x.expectedPo);
      ReceiptSafety.BindPins(b, x.poLine.value, x.expectedPo, None);
    }
    AdmissionStays(b, x, bound.value);
    LineAddedKeeps(bound.value, x, LineAdded(bound.value, x));
  }

  // ----- reconciliation

  lemma {:induction false} ShortfallIs(lines: seq<Received>, p: Expectation)
    ensures Shortfall(lines, p) == TotalKeys(lines, p)
  {
    if !Mixed(lines, p.poLine, p.uom) { TotalsAgree(lines, p.poLine, p.uom); }
  }

  /** Reconciliation against live values finds what evaluation finds against pinned ones. */
  lemma {:induction false} ShortfallsAre(b: Book, n: nat)
    requires PinsOk(b) && Referenced(b) && n <= |b.bindings|
    ensures Shortfalls(b, n) == AllTotalKeys(NowLines(b), NowExpectations(b)[..n])
  {
    if n > 0 {
      ShortfallsAre(b, n - 1);
      PinnedIsLive(b, n - 1);
      ShortfallIs(NowLines(b), NowExpectations(b)[n - 1]);
      GatherNext(NowExpectations(b), TotalsOver(NowLines(b)), n - 1);
    }
  }

  lemma {:induction false} ReconcileExact(b: Book, b': Book)
    requires Inv(b) && Reconcile(b) == Some(b')
    ensures Referenced(b') && Exact(b')
  {
    var lines, exps := NowLines(b), NowExpectations(b);
    ShortfallsAre(b, |b.bindings|);
    assert exps[..|b.bindings|] == exps;
    assert NowLines(b') == lines && NowExpectations(b') == exps;
    KeysAppend(b, b', AllTotalKeys(lines, exps), None);
    ExactKeys(b);
    ExactKeys(b');
    ReconcileDistinct(b);
    DistinctConcat(KeysOn(b), AllTotalKeys(lines, exps));
  }

  lemma {:induction false} ReconcileDistinct(b: Book)
    requires PinsOk(b) && Referenced(b)
    ensures Distinct(AllTotalKeys(NowLines(b), NowExpectations(b)))
    ensures forall k :: k in AllLineKeys(NowLines(b), NowExpectations(b)) ==> k !in AllTotalKeys(NowLines(b), NowExpectations(b))
  {
    var lines, exps := NowLines(b), NowExpectations(b);
    ExpectationsKeyed(b);
    AllTotalKeysDistinct(lines, exps);
    forall k | k in AllLineKeys(lines, exps) ensures k !in AllTotalKeys(lines, exps) {
      AllLineKeysHold(lines, exps, k);
      AllTotalKeysHold(lines, exps, k);
    }
  }

  lemma {:induction false} ReconcileKeeps(b: Book, b': Book)
    requires Inv(b) && Reconcile(b) == Some(b')
    ensures Inv(b')
  {
    ReconcileExact(b, b');
    forall r | 0 <= r < |b'.lines| ensures LineKnown(b'.registry, b'.lines[r]) && Fits(b', r) {
      assert LineKnown(b.registry, b.lines[r]) && Fits(b, r);
    }
    forall i | 0 <= i < |b'.bindings| ensures PinOk(b', b'.bindings[i]) { assert PinOk(b, b.bindings[i]); }
    forall o | 0 <= o < |b'.observations| ensures Flowing(b'.observations[o], |b'.evaluations|) {
      if o < |b.observations| { assert Flowing(b.observations[o], |b.evaluations|); }
    }
    assert NowLines(b') == NowLines(b) && NowExpectations(b') == NowExpectations(b);
  }

  // ----- the database's own rules for receiving

  /** The type is in the list that the completeness trigger builds for a line. */
  predicate TriggerExpects(b: Book, r: nat, kind: ExceptionType)
    requires r < |b.lines|
  {
    var l := b.lines[r];
    match kind
    case UNEXPECTED_ITEM => l.poLine.None?
    case SUBSTITUTION => l.poLine.Some? && l.poLine.value < |b.poLines| && l.item != Live(b, l.poLine.value).item
    case UOM_MISMATCH => l.poLine.Some? && l.poLine.value < |b.poLines| && l.uom != Live(b, l.poLine.value).uom
    case DAMAGED_GOODS => l.condition == DAMAGED
    case OPENED_GOODS => l.condition == OPENED
    case QUANTITY_VARIANCE => l.packing.Some? && l.quantity != l.packing.value
    case SERIAL_MISMATCH => l.observed.Some?
    case SERIAL_UNREADABLE => l.asset.Some? && l.asset.value in b.registry.unreadable
    case SHORT => false
    case OVER => false
  }

  ghost predicate LineOnRecord(b: Book, r: nat, kind: ExceptionType) {
    exists o :: 0 <= o < |b.observations| && b.observations[o].key.line == Some(r) && b.observations[o].key.kind == kind
  }

  /** The trigger's condition for SHORT or OVER, from the sum over lines in the unit. */
  predicate TotalExpected(b: Book, po: nat, kind: ExceptionType) {
    po < |b.poLines| &&
    var v := Live(b, po);
    var total := UnitTotal(NowLines(b), po, v.uom);
    && (forall i :: 0 <= i < |NowLines(b)| && NowLines(b)[i].poLine == Some(po) ==> NowLines(b)[i].uom == v.uom)
    && ((kind == SHORT && total < v.quantity) || (kind == OVER && total > v.quantity))
  }

  /** The captured facts and the view's facts give the same types. */
  lemma {:induction false} TriggerIsView(b: Book, r: nat, kind: ExceptionType)
    requires Inv(b) && b.evaluations == [] && r < |b.lines|
    ensures TriggerExpects(b, r, kind) <==> Holds(NowLines(b)[r], NowExpectations(b), kind)
  {
    var l := NowLines(b)[r];
    assert l == Seen(b, SourceOf(b, r)) && b.fixes == [];
    assert LineKnown(b.registry, b.lines[r]);
    ExpectationsKeyed(b);
    KindsHold(l, NowExpectations(b), kind);
    if l.poLine.Some? {
      ReceiptSafety.BoundIffLines(b);
      assert ReceiptSafety.PoBound(b, Effective(b.lines, b.fixes, r).poLine);
      LiveIsPinned(b, l.poLine.value);
      OrderKindsHold(l, NowExpectations(b), kind);
    }
  }

  lemma {:induction false} OnRecordHolds(b: Book, o: nat, r: nat)
    requires Inv(b) && b.evaluations == [] && r < |b.lines| && o < |b.observations| && b.observations[o].key.line == Some(r)
    ensures Holds(NowLines(b)[r], NowExpectations(b), b.observations[o].key.kind)
  {
    var lines, exps, k := NowLines(b), NowExpectations(b), b.observations[o].key;
    assert KeysOn(b)[o] == k;
    RecordListed(b, k);
    ListedAt(lines, exps, k, r);
  }

  lemma {:induction false} ListedAt(lines: seq<Received>, exps: seq<Expectation>, k: Key, r: nat)
    requires LineListed(lines, exps, k) && r < |lines| && k.line == Some(r) && forall i :: 0 <= i < |lines| ==> lines[i].line == i
    ensures Gives(lines[r], exps, k)
  {
    var i :| 0 <= i < |lines| && Gives(lines[i], exps, k);
    assert lines[i].line == i;
  }

  lemma {:induction false} HoldsOnRecord(b: Book, r: nat, kind: ExceptionType)
    requires Inv(b) && b.evaluations == [] && r < |b.lines| && Holds(NowLines(b)[r], NowExpectations(b), kind)
    ensures LineOnRecord(b, r, kind)
  {
    var k := LineKey(NowLines(b)[r], kind);
    assert Gives(NowLines(b)[r], NowExpectations(b), k);
    RecordListed(b, k);
    var o :| 0 <= o < |KeysOn(b)| && KeysOn(b)[o] == k;
    assert b.observations[o].key == k;
  }

  lemma {:induction false} LineExceptionsExact(b: Book, r: nat, kind: ExceptionType)
    requires Inv(b) && b.evaluations == [] && r < |b.lines|
    ensures LineOnRecord(b, r, kind) <==> TriggerExpects(b, r, kind)
  {
    TriggerIsView(b, r, kind);
    if LineOnRecord(b, r, kind) {
      var o :| 0 <= o < |b.observations| && b.observations[o].key.line == Some(r) && b.observations[o].key.kind == kind;
      OnRecordHolds(b, o, r);
    }
    if Holds(NowLines(b)[r], NowExpectations(b), kind) { HoldsOnRecord(b, r, kind); }
  }

  /** The keys on record are those that the view lists. */
  lemma {:induction false} RecordListed(b: Book, k: Key)
    requires Inv(b) && b.evaluations == []
    ensures k.line.Some? ==> (k in KeysOn(b) <==> LineListed(NowLines(b), NowExpectations(b), k))
    ensures k.line.None? ==> (k in KeysOn(b) <==> b.reconciled && TotalListed(NowLines(b), NowExpectations(b), k))
  {
    ExpectationsKeyed(b);
    ExactKeys(b);
    assert k in Want(b) <==> k in KeysOn(b);
    FormsAgree(NowLines(b), NowExpectations(b), k);
    AllLineKeysHold(NowLines(b), NowExpectations(b), k);
  }

  lemma {:induction false} QuantityExceptionsExact(b: Book, i: nat, kind: ExceptionType)
    requires Inv(b) && b.evaluations == [] && i < |b.bindings|
    ensures TotalKey(kind, b.bindings[i].poLine) in KeysOn(b) <==> b.reconciled && TotalExpected(b, b.bindings[i].poLine, kind)
  {
    var po := b.bindings[i].poLine;
    var k := TotalKey(kind, po);
    RecordListed(b, k);
    PinnedIsLive(b, i);
    ExpectationsKeyed(b);
    var lines, exps := NowLines(b), NowExpectations(b);
    if !Mixed(lines, po, exps[i].uom) { TotalsAgree(lines, po, exps[i].uom); }
    FormsAgree(lines, exps, k);
    TotalListedAt(lines, exps, i, kind);
  }
}
