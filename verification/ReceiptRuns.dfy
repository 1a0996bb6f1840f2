/** What holds of a receipt in every run of captures, reconciliation, corrections, operator
    decisions, and changes of its order and of the asset registry. */
module ReceiptRuns {
  import opened HistoryRows
  import opened Sorting
  import opened RecordPairs
  import opened Disagreements
  import opened ReceiptBook
  import opened ReceiptViews
  import opened ReceiptInvariant
  import opened ReceiptSteps
  import ReceiptSafety
  import ReceiptCapture

  lemma {:induction false} CorrectedKeeps(b: Book, x: Fix)
    requires Inv(b) && Correct(b, x).Some?
    ensures Inv(Correct(b, x).value)
  {
    ReceiptSafety.CorrectKeeps(b, x, Prepared(b, x).value);
  }

  lemma {:induction false} StepKeeps(b: Book, s: Step)
    requires Inv(b) && Outcome(b, s).Some?
    ensures Inv(Outcome(b, s).value)
  {
    match s
    case DoBind(po, expected) => ReceiptCapture.BindKeeps(b, po, expected);
    case DoReceive(x) => ReceiptCapture.ReceiveKeeps(b, x);
    case DoReconcile => ReceiptCapture.ReconcileKeeps(b, Reconcile(b).value);
    case DoCorrect(x) => CorrectedKeeps(b, x);
    case DoOperate(o, was, to, note, actor, at) => ReceiptSafety.OperateKeeps(b, o, was, to, note, actor, at);
    case DoAmend(po, expected, value, stamp) => ReceiptSafety.AmendKeeps(b, po, expected, value, stamp);
    case DoSupersede(po, value) => ReceiptSafety.SupersedeKeeps(b, po, value);
    case DoRegister(u) => ReceiptSafety.RegisterKeeps(b, u);
  }

  lemma {:induction false} RunKeeps(b: Book, steps: seq<Step>)
    requires Inv(b)
    ensures Inv(Run(b, steps))
  {
    if steps != [] {
      var n := |steps| - 1;
      RunKeeps(b, steps[..n]);
      if Outcome(Run(b, steps[..n]), steps[n]).Some? { StepKeeps(Run(b, steps[..n]), steps[n]); }
    }
  }

  /** A receipt opened on an order whose corrections are in pairs. */
  ghost predicate Starts(b: Book) {
    && b == Opened(b.hasOrder, b.packing, b.poLines, b.poFixes, b.registry)
    && Paired(PoRoots(b.poLines), b.poFixes) && b.registry.unreadable <= b.registry.assets
  }

  lemma {:induction false} StartKeeps(b: Book)
    requires Starts(b)
    ensures Inv(b)
  {
    ReceiptCapture.ExactKeys(b);
    assert NowLines(b) == [] && NowExpectations(b) == [];
  }

  lemma {:induction false} Reached(b: Book, steps: seq<Step>)
    requires Starts(b)
    ensures Inv(Run(b, steps))
  {
    StartKeeps(b);
    RunKeeps(b, steps);
  }

  // ----- the exceptions on record are exactly the true ones

  /** In every run, once the receipt is reconciled, the view lists a disagreement between the
      lines in force and the pinned expectations exactly when one observation that was never
      retired carries it, and never two; before, the same holds for the line disagreements. */
  lemma {:induction false} OneToOne(b: Book, steps: seq<Step>, k: Key)
    requires Starts(b)
    ensures var r := Run(b, steps);
            && Referenced(r)
            && (AliveWith(r, k) <==>
                  if r.reconciled then Listed(NowLines(r), NowExpectations(r), k)
                  else LineListed(NowLines(r), NowExpectations(r), k))
            && (forall i, j :: 0 <= i < j < |r.observations| && Alive(r, i) && Alive(r, j) ==>
                                 r.observations[i].key != r.observations[j].key)
  {
    var r := Run(b, steps);
    Reached(b, steps);
    ExpectationsKeyed(r);
    FormsAgree(NowLines(r), NowExpectations(r), k);
    AllLineKeysHold(NowLines(r), NowExpectations(r), k);
    assert k in Want(r) <==> AliveWith(r, k);
  }

  // ----- no check ever locks the receipt

  /** In every run all health views are empty: of every past evaluation, of every workflow,
      and of both tables of corrections. */
  lemma {:induction false} AlwaysHealthy(b: Book, steps: seq<Step>)
    requires Starts(b)
    ensures var r := Run(b, steps);
            && AllHeld(r) && (forall o :: 0 <= o < |r.observations| ==> WorkflowHeld(r.observations[o]))
            && (forall root :: !Anomalous(r.lines, r.fixes, root))
            && (forall root :: !Anomalous(PoRoots(r.poLines), r.poFixes, root))
  {
    var r := Run(b, steps);
    Reached(b, steps);
    Healthy(r);
  }

  lemma {:induction false} Healthy(r: Book)
    requires Inv(r)
    ensures AllHeld(r) && (forall o :: 0 <= o < |r.observations| ==> WorkflowHeld(r.observations[o]))
    ensures forall root :: !Anomalous(r.lines, r.fixes, root)
    ensures forall root :: !Anomalous(PoRoots(r.poLines), r.poFixes, root)
  {
    PresentWhenNumbered(r);
    forall at | 0 <= at < |r.evaluations| ensures Held(r, at) { assert EvaluationOk(r, at); }
    forall o | 0 <= o < |r.observations| ensures WorkflowHeld(r.observations[o]) {
      FlowingIsHeld(r.observations[o], |r.evaluations|);
    }
    forall root: nat ensures !Anomalous(r.lines, r.fixes, root) && !Anomalous(PoRoots(r.poLines), r.poFixes, root) {
      PairedIsHealthy(r.lines, r.fixes, root);
      PairedIsHealthy(PoRoots(r.poLines), r.poFixes, root);
    }
  }

  /** In every run a correction fails only at its admission: past it, "Duplicate supported
      observation" and a missing comparator cannot occur, the conflict derived for the
      REVERSAL is found, and the completeness check accepts the evaluation. */
  lemma {:induction false} CorrectionGoesThrough(b: Book, steps: seq<Step>, x: Fix)
    requires Starts(b)
    ensures var r := Run(b, steps);
            && (Prepared(r, x).Some? <==> Correct(r, x).Some?)
            && (Correct(r, x).Some? ==> Complete(Correct(r, x).value, |r.fixes| + 1))
            && (FixAccepted(r, x) && r.lines[x.line].observed.Some? ==> Conflict(r, x.line, NowValue(r, x.line)).Some?)
  {
    Reached(b, steps);
    GoesThrough(Run(b, steps), x);
  }

  lemma {:induction false} GoesThrough(r: Book, x: Fix)
    requires Inv(r)
    ensures Prepared(r, x).Some? <==> Correct(r, x).Some?
    ensures Correct(r, x).Some? ==> Complete(Correct(r, x).value, |r.fixes| + 1)
    ensures FixAccepted(r, x) && r.lines[x.line].observed.Some? ==> Conflict(r, x.line, NowValue(r, x.line)).Some?
  {
    if Prepared(r, x).Some? { ReceiptSafety.CorrectKeeps(r, x, Prepared(r, x).value); }
    if FixAccepted(r, x) { assert Fits(r, x.line); }
  }

  /** In every run no correction changes the identity of a captured line or breaks the rules
      of its capture, and the order line that it names is a bound one. */
  lemma {:induction false} LinesKeepIdentity(b: Book, steps: seq<Step>, line: nat)
    requires Starts(b) && line < |Run(b, steps).lines|
    ensures var r := Run(b, steps);
            var now := NowValue(r, line);
            Fits(r, line) && (now.poLine.Some? ==> IsBound(r, now.poLine.value))
  {
    var r := Run(b, steps);
    Reached(b, steps);
    ReceiptSafety.BoundIffLines(r);
    assert Fits(r, line) && ReceiptSafety.PoBound(r, Effective(r.lines, r.fixes, line).poLine);
  }

  // ----- pinned expectations stay live

  /** Nothing that the order or the comparators hold is ever changed. */
  ghost predicate Grows(b: Book, b': Book) {
    b.bindings <= b'.bindings && b.poLines <= b'.poLines && b.poFixes <= b'.poFixes
  }

  lemma {:induction false} BindGrows(b: Book, po: nat, expected: int, cause: Option<nat>)
    ensures Bind(b, po, expected, cause).Some? ==> Grows(b, Bind(b, po, expected, cause).value)
  {
  }

  lemma {:induction false} ReceiveGrows(b: Book, x: Capture)
    ensures Receive(b, x).Some? ==> Grows(b, Receive(b, x).value)
  {
    if x.poLine.Some? { BindGrows(b, x.poLine.value, x.expectedPo, None); }
  }

  lemma {:induction false} CorrectGrows(b: Book, x: Fix)
    ensures Correct(b, x).Some? ==> Grows(b, Correct(b, x).value)
  {
    if FixAccepted(b, x) {
      var v := Edited(NowValue(b, x.line), x.edit);
      if v.poLine.Some? { BindGrows(WithFix(b, x), v.poLine.value, x.expectedPo, Some(|b.fixes| + 1)); }
    }
  }

  lemma {:induction false} StepGrows(b: Book, s: Step)
    ensures Grows(b, Take(b, s))
  {
    match s
    case DoBind(po, expected) => BindGrows(b, po, expected, None);
    case DoReceive(x) => ReceiveGrows(b, x);
    case DoCorrect(x) => CorrectGrows(b, x);
    case _ =>
  }

  lemma {:induction false} RunGrows(b: Book, steps: seq<Step>)
    ensures Grows(b, Run(b, steps))
  {
    if steps != [] {
      RunGrows(b, steps[..|steps| - 1]);
      StepGrows(Run(b, steps[..|steps| - 1]), steps[|steps| - 1]);
    }
  }

  /** Once a receipt binds a purchase-order line, its live value is the pinned one forever. */
  lemma {:induction false} PinnedForever(b: Book, steps: seq<Step>, later: seq<Step>, i: nat)
    requires Starts(b) && i < |Run(b, steps).bindings|
    ensures var s := Run(b, steps);
            var t := Run(s, later);
            && i < |t.bindings| && t.bindings[i] == s.bindings[i]
            && s.bindings[i].poLine < |s.poLines| <= |t.poLines|
            && Live(t, s.bindings[i].poLine) == Live(s, s.bindings[i].poLine)
            && Generation(t.poFixes, s.bindings[i].poLine) == s.bindings[i].generation
            && Head(t.poFixes, s.bindings[i].poLine) == s.bindings[i].source
  {
    var s := Run(b, steps);
    var t := Run(s, later);
    Reached(b, steps);
    RunKeeps(s, later);
    RunGrows(s, later);
    assert t.bindings[i] == s.bindings[i];
    assert PinOk(s, s.bindings[i]) && PinOk(t, t.bindings[i]);
  }

  // ----- receiving records what the database's own triggers demand

  /** In every run, until the first correction, a line has an exception of a type exactly
      when the completeness trigger expects it, and an order line has SHORT or OVER exactly
      when the receipt is reconciled and the sum in its unit says so. */
  lemma {:induction false} ReceivingExact(b: Book, steps: seq<Step>, line: nat, kind: ExceptionType, i: nat)
    requires Starts(b)
    requires var r := Run(b, steps); r.evaluations == [] && line < |r.lines| && i < |r.bindings|
    ensures var r := Run(b, steps);
            && (ReceiptCapture.LineOnRecord(r, line, kind) <==> ReceiptCapture.TriggerExpects(r, line, kind))
            && (TotalKey(kind, r.bindings[i].poLine) in ReceiptCapture.KeysOn(r) <==>
                  r.reconciled && ReceiptCapture.TotalExpected(r, r.bindings[i].poLine, kind))
  {
    Reached(b, steps);
    ReceiptCapture.LineExceptionsExact(Run(b, steps), line, kind);
    ReceiptCapture.QuantityExceptionsExact(Run(b, steps), i, kind);
  }
}
