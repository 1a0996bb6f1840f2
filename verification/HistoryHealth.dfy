/** A produced history passes every integrity view: nothing is malformed, and the
    counting form of the version check accepts it. */
module HistoryHealth {
  import opened HistoryRows
  import opened HistoryViews
  import opened HistoryChain

  /** Every ordinary row starts from the fact then in force. */
  predicate Sourced(log: seq<Row>, b: Baseline, i: int)
    requires 0 <= i < |log|
  {
    log[i].role == NONE ==> log[i].from == FactAt(log, log[i].cls, b, i)
  }

  predicate Coherent(log: seq<Row>, b: Baseline) {
    forall i :: 0 <= i < |log| ==> Sourced(log, b, i)
  }

  predicate EvidenceKept(log: seq<Row>, ev: Evidence) {
    forall i :: 0 <= i < |log| && log[i].cls == Transition ==>
      EvidenceAdmitted(ev, log[i].to, log[i].role, log[i].evidence)
  }

  predicate Sound(log: seq<Row>, b: Baseline, ev: Evidence) {
    Chain(log) && Keys(log) && Coherent(log, b) && EvidenceKept(log, ev)
  }

  lemma {:induction false} ShapeHolds(log: seq<Row>, k: Class, i: nat)
    requires Chain(log) && Keys(log) && In(log, k, i)
    ensures ShapeOk(log, k, i)
  {
    BlockPosition(log, i);
    if log[i].role != NONE {
      assert Link(log, i);
      if log[i].role == CORRECTED { assert Link(log, i - 1); }
      var r := RootIndex(log, i);
      assert In(log, k, r) && log[r].id == log[i].root.value;
    } else if i > 0 {
      assert Link(log, i);
    }
  }

  /** The two rows of a correction are the only ones that carry its pair identity. */
  lemma {:induction false} PairRows(log: seq<Row>, k: Class, a: nat)
    requires Chain(log) && Keys(log) && In(log, k, a) && log[a].role == REVERSAL
    ensures a + 1 < |log| && log[a].pair.Some?
    ensures PairGroup(log, k, log[a].pair.value) == {a, a + 1}
    ensures log[a + 1].role == CORRECTED
  {
    assert Link(log, a);
    assert Link(log, a + 1);
    var g := PairGroup(log, k, log[a].pair.value);
    forall i | i in g ensures i == a || i == a + 1 {}
    assert a in g && a + 1 in g;
  }

  lemma {:induction false} SharedMetadata(log: seq<Row>, a: nat)
    requires 0 < a < |log| - 1 && log[a].role == REVERSAL && log[a + 1].role == CORRECTED
    requires Follows(log[a - 1], log[a]) && Follows(log[a], log[a + 1])
    ensures SameMetadata(log, {a, a + 1})
  {
    var g, h := {a, a + 1}, log[a];
    assert (set i | i in g && log[i].root.Some? :: log[i].root.value) == {h.root.value};
    assert (set i | i in g :: log[i].generation) == {h.generation};
    assert (set i | i in g :: log[i].reason) == {h.reason};
    assert (set i | i in g :: log[i].actor) == {h.actor};
    assert (set i | i in g && log[i].correctionAt.Some? :: log[i].correctionAt.value) == {h.correctionAt.value};
  }

  lemma {:induction false} PairHolds(log: seq<Row>, k: Class, i: nat)
    requires Chain(log) && Keys(log) && In(log, k, i) && log[i].role != NONE && log[i].pair.Some?
    ensures PairOk(log, k, log[i].pair.value)
  {
    assert Link(log, i);
    var a := if log[i].role == REVERSAL then i else i - 1;
    PairRows(log, k, a);
    assert Link(log, a) && Link(log, a + 1);
    var g := PairGroup(log, k, log[i].pair.value);
    assert g == {a, a + 1};
    SharedMetadata(log, a);
    assert WithRole(log, g, REVERSAL) == {a};
    assert WithRole(log, g, CORRECTED) == {a + 1};
  }

  /** The indices r+2, r+4, ..., r+2m. */
  function Evens(r: int, m: nat): (s: set<int>)
    ensures |s| == m
    ensures forall x :: x in s ==> r < x <= r + 2 * m
  {
    if m == 0 then {} else Evens(r, m - 1) + {r + 2 * m}
  }

  function UpTo(m: nat): (s: set<int>)
    ensures |s| == m && forall x :: x in s <==> 1 <= x <= m
  {
    if m == 0 then {} else UpTo(m - 1) + {m}
  }

  lemma {:induction false} EvensAre(r: int, m: nat, x: int) returns (g: int)
    requires x in Evens(r, m)
    ensures 1 <= g <= m && x == r + 2 * g
  {
    if x == r + 2 * m { g := m; } else { g := EvensAre(r, m - 1, x); }
  }

  lemma {:induction false} EvensHave(r: int, m: nat, g: int)
    requires 1 <= g <= m
    ensures r + 2 * g in Evens(r, m)
  {
    if g < m { EvensHave(r, m - 1, g); }
  }

  lemma {:induction false} CorrectionPosition(log: seq<Row>, k: Class, r: nat, j: int)
    requires Chain(log) && Keys(log) && In(log, k, r) && log[r].role == NONE
    requires j in Corrections(log, k, log[r].id)
    ensures j == r + 2 * log[j].generation && 1 <= log[j].generation && RootIndex(log, j) == r
  {
    SameRootSameBlock(log, j, r);
    BlockPosition(log, r);
    BlockPosition(log, j);
  }

  lemma {:induction false} GenerationPresent(log: seq<Row>, k: Class, r: nat, m: nat, g: nat)
    requires Chain(log) && Keys(log) && In(log, k, r) && log[r].role == NONE
    requires r + 2 * m < |log| && RootIndex(log, r + 2 * m) == r && 1 <= g <= m
    ensures r + 2 * g in Corrections(log, k, log[r].id) && log[r + 2 * g].generation == g
  {
    BlockContiguous(log, r + 2 * m, r + 2 * g);
    BlockPosition(log, r + 2 * g);
  }

  /** The corrections of a root are exactly its generations 1..m, two rows apart. */
  lemma {:induction false} CorrectionRows(log: seq<Row>, k: Class, r: nat, m: nat)
    requires Chain(log) && Keys(log) && In(log, k, r) && log[r].role == NONE
    requires r + 2 * m < |log| && RootIndex(log, r + 2 * m) == r
    requires IsMax(Generations(log, k, log[r].id), m)
    ensures Corrections(log, k, log[r].id) == Evens(r, m)
  {
    var cs := Corrections(log, k, log[r].id);
    forall x | x in cs ensures x in Evens(r, m) {
      CorrectionPosition(log, k, r, x);
      assert log[x].generation in Generations(log, k, log[r].id);
      EvensHave(r, m, log[x].generation);
    }
    forall x | x in Evens(r, m) ensures x in cs {
      var g := EvensAre(r, m, x);
      GenerationPresent(log, k, r, m, g);
    }
  }

  lemma {:induction false} GenerationNumbers(log: seq<Row>, k: Class, r: nat, m: nat)
    requires Chain(log) && Keys(log) && In(log, k, r) && log[r].role == NONE
    requires r + 2 * m < |log| && RootIndex(log, r + 2 * m) == r
    requires IsMax(Generations(log, k, log[r].id), m)
    ensures Generations(log, k, log[r].id) == UpTo(m)
  {
    var cs, gs := Corrections(log, k, log[r].id), Generations(log, k, log[r].id);
    forall g | g in gs ensures g in UpTo(m) {
      var x :| x in cs && log[x].generation == g;
      CorrectionPosition(log, k, r, x);
    }
    forall g | g in UpTo(m) ensures g in gs {
      GenerationPresent(log, k, r, m, g);
    }
  }

  lemma {:induction false} GenerationsHold(log: seq<Row>, k: Class, i: nat)
    requires Chain(log) && Keys(log) && In(log, k, i) && log[i].role == CORRECTED && log[i].root.Some?
    ensures GenerationsOk(log, k, log[i].root.value)
  {
    BlockPosition(log, i);
    var r := RootIndex(log, i);
    var gs := Generations(log, k, log[r].id);
    forall m | m in gs && IsMax(gs, m)
      ensures |Corrections(log, k, log[r].id)| == m && |gs| == m
    {
      var j :| j in Corrections(log, k, log[r].id) && log[j].generation == m;
      CorrectionPosition(log, k, r, j);
      CorrectionRows(log, k, r, m);
      GenerationNumbers(log, k, r, m);
    }
  }

  /** The authority that a reversal cancels is the row just before it. */
  lemma {:induction false} CancelsPrevious(log: seq<Row>, k: Class, i: nat, p: nat)
    requires Chain(log) && Keys(log) && In(log, k, i) && log[i].role == REVERSAL && p < |log|
    ensures i > 0 && (Cancels(log, k, i, p) <==> p == i - 1)
  {
    assert Link(log, i);
    BlockPosition(log, i);
    BlockPosition(log, i - 1);
    BlockPosition(log, p);
    if log[p].cls == k { SameRootSameBlock(log, i, p); }
  }

  lemma {:induction false} ReversalHolds(log: seq<Row>, k: Class, i: nat)
    requires Chain(log) && Keys(log) && In(log, k, i)
    ensures ReversalOk(log, k, i)
  {
    if log[i].role == REVERSAL {
      forall p | 0 <= p < |log| { CancelsPrevious(log, k, i, p); }
      assert Link(log, i);
    }
  }

  /** At an ordinary row the query for the prior fact finds the row's own source. */
  lemma {:induction false} PriorIsSource(log: seq<Row>, b: Baseline, r: nat)
    requires Chain(log) && Keys(log) && Coherent(log, b) && r < |log| && log[r].role == NONE
    ensures PriorFact(log, log[r].cls, b, log[r].version) == log[r].from
  {
    assert Sourced(log, b, r);
    LatestIsLast(log, log[r].cls, r, Some(r + 1));
  }

  lemma {:induction false} SourceHolds(log: seq<Row>, k: Class, b: Baseline, i: nat)
    requires Chain(log) && Keys(log) && Coherent(log, b) && In(log, k, i)
    ensures SourceOk(log, k, b, i)
  {
    if log[i].role == CORRECTED {
      BlockPosition(log, i);
      forall r | 0 <= r < |log| && log[r].cls == k && log[i].root == Some(log[r].id)
        ensures log[i].from == PriorFact(log, k, b, log[r].version)
      {
        assert r == RootIndex(log, i);
        PriorIsSource(log, b, r);
      }
    }
  }

  /** Produced histories never appear in the anomaly view. */
  lemma {:induction false} SoundIsWellFormed(log: seq<Row>, k: Class, b: Baseline, ev: Evidence)
    requires Sound(log, b, ev)
    ensures WellFormed(log, k, b, ev)
  {
    forall i | 0 <= i < |log| ensures RowOk(log, k, b, ev, i) {
      if log[i].cls == k {
        ShapeHolds(log, k, i);
        ReversalHolds(log, k, i);
        SourceHolds(log, k, b, i);
        if log[i].role != NONE && log[i].pair.Some? { PairHolds(log, k, i); }
        if log[i].role == CORRECTED && log[i].root.Some? { GenerationsHold(log, k, i); }
      }
    }
  }

  /** Produced histories pass the counting form of the version check. */
  lemma {:induction false} ChainCounts(log: seq<Row>)
    requires Chain(log) && |log| > 0
    ensures CountsOk(log, |log|)
  {
    var vs := Versions(log);
    forall v | 1 <= v <= |log| ensures v in vs { assert log[v - 1].version == v; }
    assert vs == UpTo(|log|);
  }
}
