/** Whatever the anomaly view accepts, `effective_events` can read: the counting clauses of
    the view are enough to replay every correction. */
module EffectiveHealth {
  import opened HistoryRows
  import opened HistoryViews
  import opened EffectiveEvents
  import HistoryHealth

  lemma {:induction false} Singleton<T>(s: set<T>, x: T, y: T)
    requires |s| == 1 && x in s && y in s
    ensures x == y
  {
    assert s == {x} + (s - {x});
  }

  function Above(s: set<int>, x: int): set<int> {
    set z | z in s && z > x
  }

  lemma {:induction false} MaxExists(s: set<int>, x: int) returns (m: int)
    requires x in s
    ensures IsMax(s, m)
    decreases |Above(s, x)|
  {
    if y :| y in s && y > x {
      assert Above(s, y) <= Above(s, x) - {y};
      SubsetSize(Above(s, y), Above(s, x) - {y});
      m := MaxExists(s, y);
    } else {
      m := x;
    }
  }

  // ----- counting

  function GenerationsOf(rows: seq<Row>, s: set<int>): set<int>
    requires Rows(rows, s)
  {
    set i | i in s :: rows[i].generation
  }

  lemma {:induction false} ImageSize(rows: seq<Row>, s: set<int>)
    requires Rows(rows, s)
    ensures |GenerationsOf(rows, s)| <= |s|
  {
    if x :| x in s {
      ImageSize(rows, s - {x});
      var rest := GenerationsOf(rows, s - {x});
      assert GenerationsOf(rows, s) <= rest + {rows[x].generation};
      SubsetSize(GenerationsOf(rows, s), rest + {rows[x].generation});
    } else {
      assert GenerationsOf(rows, s) == {};
    }
  }

  lemma {:induction false} SubsetSize(s: set<int>, t: set<int>)
    requires s <= t
    ensures |s| <= |t|
    ensures |s| == |t| ==> s == t
  {
    assert t == s + (t - s);
  }

  lemma {:induction false} SharedShrinks(rows: seq<Row>, s: set<int>, i: int, j: int)
    requires Rows(rows, s) && i in s && j in s && i != j && rows[i].generation == rows[j].generation
    ensures |GenerationsOf(rows, s)| < |s|
  {
    ImageSize(rows, s - {i});
    assert j in s - {i};
    assert GenerationsOf(rows, s) == GenerationsOf(rows, s - {i});
  }

  /** When counting distinct generations loses nothing, no generation occurs twice. */
  lemma {:induction false} CountsInjective(rows: seq<Row>, s: set<int>, i: int, j: int)
    requires Rows(rows, s) && |GenerationsOf(rows, s)| == |s| && i in s && j in s
    requires rows[i].generation == rows[j].generation
    ensures i == j
  {
    if i != j { SharedShrinks(rows, s, i, j); }
  }

  // ----- one root

  lemma {:induction false} CorrectionShape(rows: seq<Row>, k: Class, b: Baseline, ev: Evidence, i: nat)
    requires WellFormed(rows, k, b, ev) && In(rows, k, i)
    ensures rows[i].role == NONE ==> rows[i].root == None && rows[i].generation == 0
    ensures rows[i].role != NONE ==> HasRoot(rows, k, i) && rows[i].pair.Some? && rows[i].generation >= 1
    ensures rows[i].role != NONE ==> PairOk(rows, k, rows[i].pair.value)
    ensures rows[i].role == CORRECTED ==> GenerationsOk(rows, k, rows[i].root.value)
    ensures ReversalOk(rows, k, i)
  {
    assert RowOk(rows, k, b, ev, i);
  }

  /** Two CORRECTED rows never share a root and a generation, and generations have no gap. */
  lemma {:induction false} GenerationsExact(rows: seq<Row>, k: Class, b: Baseline, ev: Evidence, i: nat)
    requires WellFormed(rows, k, b, ev) && In(rows, k, i) && rows[i].role == CORRECTED && rows[i].root.Some?
    ensures forall j :: j in Corrections(rows, k, rows[i].root.value) && rows[j].generation == rows[i].generation ==> j == i
    ensures rows[i].generation > 1 ==> rows[i].generation - 1 in Generations(rows, k, rows[i].root.value)
  {
    CorrectionShape(rows, k, b, ev, i);
    var x := rows[i].root.value;
    var cs, gs := Corrections(rows, k, x), Generations(rows, k, x);
    assert i in cs && rows[i].generation in gs;
    var m := MaxExists(gs, rows[i].generation);
    assert |cs| == m && |gs| == m;
    assert gs == GenerationsOf(rows, cs);
    forall j | j in cs && rows[j].generation == rows[i].generation ensures j == i {
      CountsInjective(rows, cs, i, j);
    }
    forall g | g in gs ensures 1 <= g <= m {
      var j :| j in cs && rows[j].generation == g;
      CorrectionShape(rows, k, b, ev, j);
    }
    SubsetSize(gs, HistoryHealth.UpTo(m));
  }

  /** The reversal and the corrected row of the pair of row i. */
  lemma {:induction false} PairMembers(rows: seq<Row>, k: Class, p: Id) returns (a: nat, c: nat)
    requires PairOk(rows, k, p)
    ensures a < |rows| && c < |rows| && PairGroup(rows, k, p) == {a, c}
    ensures rows[a].role == REVERSAL && rows[c].role == CORRECTED
    ensures rows[c].version == rows[a].version + 1
  {
    var g := PairGroup(rows, k, p);
    var reversals, corrected := WithRole(rows, g, REVERSAL), WithRole(rows, g, CORRECTED);
    a :| a in reversals;
    c :| c in corrected;
    assert {a, c} <= g;
    SubsetSize({a, c}, g);
  }

  lemma {:induction false} PairMetadata(rows: seq<Row>, k: Class, p: Id, a: nat, c: nat)
    requires PairOk(rows, k, p) && a in PairGroup(rows, k, p) && c in PairGroup(rows, k, p)
    requires rows[a].root.Some? && rows[c].root.Some? && rows[a].correctionAt.Some? && rows[c].correctionAt.Some?
    ensures rows[a].root == rows[c].root && rows[a].generation == rows[c].generation
    ensures rows[a].reason == rows[c].reason && rows[a].actor == rows[c].actor
    ensures rows[a].correctionAt == rows[c].correctionAt
  {
    var g := PairGroup(rows, k, p);
    assert SameMetadata(rows, g);
    Singleton(set i | i in g && rows[i].root.Some? :: rows[i].root.value, rows[a].root.value, rows[c].root.value);
    Singleton(set i | i in g :: rows[i].generation, rows[a].generation, rows[c].generation);
    Singleton(set i | i in g :: rows[i].reason, rows[a].reason, rows[c].reason);
    Singleton(set i | i in g :: rows[i].actor, rows[a].actor, rows[c].actor);
    Singleton(set i | i in g && rows[i].correctionAt.Some? :: rows[i].correctionAt.value,
              rows[a].correctionAt.value, rows[c].correctionAt.value);
  }

  /** The pair of row i, with what its two rows share. */
  lemma {:induction false} PairOfRow(rows: seq<Row>, k: Class, b: Baseline, ev: Evidence, i: nat) returns (a: nat, c: nat)
    requires WellFormed(rows, k, b, ev) && In(rows, k, i) && rows[i].role != NONE
    ensures a < |rows| && c < |rows| && rows[a].role == REVERSAL && rows[c].role == CORRECTED
    ensures rows[a].cls == k && rows[c].cls == k && (i == a || i == c)
    ensures rows[a].root == rows[i].root == rows[c].root && rows[a].root.Some?
    ensures rows[a].generation == rows[i].generation == rows[c].generation
    ensures SamePair(rows[a], rows[c]) && rows[a].pair == rows[i].pair
    ensures rows[c].version == rows[a].version + 1
  {
    CorrectionShape(rows, k, b, ev, i);
    var p := rows[i].pair.value;
    a, c := PairMembers(rows, k, p);
    assert a in PairGroup(rows, k, p) && c in PairGroup(rows, k, p) && i in PairGroup(rows, k, p);
    assert RowOk(rows, k, b, ev, a) && RowOk(rows, k, b, ev, c);
    PairMetadata(rows, k, p, a, c);
  }

  /** Exactly two rows are filed under the key of row i: its pair. */
  lemma {:induction false} KeyRows(rows: seq<Row>, k: Class, b: Baseline, ev: Evidence, i: nat, j: nat) returns (a: nat, c: nat)
    requires WellFormed(rows, k, b, ev) && In(rows, k, i) && rows[i].role != NONE && rows[i].root.Some?
    requires In(rows, k, j) && HasKey(rows[j], Key(k, rows[i].root.value, rows[i].generation))
    ensures a < |rows| && c < |rows| && j in {a, c} && i in {a, c}
    ensures rows[a].role == REVERSAL && rows[c].role == CORRECTED
  {
    a, c := PairOfRow(rows, k, b, ev, i);
    var a', c' := PairOfRow(rows, k, b, ev, j);
    GenerationsExact(rows, k, b, ev, c);
    assert c' in Corrections(rows, k, rows[i].root.value);
    assert c' == c;
    CorrectionShape(rows, k, b, ev, c);
    var x, y := PairMembers(rows, k, rows[c].pair.value);
    assert a in PairGroup(rows, k, rows[c].pair.value) && a' in PairGroup(rows, k, rows[c].pair.value);
  }

  lemma {:induction false} GroupOfTwo(rows: seq<Row>, key: Key, n: nat, lo: nat, hi: nat)
    requires n <= |rows| && lo < hi < |rows|
    requires forall j :: 0 <= j < |rows| ==> (HasKey(rows[j], key) <==> j == lo || j == hi)
    ensures Group(rows, key, n) == if n <= lo then [] else if n <= hi then [lo] else [lo, hi]
  {
    if n > 0 { GroupOfTwo(rows, key, n - 1, lo, hi); }
  }

  lemma {:induction false} GroupIsPair(rows: seq<Row>, k: Class, b: Baseline, ev: Evidence, i: nat) returns (a: nat, c: nat)
    requires Table(rows, k) && WellFormed(rows, k, b, ev) && In(rows, k, i) && rows[i].role != NONE && rows[i].root.Some?
    ensures var g := Group(rows, Key(k, rows[i].root.value, rows[i].generation), |rows|);
            && Complete(rows, g) && ReversalOf(rows, g) == a && CorrectedOf(rows, g) == c
            && SamePair(rows[g[0]], rows[g[1]])
    ensures In(rows, k, a) && In(rows, k, c) && rows[a].role == REVERSAL && HasKey(rows[a], Key(k, rows[i].root.value, rows[i].generation))
    ensures rows[c].version == rows[a].version + 1 && rows[a].generation == rows[i].generation
    ensures rows[c].role == CORRECTED && rows[c].root == rows[i].root && rows[c].generation == rows[i].generation
  {
    var key := Key(k, rows[i].root.value, rows[i].generation);
    a, c := PairOfRow(rows, k, b, ev, i);
    forall j | 0 <= j < |rows| ensures HasKey(rows[j], key) <==> j == a || j == c {
      if HasKey(rows[j], key) {
        var a', c' := KeyRows(rows, k, b, ev, i, j);
        var a'', c'' := KeyRows(rows, k, b, ev, a, c);
        var u, v := KeyRows(rows, k, b, ev, c, j);
        var u', v' := KeyRows(rows, k, b, ev, a, j);
      }
    }
    if a < c { GroupOfTwo(rows, key, |rows|, a, c); } else { GroupOfTwo(rows, key, |rows|, c, a); }
  }

  lemma {:induction false} RootRow(rows: seq<Row>, k: Class, i: nat) returns (p: nat)
    requires In(rows, k, i) && HasRoot(rows, k, i)
    ensures p < |rows| && IsRoot(rows, k, p, rows[i].root.value)
  {
    p :| 0 <= p < |rows| && rows[p].cls == k && rows[p].id == rows[i].root.value;
  }

  lemma {:induction false} CorrectedAt(rows: seq<Row>, k: Class, x: Id, g: int) returns (p: nat)
    requires g in Generations(rows, k, x)
    ensures p < |rows| && rows[p].role == CORRECTED && HasKey(rows[p], Key(k, x, g))
  {
    p :| p in Corrections(rows, k, x) && rows[p].generation == g;
  }

  lemma {:induction false} AuthorityExists(rows: seq<Row>, k: Class, b: Baseline, ev: Evidence, c: nat) returns (p: nat)
    requires WellFormed(rows, k, b, ev) && In(rows, k, c) && rows[c].role == CORRECTED && rows[c].root.Some?
    ensures p < |rows| && IsAuthority(rows, Key(k, rows[c].root.value, rows[c].generation), p)
  {
    CorrectionShape(rows, k, b, ev, c);
    if rows[c].generation == 1 {
      p := RootRow(rows, k, c);
    } else {
      GenerationsExact(rows, k, b, ev, c);
      p := CorrectedAt(rows, k, rows[c].root.value, rows[c].generation - 1);
    }
  }

  lemma {:induction false} RowIsReplayable(rows: seq<Row>, k: Class, b: Baseline, ev: Evidence, i: nat)
    requires Table(rows, k) && WellFormed(rows, k, b, ev) && i < |rows|
    ensures RowReplayable(rows, k, i)
  {
    if rows[i].cls == k && rows[i].role != NONE && rows[i].root.Some? {
      CorrectionShape(rows, k, b, ev, i);
      var key := Key(k, rows[i].root.value, rows[i].generation);
      var a, c := GroupIsPair(rows, k, b, ev, i);
      var p0 := AuthorityExists(rows, k, b, ev, c);
      forall p | 0 <= p < |rows| && IsAuthority(rows, key, p)
        ensures Continues(rows, Group(rows, key, |rows|), rows[p])
      {
        CorrectionShape(rows, k, b, ev, a);
        assert Cancels(rows, k, a, p);
      }
    }
  }

  /** `effective_events` never raises on rows that the anomaly view accepts. */
  lemma {:induction false} AcceptedIsReplayable(rows: seq<Row>, k: Class, b: Baseline, ev: Evidence)
    requires Table(rows, k) && WellFormed(rows, k, b, ev)
    ensures Replayable(rows, k)
  {
    forall i | 0 <= i < |rows| ensures RowFiled(rows, k, i) {
      if rows[i].cls == k { CorrectionShape(rows, k, b, ev, i); }
      if rows[i].cls == k && rows[i].role != NONE {
        var j :| 0 <= j < |rows| && rows[j].cls == k && rows[j].id == rows[i].root.value;
        assert IsRoot(rows, k, j, rows[i].root.value);
      }
    }
    forall i | 0 <= i < |rows| ensures RowReplayable(rows, k, i) { RowIsReplayable(rows, k, b, ev, i); }
  }
}
