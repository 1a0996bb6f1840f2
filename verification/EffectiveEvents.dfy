/** The Python reader `effective_events`: it replays corrections over the ordinary rows of
    one table and raises on anything it cannot replay.  On arbitrary rows it succeeds
    exactly when the rows are replayable, its result is then exactly the effective view in
    version order, and rows the anomaly view accepts are always replayable. */
module EffectiveEvents {
  import opened HistoryRows
  import opened HistoryViews
  import opened Sorting

  /** `id` is the primary key of the table of class k; the rows may be in any order. */
  predicate Table(rows: seq<Row>, k: Class) {
    forall i, j :: 0 <= i < j < |rows| && rows[i].cls == rows[j].cls == k ==> rows[i].id != rows[j].id
  }

  datatype Key = Key(cls: Class, root: Id, generation: int)

  predicate HasKey(r: Row, key: Key) {
    r.cls == key.cls && r.role != NONE && r.root == Some(key.root) && r.generation == key.generation
  }

  /** Positions, among the first n rows, of the rows filed under a key. */
  function Group(rows: seq<Row>, key: Key, n: nat): seq<nat>
    requires n <= |rows|
  {
    if n == 0 then []
    else if HasKey(rows[n - 1], key) then Group(rows, key, n - 1) + [n - 1]
    else Group(rows, key, n - 1)
  }

  lemma {:induction false} GroupMember(rows: seq<Row>, key: Key, n: nat, i: nat)
    requires n <= |rows|
    ensures i in Group(rows, key, n) <==> i < n && HasKey(rows[i], key)
  {
    if n > 0 { GroupMember(rows, key, n - 1, i); }
  }

  predicate IsRoot(rows: seq<Row>, k: Class, i: int, id: Id) {
    0 <= i < |rows| && rows[i].cls == k && rows[i].role == NONE && rows[i].id == id
  }

  predicate HasRootRow(rows: seq<Row>, k: Class, id: Id) {
    exists i :: 0 <= i < |rows| && IsRoot(rows, k, i, id)
  }

  // ----- when a replay succeeds

  /** A pair has one REVERSAL and one CORRECTED row. */
  predicate Complete(rows: seq<Row>, g: seq<nat>) {
    |g| == 2 && g[0] < |rows| && g[1] < |rows|
    && ((rows[g[0]].role == REVERSAL && rows[g[1]].role == CORRECTED)
        || (rows[g[0]].role == CORRECTED && rows[g[1]].role == REVERSAL))
  }

  function ReversalOf(rows: seq<Row>, g: seq<nat>): nat
    requires Complete(rows, g)
  {
    if rows[g[0]].role == REVERSAL then g[0] else g[1]
  }

  function CorrectedOf(rows: seq<Row>, g: seq<nat>): nat
    requires Complete(rows, g)
  {
    if rows[g[0]].role == CORRECTED then g[0] else g[1]
  }

  predicate SamePair(p: Row, q: Row) {
    && p.pair == q.pair && p.pair.Some? && p.reason == q.reason && p.actor == q.actor
    && p.correctionAt == q.correctionAt && p.correctionAt.Some?
  }

  /** The pair is complete, consistent, and continues the versions of `previous`. */
  predicate Continues(rows: seq<Row>, g: seq<nat>, previous: Row) {
    && Complete(rows, g)
    && SamePair(rows[g[0]], rows[g[1]])
    && rows[ReversalOf(rows, g)].version == previous.version + 1
    && rows[CorrectedOf(rows, g)].version == rows[ReversalOf(rows, g)].version + 1
  }

  /** Row p holds the authority that generation g of a root replaces. */
  predicate IsAuthority(rows: seq<Row>, key: Key, p: int) {
    0 <= p < |rows|
    && (if key.generation == 1 then IsRoot(rows, key.cls, p, key.root)
        else rows[p].role == CORRECTED && HasKey(rows[p], Key(key.cls, key.root, key.generation - 1)))
  }

  predicate KeyReplayable(rows: seq<Row>, key: Key) {
    && key.generation >= 1
    && (exists p :: 0 <= p < |rows| && IsAuthority(rows, key, p))
    && (forall p :: 0 <= p < |rows| && IsAuthority(rows, key, p) ==> Continues(rows, Group(rows, key, |rows|), rows[p]))
  }

  predicate RowFiled(rows: seq<Row>, k: Class, i: int)
    requires 0 <= i < |rows|
  {
    if rows[i].cls != k then true
    else if rows[i].role == NONE then rows[i].root == None && rows[i].generation == 0
    else rows[i].root.Some? && HasRootRow(rows, k, rows[i].root.value)
  }

  predicate AllFiled(rows: seq<Row>, k: Class) {
    forall i :: 0 <= i < |rows| ==> RowFiled(rows, k, i)
  }

  predicate RowReplayable(rows: seq<Row>, k: Class, i: int)
    requires 0 <= i < |rows|
  {
    rows[i].cls == k && rows[i].role != NONE && rows[i].root.Some? ==>
      KeyReplayable(rows, Key(k, rows[i].root.value, rows[i].generation))
  }

  /** Every correction can be replayed in generation order. */
  predicate Replayable(rows: seq<Row>, k: Class) {
    && AllFiled(rows, k)
    && (forall i :: 0 <= i < |rows| ==> RowReplayable(rows, k, i))
  }

  // ----- the reader

  /** `roots`: the ordinary rows by identity, in table order. */
  method Roots(rows: seq<Row>, k: Class) returns (ids: seq<Id>, roots: map<Id, nat>)
    requires Table(rows, k)
    ensures forall x :: x in roots <==> HasRootRow(rows, k, x)
    ensures forall x :: x in roots ==> IsRoot(rows, k, roots[x], x)
    ensures forall x :: x in ids <==> x in roots
    ensures Distinct(ids)
  {
    ids, roots := [], map[];
    for n := 0 to |rows|
      invariant forall x :: x in roots ==> IsRoot(rows, k, roots[x], x) && roots[x] < n
      invariant forall i :: 0 <= i < n && rows[i].cls == k && rows[i].role == NONE ==> rows[i].id in roots
      invariant forall x :: x in ids <==> x in roots
      invariant Distinct(ids)
    {
      if rows[n].cls == k && rows[n].role == NONE {
        assert rows[n].id !in roots;
        ids, roots := ids + [rows[n].id], roots[rows[n].id := n];
      }
    }
  }

  /** `pairs`: corrections filed by root and generation, keys in first-seen order. */
  method File(rows: seq<Row>, k: Class, roots: map<Id, nat>)
    returns (ok: bool, keys: seq<Key>, pairs: map<Key, seq<nat>>)
    requires forall x :: x in roots <==> HasRootRow(rows, k, x)
    ensures ok <==> AllFiled(rows, k)
    ensures ok ==> Distinct(keys) && forall key :: key in keys <==> key in pairs
    ensures ok ==> forall key :: key in pairs <==> key.cls == k && Group(rows, key, |rows|) != []
    ensures ok ==> forall key :: key in pairs ==> pairs[key] == Group(rows, key, |rows|)
  {
    keys, pairs, ok := [], map[], true;
    for n := 0 to |rows|
      invariant ok
      invariant forall i :: 0 <= i < n ==> RowFiled(rows, k, i)
      invariant Distinct(keys) && forall key :: key in keys <==> key in pairs
      invariant forall key :: key in pairs <==> key.cls == k && Group(rows, key, n) != []
      invariant forall key :: key in pairs ==> pairs[key] == Group(rows, key, n)
    {
      var row := rows[n];
      if row.cls != k {
        assert forall key: Key :: key.cls == k ==> !HasKey(row, key);
      } else if row.role == NONE {
        if row.root.Some? || row.generation != 0 {
          assert !RowFiled(rows, k, n);
          return false, keys, pairs;
        }
      } else if row.root.None? || row.root.value !in roots {
        assert !RowFiled(rows, k, n);
        return false, keys, pairs;
      } else {
        var key := Key(k, row.root.value, row.generation);
        if key !in pairs { keys := keys + [key]; }
        pairs := pairs[key := (if key in pairs then pairs[key] else []) + [n]];
      }
      assert RowFiled(rows, k, n);
    }
  }

  // ----- the replay loop

  /** Row i speaks for root x after some generations have been replayed. */
  predicate Speaks(rows: seq<Row>, k: Class, x: Id, i: int) {
    0 <= i < |rows| && rows[i].generation >= 0
    && (if rows[i].generation == 0 then IsRoot(rows, k, i, x) && rows[i].root == None
        else rows[i].role == CORRECTED && HasKey(rows[i], Key(k, x, rows[i].generation))
             && OnlyCorrected(rows, Key(k, x, rows[i].generation), i))
  }

  predicate OnlyCorrected(rows: seq<Row>, key: Key, i: int) {
    forall c :: 0 <= c < |rows| && rows[c].role == CORRECTED && HasKey(rows[c], key) ==> c == i
  }

  ghost predicate Replayed(rows: seq<Row>, k: Class, order: seq<Key>, heads: map<Id, nat>, p: nat)
    requires p <= |order|
  {
    && (forall x :: x in heads <==> HasRootRow(rows, k, x))
    && (forall x :: x in heads ==> Speaks(rows, k, x, heads[x]))
    && (forall i :: 0 <= i < p ==> order[i].root in heads
                                   && 1 <= order[i].generation <= rows[heads[order[i].root]].generation)
    && (forall x :: x in heads && rows[heads[x]].generation > 0 ==>
          exists i :: 0 <= i < p && order[i] == Key(k, x, rows[heads[x]].generation))
  }

  /** The keys of all corrections, once each, in generation order. */
  ghost predicate Ordered(rows: seq<Row>, k: Class, order: seq<Key>) {
    && Distinct(order) && Sorted(order, (key: Key) => key.generation)
    && (forall key :: key in order <==> key.cls == k && Group(rows, key, |rows|) != [])
  }

  ghost predicate Setup(rows: seq<Row>, k: Class, order: seq<Key>) {
    Table(rows, k) && Ordered(rows, k, order) && AllFiled(rows, k)
  }

  lemma {:induction false} HeadBelow(rows: seq<Row>, k: Class, order: seq<Key>, heads: map<Id, nat>, p: nat)
    requires Ordered(rows, k, order) && p < |order| && Replayed(rows, k, order, heads, p)
    requires order[p].root in heads && order[p].generation >= 1
    ensures rows[heads[order[p].root]].generation < order[p].generation
  {
    var g := rows[heads[order[p].root]].generation;
    if g > 0 {
      var i :| 0 <= i < p && order[i] == Key(k, order[p].root, g);
    }
  }

  /** If the next key has an authority, that authority is the row that speaks for its root. */
  lemma {:induction false} NextFits(rows: seq<Row>, k: Class, order: seq<Key>, heads: map<Id, nat>, p: nat, a: nat)
    requires Ordered(rows, k, order) && p < |order| && Replayed(rows, k, order, heads, p)
    requires order[p].root in heads && order[p].generation >= 1 && IsAuthority(rows, order[p], a)
    ensures order[p].generation == rows[heads[order[p].root]].generation + 1
  {
    var key := order[p];
    HeadBelow(rows, k, order, heads, p);
    if key.generation > 1 {
      var before := Key(k, key.root, key.generation - 1);
      GroupMember(rows, before, |rows|, a);
      assert before in order;
      var q :| 0 <= q < |order| && order[q] == before;
      assert q < p;
    }
  }

  /** A key whose pair does not fit is not replayable. */
  lemma {:induction false} MisfitRefutes(rows: seq<Row>, k: Class, order: seq<Key>, heads: map<Id, nat>, p: nat)
    requires Ordered(rows, k, order) && p < |order| && Replayed(rows, k, order, heads, p)
    requires order[p].root in heads
    requires order[p].generation != rows[heads[order[p].root]].generation + 1
             || !Continues(rows, Group(rows, order[p], |rows|), rows[heads[order[p].root]])
    ensures !KeyReplayable(rows, order[p])
  {
    if KeyReplayable(rows, order[p]) {
      var a :| 0 <= a < |rows| && IsAuthority(rows, order[p], a);
      NextFits(rows, k, order, heads, p, a);
    }
  }

  /** A replayed pair leaves its corrected row speaking for the root. */
  lemma {:induction false} NextSpeaks(rows: seq<Row>, k: Class, key: Key, at: nat, g: seq<nat>)
    requires Table(rows, k) && key.cls == k && Speaks(rows, k, key.root, at) && key.generation == rows[at].generation + 1
    requires g == Group(rows, key, |rows|) && Continues(rows, g, rows[at])
    ensures KeyReplayable(rows, key) && Speaks(rows, k, key.root, CorrectedOf(rows, g))
    ensures rows[CorrectedOf(rows, g)].generation == key.generation
  {
    assert IsAuthority(rows, key, at);
    forall a | 0 <= a < |rows| && IsAuthority(rows, key, a) ensures a == at {}
    forall c | 0 <= c < |rows| && rows[c].role == CORRECTED && HasKey(rows[c], key)
      ensures c == CorrectedOf(rows, g)
    {
      GroupMember(rows, key, |rows|, c);
    }
    GroupMember(rows, key, |rows|, CorrectedOf(rows, g));
  }

  lemma {:induction false} ReplayStep(rows: seq<Row>, k: Class, order: seq<Key>, heads: map<Id, nat>, p: nat, at: nat)
    requires p < |order| && Replayed(rows, k, order, heads, p)
    requires order[p].cls == k && order[p].root in heads
    requires Speaks(rows, k, order[p].root, at) && rows[at].generation == order[p].generation
    requires 0 <= rows[heads[order[p].root]].generation < rows[at].generation
    ensures Replayed(rows, k, order, heads[order[p].root := at], p + 1)
  {
    var key := order[p];
    var heads' := heads[key.root := at];
    forall i | 0 <= i < p + 1
      ensures order[i].root in heads' && 1 <= order[i].generation <= rows[heads'[order[i].root]].generation
    {
      if i < p { assert order[i].root in heads; }
    }
    forall x | x in heads' && rows[heads'[x]].generation > 0
      ensures exists i :: 0 <= i < p + 1 && order[i] == Key(k, x, rows[heads'[x]].generation)
    {
      if x == key.root {
        assert order[p] == Key(k, x, rows[heads'[x]].generation);
      } else {
        var i :| 0 <= i < p && order[i] == Key(k, x, rows[heads[x]].generation);
      }
    }
  }

  lemma {:induction false} StartReplayed(rows: seq<Row>, k: Class, order: seq<Key>, roots: map<Id, nat>)
    requires AllFiled(rows, k)
    requires forall x :: x in roots <==> HasRootRow(rows, k, x)
    requires forall x :: x in roots ==> IsRoot(rows, k, roots[x], x)
    ensures Replayed(rows, k, order, roots, 0)
  {
    forall x | x in roots ensures Speaks(rows, k, x, roots[x]) && rows[roots[x]].generation == 0 {
      assert RowFiled(rows, k, roots[x]);
    }
  }

  /** The pair filed under a key fits the row that speaks for its root. */
  predicate Fits(rows: seq<Row>, heads: map<Id, nat>, key: Key) {
    key.root in heads && heads[key.root] < |rows|
    && key.generation == rows[heads[key.root]].generation + 1
    && Continues(rows, Group(rows, key, |rows|), rows[heads[key.root]])
  }

  /** The corrected row of the pair takes over. */
  function Advance(rows: seq<Row>, heads: map<Id, nat>, key: Key): map<Id, nat>
    requires Fits(rows, heads, key)
  {
    heads[key.root := CorrectedOf(rows, Group(rows, key, |rows|))]
  }

  /** The replay of the keys from position p on, or None where a pair does not fit. */
  function ReplayFrom(rows: seq<Row>, order: seq<Key>, heads: map<Id, nat>, p: nat): Option<map<Id, nat>>
    requires p <= |order|
    decreases |order| - p
  {
    if p == |order| then Some(heads)
    else if !Fits(rows, heads, order[p]) then None
    else ReplayFrom(rows, order, Advance(rows, heads, order[p]), p + 1)
  }

  /** One turn of the replay: the next pair fits, or the rows are not replayable. */
  lemma {:induction false} ReplayTurn(rows: seq<Row>, k: Class, order: seq<Key>, heads: map<Id, nat>, p: nat)
    requires Setup(rows, k, order)
    requires p < |order| && Replayed(rows, k, order, heads, p)
    ensures Fits(rows, heads, order[p]) ==>
              && KeyReplayable(rows, order[p])
              && Replayed(rows, k, order, Advance(rows, heads, order[p]), p + 1)
    ensures !Fits(rows, heads, order[p]) ==> !KeyReplayable(rows, order[p])
  {
    var key := order[p];
    assert key in order;
    if Fits(rows, heads, key) {
      var g := Group(rows, key, |rows|);
      NextSpeaks(rows, k, key, heads[key.root], g);
      ReplayStep(rows, k, order, heads, p, CorrectedOf(rows, g));
    } else {
      KeyRow(rows, k, key);
      MisfitRefutes(rows, k, order, heads, p);
    }
  }

  /** A replay that stops exhibits a key that is not replayable. */
  lemma {:induction false} ReplayCorrect(rows: seq<Row>, k: Class, order: seq<Key>, heads: map<Id, nat>, p: nat)
    returns (r: Option<map<Id, nat>>, q: nat)
    requires Setup(rows, k, order)
    requires p <= |order| && Replayed(rows, k, order, heads, p)
    ensures r == ReplayFrom(rows, order, heads, p)
    ensures r.Some? ==> Replayed(rows, k, order, r.value, |order|)
    ensures r.None? ==> q < |order| && !KeyReplayable(rows, order[q])
    decreases |order| - p
  {
    if p == |order| {
      r, q := Some(heads), 0;
    } else {
      ReplayTurn(rows, k, order, heads, p);
      if Fits(rows, heads, order[p]) {
        r, q := ReplayCorrect(rows, k, order, Advance(rows, heads, order[p]), p + 1);
      } else {
        r, q := None, p;
      }
    }
  }

  /** A replay that reaches the end has met only replayable keys. */
  lemma {:induction false} ReplayedKey(rows: seq<Row>, k: Class, order: seq<Key>, heads: map<Id, nat>, p: nat, i: nat)
    requires Setup(rows, k, order)
    requires p <= i < |order| && Replayed(rows, k, order, heads, p) && ReplayFrom(rows, order, heads, p).Some?
    ensures KeyReplayable(rows, order[i])
    decreases |order| - p
  {
    ReplayTurn(rows, k, order, heads, p);
    if p < i { ReplayedKey(rows, k, order, Advance(rows, heads, order[p]), p + 1, i); }
  }

  /** The loop over the filed pairs in generation order; it stops at the first misfit. */
  method Replay(rows: seq<Row>, roots: map<Id, nat>, order: seq<Key>, pairs: map<Key, seq<nat>>)
    returns (r: Option<map<Id, nat>>)
    requires forall x :: x in roots ==> roots[x] < |rows|
    requires forall key :: key in order ==> key.root in roots && key in pairs && pairs[key] == Group(rows, key, |rows|)
    ensures r == ReplayFrom(rows, order, roots, 0)
  {
    var heads := roots;
    for p := 0 to |order|
      invariant heads.Keys == roots.Keys && forall x :: x in heads ==> heads[x] < |rows|
      invariant ReplayFrom(rows, order, roots, 0) == ReplayFrom(rows, order, heads, p)
    {
      var key := order[p];
      assert key in order;
      var pair, previous := pairs[key], rows[heads[key.root]];
      if key.generation != previous.generation + 1 || !Continues(rows, pair, previous) { return None; }
      heads := heads[key.root := CorrectedOf(rows, pair)];
    }
    return Some(heads);
  }

  lemma {:induction false} AllReplayable(rows: seq<Row>, k: Class, order: seq<Key>)
    requires Ordered(rows, k, order) && forall i :: 0 <= i < |order| ==> KeyReplayable(rows, order[i])
    ensures forall i :: 0 <= i < |rows| ==> RowReplayable(rows, k, i)
  {
    forall i | 0 <= i < |rows| ensures RowReplayable(rows, k, i) {
      if rows[i].cls == k && rows[i].role != NONE && rows[i].root.Some? {
        var key := Key(k, rows[i].root.value, rows[i].generation);
        GroupMember(rows, key, |rows|, i);
        assert key in order;
        var n :| 0 <= n < |order| && order[n] == key;
        assert KeyReplayable(rows, order[n]);
      }
    }
  }

  /** A filed key comes from a row whose root exists and which demands that it be replayable. */
  lemma {:induction false} KeyRow(rows: seq<Row>, k: Class, key: Key)
    requires key.cls == k && Group(rows, key, |rows|) != [] && AllFiled(rows, k)
    ensures HasRootRow(rows, k, key.root)
    ensures Replayable(rows, k) ==> KeyReplayable(rows, key)
  {
    var i := Group(rows, key, |rows|)[0];
    GroupMember(rows, key, |rows|, i);
    assert RowFiled(rows, k, i);
    assert RowReplayable(rows, k, i) ==> KeyReplayable(rows, key);
  }

  // ----- the result

  /** The rows of the effective view, once each, in version order. */
  ghost predicate Shows(rows: seq<Row>, k: Class, out: seq<Row>) {
    && (forall i :: 0 <= i < |rows| ==> (EffectiveAt(rows, k, i) <==> rows[i] in out))
    && (forall h :: h in out ==> h in rows)
    && Distinct(out) && Sorted(out, (h: Row) => h.version)
  }

  lemma {:induction false} SpeakerIsEffective(rows: seq<Row>, k: Class, order: seq<Key>, heads: map<Id, nat>, i: nat)
    requires Table(rows, k) && Ordered(rows, k, order) && Replayed(rows, k, order, heads, |order|)
    requires AllFiled(rows, k)
    requires i < |rows| && rows[i].cls == k
    ensures EffectiveAt(rows, k, i) <==> RootOf(rows[i]) in heads && heads[RootOf(rows[i])] == i
  {
    var x := RootOf(rows[i]);
    assert RowFiled(rows, k, i);
    if rows[i].role == NONE { assert IsRoot(rows, k, i, x); }
    assert x in heads;
    var at := heads[x];
    if at == i {
      forall j | 0 <= j < |rows| ensures !Supersedes(rows, k, i, j) {
        if Supersedes(rows, k, i, j) { SupersederFiled(rows, k, order, i, j); }
      }
    } else if EffectiveAt(rows, k, i) {
      SpeakerSupersedes(rows, k, order, heads, i);
    }
  }

  lemma {:induction false} SupersederFiled(rows: seq<Row>, k: Class, order: seq<Key>, i: nat, j: nat)
    requires Ordered(rows, k, order) && In(rows, k, i) && Supersedes(rows, k, i, j)
    ensures Key(k, RootOf(rows[i]), rows[j].generation) in order
  {
    GroupMember(rows, Key(k, RootOf(rows[i]), rows[j].generation), |rows|, j);
  }

  lemma {:induction false} SpeakerSupersedes(rows: seq<Row>, k: Class, order: seq<Key>, heads: map<Id, nat>, i: nat)
    requires Table(rows, k) && Ordered(rows, k, order) && Replayed(rows, k, order, heads, |order|)
    requires i < |rows| && rows[i].cls == k && RowFiled(rows, k, i) && rows[i].role != REVERSAL
    requires RootOf(rows[i]) in heads && heads[RootOf(rows[i])] != i
    ensures Supersedes(rows, k, i, heads[RootOf(rows[i])])
  {
    var x := RootOf(rows[i]);
    var at := heads[x];
    assert Speaks(rows, k, x, at);
    if rows[i].role == CORRECTED {
      var key := Key(k, x, rows[i].generation);
      GroupMember(rows, key, |rows|, i);
      assert key in order;
    }
  }

  function Values(rows: seq<Row>, ids: seq<Id>, heads: map<Id, nat>): (s: seq<Row>)
    requires forall x :: x in ids ==> x in heads && heads[x] < |rows|
    ensures |s| == |ids|
    ensures forall i :: 0 <= i < |ids| ==> s[i] == rows[heads[ids[i]]]
  {
    seq(|ids|, i requires 0 <= i < |ids| => assert ids[i] in ids; rows[heads[ids[i]]])
  }

  lemma {:induction false} ValuesDistinct(rows: seq<Row>, k: Class, heads: map<Id, nat>, ids: seq<Id>)
    requires Distinct(ids) && forall x :: x in ids ==> x in heads && heads[x] < |rows| && Speaks(rows, k, x, heads[x])
    ensures Distinct(Values(rows, ids, heads))
  {
    var s := Values(rows, ids, heads);
    forall i, j | 0 <= i < j < |s| ensures s[i] != s[j] {
      assert Speaks(rows, k, ids[i], heads[ids[i]]) && Speaks(rows, k, ids[j], heads[ids[j]]);
      assert RootOf(s[i]) == ids[i] && RootOf(s[j]) == ids[j];
    }
  }

  lemma {:induction false} ValuesOfClass(rows: seq<Row>, k: Class, heads: map<Id, nat>, ids: seq<Id>)
    requires forall x :: x in ids ==> x in heads && heads[x] < |rows| && Speaks(rows, k, x, heads[x])
    ensures forall h :: h in Values(rows, ids, heads) ==> h.cls == k
  {
    var s := Values(rows, ids, heads);
    forall n | 0 <= n < |s| ensures s[n].cls == k {
      assert Speaks(rows, k, ids[n], heads[ids[n]]);
    }
  }

  lemma {:induction false} ValueOf(rows: seq<Row>, k: Class, heads: map<Id, nat>, ids: seq<Id>, i: nat)
    requires Table(rows, k) && i < |rows| && rows[i].cls == k
    requires forall x :: x in ids ==> x in heads && heads[x] < |rows| && Speaks(rows, k, x, heads[x])
    ensures rows[i] in Values(rows, ids, heads) <==> RootOf(rows[i]) in ids && heads[RootOf(rows[i])] == i
  {
    var s := Values(rows, ids, heads);
    if rows[i] in s {
      var n :| 0 <= n < |s| && s[n] == rows[i];
      assert Speaks(rows, k, ids[n], heads[ids[n]]);
      assert heads[ids[n]] == i;
    }
    if RootOf(rows[i]) in ids && heads[RootOf(rows[i])] == i {
      var n :| 0 <= n < |ids| && ids[n] == RootOf(rows[i]);
      assert s[n] == rows[i];
    }
  }

  lemma {:induction false} ValuesShow(rows: seq<Row>, k: Class, order: seq<Key>, heads: map<Id, nat>, ids: seq<Id>)
    requires Table(rows, k) && Ordered(rows, k, order) && Replayed(rows, k, order, heads, |order|)
    requires AllFiled(rows, k)
    requires Distinct(ids) && forall x :: x in ids <==> x in heads
    ensures forall x :: x in ids ==> x in heads && heads[x] < |rows|
    ensures Shows(rows, k, Sort(Values(rows, ids, heads), (h: Row) => h.version))
  {
    assert forall x :: x in ids ==> x in heads && heads[x] < |rows| && Speaks(rows, k, x, heads[x]);
    var s := Values(rows, ids, heads);
    ValuesDistinct(rows, k, heads, ids);
    forall i | 0 <= i < |rows| ensures EffectiveAt(rows, k, i) <==> rows[i] in s {
      if rows[i].cls == k {
        SpeakerIsEffective(rows, k, order, heads, i);
        ValueOf(rows, k, heads, ids, i);
      } else {
        ValuesOfClass(rows, k, heads, ids);
      }
    }
    SortShows(rows, k, s);
  }

  lemma {:induction false} SortShows(rows: seq<Row>, k: Class, s: seq<Row>)
    requires Distinct(s) && forall h :: h in s ==> h in rows
    requires forall i :: 0 <= i < |rows| ==> (EffectiveAt(rows, k, i) <==> rows[i] in s)
    ensures Shows(rows, k, Sort(s, (h: Row) => h.version))
  {
    SortCorrect(s, (h: Row) => h.version);
    SortMembers(s, (h: Row) => h.version);
    SortDistinct(s, (h: Row) => h.version);
  }

  lemma {:induction false} ReplayDecides(rows: seq<Row>, k: Class, roots: map<Id, nat>, order: seq<Key>)
    requires Setup(rows, k, order)
    requires forall x :: x in roots <==> HasRootRow(rows, k, x)
    requires forall x :: x in roots ==> IsRoot(rows, k, roots[x], x)
    ensures forall key :: key in order ==> key.root in roots
    ensures var r := ReplayFrom(rows, order, roots, 0);
            (r.Some? <==> Replayable(rows, k)) && (r.Some? ==> Replayed(rows, k, order, r.value, |order|))
  {
    forall key | key in order ensures key.root in roots { KeyRow(rows, k, key); }
    StartReplayed(rows, k, order, roots);
    var r, q := ReplayCorrect(rows, k, order, roots, 0);
    if r.Some? {
      forall i | 0 <= i < |order| ensures KeyReplayable(rows, order[i]) {
        ReplayedKey(rows, k, order, roots, 0, i);
      }
      AllReplayable(rows, k, order);
    } else {
      assert order[q] in order;
      KeyRow(rows, k, order[q]);
    }
  }

  lemma {:induction false} KeysOrdered(rows: seq<Row>, k: Class, keys: seq<Key>)
    requires Distinct(keys) && forall key :: key in keys <==> key.cls == k && Group(rows, key, |rows|) != []
    ensures Ordered(rows, k, Sort(keys, (key: Key) => key.generation))
  {
    SortCorrect(keys, (key: Key) => key.generation);
    SortMembers(keys, (key: Key) => key.generation);
    SortDistinct(keys, (key: Key) => key.generation);
  }

  /** `effective_events`: None where the source raises. */
  method EffectiveRows(rows: seq<Row>, k: Class) returns (r: Option<seq<Row>>)
    requires Table(rows, k)
    ensures r.Some? <==> Replayable(rows, k)
    ensures r.Some? ==> Shows(rows, k, r.value)
  {
    var ids, roots := Roots(rows, k);
    var filed, keys, pairs := File(rows, k, roots);
    if !filed {
      r := None;
    } else {
      var order := Sort(keys, (key: Key) => key.generation);
      KeysOrdered(rows, k, keys);
      ReplayDecides(rows, k, roots, order);
      var heads := Replay(rows, roots, order, pairs);
      if heads.Some? { ValuesShow(rows, k, order, heads.value, ids); }
      r := if heads.None? then None else Some(Sort(Values(rows, ids, heads.value), (h: Row) => h.version));
    }
  }
}
