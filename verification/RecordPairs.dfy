/** Corrections of procurement and receipt lines: each one appends a REVERSAL that repeats
    the value in force and a CORRECTED row that replaces it, both of the next generation.
    A row's identity is its position in the table. */
module RecordPairs {
  import opened HistoryRows
  import HistoryHealth

  datatype Stamp = Stamp(actor: Id, occurredAt: Time, reason: string, transaction: Id)

  /** `derived` is what the guard computes for the row, outside the corrected fields. */
  datatype Entry<+V> = Entry(
    root: nat, pair: nat, generation: int, role: Role, value: V, derived: Option<Id>, stamp: Stamp)

  // ----- reading a table of corrections

  /** The CORRECTED row of the root with the highest generation. */
  function Head<V>(log: seq<Entry<V>>, root: nat): (at: Option<nat>)
    ensures at.Some? ==> at.value < |log| && log[at.value].root == root && log[at.value].role == CORRECTED
  {
    if log == [] then None
    else
      var n := |log| - 1;
      var before := Head(log[..n], root);
      if log[n].root == root && log[n].role == CORRECTED
         && (before.None? || log[n].generation > log[before.value].generation) then Some(n)
      else before
  }

  function Generation<V>(log: seq<Entry<V>>, root: nat): int {
    var h := Head(log, root);
    if h.None? then 0 else log[h.value].generation
  }

  function Effective<V>(roots: seq<V>, log: seq<Entry<V>>, root: nat): V
    requires root < |roots|
  {
    var h := Head(log, root);
    if h.None? then roots[root] else log[h.value].value
  }

  /** The generation is the maximum over the root's CORRECTED rows, 0 when there is none. */
  lemma {:induction false} HeadIsMax<V>(log: seq<Entry<V>>, root: nat, i: nat)
    requires i < |log| && log[i].root == root && log[i].role == CORRECTED
    ensures Head(log, root).Some? && log[i].generation <= Generation(log, root)
  {
    var n := |log| - 1;
    if i < n { HeadIsMax(log[..n], root, i); }
  }

  // ----- appending a pair

  function Reversal<V>(roots: seq<V>, log: seq<Entry<V>>, root: nat, stamp: Stamp, derived: Option<Id>): Entry<V>
    requires root < |roots|
  {
    Entry(root, |log|, Generation(log, root) + 1, REVERSAL, Effective(roots, log, root), derived, stamp)
  }

  function Corrected<V>(log: seq<Entry<V>>, root: nat, value: V, stamp: Stamp, derived: Option<Id>): Entry<V> {
    Entry(root, |log|, Generation(log, root) + 1, CORRECTED, value, derived, stamp)
  }

  function WithPair<V>(roots: seq<V>, log: seq<Entry<V>>, root: nat, value: V, stamp: Stamp,
                       was: Option<Id>, derived: Option<Id>): seq<Entry<V>>
    requires root < |roots|
  {
    log + [Reversal(roots, log, root, stamp, was), Corrected(log, root, value, stamp, derived)]
  }

  /** The pair takes over its root and no other. */
  lemma {:induction false} HeadAfterPair<V>(roots: seq<V>, log: seq<Entry<V>>, root: nat, value: V, stamp: Stamp,
                                            was: Option<Id>, derived: Option<Id>, other: nat)
    requires root < |roots|
    ensures var log' := WithPair(roots, log, root, value, stamp, was, derived);
            && Head(log', other) == (if other == root then Some(|log| + 1) else Head(log, other))
            && Generation(log', other) == Generation(log, other) + (if other == root then 1 else 0)
            && (other < |roots| ==> Effective(roots, log', other) == if other == root then value else Effective(roots, log, other))
  {
    var log' := WithPair(roots, log, root, value, stamp, was, derived);
    var n := |log|;
    assert log'[..n + 1][..n] == log;
    assert Head(log'[..n + 1], other) == Head(log, other);
  }

  // ----- tables made of pairs

  /** Rows k and k+1 are one correction of what was in force before row k. */
  predicate PairAt<V(==)>(roots: seq<V>, log: seq<Entry<V>>, k: nat) {
    && k + 1 < |log| && log[k].root < |roots|
    && log[k].role == REVERSAL && log[k + 1].role == CORRECTED
    && log[k].root == log[k + 1].root && log[k].pair == k && log[k + 1].pair == k
    && log[k].generation == log[k + 1].generation == Generation(log[..k], log[k].root) + 1
    && log[k].value == Effective(roots, log[..k], log[k].root)
    && log[k].stamp == log[k + 1].stamp && ReasonStored(log[k].stamp.reason)
  }

  ghost predicate Paired<V>(roots: seq<V>, log: seq<Entry<V>>) {
    |log| % 2 == 0 && forall k: nat :: k % 2 == 0 && k < |log| ==> PairAt(roots, log, k)
  }

  lemma {:induction false} PairAppends<V>(roots: seq<V>, log: seq<Entry<V>>, root: nat, value: V, stamp: Stamp,
                                          was: Option<Id>, derived: Option<Id>)
    requires Paired(roots, log) && root < |roots| && ReasonStored(stamp.reason)
    ensures Paired(roots, WithPair(roots, log, root, value, stamp, was, derived))
  {
    var log' := WithPair(roots, log, root, value, stamp, was, derived);
    forall k: nat | k % 2 == 0 && k < |log'| ensures PairAt(roots, log', k) {
      if k < |log| {
        assert PairAt(roots, log, k);
        assert log'[..k] == log[..k];
      } else {
        assert log'[..k] == log;
      }
    }
  }

  /** More roots change nothing for the corrections there are. */
  lemma {:induction false} RootAppends<V>(roots: seq<V>, log: seq<Entry<V>>, v: V)
    requires Paired(roots, log)
    ensures Paired(roots + [v], log)
    ensures forall r: nat :: r < |roots| ==> Effective(roots + [v], log, r) == Effective(roots, log, r)
  {
    forall k: nat | k % 2 == 0 && k < |log| ensures PairAt(roots + [v], log, k) { assert PairAt(roots, log, k); }
  }

  // ----- the anomaly view, on any table

  /** What a REVERSAL of generation g must repeat. */
  predicate Repeats<V(==)>(roots: seq<V>, log: seq<Entry<V>>, h: Entry<V>) {
    h.root < |roots| &&
    if h.generation == 1 then h.value == roots[h.root]
    else
      && (h.generation > 1 ==> exists p :: 0 <= p < |log| && Before(log, h, p))
      && (forall p :: 0 <= p < |log| && Before(log, h, p) ==> h.value == log[p].value)
  }

  predicate Before<V>(log: seq<Entry<V>>, h: Entry<V>, p: nat)
    requires p < |log|
  {
    log[p].root == h.root && log[p].role == CORRECTED && log[p].generation == h.generation - 1
  }

  ghost predicate RowAnomaly<V>(roots: seq<V>, log: seq<Entry<V>>, i: nat)
    requires i < |log|
  {
    var h := log[i];
    h.root >= |roots| || !ReasonStored(h.stamp.reason) || (h.role == REVERSAL && !Repeats(roots, log, h))
  }

  /** The rows that share the pair of row i: one REVERSAL and one CORRECTED, alike. */
  ghost predicate PairAnomaly<V>(log: seq<Entry<V>>, i: nat)
    requires i < |log|
  {
    !exists a, b :: 0 <= a < |log| && 0 <= b < |log| && Partners(log, i, a, b)
  }

  ghost predicate Partners<V>(log: seq<Entry<V>>, i: nat, a: nat, b: nat)
    requires i < |log| && a < |log| && b < |log|
  {
    && log[a].role == REVERSAL && log[b].role == CORRECTED
    && log[a].root == log[b].root && log[a].generation == log[b].generation && log[a].stamp == log[b].stamp
    && (forall j :: 0 <= j < |log| ==> (log[j].pair == log[i].pair <==> j == a || j == b))
  }

  function Count<V>(log: seq<Entry<V>>, root: nat): nat {
    if log == [] then 0
    else
      var n := |log| - 1;
      Count(log[..n], root) + (if log[n].root == root && log[n].role == CORRECTED then 1 else 0)
  }

  function Numbers<V>(log: seq<Entry<V>>, root: nat): set<int> {
    if log == [] then {}
    else
      var n := |log| - 1;
      Numbers(log[..n], root) + (if log[n].root == root && log[n].role == CORRECTED then {log[n].generation} else {})
  }

  ghost predicate CountAnomaly<V>(log: seq<Entry<V>>, root: nat) {
    Count(log, root) > 0 && (Count(log, root) != Generation(log, root) || |Numbers(log, root)| != Generation(log, root))
  }

  /** The view reports the root. */
  ghost predicate Anomalous<V>(roots: seq<V>, log: seq<Entry<V>>, root: nat) {
    || CountAnomaly(log, root)
    || exists i :: 0 <= i < |log| && log[i].root == root && (RowAnomaly(roots, log, i) || PairAnomaly(log, i))
  }

  // ----- a table made of pairs has no anomaly

  lemma {:induction false} CountsAfterPair<V>(log: seq<Entry<V>>, a: Entry<V>, b: Entry<V>, root: nat)
    requires a.role == REVERSAL && b.role == CORRECTED && b.generation == Generation(log, b.root) + 1
    ensures var log' := log + [a, b];
            && Count(log', root) == Count(log, root) + (if b.root == root then 1 else 0)
            && Numbers(log', root) == Numbers(log, root) + (if b.root == root then {b.generation} else {})
            && Generation(log', root) == (if b.root == root then b.generation else Generation(log, root))
  {
    var log', n := log + [a, b], |log|;
    assert log'[..n + 1][..n] == log && log'[..n + 1][n] == a;
    assert Head(log'[..n + 1], root) == Head(log, root);
    assert Count(log'[..n + 1], root) == Count(log, root);
    assert Numbers(log'[..n + 1], root) == Numbers(log, root);
  }

  /** A table of pairs ends in a pair on top of a table of pairs. */
  lemma {:induction false} LastPair<V>(roots: seq<V>, log: seq<Entry<V>>) returns (front: seq<Entry<V>>, a: Entry<V>, b: Entry<V>)
    requires Paired(roots, log) && log != []
    ensures log == front + [a, b] && Paired(roots, front)
    ensures a.role == REVERSAL && b.role == CORRECTED && b.generation == Generation(front, b.root) + 1
  {
    var n := |log| - 2;
    front, a, b := log[..n], log[n], log[n + 1];
    assert PairAt(roots, log, n);
    PrefixPaired(roots, log, n);
  }

  lemma {:induction false} PairedCounts<V>(roots: seq<V>, log: seq<Entry<V>>, root: nat)
    requires Paired(roots, log)
    ensures Count(log, root) == Generation(log, root)
    ensures Numbers(log, root) == HistoryHealth.UpTo(Count(log, root))
    decreases |log|
  {
    if log != [] {
      var front, a, b := LastPair(roots, log);
      PairedCounts(roots, front, root);
      CountsAfterPair(front, a, b, root);
    }
  }

  lemma {:induction false} PairIsHead<V>(front: seq<Entry<V>>, a: Entry<V>, b: Entry<V>)
    requires a.role == REVERSAL && b.role == CORRECTED && b.generation == Generation(front, b.root) + 1
    ensures Head(front + [a, b], b.root) == Some(|front| + 1)
  {
    var log, n := front + [a, b], |front|;
    assert log[..n + 1][..n] == front && log[..n + 1][n] == a;
    assert Head(log[..n + 1], b.root) == Head(front, b.root);
  }

  /** A CORRECTED row is the head of its root as far as the table then went. */
  lemma {:induction false} HeadHasGeneration<V>(roots: seq<V>, log: seq<Entry<V>>, p: nat)
    requires Paired(roots, log) && p < |log| && log[p].role == CORRECTED
    ensures log[p].generation >= 1
    ensures Head(log[..p + 1], log[p].root) == Some(p)
  {
    var k := p - 1;
    assert PairAt(roots, log, if p % 2 == 0 then p else k);
    PrefixPaired(roots, log, k);
    PairedCounts(roots, log[..k], log[p].root);
    PairIsHead(log[..k], log[k], log[p]);
    assert log[..p + 1] == log[..k] + [log[k], log[p]];
  }

  lemma {:induction false} PrefixPaired<V>(roots: seq<V>, log: seq<Entry<V>>, n: nat)
    requires Paired(roots, log) && n <= |log| && n % 2 == 0
    ensures Paired(roots, log[..n])
  {
    forall k: nat | k % 2 == 0 && k < n ensures PairAt(roots, log[..n], k) {
      assert PairAt(roots, log, k);
      assert log[..n][..k] == log[..k];
    }
  }

  /** Two CORRECTED rows of a root differ in generation, the later one is higher. */
  lemma {:induction false} GenerationsGrow<V>(roots: seq<V>, log: seq<Entry<V>>, p: nat, q: nat)
    requires Paired(roots, log) && p < q < |log| && log[p].root == log[q].root
    requires log[p].role == CORRECTED && log[q].role == CORRECTED
    ensures log[p].generation < log[q].generation
  {
    assert PairAt(roots, log, if q % 2 == 0 then q else q - 1);
    assert PairAt(roots, log, if p % 2 == 0 then p else p - 1);
    HeadIsMax(log[..q - 1], log[q].root, p);
  }

  lemma {:induction false} ReversalRepeats<V>(roots: seq<V>, log: seq<Entry<V>>, k: nat)
    requires Paired(roots, log) && k < |log| && log[k].role == REVERSAL
    ensures Repeats(roots, log, log[k])
  {
    assert PairAt(roots, log, if k % 2 == 0 then k else k - 1);
    var h := log[k];
    PrefixPaired(roots, log, k);
    PairedCounts(roots, log[..k], h.root);
    var before := Head(log[..k], h.root);
    if before.Some? {
      var b := before.value;
      assert log[b] == log[..k][b];
      HeadHasGeneration(roots, log, b);
      assert Before(log, h, b);
      forall p | 0 <= p < |log| && Before(log, h, p) ensures p == b {
        if p < b { GenerationsGrow(roots, log, p, b); }
        if b < p { GenerationsGrow(roots, log, b, p); }
      }
    }
  }

  lemma {:induction false} RowsPair<V>(roots: seq<V>, log: seq<Entry<V>>, i: nat)
    requires Paired(roots, log) && i < |log|
    ensures !PairAnomaly(log, i)
  {
    var k := if i % 2 == 0 then i else i - 1;
    assert PairAt(roots, log, k);
    forall j | 0 <= j < |log| ensures log[j].pair == log[i].pair <==> j == k || j == k + 1 {
      assert PairAt(roots, log, if j % 2 == 0 then j else j - 1);
    }
    assert Partners(log, i, k, k + 1);
  }

  /** The view reports no root of a table that corrections wrote, so none is locked out. */
  lemma {:induction false} PairedIsHealthy<V>(roots: seq<V>, log: seq<Entry<V>>, root: nat)
    requires Paired(roots, log)
    ensures !Anomalous(roots, log, root)
  {
    PairedCounts(roots, log, root);
    forall i | 0 <= i < |log| ensures !RowAnomaly(roots, log, i) && !PairAnomaly(log, i) {
      assert PairAt(roots, log, if i % 2 == 0 then i else i - 1);
      RowsPair(roots, log, i);
      if log[i].role == REVERSAL { ReversalRepeats(roots, log, i); }
    }
  }
}
