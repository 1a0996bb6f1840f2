/** The shape every produced history has: row i carries version i+1 and is fixed by row i-1.
    An ordinary row starts a block; a REVERSAL cancels the row before it and is followed by
    its CORRECTED row, so only the last block can grow. */
module HistoryChain {
  import opened HistoryRows
  import opened HistoryViews

  predicate OrdinaryShape(r: Row) {
    r.role == NONE && r.root == None && r.pair == None && r.generation == 0 && r.correctionAt == None
  }

  /** r directly follows p. */
  predicate Follows(p: Row, r: Row) {
    match r.role
    case NONE => p.role != REVERSAL && OrdinaryShape(r)
    case REVERSAL =>
      && p.role != REVERSAL && r.cls == p.cls && r.root == Some(RootOf(p)) && r.generation == p.generation + 1
      && r.from == p.from && r.to == p.to && r.occurredAt == p.occurredAt && r.evidence == p.evidence
      && r.pair.Some? && r.correctionAt.Some? && ReasonStored(r.reason)
    case CORRECTED =>
      && p.role == REVERSAL && r.cls == p.cls && r.root == p.root && r.generation == p.generation
      && r.from == p.from && r.pair == p.pair && r.reason == p.reason && r.actor == p.actor
      && r.correctionAt == p.correctionAt
  }

  predicate Link(log: seq<Row>, i: int)
    requires 0 < i < |log|
  {
    Follows(log[i - 1], log[i])
  }

  /** Position n is not between a REVERSAL and its CORRECTED row. */
  predicate Boundary(log: seq<Row>, n: int) {
    0 <= n <= |log| && (n == 0 || log[n - 1].role != REVERSAL)
  }

  predicate Chain(log: seq<Row>) {
    && (forall i :: 0 <= i < |log| ==> log[i].version == i + 1)
    && (|log| > 0 ==> OrdinaryShape(log[0]))
    && (forall i :: 0 < i < |log| ==> Link(log, i))
    && Boundary(log, |log|)
  }

  /** Primary keys, per table, and the unique index on (pair, role). */
  predicate Keys(log: seq<Row>) {
    && (forall i, j :: 0 <= i < j < |log| && log[i].cls == log[j].cls ==> log[i].id != log[j].id)
    && (forall i, j :: 0 <= i < j < |log| && log[i].cls == log[j].cls && log[i].role == log[j].role != NONE
          ==> log[i].pair != log[j].pair)
  }

  // ----- blocks

  /** The ordinary row that starts the block of row i. */
  function RootIndex(log: seq<Row>, i: nat): (r: nat)
    requires Chain(log) && i < |log|
    ensures r <= i && log[r].role == NONE
  {
    if log[i].role == NONE then i else RootIndex(log, i - 1)
  }

  /** Where row i stands in its block is decided by its role and generation alone. */
  lemma {:induction false} BlockPosition(log: seq<Row>, i: nat)
    requires Chain(log) && i < |log|
    ensures var r := RootIndex(log, i);
            && i == r + 2 * log[i].generation - (if log[i].role == REVERSAL then 1 else 0)
            && RootOf(log[i]) == log[r].id && log[i].cls == log[r].cls && log[i].from == log[r].from
            && (log[i].role != NONE ==> log[i].root == Some(log[r].id))
  {
    if i > 0 {
      assert Link(log, i);
      if log[i].role != NONE { BlockPosition(log, i - 1); }
    }
  }

  /** Blocks are contiguous: no ordinary row lies strictly between a root and its rows. */
  lemma {:induction false} BlockContiguous(log: seq<Row>, i: nat, m: nat)
    requires Chain(log) && m <= i < |log| && RootIndex(log, i) <= m
    ensures RootIndex(log, m) == RootIndex(log, i)
    ensures m > RootIndex(log, i) ==> log[m].role != NONE
    decreases i
  {
    if m < i { BlockContiguous(log, i - 1, m); }
  }

  /** Two rows of one class name the same root exactly when they lie in the same block. */
  lemma {:induction false} SameRootSameBlock(log: seq<Row>, i: nat, j: nat)
    requires Chain(log) && Keys(log) && i < |log| && j < |log| && log[i].cls == log[j].cls
    ensures RootOf(log[i]) == RootOf(log[j]) <==> RootIndex(log, i) == RootIndex(log, j)
  {
    BlockPosition(log, i);
    BlockPosition(log, j);
  }

  /** The effective view shows exactly the last row of each block. */
  lemma {:induction false} EffectiveIsBlockEnd(log: seq<Row>, k: Class, i: nat)
    requires Chain(log) && Keys(log) && i < |log|
    ensures EffectiveAt(log, k, i) <==>
            log[i].cls == k && log[i].role != REVERSAL && (i + 1 == |log| || log[i + 1].role == NONE)
  {
    if log[i].cls == k && log[i].role != REVERSAL {
      if i + 1 < |log| && log[i + 1].role != NONE {
        assert Link(log, i + 1);
        assert Link(log, i + 2);
        assert Supersedes(log, k, i, i + 2);
      } else {
        forall j | 0 <= j < |log|
          ensures !Supersedes(log, k, i, j)
        {
          if Supersedes(log, k, i, j) {
            SameRootSameBlock(log, i, j);
            BlockPosition(log, i);
            BlockPosition(log, j);
            BlockContiguous(log, j, i + 1);
          }
        }
      }
    }
  }

  // ----- the last row of a class

  /** The last of the first n rows that has class k. */
  function LastOf(log: seq<Row>, k: Class, n: nat): (r: Option<nat>)
    requires n <= |log|
    ensures r.Some? ==> r.value < n && log[r.value].cls == k
    ensures forall i :: 0 <= i < n && log[i].cls == k ==> r.Some? && i <= r.value
  {
    if n == 0 then None else if log[n - 1].cls == k then Some(n - 1) else LastOf(log, k, n - 1)
  }

  /** The fact of class k in force after the first n rows. */
  function FactAt(log: seq<Row>, k: Class, b: Baseline, n: nat): Fact
    requires n <= |log|
  {
    var at := LastOf(log, k, n);
    if at.Some? then log[at.value].to else Base(b, k)
  }

  lemma {:induction false} LastOfPrefix(log: seq<Row>, log': seq<Row>, k: Class, n: nat)
    requires n <= |log| && n <= |log'| && log[..n] == log'[..n]
    ensures LastOf(log, k, n) == LastOf(log', k, n)
  {
    if n > 0 {
      assert log[n - 1] == log[..n][n - 1] == log'[n - 1];
      assert log[..n - 1] == log[..n][..n - 1] == log'[..n - 1];
      LastOfPrefix(log, log', k, n - 1);
    }
  }

  lemma {:induction false} LastIsEffective(log: seq<Row>, k: Class, n: nat)
    requires Chain(log) && Keys(log) && n <= |log| && (n == |log| || log[n].role == NONE)
    ensures var at := LastOf(log, k, n); at.Some? ==> EffectiveAt(log, k, at.value)
  {
    var at := LastOf(log, k, n);
    if at.Some? {
      var i := at.value;
      if i + 1 < |log| { assert Link(log, i + 1); }
      EffectiveIsBlockEnd(log, k, i);
    }
  }

  /** Below a block boundary the effective row of greatest version is the last raw row. */
  lemma {:induction false} LatestIsLast(log: seq<Row>, k: Class, n: nat, bound: Option<int>)
    requires Chain(log) && Keys(log) && n <= |log| && (n == |log| || log[n].role == NONE)
    requires bound == Some(n + 1) || (bound == None && n == |log|)
    ensures Latest(log, k, bound) == LastOf(log, k, n)
  {
    var last, at := LastOf(log, k, n), Latest(log, k, bound);
    if last.Some? {
      LastIsEffective(log, k, n);
      assert Below(bound, log[last.value].version);
    }
    if at.Some? {
      assert at.value < n;
    }
  }
}
