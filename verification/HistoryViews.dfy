/** The SQL views and checks over raw history rows, as queries on an arbitrary row
    sequence: nothing here assumes that the rows were produced by the application. */
module HistoryViews {
  import opened HistoryRows

  /** Row i of the table of class k. */
  predicate In(log: seq<Row>, k: Class, i: int) {
    0 <= i < |log| && log[i].cls == k
  }

  // ----- effective history

  /** A CORRECTED row that supersedes row i. */
  predicate Supersedes(log: seq<Row>, k: Class, i: int, j: int)
    requires In(log, k, i)
  {
    In(log, k, j) && log[j].role == CORRECTED && log[j].root == Some(RootOf(log[i]))
    && log[j].generation > log[i].generation
  }

  /** The view `effective_<history>`: row i is shown. */
  predicate EffectiveAt(log: seq<Row>, k: Class, i: int) {
    In(log, k, i) && log[i].role != REVERSAL
    && !(exists j :: 0 <= j < |log| && Supersedes(log, k, i, j))
  }

  predicate Below(bound: Option<int>, v: int) {
    bound.None? || v < bound.value
  }

  /** Among the first n rows, the effective one of greatest version below the bound:
      ORDER BY result_version DESC LIMIT 1. */
  function Latest(log: seq<Row>, k: Class, bound: Option<int>, n: nat := |log|): (r: Option<nat>)
    requires n <= |log|
    ensures r.Some? ==> r.value < n && EffectiveAt(log, k, r.value) && Below(bound, log[r.value].version)
    ensures forall i :: 0 <= i < n && EffectiveAt(log, k, i) && Below(bound, log[i].version)
                ==> r.Some? && log[i].version <= log[r.value].version
  {
    if n == 0 then None
    else
      var best := Latest(log, k, bound, n - 1);
      if EffectiveAt(log, k, n - 1) && Below(bound, log[n - 1].version)
         && (best.None? || log[best.value].version < log[n - 1].version)
      then Some(n - 1) else best
  }

  /** What a projection of class k should hold according to row h. */
  function Projected(h: Row): Fact {
    if h.cls == Assignment then (if h.to == Null then Null else Ref(h.id)) else h.to
  }

  /** The projection that effective history implies. */
  function Expected(log: seq<Row>, k: Class, b: Baseline): Fact {
    var at := Latest(log, k, None);
    if at.Some? then Projected(log[at.value]) else Base(b, k)
  }

  // ----- malformed history, clause by clause

  predicate HasRoot(log: seq<Row>, k: Class, i: int)
    requires In(log, k, i)
  {
    && log[i].root.Some?
    && (exists j :: 0 <= j < |log| && log[j].cls == k && log[j].id == log[i].root.value)
    && (forall j :: 0 <= j < |log| && log[j].cls == k && log[j].id == log[i].root.value ==> log[j].role == NONE)
  }

  predicate ShapeOk(log: seq<Row>, k: Class, i: int)
    requires In(log, k, i)
  {
    var h := log[i];
    if h.role == NONE then
      h.root == None && h.pair == None && h.generation == 0 && h.correctionAt == None
    else
      HasRoot(log, k, i) && h.pair.Some? && h.generation >= 1 && h.correctionAt.Some? && ReasonStored(h.reason)
  }

  /** GROUP BY correction_pair_id over the non-ordinary rows. */
  function PairGroup(log: seq<Row>, k: Class, pair: Id): set<int> {
    set i | 0 <= i < |log| && log[i].cls == k && log[i].role != NONE && log[i].pair == Some(pair)
  }

  function WithRole(log: seq<Row>, g: set<int>, role: Role): set<int>
    requires Rows(log, g)
  {
    set i | i in g && log[i].role == role
  }

  predicate Rows(log: seq<Row>, g: set<int>) {
    forall i :: i in g ==> 0 <= i < |log|
  }

  /** Exactly one distinct value in each metadata column; count(DISTINCT x) ignores NULL. */
  predicate SameMetadata(log: seq<Row>, g: set<int>)
    requires Rows(log, g)
  {
    && |set i | i in g && log[i].root.Some? :: log[i].root.value| == 1
    && |set i | i in g :: log[i].generation| == 1
    && |set i | i in g :: log[i].reason| == 1
    && |set i | i in g :: log[i].actor| == 1
    && |set i | i in g && log[i].correctionAt.Some? :: log[i].correctionAt.value| == 1
  }

  predicate PairOk(log: seq<Row>, k: Class, pair: Id) {
    var g := PairGroup(log, k, pair);
    var reversals := WithRole(log, g, REVERSAL);
    var corrected := WithRole(log, g, CORRECTED);
    && |g| == 2 && |reversals| == 1 && |corrected| == 1
    && SameMetadata(log, g)
    && (forall i, j :: i in reversals && j in corrected ==> log[j].version == log[i].version + 1)
  }

  /** CORRECTED rows of one root. */
  function Corrections(log: seq<Row>, k: Class, root: Id): set<int> {
    set i | 0 <= i < |log| && log[i].cls == k && log[i].role == CORRECTED && log[i].root == Some(root)
  }

  function Generations(log: seq<Row>, k: Class, root: Id): set<int> {
    set i | i in Corrections(log, k, root) :: log[i].generation
  }

  predicate IsMax(s: set<int>, m: int) {
    m in s && forall x :: x in s ==> x <= m
  }

  /** Every group has count(*) = max(generation) = count(DISTINCT generation). */
  predicate GenerationsOk(log: seq<Row>, k: Class, root: Id) {
    var gs := Generations(log, k, root);
    forall m :: m in gs && IsMax(gs, m) ==> |Corrections(log, k, root)| == m && |gs| == m
  }

  /** Row p is the authority that reversal i cancels. */
  predicate Cancels(log: seq<Row>, k: Class, i: int, p: int)
    requires In(log, k, i)
  {
    In(log, k, p)
    && ((log[i].generation == 1 && log[i].root == Some(log[p].id))
        || (log[i].generation > 1 && log[i].root.Some? && log[p].root == log[i].root
            && log[p].generation == log[i].generation - 1 && log[p].role == CORRECTED))
  }

  predicate ReversalOk(log: seq<Row>, k: Class, i: int)
    requires In(log, k, i)
  {
    log[i].role == REVERSAL ==>
      forall p :: 0 <= p < |log| && Cancels(log, k, i, p) ==>
        && log[i].version == log[p].version + 1
        && log[i].from == log[p].from && log[i].to == log[p].to && log[i].occurredAt == log[p].occurredAt
        && (k == Transition ==> log[i].evidence == log[p].evidence)
  }

  /** The fact asserted just before the root, by effective history or the creation witness. */
  function PriorFact(log: seq<Row>, k: Class, b: Baseline, rootVersion: int): Fact {
    var at := Latest(log, k, Some(rootVersion));
    if at.Some? then log[at.value].to else Base(b, k)
  }

  predicate SourceOk(log: seq<Row>, k: Class, b: Baseline, i: int)
    requires In(log, k, i)
  {
    log[i].role == CORRECTED ==>
      forall r :: 0 <= r < |log| && log[r].cls == k && log[i].root == Some(log[r].id) ==>
        log[i].from == PriorFact(log, k, b, log[r].version)
  }

  predicate EvidenceOk(log: seq<Row>, k: Class, ev: Evidence, i: int)
    requires In(log, k, i)
  {
    k == Transition ==> EvidenceAdmitted(ev, log[i].to, log[i].role, log[i].evidence)
  }

  /** Row i gives the anomaly view no reason to show the asset. */
  predicate RowOk(log: seq<Row>, k: Class, b: Baseline, ev: Evidence, i: int)
    requires 0 <= i < |log|
  {
    log[i].cls == k ==>
      && ShapeOk(log, k, i) && ReversalOk(log, k, i) && SourceOk(log, k, b, i) && EvidenceOk(log, k, ev, i)
      && (log[i].role != NONE && log[i].pair.Some? ==> PairOk(log, k, log[i].pair.value))
      && (log[i].role == CORRECTED && log[i].root.Some? ==> GenerationsOk(log, k, log[i].root.value))
  }

  /** The rows of class k contribute nothing to the anomaly view. */
  predicate WellFormed(log: seq<Row>, k: Class, b: Baseline, ev: Evidence) {
    forall i :: 0 <= i < |log| ==> RowOk(log, k, b, ev, i)
  }

  // ----- the authority check

  function Versions(log: seq<Row>): set<int> {
    set i | 0 <= i < |log| :: log[i].version
  }

  /** count(*), count(DISTINCT), min and max of the produced versions. */
  predicate CountsOk(log: seq<Row>, version: int) {
    && |log| == version && |Versions(log)| == version
    && 1 in Versions(log) && version in Versions(log)
    && (forall v :: v in Versions(log) ==> 1 <= v <= version)
  }
}
