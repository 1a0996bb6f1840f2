/** Whole runs of one asset: any sequence of ordinary changes and corrections, by any
    writers, from creation on. */
module AssetRuns {
  import opened HistoryRows
  import opened HistoryViews
  import opened HistoryChain
  import opened HistoryHealth
  import opened AssetCommands
  import opened AssetRecord

  datatype Command = Ordinary(change: Change) | Correction(fix: Fix) | Enlarge(world: World)

  function Exec(a: Asset, c: Command): Asset
    requires |a.log| > 0
  {
    match c
    case Ordinary(q) => ApplyChange(a, q)
    case Correction(q) => ApplyFix(a, q)
    case Enlarge(w) => if Grows(a.world, w) then a.(world := w) else a
  }

  /** The command commits; a command that does not leaves the asset as it was. */
  predicate Commits(a: Asset, c: Command)
    requires |a.log| > 0
  {
    match c
    case Ordinary(q) => ChangeOutcome(a, q).Done?
    case Correction(q) => FixOutcome(a, q).Done?
    case Enlarge(_) => false
  }

  function ExpectedVersion(c: Command): Option<int> {
    match c
    case Ordinary(q) => q.expected
    case Correction(q) => q.expected
    case Enlarge(_) => None
  }

  function Run(a: Asset, cs: seq<Command>): Asset
    requires Valid(a)
    decreases |cs|
  {
    if cs == [] then a else
    ExecValid(a, cs[0]);
    Run(Exec(a, cs[0]), cs[1..])
  }

  lemma {:induction false} ExecValid(a: Asset, c: Command)
    requires Valid(a)
    ensures Valid(Exec(a, c))
  {
    match c
    case Ordinary(q) => ChangeKeepsValid(a, q);
    case Correction(q) => FixKeepsValid(a, q);
    case Enlarge(w) =>
      var a' := Exec(a, c);
      forall k ensures Get(a'.current, k) == ProjectionAt(a'.log, k, a'.base, |a'.log|) {
        assert Get(a.current, k) == ProjectionAt(a.log, k, a.base, |a.log|);
      }
      forall i | 0 <= i < |a.log| ensures TypedAt(a.log, a'.world, i) { assert TypedAt(a.log, a.world, i); }
  }

  /** History is append-only, and the version only grows. */
  lemma {:induction false} ExecExtends(a: Asset, c: Command)
    requires Valid(a)
    ensures var a' := Exec(a, c);
            && a.log <= a'.log && a'.base == a.base && a.version <= a'.version
            && (Commits(a, c) ==> ExpectedVersion(c) == Some(a.version) && a.version < a'.version)
  {}

  /** Every state of every run satisfies the invariant, so every integrity check passes in it. */
  lemma {:induction false} RunSafe(a: Asset, cs: seq<Command>)
    requires Valid(a)
    ensures var a' := Run(a, cs);
            && Valid(a') && Authority(a')
            && a.log <= a'.log && a'.base == a.base && a.version <= a'.version
    decreases |cs|
  {
    if cs == [] {
      AuthorityHolds(a);
    } else {
      ExecValid(a, cs[0]);
      ExecExtends(a, cs[0]);
      RunSafe(Exec(a, cs[0]), cs[1..]);
    }
  }

  /** Of two writers that expect the same version at most one ever commits. */
  lemma {:induction false} OneWriterWins(a: Asset, first: Command, between: seq<Command>, second: Command)
    requires Valid(a) && Commits(a, first) && ExpectedVersion(second) == ExpectedVersion(first)
    ensures Valid(Exec(a, first)) && |Run(Exec(a, first), between).log| > 0
    ensures !Commits(Run(Exec(a, first), between), second)
  {
    ExecValid(a, first);
    ExecExtends(a, first);
    RunSafe(Exec(a, first), between);
    ExecExtends(Run(Exec(a, first), between), second);
  }

  // ----- the version line is tiled by blocks

  /** Rows r..r+2m are one block: a root and the m pairs that correct it. */
  ghost predicate Block(log: seq<Row>, r: int, m: int) {
    && 0 <= r && 0 <= m && r + 2 * m < |log|
    && log[r].role == NONE
    && (forall g :: 1 <= g <= m ==> PairIn(log, r, g))
    && (r + 2 * m + 1 == |log| || log[r + 2 * m + 1].role == NONE)
  }

  predicate PairIn(log: seq<Row>, r: int, g: int)
    requires 0 <= r && 1 <= g && r + 2 * g < |log|
  {
    var rev, cor := log[r + 2 * g - 1], log[r + 2 * g];
    && rev.role == REVERSAL && cor.role == CORRECTED
    && rev.generation == g && cor.generation == g
    && rev.root == Some(log[r].id) && cor.root == Some(log[r].id)
    && rev.cls == log[r].cls && cor.cls == log[r].cls
    && rev.pair == cor.pair && rev.version == r + 2 * g && cor.version == r + 2 * g + 1
  }

  lemma {:induction false} PairPresent(log: seq<Row>, r: nat, e: nat, g: nat)
    requires Chain(log) && r < e < |log| && RootIndex(log, e) == r && 1 <= g && r + 2 * g <= e
    ensures PairIn(log, r, g)
  {
    BlockContiguous(log, e, r + 2 * g);
    BlockPosition(log, r + 2 * g);
    BlockContiguous(log, e, r + 2 * g - 1);
    BlockPosition(log, r + 2 * g - 1);
    assert Link(log, r + 2 * g);
  }

  /** The last row of the block that starts at an ordinary row. */
  function BlockEnd(log: seq<Row>, i: nat): (e: nat)
    requires i < |log|
    ensures i <= e < |log| && (e + 1 == |log| || log[e + 1].role == NONE)
    ensures forall x :: i < x <= e ==> log[x].role != NONE
    decreases |log| - i
  {
    if i + 1 == |log| || log[i + 1].role == NONE then i else BlockEnd(log, i + 1)
  }

  lemma {:induction false} BlockEndRoot(log: seq<Row>, r: nat, e: nat)
    requires Chain(log) && r <= e < |log| && log[r].role == NONE
    requires forall x :: r < x <= e ==> log[x].role != NONE
    ensures RootIndex(log, e) == r
  {
    if r < e { BlockEndRoot(log, r, e - 1); }
  }

  lemma {:induction false} BlockInner(log: seq<Row>, r: nat, m: nat, x: nat)
    requires Block(log, r, m) && r < x <= r + 2 * m
    ensures log[x].role != NONE
  {
    var g := (x - r + 1) / 2;
    assert PairIn(log, r, g);
  }

  /** A block is determined by any of its rows. */
  lemma {:induction false} BlockUnique(log: seq<Row>, r: nat, m: nat, i: nat)
    requires Chain(log) && Block(log, r, m) && r <= i <= r + 2 * m
    ensures RootIndex(log, i) == r && BlockEnd(log, i) == r + 2 * m
  {
    forall x | r < x <= r + 2 * m ensures log[x].role != NONE { BlockInner(log, r, m, x); }
    BlockEndRoot(log, r, i);
  }

  lemma {:induction false} BlockAround(log: seq<Row>, i: nat) returns (r: nat, m: nat)
    requires Chain(log) && i < |log|
    ensures Block(log, r, m) && r <= i <= r + 2 * m
  {
    r := RootIndex(log, i);
    var e := BlockEnd(log, i);
    forall x | r < x <= e ensures log[x].role != NONE {
      if x <= i { BlockContiguous(log, i, x); }
    }
    BlockEndRoot(log, r, e);
    BlockPosition(log, e);
    if e + 1 < |log| { assert Link(log, e + 1); }
    m := log[e].generation;
    forall g | 1 <= g <= m ensures PairIn(log, r, g) { PairPresent(log, r, e, g); }
  }

  /** Every version belongs to exactly one block, so blocks follow each other without gaps. */
  lemma {:induction false} Tiling(a: Asset, i: nat) returns (r: nat, m: nat)
    requires Valid(a) && i < |a.log|
    ensures Block(a.log, r, m) && r <= i <= r + 2 * m
    ensures forall r', m' :: Block(a.log, r', m') && r' <= i <= r' + 2 * m' ==> r' == r && m' == m
  {
    r, m := BlockAround(a.log, i);
    BlockUnique(a.log, r, m, i);
    forall r', m' | Block(a.log, r', m') && r' <= i <= r' + 2 * m' ensures r' == r && m' == m {
      BlockUnique(a.log, r', m', i);
    }
  }

  /** An ordinary row can be corrected exactly while no other ordinary row follows it. */
  lemma {:induction false} CorrectableWhileLast(a: Asset, q: Fix, r: nat)
    requires Valid(a) && q.expected == Some(a.version)
    requires r < |a.log| && a.log[r].cls == q.cls && a.log[r].id == q.root && a.log[r].role == NONE
    ensures FixOutcome(a, q) == Failed(NotEffectiveHead) <==> exists x :: r < x < |a.log| && a.log[x].role == NONE
    ensures FixOutcome(a, q).Done? ==> forall x :: r < x < |a.log| ==> a.log[x].role != NONE
  {
    var n := |a.log| - 1;
    BlockPosition(a.log, n);
    var t := RootIndex(a.log, n);
    if NamesLastBlock(a, q) {
      LastBlockRoot(a, q, r);
      forall x | r < x < |a.log| ensures a.log[x].role != NONE { BlockContiguous(a.log, n, x); }
    } else if t > r {
      assert a.log[t].role == NONE;
    } else {
      BlockContiguous(a.log, n, r);
    }
  }

  // ----- historical facts, as capture conflicts report them

  /** The raw row of class k with the greatest version not above v: ORDER BY DESC LIMIT 1. */
  function RawLatest(log: seq<Row>, k: Class, v: int, n: nat := |log|): (r: Option<nat>)
    requires n <= |log|
    ensures r.Some? ==> r.value < n && log[r.value].cls == k && log[r.value].version <= v
  {
    if n == 0 then None
    else
      var best := RawLatest(log, k, v, n - 1);
      if log[n - 1].cls == k && log[n - 1].version <= v
         && (best.None? || log[best.value].version < log[n - 1].version)
      then Some(n - 1) else best
  }

  lemma {:induction false} RawMaximal(log: seq<Row>, k: Class, v: int, n: nat, i: nat)
    requires i < n <= |log| && log[i].cls == k && log[i].version <= v
    ensures var r := RawLatest(log, k, v, n); r.Some? && log[i].version <= log[r.value].version
  {
    if i < n - 1 { RawMaximal(log, k, v, n - 1, i); }
  }

  datatype Facts =
    | UnknownVersion(version: int)
    | KnownVersion(version: int, state: Fact, location: Fact, custodian: Fact, owner: Fact, assignee: Fact)

  function AssigneeId(f: Fact): Fact {
    if f.Assignee? then Ref(f.target) else Null
  }

  /** One lookup of the Python form: the latest raw row, else the creation witness. */
  function Lookup(a: Asset, k: Class, v: int): Fact {
    var at := RawLatest(a.log, k, v);
    if at.Some? then a.log[at.value].to else Base(a.base, k)
  }

  /** `_facts`. */
  function FactsOf(a: Asset, v: int): Facts {
    if v > a.version then UnknownVersion(v)
    else KnownVersion(v, Lookup(a, Transition, v), Lookup(a, Movement, v), Lookup(a, Custody, v),
                      Lookup(a, Ownership, v), AssigneeId(Lookup(a, Assignment, v)))
  }

  /** `capture_asset_facts`: the SQL form tests for a row, but coalesces the owner. */
  function FactsSql(a: Asset, v: int): Facts {
    if v > a.version then UnknownVersion(v)
    else
      var m, c := RawLatest(a.log, Movement, v), RawLatest(a.log, Custody, v);
      var t, o := RawLatest(a.log, Transition, v), RawLatest(a.log, Ownership, v);
      var e := RawLatest(a.log, Assignment, v);
      KnownVersion(v,
        if t.Some? then a.log[t.value].to else Null,
        if m.Some? then a.log[m.value].to else a.base.location,
        if c.Some? then a.log[c.value].to else a.base.custodian,
        if o.Some? && a.log[o.value].to != Null then a.log[o.value].to else a.base.owner,
        if e.Some? then AssigneeId(a.log[e.value].to) else Null)
  }

  /** The newest ownership row up to v records no owner although the creation witness had one. */
  predicate NullOwnerShadows(a: Asset, v: int) {
    var at := RawLatest(a.log, Ownership, v);
    v <= a.version && at.Some? && a.log[at.value].to == Null && a.base.owner != Null
  }

  /** The two forms agree exactly when no NULL owner shadows the initial one; the table
      forbids NULL owners, so they agree on every asset that operations produce. */
  lemma {:induction false} FactsFormsAgree(a: Asset, v: int)
    ensures FactsOf(a, v) == FactsSql(a, v) <==> !NullOwnerShadows(a, v)
    ensures Valid(a) ==> FactsOf(a, v) == FactsSql(a, v)
  {
    var at := RawLatest(a.log, Ownership, v);
    if Valid(a) && at.Some? { assert TypedAt(a.log, a.world, at.value); }
  }

  lemma {:induction false} RawIsLast(log: seq<Row>, k: Class, v: nat)
    requires Chain(log) && v <= |log|
    ensures RawLatest(log, k, v) == LastOf(log, k, v)
  {
    var at, last := RawLatest(log, k, v), LastOf(log, k, v);
    if last.Some? { RawMaximal(log, k, v, |log|, last.value); }
    if at.Some? { assert at.value < v; }
  }

  lemma {:induction false} LookupIsFact(a: Asset, k: Class, v: nat)
    requires Valid(a) && v <= a.version
    ensures Lookup(a, k, v) == FactAt(a.log, k, a.base, v)
  {
    RawIsLast(a.log, k, v);
  }

  /** The facts an asset shows now. */
  function FactsNow(a: Asset): Facts {
    KnownVersion(a.version, a.current.state, a.current.location, a.current.custodian, a.current.owner,
                 AssigneeId(Now(a, Assignment)))
  }

  lemma {:induction false} FactStays(a: Asset, a': Asset, k: Class)
    requires Valid(a) && a.log <= a'.log && a'.base == a.base
    ensures FactAt(a'.log, k, a'.base, |a.log|) == Now(a, k)
    ensures k != Assignment ==> Now(a, k) == Get(a.current, k)
  {
    assert a'.log[..|a.log|] == a.log[..|a.log|];
    LastOfPrefix(a'.log, a.log, k, |a.log|);
    assert Get(a.current, k) == ProjectionAt(a.log, k, a.base, |a.log|);
  }

  lemma {:induction false} LookupRemembers(a: Asset, a': Asset, k: Class)
    requires Valid(a) && Valid(a') && a.log <= a'.log && a'.base == a.base
    ensures Lookup(a', k, a.version) == Now(a, k)
    ensures k != Assignment ==> Now(a, k) == Get(a.current, k)
  {
    LookupIsFact(a', k, a.version);
    FactStays(a, a', k);
  }

  lemma {:induction false} LaterRemembers(a: Asset, a': Asset)
    requires Valid(a) && Valid(a') && a.log <= a'.log && a'.base == a.base && a.version <= a'.version
    ensures FactsOf(a', a.version) == FactsNow(a)
  {
    forall k ensures Lookup(a', k, a.version) == Now(a, k) && (k != Assignment ==> Now(a, k) == Get(a.current, k)) {
      LookupRemembers(a, a', k);
    }
    assert Get(a.current, Transition) == a.current.state && Get(a.current, Movement) == a.current.location;
    assert Get(a.current, Custody) == a.current.custodian && Get(a.current, Ownership) == a.current.owner;
  }

  /** However much history follows, the facts at a version the asset held are those it showed. */
  lemma {:induction false} FactsRemembered(a: Asset, cs: seq<Command>)
    requires Valid(a)
    ensures FactsOf(Run(a, cs), a.version) == FactsNow(a)
  {
    RunSafe(a, cs);
    LaterRemembers(a, Run(a, cs));
  }

  lemma {:induction false} ReversalKeepsFact(a: Asset, k: Class, v: nat)
    requires Valid(a) && 0 < v <= a.version && a.log[v - 1].role == REVERSAL
    ensures v > 1 && Lookup(a, k, v) == Lookup(a, k, v - 1)
  {
    assert Link(a.log, v - 1);
    LookupIsFact(a, k, v);
    LookupIsFact(a, k, v - 1);
  }

  /** A REVERSAL version, which no reader ever saw, reports the facts just before it. */
  lemma {:induction false} FactsAtReversal(a: Asset, v: nat)
    requires Valid(a) && 0 < v <= a.version && a.log[v - 1].role == REVERSAL
    ensures v > 1 && FactsOf(a, v) == FactsOf(a, v - 1).(version := v)
  {
    ReversalKeepsFact(a, Transition, v);
    ReversalKeepsFact(a, Movement, v);
    ReversalKeepsFact(a, Custody, v);
    ReversalKeepsFact(a, Ownership, v);
    ReversalKeepsFact(a, Assignment, v);
  }

  /** At a version that the asset held, the reported assignee is the one then in force. */
  lemma {:induction false} AssigneeRemembered(a: Asset, cs: seq<Command>)
    requires Valid(a)
    ensures var f := FactsOf(Run(a, cs), a.version);
            && f.KnownVersion? && f.version == a.version
            && (match Now(a, Assignment)
                case Assignee(_, target) => f.assignee == Ref(target)
                case _ => f.assignee == Null)
            && f.state == Now(a, Transition) && f.location == Now(a, Movement)
            && f.custodian == Now(a, Custody) && f.owner == Now(a, Ownership)
  {
    FactsRemembered(a, cs);
    FactStays(a, a, Transition);
    FactStays(a, a, Movement);
    FactStays(a, a, Custody);
    FactStays(a, a, Ownership);
  }
}
