/** Purchase-order lines: append-only supersession, and the listing that rebuilds and checks
    each line's lineage from whatever rows it is given. */
module OrderLines {
  import opened HistoryRows
  import opened Sorting

  datatype Line = Line(id: Id, number: int, supersedes: Option<Id>)

  // ----- what a sound set of lines is

  /** Row i is n supersessions away from a root of its own line number. */
  ghost predicate Descends(rows: seq<Line>, i: nat, n: nat)
    decreases n
  {
    i < |rows| &&
    if n == 0 then rows[i].supersedes.None?
    else exists j: nat :: Follows(rows, j, i) && Descends(rows, j, n - 1)
  }

  /** Row i supersedes row j. */
  predicate Follows(rows: seq<Line>, j: nat, i: nat) {
    i < |rows| && j < |rows| && rows[i].supersedes == Some(rows[j].id) && rows[i].number == rows[j].number
  }

  ghost predicate Rooted(rows: seq<Line>, i: nat) {
    exists n: nat :: Descends(rows, i, n)
  }

  /** Two rows differ in identity, in the line they start and in the row they supersede. */
  predicate Apart(rows: seq<Line>, i: nat, j: nat)
    requires i < |rows| && j < |rows|
  {
    && rows[i].id != rows[j].id
    && (rows[i].supersedes == rows[j].supersedes ==> rows[i].supersedes.None? && rows[i].number != rows[j].number)
  }

  /** Disjoint chains, one root per line number, each of constant number. */
  ghost predicate Chains(rows: seq<Line>) {
    && (forall i, j :: 0 <= i < j < |rows| ==> Apart(rows, i, j))
    && (forall i :: 0 <= i < |rows| ==> Rooted(rows, i))
  }

  /** By line number, and within a number from the root on, each row after the one it supersedes. */
  ghost predicate Lineage(rows: seq<Line>) {
    forall k :: 0 <= k < |rows| ==> InPlace(rows, k)
  }

  predicate InPlace(rows: seq<Line>, k: nat)
    requires k < |rows|
  {
    if rows[k].supersedes.None? then k > 0 ==> rows[k - 1].number < rows[k].number
    else k > 0 && rows[k].supersedes == Some(rows[k - 1].id) && rows[k].number == rows[k - 1].number
  }

  // ----- facts about chains

  lemma {:induction false} ApartBoth(rows: seq<Line>, i: nat, j: nat)
    requires Chains(rows) && i < |rows| && j < |rows| && i != j
    ensures Apart(rows, i, j)
  {
    assert if i < j then Apart(rows, i, j) else Apart(rows, j, i);
  }

  /** A row has one depth. */
  lemma {:induction false} DepthUnique(rows: seq<Line>, i: nat, n: nat, m: nat)
    requires Chains(rows) && Descends(rows, i, n) && Descends(rows, i, m)
    ensures n == m
    decreases n
  {
    if n > 0 && m > 0 {
      var j: nat :| Follows(rows, j, i) && Descends(rows, j, n - 1);
      var k: nat :| Follows(rows, k, i) && Descends(rows, k, m - 1);
      if j != k { ApartBoth(rows, j, k); }
      DepthUnique(rows, j, n - 1, m - 1);
    }
  }

  /** A line number has one row of each depth. */
  lemma {:induction false} PlaceUnique(rows: seq<Line>, i: nat, j: nat, n: nat)
    requires Chains(rows) && Descends(rows, i, n) && Descends(rows, j, n) && rows[i].number == rows[j].number
    ensures i == j
    decreases n
  {
    if n > 0 {
      var a: nat :| Follows(rows, a, i) && Descends(rows, a, n - 1);
      var b: nat :| Follows(rows, b, j) && Descends(rows, b, n - 1);
      PlaceUnique(rows, a, b, n - 1);
    }
    if i != j { ApartBoth(rows, i, j); }
  }

  /** What supersedes a row has its number and the next depth. */
  lemma {:induction false} NextDepth(rows: seq<Line>, j: nat, i: nat, n: nat)
    requires Chains(rows) && Descends(rows, j, n) && i < |rows| && rows[i].supersedes == Some(rows[j].id)
    ensures Descends(rows, i, n + 1) && rows[i].number == rows[j].number
  {
    assert Rooted(rows, i);
    var m: nat :| Descends(rows, i, m);
    var k: nat :| Follows(rows, k, i) && Descends(rows, k, m - 1);
    if k != j { ApartBoth(rows, k, j); }
    assert Follows(rows, j, i);
  }

  // ----- the listing

  /** The two dictionaries: roots by line number, successors by the row they supersede. */
  ghost predicate Indexed(rows: seq<Line>, n: nat, roots: map<int, nat>, successors: map<Id, nat>) {
    && n <= |rows|
    && (forall x :: x in roots ==> roots[x] < n && rows[roots[x]].supersedes.None? && rows[roots[x]].number == x)
    && (forall x :: x in successors ==> successors[x] < n && rows[successors[x]].supersedes == Some(x))
    && (forall i :: 0 <= i < n ==> Entered(rows, i, roots, successors))
  }

  predicate Entered(rows: seq<Line>, i: nat, roots: map<int, nat>, successors: map<Id, nat>)
    requires i < |rows|
  {
    if rows[i].supersedes.None? then rows[i].number in roots && roots[rows[i].number] == i
    else rows[i].supersedes.value in successors && successors[rows[i].supersedes.value] == i
  }

  /** No two of the first n rows claim the same entry. */
  ghost predicate Unclashing(rows: seq<Line>, n: nat)
    requires n <= |rows|
  {
    forall i, j :: 0 <= i < j < n ==> !Clash(rows, i, j)
  }

  predicate Clash(rows: seq<Line>, i: nat, j: nat)
    requires i < |rows| && j < |rows|
  {
    rows[i].supersedes == rows[j].supersedes && (rows[i].supersedes.None? ==> rows[i].number == rows[j].number)
  }

  /** The entry of row n is taken exactly when an earlier row claims it. */
  predicate Taken(row: Line, roots: map<int, nat>, successors: map<Id, nat>) {
    if row.supersedes.None? then row.number in roots else row.supersedes.value in successors
  }

  lemma {:induction false} TakenIsClash(rows: seq<Line>, n: nat, roots: map<int, nat>, successors: map<Id, nat>)
    requires n < |rows| && Indexed(rows, n, roots, successors)
    ensures Taken(rows[n], roots, successors) <==> exists i :: 0 <= i < n && Clash(rows, i, n)
  {
    if Taken(rows[n], roots, successors) {
      assert Clash(rows, if rows[n].supersedes.None? then roots[rows[n].number] else successors[rows[n].supersedes.value], n);
    }
    if i :| 0 <= i < n && Clash(rows, i, n) { assert Entered(rows, i, roots, successors); }
  }

  lemma {:induction false} UnclashingNext(rows: seq<Line>, n: nat)
    requires n < |rows|
    ensures Unclashing(rows, n + 1) <==> Unclashing(rows, n) && !exists i :: 0 <= i < n && Clash(rows, i, n)
  {
  }

  lemma {:induction false} EnterRow(rows: seq<Line>, n: nat, roots: map<int, nat>, successors: map<Id, nat>)
    requires n < |rows| && Indexed(rows, n, roots, successors) && !Taken(rows[n], roots, successors)
    ensures rows[n].supersedes.None? ==> Indexed(rows, n + 1, roots[rows[n].number := n], successors)
    ensures rows[n].supersedes.Some? ==> Indexed(rows, n + 1, roots, successors[rows[n].supersedes.value := n])
  {
    forall i | 0 <= i < n ensures Entered(rows, i, roots, successors) { }
    if rows[n].supersedes.None? {
      var roots' := roots[rows[n].number := n];
      forall i | 0 <= i <= n ensures Entered(rows, i, roots', successors) {
        if i < n { assert Entered(rows, i, roots, successors); }
      }
    } else {
      var successors' := successors[rows[n].supersedes.value := n];
      forall i | 0 <= i <= n ensures Entered(rows, i, roots, successors') {
        if i < n { assert Entered(rows, i, roots, successors); }
      }
    }
  }

  method Index(rows: seq<Line>) returns (ok: bool, roots: map<int, nat>, successors: map<Id, nat>)
    ensures ok <==> Unclashing(rows, |rows|)
    ensures ok ==> Indexed(rows, |rows|, roots, successors)
  {
    roots, successors, ok := map[], map[], true;
    for n := 0 to |rows|
      invariant ok <==> Unclashing(rows, n)
      invariant ok ==> Indexed(rows, n, roots, successors)
    {
      UnclashingNext(rows, n);
      if ok {
        TakenIsClash(rows, n, roots, successors);
        ok := !Taken(rows[n], roots, successors);
        if ok {
          EnterRow(rows, n, roots, successors);
          if rows[n].supersedes.None? {
            roots := roots[rows[n].number := n];
          } else {
            successors := successors[rows[n].supersedes.value := n];
          }
        }
      }
    }
  }

  // ----- walking a chain

  /** The rows listed so far have different identities, which are those seen. */
  ghost predicate Visited(rows: seq<Line>, order: seq<nat>, seen: set<Id>) {
    && (forall k :: 0 <= k < |order| ==> order[k] < |rows|)
    && (forall a, b :: 0 <= a < b < |order| ==> rows[order[a]].id != rows[order[b]].id)
    && (forall x :: x in seen <==> exists k :: 0 <= k < |order| && rows[order[k]].id == x)
  }

  function Listed(rows: seq<Line>, order: seq<nat>): seq<Line>
    requires forall k :: 0 <= k < |order| ==> order[k] < |rows|
  {
    seq(|order|, k requires 0 <= k < |order| => rows[order[k]])
  }

  /** The next row to list continues the last one, or starts a number above it. */
  predicate Continues(rows: seq<Line>, order: seq<nat>, number: int, at: nat)
    requires at < |rows| && forall k :: 0 <= k < |order| ==> order[k] < |rows|
  {
    if rows[at].supersedes.None? then rows[at].number == number && (order != [] ==> rows[order[|order| - 1]].number < number)
    else order != [] && rows[at].supersedes == Some(rows[order[|order| - 1]].id) && rows[order[|order| - 1]].number == number
  }

  /** Whatever supersedes a listed row is listed, or is next. */
  ghost predicate Closed(rows: seq<Line>, successors: map<Id, nat>, order: seq<nat>, at: Option<nat>) {
    forall k :: 0 <= k < |order| && order[k] < |rows| && rows[order[k]].id in successors ==>
                  successors[rows[order[k]].id] in order || at == Some(successors[rows[order[k]].id])
  }

  /** In sound rows, every listed row comes before place (number, d). */
  ghost predicate Passed(rows: seq<Line>, order: seq<nat>, number: int, d: nat) {
    forall k :: 0 <= k < |order| ==> Before(rows, order[k], number, d)
  }

  ghost predicate Before(rows: seq<Line>, i: nat, number: int, d: nat) {
    i < |rows| && (rows[i].number < number || (rows[i].number == number && exists e: nat :: e < d && Descends(rows, i, e)))
  }

  ghost predicate Walking(rows: seq<Line>, successors: map<Id, nat>, number: int, order: seq<nat>, seen: set<Id>,
                          at: Option<nat>, d: nat) {
    && Visited(rows, order, seen) && Lineage(Listed(rows, order)) && Closed(rows, successors, order, at)
    && (forall k :: 0 <= k < |order| ==> rows[order[k]].number <= number)
    && (at.Some? ==> at.value < |rows| && Continues(rows, order, number, at.value))
    && (Chains(rows) ==> Passed(rows, order, number, d))
    && (Chains(rows) && at.Some? ==> Descends(rows, at.value, d) && rows[at.value].number == number)
  }

  /** In sound rows the walk meets neither a row it has seen nor another number. */
  lemma {:induction false} NotSeen(rows: seq<Line>, successors: map<Id, nat>, number: int, order: seq<nat>, seen: set<Id>,
                                   at: nat, d: nat)
    requires Walking(rows, successors, number, order, seen, Some(at), d) && Chains(rows)
    ensures rows[at].id !in seen && rows[at].number == number
  {
    forall k | 0 <= k < |order| ensures rows[order[k]].id != rows[at].id {
      assert Before(rows, order[k], number, d);
      if order[k] == at {
        if rows[at].number == number {
          var e: nat :| e < d && Descends(rows, at, e);
          DepthUnique(rows, at, e, d);
        }
      } else {
        ApartBoth(rows, order[k], at);
      }
    }
  }

  lemma {:induction false} LineageNext(rows: seq<Line>, order: seq<nat>, number: int, at: nat)
    requires at < |rows| && (forall k :: 0 <= k < |order| ==> order[k] < |rows|)
    requires Lineage(Listed(rows, order)) && Continues(rows, order, number, at) && rows[at].number == number
    ensures Lineage(Listed(rows, order + [at]))
  {
    var s, t := Listed(rows, order), Listed(rows, order + [at]);
    forall k | 0 <= k < |t| ensures InPlace(t, k) {
      if k < |s| { assert InPlace(s, k); }
    }
  }

  lemma {:induction false} PassedNext(rows: seq<Line>, order: seq<nat>, number: int, at: nat, d: nat)
    requires Passed(rows, order, number, d) && Descends(rows, at, d) && rows[at].number == number
    ensures Passed(rows, order + [at], number, d + 1)
  {
    var order' := order + [at];
    forall k | 0 <= k < |order'| ensures Before(rows, order'[k], number, d + 1) {
      if k < |order| {
        assert Before(rows, order[k], number, d);
      }
    }
  }

  /** One turn of the inner loop. */
  lemma {:induction false} WalkOn(rows: seq<Line>, roots: map<int, nat>, successors: map<Id, nat>, number: int,
                                  order: seq<nat>, seen: set<Id>, at: nat, d: nat)
    requires Indexed(rows, |rows|, roots, successors)
    requires Walking(rows, successors, number, order, seen, Some(at), d) && rows[at].id !in seen && rows[at].number == number
    ensures var next := if rows[at].id in successors then Some(successors[rows[at].id]) else None;
            Walking(rows, successors, number, order + [at], seen + {rows[at].id}, next, d + 1)
  {
    var next := if rows[at].id in successors then Some(successors[rows[at].id]) else None;
    var order', seen' := order + [at], seen + {rows[at].id};
    LineageNext(rows, order, number, at);
    VisitedNext(rows, order, seen, at);
    if Chains(rows) {
      PassedNext(rows, order, number, at, d);
      if next.Some? { NextDepth(rows, at, next.value, d); }
    }
    forall k | 0 <= k < |order'| && rows[order'[k]].id in successors
      ensures successors[rows[order'[k]].id] in order' || next == Some(successors[rows[order'[k]].id])
    {
      if k < |order| { assert order'[k] == order[k]; }
    }
  }

  lemma {:induction false} VisitedNext(rows: seq<Line>, order: seq<nat>, seen: set<Id>, at: nat)
    requires Visited(rows, order, seen) && at < |rows| && rows[at].id !in seen
    ensures Visited(rows, order + [at], seen + {rows[at].id})
  {
    var order', seen' := order + [at], seen + {rows[at].id};
    forall x ensures x in seen' <==> exists k :: 0 <= k < |order'| && rows[order'[k]].id == x {
      if x in seen {
        var k :| 0 <= k < |order| && rows[order[k]].id == x;
        assert order'[k] == order[k];
      }
      if x == rows[at].id { assert order'[|order|] == at; }
    }
  }

  function Next(rows: seq<Line>, successors: map<Id, nat>, at: nat): Option<nat>
    requires at < |rows|
  {
    if rows[at].id in successors then Some(successors[rows[at].id]) else None
  }

  /** What the inner loop checks, and what a turn that passes leaves. */
  lemma {:induction false} Turn(rows: seq<Line>, roots: map<int, nat>, successors: map<Id, nat>, number: int,
                                order: seq<nat>, seen: set<Id>, at: nat, d: nat)
    requires Indexed(rows, |rows|, roots, successors) && Walking(rows, successors, number, order, seen, Some(at), d)
    ensures at < |rows|
    ensures Chains(rows) ==> rows[at].id !in seen && rows[at].number == number
    ensures rows[at].id !in seen && rows[at].number == number ==>
              Walking(rows, successors, number, order + [at], seen + {rows[at].id}, Next(rows, successors, at), d + 1)
  {
    if Chains(rows) { NotSeen(rows, successors, number, order, seen, at, d); }
    if rows[at].id !in seen && rows[at].number == number { WalkOn(rows, roots, successors, number, order, seen, at, d); }
  }

  function Ids(rows: seq<Line>): set<Id> {
    set k | 0 <= k < |rows| :: rows[k].id
  }

  method Walk(rows: seq<Line>, ghost roots: map<int, nat>, successors: map<Id, nat>, number: int, start: nat,
              order0: seq<nat>, seen0: set<Id>)
    returns (ok: bool, order: seq<nat>, seen: set<Id>, ghost d: nat)
    requires Indexed(rows, |rows|, roots, successors)
    requires Walking(rows, successors, number, order0, seen0, Some(start), 0)
    ensures Chains(rows) ==> ok
    ensures ok ==> Walking(rows, successors, number, order, seen, None, d) && order0 <= order && start in order
  {
    var at: Option<nat> := Some(start);
    order, seen, ok, d := order0, seen0, true, 0;
    ghost var ids := Ids(rows);
    while at.Some? && ok
      invariant Chains(rows) ==> ok
      invariant ok ==> Walking(rows, successors, number, order, seen, at, d)
      invariant ok ==> order0 <= order && (start in order || at == Some(start))
      decreases ids - seen, ok
    {
      Turn(rows, roots, successors, number, order, seen, at.value, d);
      var row := rows[at.value];
      if row.id in seen || row.number != number {
        ok := false;
      } else {
        assert row.id in ids - seen;
        seen := seen + {row.id};
        order := order + [at.value];
        at := Next(rows, successors, at.value);
        d := d + 1;
      }
    }
  }

  // ----- all numbers in turn

  /** The chains of the first n numbers are listed. */
  ghost predicate Gathered(rows: seq<Line>, roots: map<int, nat>, successors: map<Id, nat>, numbers: seq<int>, n: nat,
                           order: seq<nat>, seen: set<Id>) {
    && n <= |numbers| && Visited(rows, order, seen) && Lineage(Listed(rows, order)) && Closed(rows, successors, order, None)
    && (forall k :: 0 <= k < |order| ==> order[k] < |rows| && (n < |numbers| ==> rows[order[k]].number < numbers[n]))
    && (forall k :: 0 <= k < n ==> numbers[k] in roots && roots[numbers[k]] in order)
  }

  /** The line numbers that have a root, in order. */
  method SortedNumbers(rows: seq<Line>, roots: map<int, nat>, ghost successors: map<Id, nat>) returns (numbers: seq<int>)
    requires Indexed(rows, |rows|, roots, successors)
    ensures forall x :: x in numbers <==> x in roots
    ensures forall i, j :: 0 <= i < j < |numbers| ==> numbers[i] < numbers[j]
  {
    numbers := [];
    for n := 0 to |rows|
      invariant Distinct(numbers) && forall x :: x in numbers <==> x in roots && roots[x] < n
    {
      assert Entered(rows, n, roots, successors);
      if rows[n].supersedes.None? {
        DistinctConcat(numbers, [rows[n].number]);
        numbers := numbers + [rows[n].number];
      }
    }
    SortCorrect(numbers, (x: int) => x);
    SortMembers(numbers, (x: int) => x);
    SortDistinct(numbers, (x: int) => x);
    numbers := Sort(numbers, (x: int) => x);
  }

  lemma {:induction false} StartWalk(rows: seq<Line>, roots: map<int, nat>, successors: map<Id, nat>, numbers: seq<int>, n: nat,
                                     order: seq<nat>, seen: set<Id>)
    requires Indexed(rows, |rows|, roots, successors) && Gathered(rows, roots, successors, numbers, n, order, seen)
    requires n < |numbers| && numbers[n] in roots
    ensures Walking(rows, successors, numbers[n], order, seen, Some(roots[numbers[n]]), 0)
  {
    forall k | 0 <= k < |order| ensures Before(rows, order[k], numbers[n], 0) { }
  }

  lemma {:induction false} EndWalk(rows: seq<Line>, roots: map<int, nat>, successors: map<Id, nat>, numbers: seq<int>, n: nat,
                                   order: seq<nat>, seen: set<Id>, order': seq<nat>, seen': set<Id>, d: nat)
    requires Gathered(rows, roots, successors, numbers, n, order, seen) && n < |numbers| && numbers[n] in roots
    requires Walking(rows, successors, numbers[n], order', seen', None, d) && order <= order' && roots[numbers[n]] in order'
    requires forall i, j :: 0 <= i < j < |numbers| ==> numbers[i] < numbers[j]
    ensures Gathered(rows, roots, successors, numbers, n + 1, order', seen')
  {
    forall k | 0 <= k < n ensures roots[numbers[k]] in order' {
      assert roots[numbers[k]] in order;
    }
  }

  /** In sound rows nothing is missing at the end. */
  lemma {:induction false} NothingMissing(rows: seq<Line>, roots: map<int, nat>, successors: map<Id, nat>, numbers: seq<int>,
                                          order: seq<nat>, seen: set<Id>, i: nat, n: nat)
    requires Indexed(rows, |rows|, roots, successors) && Gathered(rows, roots, successors, numbers, |numbers|, order, seen)
    requires (forall x :: x in numbers <==> x in roots) && Descends(rows, i, n)
    ensures i in order
    decreases n
  {
    assert Entered(rows, i, roots, successors);
    if n == 0 {
      assert rows[i].number in numbers;
    } else {
      var j: nat :| Follows(rows, j, i) && Descends(rows, j, n - 1);
      NothingMissing(rows, roots, successors, numbers, order, seen, j, n - 1);
      var k :| 0 <= k < |order| && order[k] == j;
      assert rows[order[k]].id in successors;
    }
  }

  /** A complete lineage is made of sound rows. */
  lemma {:induction false} LineageIsChains(rows: seq<Line>, order: seq<nat>, seen: set<Id>)
    requires Visited(rows, order, seen) && Lineage(Listed(rows, order)) && Unclashing(rows, |rows|)
    requires forall i: nat :: i < |rows| ==> i in order
    ensures Chains(rows)
  {
    forall i, j | 0 <= i < j < |rows| ensures Apart(rows, i, j) {
      assert i in order && j in order;
      var a :| 0 <= a < |order| && order[a] == i;
      var b :| 0 <= b < |order| && order[b] == j;
      assert !Clash(rows, i, j);
      assert if a < b then rows[order[a]].id != rows[order[b]].id else rows[order[b]].id != rows[order[a]].id;
    }
    forall i | 0 <= i < |rows| ensures Rooted(rows, i) {
      assert i in order;
      var k :| 0 <= k < |order| && order[k] == i;
      RootedAt(rows, order, k);
    }
  }

  lemma {:induction false} RootedAt(rows: seq<Line>, order: seq<nat>, k: nat)
    requires (forall i :: 0 <= i < |order| ==> order[i] < |rows|) && Lineage(Listed(rows, order)) && k < |order|
    ensures Rooted(rows, order[k])
  {
    var s := Listed(rows, order);
    assert InPlace(s, k);
    if s[k].supersedes.None? {
      assert Descends(rows, order[k], 0);
    } else {
      RootedAt(rows, order, k - 1);
      var n: nat :| Descends(rows, order[k - 1], n);
      assert Follows(rows, order[k - 1], order[k]);
      assert Descends(rows, order[k], n + 1);
    }
  }

  lemma {:induction false} SameRows(rows: seq<Line>, order: seq<nat>, seen: set<Id>)
    requires Visited(rows, order, seen) && Chains(rows) && forall i: nat :: i < |rows| ==> i in order
    ensures multiset(Listed(rows, order)) == multiset(rows)
  {
    var s := Listed(rows, order);
    assert Distinct(rows) by {
      forall i, j | 0 <= i < j < |rows| ensures rows[i] != rows[j] { assert Apart(rows, i, j); }
    }
    assert Distinct(s) by {
      forall a, b | 0 <= a < b < |s| ensures s[a] != s[b] { assert rows[order[a]].id != rows[order[b]].id; }
    }
    forall x ensures x in s <==> x in rows {
      if x in rows {
        var i :| 0 <= i < |rows| && rows[i] == x;
        assert i in order;
        var k :| 0 <= k < |order| && order[k] == i;
        assert s[k] == x;
      }
    }
    SameCounts(s, rows);
  }

  lemma {:induction false} SameCounts(s: seq<Line>, t: seq<Line>)
    requires Distinct(s) && Distinct(t) && forall x :: x in s <==> x in t
    ensures multiset(s) == multiset(t)
  {
    DistinctCounts(s);
    DistinctCounts(t);
    forall x ensures multiset(s)[x] == multiset(t)[x] {
      assert x in s <==> x in multiset(s);
      assert x in t <==> x in multiset(t);
    }
  }

  lemma {:induction false} VisitedDistinct(rows: seq<Line>, order: seq<nat>, seen: set<Id>)
    requires Visited(rows, order, seen)
    ensures Distinct(order) && forall x :: x in order ==> x < |rows|
  {
    forall a, b | 0 <= a < b < |order| ensures order[a] != order[b] { assert rows[order[a]].id != rows[order[b]].id; }
  }

  /** Whether the listing is complete decides whether the rows are sound. */
  lemma {:induction false} Decide(rows: seq<Line>, roots: map<int, nat>, successors: map<Id, nat>, numbers: seq<int>,
                                  order: seq<nat>, seen: set<Id>)
    requires Indexed(rows, |rows|, roots, successors) && Gathered(rows, roots, successors, numbers, |numbers|, order, seen)
    requires (forall x :: x in numbers <==> x in roots) && Unclashing(rows, |rows|)
    ensures |order| == |rows| <==> Chains(rows)
    ensures |order| == |rows| ==> multiset(Listed(rows, order)) == multiset(rows)
  {
    VisitedDistinct(rows, order, seen);
    Positions(order, |rows|);
    if |order| == |rows| {
      LineageIsChains(rows, order, seen);
      SameRows(rows, order, seen);
    }
    if Chains(rows) {
      forall i: nat | i < |rows| ensures i in order {
        assert Rooted(rows, i);
        var n: nat :| Descends(rows, i, n);
        NothingMissing(rows, roots, successors, numbers, order, seen, i, n);
      }
    }
  }

  lemma {:induction false} ChainsUnclash(rows: seq<Line>)
    requires Chains(rows)
    ensures Unclashing(rows, |rows|)
  {
    forall i, j | 0 <= i < j < |rows| ensures !Clash(rows, i, j) { assert Apart(rows, i, j); }
  }

  /** `list_lines`: on any rows it ends; it succeeds exactly on sound ones, and then lists
      each row once, by line number and from root to leaf. */
  method ListLines(rows: seq<Line>) returns (result: Option<seq<Line>>)
    ensures result.Some? <==> Chains(rows)
    ensures result.Some? ==> multiset(result.value) == multiset(rows) && Lineage(result.value)
  {
    var ok, roots, successors := Index(rows);
    if Chains(rows) { ChainsUnclash(rows); }
    result := None;
    if ok {
      var numbers := SortedNumbers(rows, roots, successors);
      var order: seq<nat>, seen: set<Id> := [], {};
      var n := 0;
      while n < |numbers| && ok
        invariant n <= |numbers| && (Chains(rows) ==> ok)
        invariant ok ==> Gathered(rows, roots, successors, numbers, n, order, seen)
        decreases |numbers| - n
      {
        assert numbers[n] in numbers;
        StartWalk(rows, roots, successors, numbers, n, order, seen);
        var more, order', seen', d := Walk(rows, roots, successors, numbers[n], roots[numbers[n]], order, seen);
        if more { EndWalk(rows, roots, successors, numbers, n, order, seen, order', seen', d); }
        ok, order, seen := more, order', seen';
        n := n + 1;
      }
      if ok {
        Decide(rows, roots, successors, numbers, order, seen);
        if |order| == |rows| { result := Some(Listed(rows, order)); }
      }
    }
  }

  // ----- one active leaf per line number

  /** No row supersedes row i. */
  predicate Active(rows: seq<Line>, i: nat)
    requires i < |rows|
  {
    forall j :: 0 <= j < |rows| ==> rows[j].supersedes != Some(rows[i].id)
  }

  /** The rows from the root down to row i are n + 1 different ones. */
  lemma {:induction false} Ancestors(rows: seq<Line>, i: nat, n: nat) returns (above: seq<nat>)
    requires Chains(rows) && Descends(rows, i, n)
    ensures |above| == n + 1 && Distinct(above)
    ensures forall k :: 0 <= k <= n ==> Descends(rows, above[k], k)
    decreases n
  {
    if n == 0 {
      above := [i];
    } else {
      var j: nat :| Follows(rows, j, i) && Descends(rows, j, n - 1);
      var front := Ancestors(rows, j, n - 1);
      above := front + [i];
      forall a | 0 <= a < n ensures above[a] != i {
        if above[a] == i { DepthUnique(rows, i, a, n); }
      }
    }
  }

  lemma {:induction false} DepthBounded(rows: seq<Line>, i: nat, n: nat)
    requires Chains(rows) && Descends(rows, i, n)
    ensures n < |rows|
  {
    var above := Ancestors(rows, i, n);
    forall x | x in above ensures x < |rows| {
      var k :| 0 <= k <= n && above[k] == x;
      assert Descends(rows, above[k], k);
    }
    Positions(above, |rows|);
  }

  /** Following successors ends in an active row. */
  lemma {:induction false} LeafBelow(rows: seq<Line>, i: nat, n: nat) returns (leaf: nat)
    requires Chains(rows) && Descends(rows, i, n)
    ensures leaf < |rows| && Active(rows, leaf) && rows[leaf].number == rows[i].number
    decreases |rows| - n
  {
    DepthBounded(rows, i, n);
    if Active(rows, i) {
      leaf := i;
    } else {
      var j :| 0 <= j < |rows| && rows[j].supersedes == Some(rows[i].id);
      NextDepth(rows, i, j, n);
      leaf := LeafBelow(rows, j, n + 1);
    }
  }

  /** The row of depth k above row i has a successor when k is smaller. */
  lemma {:induction false} NotActiveAbove(rows: seq<Line>, i: nat, n: nat, a: nat, k: nat)
    requires Chains(rows) && Descends(rows, i, n) && Descends(rows, a, k) && k < n && rows[a].number == rows[i].number
    ensures !Active(rows, a)
    decreases n
  {
    var j: nat :| Follows(rows, j, i) && Descends(rows, j, n - 1);
    if k == n - 1 {
      PlaceUnique(rows, a, j, k);
    } else {
      NotActiveAbove(rows, j, n - 1, a, k);
    }
  }

  /** In sound rows every line number that occurs has exactly one active row. */
  lemma {:induction false} OneActive(rows: seq<Line>, i: nat) returns (leaf: nat)
    requires Chains(rows) && i < |rows|
    ensures leaf < |rows| && rows[leaf].number == rows[i].number && Active(rows, leaf)
    ensures forall j :: 0 <= j < |rows| && rows[j].number == rows[i].number && Active(rows, j) ==> j == leaf
  {
    assert Rooted(rows, i);
    var n: nat :| Descends(rows, i, n);
    leaf := LeafBelow(rows, i, n);
    forall j | 0 <= j < |rows| && rows[j].number == rows[i].number && Active(rows, j) ensures j == leaf {
      SameLeaf(rows, j, leaf);
    }
  }

  lemma {:induction false} SameLeaf(rows: seq<Line>, a: nat, b: nat)
    requires Chains(rows) && a < |rows| && b < |rows| && rows[a].number == rows[b].number
    requires Active(rows, a) && Active(rows, b)
    ensures a == b
  {
    assert Rooted(rows, a) && Rooted(rows, b);
    var n: nat :| Descends(rows, a, n);
    var m: nat :| Descends(rows, b, m);
    if n < m { NotActiveAbove(rows, b, m, a, n); }
    if m < n { NotActiveAbove(rows, a, n, b, m); }
    if n == m { PlaceUnique(rows, a, b, n); }
  }

  // ----- admitted writes

  datatype Order = Order(issued: bool, lines: seq<Line>)

  datatype Write =
    | AddRoot(id: Id, number: int)
    | AddSuccessor(id: Id, number: int, prior: Id)
    | Delete(at: nat)
    | Issue

  predicate HasId(rows: seq<Line>, id: Id) {
    exists i :: 0 <= i < |rows| && rows[i].id == id
  }

  predicate HasRoot(rows: seq<Line>, number: int) {
    exists i :: 0 <= i < |rows| && rows[i].supersedes.None? && rows[i].number == number
  }

  predicate IsSuperseded(rows: seq<Line>, id: Id) {
    exists i :: 0 <= i < |rows| && rows[i].supersedes == Some(id)
  }

  /** The row guard with the unique indexes; identities are primary keys. */
  predicate Admitted(o: Order, w: Write) {
    match w
    case AddRoot(id, number) => !o.issued && !HasId(o.lines, id) && !HasRoot(o.lines, number)
    case AddSuccessor(id, number, prior) =>
      && o.issued && !HasId(o.lines, id) && id != prior && !IsSuperseded(o.lines, prior)
      && exists j :: 0 <= j < |o.lines| && o.lines[j].id == prior && o.lines[j].number == number
    case Delete(at) => !o.issued && at < |o.lines|
    case Issue => !o.issued
  }

  function Written(o: Order, w: Write): Order {
    if !Admitted(o, w) then o
    else
      match w
      case AddRoot(id, number) => o.(lines := o.lines + [Line(id, number, None)])
      case AddSuccessor(id, number, prior) => o.(lines := o.lines + [Line(id, number, Some(prior))])
      case Delete(at) => o.(lines := o.lines[..at] + o.lines[at + 1..])
      case Issue => o.(issued := true)
  }

  function WriteAll(o: Order, ws: seq<Write>): Order {
    if ws == [] then o else Written(WriteAll(o, ws[..|ws| - 1]), ws[|ws| - 1])
  }

  /** A draft has roots only; every order has sound lines. */
  ghost predicate Sound(o: Order) {
    Chains(o.lines) && (!o.issued ==> forall i :: 0 <= i < |o.lines| ==> o.lines[i].supersedes.None?)
  }

  lemma {:induction false} DescendsStays(rows: seq<Line>, x: Line, i: nat, n: nat)
    requires Descends(rows, i, n)
    ensures Descends(rows + [x], i, n)
    decreases n
  {
    if n > 0 {
      var j: nat :| Follows(rows, j, i) && Descends(rows, j, n - 1);
      DescendsStays(rows, x, j, n - 1);
      assert Follows(rows + [x], j, i);
    }
  }

  /** A new row that is rooted and apart from the others keeps the rows sound. */
  lemma {:induction false} AppendKeeps(rows: seq<Line>, x: Line)
    requires Chains(rows) && Rooted(rows + [x], |rows|)
    requires forall i :: 0 <= i < |rows| ==> Apart(rows + [x], i, |rows|)
    ensures Chains(rows + [x])
  {
    var all := rows + [x];
    forall i, j | 0 <= i < j < |all| ensures Apart(all, i, j) {
      if j < |rows| { assert Apart(rows, i, j); }
    }
    forall i | 0 <= i < |all| ensures Rooted(all, i) {
      if i < |rows| {
        assert Rooted(rows, i);
        var n: nat :| Descends(rows, i, n);
        DescendsStays(rows, x, i, n);
      }
    }
  }

  lemma {:induction false} SuccessorKeeps(rows: seq<Line>, x: Line)
    requires Chains(rows) && x.supersedes.Some? && !HasId(rows, x.id) && !IsSuperseded(rows, x.supersedes.value)
    requires exists j :: 0 <= j < |rows| && rows[j].id == x.supersedes.value && rows[j].number == x.number
    ensures Chains(rows + [x])
  {
    var j :| 0 <= j < |rows| && rows[j].id == x.supersedes.value && rows[j].number == x.number;
    assert Rooted(rows, j);
    var n: nat :| Descends(rows, j, n);
    DescendsStays(rows, x, j, n);
    assert Follows(rows + [x], j, |rows|);
    assert Descends(rows + [x], |rows|, n + 1);
    AppendKeeps(rows, x);
  }

  lemma {:induction false} RootsAreChains(rows: seq<Line>)
    requires forall i :: 0 <= i < |rows| ==> rows[i].supersedes.None?
    requires forall i, j :: 0 <= i < j < |rows| ==> Apart(rows, i, j)
    ensures Chains(rows)
  {
    forall i | 0 <= i < |rows| ensures Rooted(rows, i) { assert Descends(rows, i, 0); }
  }

  lemma {:induction false} DeleteKeeps(rows: seq<Line>, at: nat)
    requires Chains(rows) && at < |rows| && forall i :: 0 <= i < |rows| ==> rows[i].supersedes.None?
    ensures Chains(rows[..at] + rows[at + 1..])
  {
    var rest := rows[..at] + rows[at + 1..];
    forall i, j | 0 <= i < j < |rest| ensures Apart(rest, i, j) {
      var a, b := if i < at then i else i + 1, if j < at then j else j + 1;
      assert rest[i] == rows[a] && rest[j] == rows[b] && Apart(rows, a, b);
    }
    RootsAreChains(rest);
  }

  lemma {:induction false} WriteKeeps(o: Order, w: Write)
    requires Sound(o)
    ensures Sound(Written(o, w))
  {
    if Admitted(o, w) {
      match w
      case AddRoot(id, number) =>
        assert Descends(o.lines + [Line(id, number, None)], |o.lines|, 0);
        AppendKeeps(o.lines, Line(id, number, None));
      case AddSuccessor(id, number, prior) => SuccessorKeeps(o.lines, Line(id, number, Some(prior)));
      case Delete(at) => DeleteKeeps(o.lines, at);
      case Issue =>
    }
  }

  /** Every run of admitted writes from an empty draft leaves sound lines, so the listing
      accepts them, with exactly one active row per line number. */
  lemma {:induction false} WritesKeepChains(ws: seq<Write>)
    ensures Sound(WriteAll(Order(false, []), ws))
  {
    if ws != [] {
      WritesKeepChains(ws[..|ws| - 1]);
      WriteKeeps(WriteAll(Order(false, []), ws[..|ws| - 1]), ws[|ws| - 1]);
    }
  }

  lemma {:induction false} OneActiveAlways(ws: seq<Write>, i: nat) returns (leaf: nat)
    requires i < |WriteAll(Order(false, []), ws).lines|
    ensures var rows := WriteAll(Order(false, []), ws).lines;
            && leaf < |rows| && rows[leaf].number == rows[i].number && Active(rows, leaf)
            && (forall j :: 0 <= j < |rows| && rows[j].number == rows[i].number && Active(rows, j) ==> j == leaf)
  {
    WritesKeepChains(ws);
    leaf := OneActive(WriteAll(Order(false, []), ws).lines, i);
  }

  /** The procurement service on one order. */
  class OrderDesk {
    var order: Order

    constructor ()
      ensures order == Order(false, []) && Valid()
    {
      order := Order(false, []);
      RootsAreChains([]);
    }

    ghost predicate Valid()
      reads this
    {
      Sound(order)
    }

    /** The position of a line, or the number of lines. */
    method Find(id: Id) returns (at: nat)
      requires Valid()
      ensures at <= |order.lines| && (at < |order.lines| <==> HasId(order.lines, id))
      ensures at < |order.lines| ==> order.lines[at].id == id
    {
      at := 0;
      while at < |order.lines| && order.lines[at].id != id
        invariant at <= |order.lines| && forall k :: 0 <= k < at ==> order.lines[k].id != id
      {
        at := at + 1;
      }
    }

    /** `create_line`: a root of a draft, or a successor of an active line of an issued order,
        which takes over the number of what it supersedes. */
    method CreateLine(id: Id, number: int, predecessor: Option<Id>) returns (ok: bool)
      requires Valid()
      modifies this
      ensures Valid()
      ensures !ok ==> order == old(order)
      ensures predecessor.None? ==>
                (ok <==> !old(order).issued && !HasId(old(order).lines, id) && !HasRoot(old(order).lines, number))
      ensures predecessor.None? && ok ==> order == old(order).(lines := old(order).lines + [Line(id, number, None)])
      ensures predecessor.Some? ==>
                (ok <==> && old(order).issued && !HasId(old(order).lines, id) && HasId(old(order).lines, predecessor.value)
                         && !IsSuperseded(old(order).lines, predecessor.value))
      ensures predecessor.Some? && ok ==>
                exists j :: 0 <= j < |old(order).lines| && old(order).lines[j].id == predecessor.value &&
                  order == old(order).(lines := old(order).lines + [Line(id, old(order).lines[j].number, predecessor)])
    {
      var w := AddRoot(id, number);
      var prior := |order.lines|;
      if predecessor.Some? {
        prior := Find(predecessor.value);
        if prior < |order.lines| { w := AddSuccessor(id, order.lines[prior].number, predecessor.value); }
      }
      WriteKeeps(order, w);
      ok := Admitted(order, w) && (predecessor.Some? ==> w.AddSuccessor?);
      if ok { order := Written(order, w); }
    }

    /** `issue_order`. */
    method IssueOrder() returns (ok: bool)
      requires Valid()
      modifies this
      ensures Valid() && ok == !old(order).issued && order == old(order).(issued := true)
    {
      ok := !order.issued;
      order := order.(issued := true);
    }
  }
}
