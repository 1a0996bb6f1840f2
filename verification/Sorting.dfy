/** A stable sort by an integer key, for the places where the source calls a library sort. */
module Sorting {

  ghost predicate Sorted<T>(s: seq<T>, key: T -> int) {
    forall i, j :: 0 <= i < j < |s| ==> key(s[i]) <= key(s[j])
  }

  /** Every element occurs once. */
  ghost predicate Distinct<T>(s: seq<T>) {
    forall i, j :: 0 <= i < j < |s| ==> s[i] != s[j]
  }

  /** Places x after the elements whose key does not exceed its own. */
  function Insert<T>(x: T, s: seq<T>, key: T -> int): seq<T> {
    if s == [] || key(x) < key(s[0]) then [x] + s else [s[0]] + Insert(x, s[1..], key)
  }

  function Sort<T>(s: seq<T>, key: T -> int): seq<T> {
    if s == [] then [] else Insert(s[|s| - 1], Sort(s[..|s| - 1], key), key)
  }

  lemma {:induction false} InsertContents<T>(x: T, s: seq<T>, key: T -> int)
    ensures multiset(Insert(x, s, key)) == multiset(s) + multiset{x}
  {
    if s == [] || key(x) < key(s[0]) {
    } else {
      InsertContents(x, s[1..], key);
      assert s == [s[0]] + s[1..];
    }
  }

  lemma {:induction false} InsertSorted<T>(x: T, s: seq<T>, key: T -> int)
    requires Sorted(s, key)
    ensures Sorted(Insert(x, s, key), key)
  {
    if s == [] || key(x) < key(s[0]) {
    } else {
      InsertSorted(x, s[1..], key);
      InsertContents(x, s[1..], key);
      var t := Insert(x, s[1..], key);
      forall j | 0 <= j < |t| ensures key(s[0]) <= key(t[j]) {
        assert t[j] in multiset(t);
        if t[j] != x { assert t[j] in multiset(s[1..]); }
      }
    }
  }

  /** Sorting permutes its input into key order. */
  lemma {:induction false} SortCorrect<T>(s: seq<T>, key: T -> int)
    ensures multiset(Sort(s, key)) == multiset(s) && |Sort(s, key)| == |s|
    ensures Sorted(Sort(s, key), key)
  {
    if s != [] {
      var front := s[..|s| - 1];
      SortCorrect(front, key);
      InsertContents(s[|s| - 1], Sort(front, key), key);
      InsertSorted(s[|s| - 1], Sort(front, key), key);
      assert s == front + [s[|s| - 1]];
      assert |multiset(Sort(s, key))| == |multiset(s)|;
    }
  }

  lemma {:induction false} SortMembers<T>(s: seq<T>, key: T -> int)
    ensures forall x :: x in Sort(s, key) <==> x in s
  {
    SortCorrect(s, key);
    forall x ensures x in Sort(s, key) <==> x in s {
      assert x in Sort(s, key) <==> x in multiset(Sort(s, key));
      assert x in s <==> x in multiset(s);
    }
  }

  lemma {:induction false} DistinctCounts<T>(s: seq<T>)
    ensures Distinct(s) <==> forall x :: x in multiset(s) ==> multiset(s)[x] == 1
  {
    if s != [] {
      var front, last := s[..|s| - 1], s[|s| - 1];
      DistinctCounts(front);
      assert s == front + [last];
      if Distinct(s) {
        assert Distinct(front);
        assert last !in front;
        assert last !in multiset(front);
      }
      if forall x :: x in multiset(s) ==> multiset(s)[x] == 1 {
        forall x | x in multiset(front) ensures multiset(front)[x] == 1 {
          assert multiset(s)[x] >= multiset(front)[x];
        }
        assert multiset(s)[last] == multiset(front)[last] + 1;
        assert last !in multiset(front);
        assert last !in front;
      }
    }
  }

  lemma {:induction false} DistinctConcat<T>(a: seq<T>, b: seq<T>)
    requires Distinct(a) && Distinct(b) && forall x :: x in a ==> x !in b
    ensures Distinct(a + b)
  {
    forall i, j | 0 <= i < j < |a + b| ensures (a + b)[i] != (a + b)[j] {
      if i < |a| && |a| <= j { assert a[i] in a; }
    }
  }

  lemma {:induction false} SortDistinct<T>(s: seq<T>, key: T -> int)
    requires Distinct(s)
    ensures Distinct(Sort(s, key))
  {
    SortCorrect(s, key);
    DistinctCounts(s);
    DistinctCounts(Sort(s, key));
  }

  // ----- positions

  lemma {:induction false} DistinctSize<T>(s: seq<T>)
    requires Distinct(s)
    ensures |set x | x in s| == |s|
  {
    if s != [] {
      var front, last := s[..|s| - 1], s[|s| - 1];
      DistinctSize(front);
      assert s == front + [last];
      assert (set x | x in s) == (set x | x in front) + {last};
    }
  }

  function Below(n: nat): (s: set<nat>)
    ensures |s| == n && forall i: nat :: i in s <==> i < n
  {
    if n == 0 then {} else Below(n - 1) + {n - 1}
  }

  /** Distinct positions below n are at most n, and n exactly when none is missing. */
  lemma {:induction false} Positions(order: seq<nat>, n: nat)
    requires Distinct(order) && forall x :: x in order ==> x < n
    ensures |order| <= n
    ensures |order| == n <==> forall i: nat :: i < n ==> i in order
  {
    DistinctSize(order);
    var s := set x | x in order;
    var all := Below(n);
    assert s <= all;
    assert all == s + (all - s);
    if |order| == n {
      assert |all - s| == 0;
      assert all == s;
      forall i: nat | i < n ensures i in order { assert i in s; }
    }
    if forall i: nat :: i < n ==> i in order { assert s == all; }
  }

  // ----- lists of lists

  function Gather<S, T>(xs: seq<S>, f: S -> seq<T>): seq<T> {
    if xs == [] then [] else Gather(xs[..|xs| - 1], f) + f(xs[|xs| - 1])
  }

  lemma {:induction false} GatherMembers<S, T>(xs: seq<S>, f: S -> seq<T>, y: T)
    ensures y in Gather(xs, f) <==> exists i :: 0 <= i < |xs| && y in f(xs[i])
  {
    if xs != [] {
      var n := |xs| - 1;
      GatherMembers(xs[..n], f, y);
      forall i | 0 <= i < n ensures xs[..n][i] == xs[i] { }
    }
  }

  lemma {:induction false} GatherNext<S, T>(xs: seq<S>, f: S -> seq<T>, i: nat)
    requires i < |xs|
    ensures Gather(xs[..i + 1], f) == Gather(xs[..i], f) + f(xs[i])
  {
    assert xs[..i + 1][..i] == xs[..i];
  }

  lemma {:induction false} GatherDistinct<S, T>(xs: seq<S>, f: S -> seq<T>)
    requires forall i :: 0 <= i < |xs| ==> Distinct(f(xs[i]))
    requires forall i, j, y :: 0 <= i < j < |xs| && y in f(xs[i]) ==> y !in f(xs[j])
    ensures Distinct(Gather(xs, f))
  {
    if xs != [] {
      var n := |xs| - 1;
      forall i | 0 <= i < n ensures xs[..n][i] == xs[i] { }
      GatherDistinct(xs[..n], f);
      forall y | y in Gather(xs[..n], f) ensures y !in f(xs[n]) { GatherMembers(xs[..n], f, y); }
      DistinctConcat(Gather(xs[..n], f), f(xs[n]));
    }
  }

  lemma {:induction false} GatherSame<S, T>(xs: seq<S>, f: S -> seq<T>, g: S -> seq<T>)
    requires forall i :: 0 <= i < |xs| ==> f(xs[i]) == g(xs[i])
    ensures Gather(xs, f) == Gather(xs, g)
  {
    if xs != [] {
      var n := |xs| - 1;
      forall i | 0 <= i < n ensures xs[..n][i] == xs[i] { }
      GatherSame(xs[..n], f, g);
    }
  }
}
