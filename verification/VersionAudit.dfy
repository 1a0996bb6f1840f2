/** The two ways the system checks that an asset's versions are complete: the report of
    missing ranges, and the counting test of the correction procedures. */
module VersionAudit {
  import opened HistoryRows
  import opened HistoryViews
  import opened Sorting
  import HistoryHealth
  import EffectiveHealth

  // ----- the gap report

  datatype Range = Range(first: int, last: int)

  /** GROUP BY result_version: each produced version once. */
  function Grouped(vs: seq<int>): (s: seq<int>)
    ensures Distinct(s) && forall v :: v in s <==> v in vs
  {
    if vs == [] then []
    else
      var rest := Grouped(vs[..|vs| - 1]);
      var last := vs[|vs| - 1];
      assert vs == vs[..|vs| - 1] + [last];
      if last in rest then rest else rest + [last]
  }

  function Between(s: seq<int>, lo: int, hi: int): (t: seq<int>)
    requires Distinct(s)
    ensures Distinct(t) && forall v :: v in t <==> v in s && lo <= v <= hi
  {
    if s == [] then []
    else
      var front, last := s[..|s| - 1], s[|s| - 1];
      assert s == front + [last];
      assert last !in front;
      if lo <= last <= hi then Between(front, lo, hi) + [last] else Between(front, lo, hi)
  }

  /** The observed versions in range with the sentinels 0 and version+1. */
  function Points(vs: seq<int>, version: int): seq<int> {
    [0, version + 1] + Between(Grouped(vs), 1, version)
  }

  function Identity(): int -> int { (x: int) => x }

  predicate Inside(gaps: seq<Range>, v: int) {
    exists i :: 0 <= i < |gaps| && gaps[i].first <= v <= gaps[i].last
  }

  /** Every missing version below `hi` lies in one of the gaps. */
  ghost predicate Covers(vs: seq<int>, gaps: seq<Range>, hi: int) {
    forall v :: 1 <= v < hi && v !in vs ==> Inside(gaps, v)
  }

  /** The gaps are maximal, in order, apart from each other, and end below `hi`. */
  ghost predicate Separate(vs: seq<int>, version: int, gaps: seq<Range>, hi: int) {
    && (forall i :: 0 <= i < |gaps| ==> MaximalGap(vs, version, gaps[i]) && gaps[i].last < hi)
    && (forall i, j :: 0 <= i < j < |gaps| ==> gaps[i].last + 1 < gaps[j].first)
  }

  lemma {:induction false} CoversNext(vs: seq<int>, gaps: seq<Range>, previous: int, v: int, more: seq<Range>)
    requires Covers(vs, gaps, previous) && (previous <= 0 || previous in vs)
    requires forall x :: previous < x < v ==> x !in vs
    requires more == if v > previous + 1 then [Range(previous + 1, v - 1)] else []
    ensures Covers(vs, gaps + more, v)
  {
    var all := gaps + more;
    forall x | 1 <= x < v && x !in vs ensures Inside(all, x) {
      if x < previous {
        assert Inside(gaps, x);
        var i :| 0 <= i < |gaps| && gaps[i].first <= x <= gaps[i].last;
        assert all[i] == gaps[i];
      } else {
        assert x > previous;
        assert all[|gaps|] == more[0];
      }
    }
  }

  lemma {:induction false} SeparateNext(vs: seq<int>, version: int, gaps: seq<Range>, previous: int, v: int, more: seq<Range>)
    requires Separate(vs, version, gaps, previous) && 0 <= previous < v <= version + 1
    requires (previous > 0 ==> previous in vs) && (v <= version ==> v in vs)
    requires forall x :: previous < x < v ==> x !in vs
    requires more == if v > previous + 1 then [Range(previous + 1, v - 1)] else []
    ensures Separate(vs, version, gaps + more, v)
  {
    var all := gaps + more;
    forall i | 0 <= i < |all| ensures MaximalGap(vs, version, all[i]) && all[i].last < v {
      if i < |gaps| { assert all[i] == gaps[i]; }
    }
  }

  /** lag(v) OVER (ORDER BY v), keeping the pairs that leave room between them. */
  method MissingRanges(vs: seq<int>, version: int) returns (gaps: seq<Range>)
    requires version > 0
    ensures Separate(vs, version, gaps, version + 1) && Covers(vs, gaps, version + 1)
  {
    var points := Sort(Points(vs, version), Identity());
    PointsSorted(vs, version);
    gaps := [];
    for n := 1 to |points|
      invariant Separate(vs, version, gaps, points[n - 1])
      invariant Covers(vs, gaps, points[n - 1])
    {
      var previous, v := points[n - 1], points[n];
      StepBetween(vs, version, points, n);
      var more := if v > previous + 1 then [Range(previous + 1, v - 1)] else [];
      CoversNext(vs, gaps, previous, v, more);
      SeparateNext(vs, version, gaps, previous, v, more);
      gaps := gaps + more;
    }
  }

  /** A missing run that cannot be extended on either side inside 1..version. */
  predicate MaximalGap(vs: seq<int>, version: int, g: Range) {
    && 1 <= g.first <= g.last <= version
    && (forall v :: g.first <= v <= g.last ==> v !in vs)
    && (g.first == 1 || g.first - 1 in vs)
    && (g.last == version || g.last + 1 in vs)
  }

  ghost predicate PointList(vs: seq<int>, version: int, points: seq<int>) {
    && |points| >= 2 && points[0] == 0 && points[|points| - 1] == version + 1
    && (forall i, j :: 0 <= i < j < |points| ==> points[i] < points[j])
    && (forall v :: v in points <==> v == 0 || v == version + 1 || (v in vs && 1 <= v <= version))
  }

  lemma {:induction false} PointsSorted(vs: seq<int>, version: int)
    requires version > 0
    ensures PointList(vs, version, Sort(Points(vs, version), Identity()))
  {
    var raw := Points(vs, version);
    var middle := Between(Grouped(vs), 1, version);
    assert raw == [0, version + 1] + middle;
    forall v ensures v in raw <==> v == 0 || v == version + 1 || (v in vs && 1 <= v <= version) {
      assert v in raw <==> v in [0, version + 1] || v in middle;
    }
    forall i, j | 0 <= i < j < |raw| ensures raw[i] != raw[j] {
      if j >= 2 { assert raw[j] == middle[j - 2] && middle[j - 2] in middle; }
      if i >= 2 { assert raw[i] == middle[i - 2]; }
    }
    SortCorrect(raw, Identity());
    SortMembers(raw, Identity());
    SortDistinct(raw, Identity());
    var points := Sort(raw, Identity());
    forall i, j | 0 <= i < j < |points| ensures points[i] < points[j] {
      assert Identity()(points[i]) <= Identity()(points[j]);
    }
    EndsOf(vs, version, points);
  }

  lemma {:induction false} EndsOf(vs: seq<int>, version: int, points: seq<int>)
    requires version > 0 && |points| >= 2
    requires forall i, j :: 0 <= i < j < |points| ==> points[i] < points[j]
    requires forall v :: v in points <==> v == 0 || v == version + 1 || (v in vs && 1 <= v <= version)
    ensures points[0] == 0 && points[|points| - 1] == version + 1
  {
    assert 0 in points && version + 1 in points;
    assert points[0] in points && points[|points| - 1] in points;
  }

  lemma {:induction false} StepBetween(vs: seq<int>, version: int, points: seq<int>, n: nat)
    requires version > 0 && PointList(vs, version, points) && 1 <= n < |points|
    ensures forall x :: points[n - 1] < x < points[n] ==> x !in vs
    ensures 0 <= points[n - 1] < points[n] <= version + 1
    ensures points[n - 1] > 0 ==> points[n - 1] in vs
    ensures points[n] <= version ==> points[n] in vs
  {
    assert points[n - 1] in points && points[n] in points;
    assert points[0] <= points[n - 1] && points[n] <= points[|points| - 1];
    forall x | points[n - 1] < x < points[n] ensures x !in vs {
      if x in points {
        var i :| 0 <= i < |points| && points[i] == x;
      }
    }
  }

  // ----- the counting test

  predicate NoDuplicate(log: seq<Row>) {
    forall i, j :: 0 <= i < j < |log| ==> log[i].version != log[j].version
  }

  predicate NoneMissing(log: seq<Row>, version: int) {
    forall v :: 1 <= v <= version ==> v in Versions(log)
  }

  predicate NoneOutside(log: seq<Row>, version: int) {
    forall i :: 0 <= i < |log| ==> 1 <= log[i].version <= version
  }

  lemma {:induction false} VersionsSnoc(front: seq<Row>, last: Row)
    ensures Versions(front + [last]) == Versions(front) + {last.version}
  {
    var log := front + [last];
    assert log[|front|] == last;
    forall v ensures v in Versions(log) <==> v in Versions(front) + {last.version} {
      if v in Versions(front) {
        var i :| 0 <= i < |front| && front[i].version == v;
        assert log[i].version == v;
      }
    }
  }

  lemma {:induction false} NoDuplicateSnoc(front: seq<Row>, last: Row)
    ensures NoDuplicate(front + [last]) <==> NoDuplicate(front) && last.version !in Versions(front)
  {
    var log := front + [last];
    if NoDuplicate(log) {
      forall i, j | 0 <= i < j < |front| ensures front[i].version != front[j].version {
        assert log[i].version != log[j].version;
      }
      forall i | 0 <= i < |front| ensures front[i].version != last.version {
        assert log[i].version != log[|front|].version;
      }
    }
    if NoDuplicate(front) && last.version !in Versions(front) {
      forall i, j | 0 <= i < j < |log| ensures log[i].version != log[j].version {
        assert front[i].version in Versions(front);
      }
    }
  }

  lemma {:induction false} DistinctVersions(log: seq<Row>)
    ensures |Versions(log)| <= |log|
    ensures |Versions(log)| == |log| <==> NoDuplicate(log)
  {
    if log != [] {
      var front, last := log[..|log| - 1], log[|log| - 1];
      assert log == front + [last];
      DistinctVersions(front);
      VersionsSnoc(front, last);
      NoDuplicateSnoc(front, last);
      if last.version in Versions(front) { assert Versions(log) == Versions(front); }
    }
  }

  /** The counting test accepts exactly the histories in which no version is missing,
      produced twice, or outside 1..version. */
  lemma {:induction false} CountsDecide(log: seq<Row>, version: int)
    requires version > 0
    ensures CountsOk(log, version) <==> NoDuplicate(log) && NoneMissing(log, version) && NoneOutside(log, version)
  {
    DistinctVersions(log);
    var vs, all := Versions(log), HistoryHealth.UpTo(version);
    assert forall i :: 0 <= i < |log| ==> log[i].version in vs;
    if NoDuplicate(log) && NoneMissing(log, version) && NoneOutside(log, version) {
      assert vs == all;
    }
    if CountsOk(log, version) {
      assert vs <= all;
      EffectiveHealth.SubsetSize(vs, all);
    }
  }
}
