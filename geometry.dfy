/** Points, coordinate projections and the numpy reductions (min, max, sum,
    sort) that both pipelines are built from, over exact reals. */
module Geometry {

  datatype Point2 = Point2(x: real, y: real)
  datatype Point3 = Point3(x: real, y: real, z: real)

  /** A directed edge of a closed polygon. */
  datatype Segment = Segment(a: Point2, b: Point2)

  // ---------------------------------------------------------------------
  // Projections
  // ---------------------------------------------------------------------

  function XsOf(pts: seq<Point2>): seq<real>
  {
    seq(|pts|, i requires 0 <= i < |pts| => pts[i].x)
  }

  function YsOf(pts: seq<Point2>): seq<real>
  {
    seq(|pts|, i requires 0 <= i < |pts| => pts[i].y)
  }

  /** The vertices' positions in the horizontal plane (`vertices[:, :2]`). */
  function Plan(vs: seq<Point3>): seq<Point2>
  {
    seq(|vs|, i requires 0 <= i < |vs| => Point2(vs[i].x, vs[i].y))
  }

  function ZsOf(vs: seq<Point3>): seq<real>
  {
    seq(|vs|, i requires 0 <= i < |vs| => vs[i].z)
  }

  function Negated(s: seq<real>): seq<real>
  {
    seq(|s|, i requires 0 <= i < |s| => -s[i])
  }

  function Shifted(s: seq<real>, d: real): seq<real>
  {
    seq(|s|, i requires 0 <= i < |s| => s[i] + d)
  }

  // ---------------------------------------------------------------------
  // Minimum, maximum and extent of a non-empty sequence (np.min, np.max)
  // ---------------------------------------------------------------------

  /** np.argmin: the FIRST index holding the least value. */
  function ArgMin(s: seq<real>): (k: nat)
    requires |s| > 0
    ensures k < |s|
    ensures forall j :: 0 <= j < |s| ==> s[k] <= s[j]
    ensures forall j :: 0 <= j < k ==> s[k] < s[j]
  {
    if |s| == 1 then 0
    else
      var k := ArgMin(s[..|s| - 1]);
      if s[|s| - 1] < s[k] then |s| - 1 else k
  }

  /** np.argmax: the FIRST index holding the greatest value. */
  function ArgMax(s: seq<real>): (k: nat)
    requires |s| > 0
    ensures k < |s|
    ensures forall j :: 0 <= j < |s| ==> s[j] <= s[k]
    ensures forall j :: 0 <= j < k ==> s[j] < s[k]
  {
    if |s| == 1 then 0
    else
      var k := ArgMax(s[..|s| - 1]);
      if s[|s| - 1] > s[k] then |s| - 1 else k
  }

  /** One more element seen by a first-minimum scan over a prefix. */
  lemma ArgMinStep(s: seq<real>, i: nat)
    requires 0 < i < |s|
    ensures ArgMin(s[..i + 1]) == if s[i] < s[ArgMin(s[..i])] then i else ArgMin(s[..i])
  {
    assert s[..i + 1][..i] == s[..i];
  }

  function Min(s: seq<real>): (m: real)
    requires |s| > 0
    ensures forall i :: 0 <= i < |s| ==> m <= s[i]
  {
    s[ArgMin(s)]
  }

  function Max(s: seq<real>): (m: real)
    requires |s| > 0
    ensures forall i :: 0 <= i < |s| ==> s[i] <= m
  {
    s[ArgMax(s)]
  }

  lemma MinNegated(s: seq<real>)
    requires |s| > 0
    ensures Min(Negated(s)) == -Max(s)
  {
    var n := Negated(s);
    assert n[ArgMax(s)] == -Max(s);
    assert n[ArgMin(n)] == -s[ArgMin(n)];
  }

  lemma MaxNegated(s: seq<real>)
    requires |s| > 0
    ensures Max(Negated(s)) == -Min(s)
  {
    var n := Negated(s);
    assert n[ArgMin(s)] == -Min(s);
    assert n[ArgMax(n)] == -s[ArgMax(n)];
  }

  lemma MinShifted(s: seq<real>, d: real)
    requires |s| > 0
    ensures Min(Shifted(s, d)) == Min(s) + d
  {
    var t := Shifted(s, d);
    assert t[ArgMin(s)] == Min(s) + d;
    assert t[ArgMin(t)] == s[ArgMin(t)] + d;
  }

  /** max - min of a non-empty sequence. */
  function Extent(s: seq<real>): (e: real)
    requires |s| > 0
    ensures e >= 0.0
  {
    Max(s) - Min(s)
  }

  lemma NegatedConcat(a: seq<real>, b: seq<real>)
    ensures Negated(a + b) == Negated(a) + Negated(b)
  {
  }

  /** A 180 degree turn of one axis keeps its extent. */
  lemma ExtentNegated(s: seq<real>)
    requires |s| > 0
    ensures Extent(Negated(s)) == Extent(s)
  {
    MinNegated(s);
    MaxNegated(s);
  }

  // ---------------------------------------------------------------------
  // Sums
  // ---------------------------------------------------------------------

  function Sum(s: seq<real>): real
  {
    if |s| == 0 then 0.0 else s[0] + Sum(s[1..])
  }

  /** Summing c - s[i] over s gives |s| * c - Sum(s). */
  lemma {:induction false} SumOfDifferences(s: seq<real>, c: real)
    ensures Sum(seq(|s|, i requires 0 <= i < |s| => c - s[i])) == (|s| as real) * c - Sum(s)
  {
    var t := seq(|s|, i requires 0 <= i < |s| => c - s[i]);
    if |s| > 0 {
      var u := seq(|s| - 1, i requires 0 <= i < |s| - 1 => c - s[1..][i]);
      assert t[1..] == u;
      SumOfDifferences(s[1..], c);
    }
  }

  // ---------------------------------------------------------------------
  // Sorting (Python's sorted on a list of reals)
  // ---------------------------------------------------------------------

  predicate Sorted(s: seq<real>)
  {
    forall i, j :: 0 <= i < j < |s| ==> s[i] <= s[j]
  }

  /** The ends of a sorted sequence are its least and greatest values. */
  lemma SortedEnds(s: seq<real>)
    requires |s| > 0 && Sorted(s)
    ensures Min(s) == s[0] && Max(s) == s[|s| - 1]
  {
    assert s[0] <= s[ArgMin(s)];
    assert s[ArgMax(s)] <= s[|s| - 1];
  }

  /** A lower bound of s and of x bounds anything holding s and x. */
  lemma BoundOfUnion(lo: real, x: real, s: seq<real>, r: seq<real>)
    requires lo <= x
    requires forall k :: 0 <= k < |s| ==> lo <= s[k]
    requires multiset(r) == multiset(s) + multiset{x}
    ensures forall k :: 0 <= k < |r| ==> lo <= r[k]
  {
    forall k | 0 <= k < |r|
      ensures lo <= r[k]
    {
      assert r[k] in multiset(r);
      if r[k] != x {
        assert r[k] in multiset(s);
        assert r[k] in s;
      }
    }
  }

  /** Putting a lower bound of a sorted sequence in front keeps it sorted. */
  lemma SortedCons(h: real, t: seq<real>)
    requires Sorted(t)
    requires forall k :: 0 <= k < |t| ==> h <= t[k]
    ensures Sorted([h] + t)
  {
    var r := [h] + t;
    forall i, j | 0 <= i < j < |r|
      ensures r[i] <= r[j]
    {
      assert r[j] == t[j - 1];
      if i > 0 {
        assert r[i] == t[i - 1];
      }
    }
  }

  function Insert(x: real, s: seq<real>): (r: seq<real>)
    requires Sorted(s)
    ensures Sorted(r)
    ensures multiset(r) == multiset(s) + multiset{x}
  {
    if |s| == 0 || x <= s[0] then
      SortedCons(x, s);
      [x] + s
    else
      var tail := Insert(x, s[1..]);
      assert s == [s[0]] + s[1..];
      BoundOfUnion(s[0], x, s[1..], tail);
      SortedCons(s[0], tail);
      [s[0]] + tail
  }

  function SortAscending(s: seq<real>): (r: seq<real>)
    ensures Sorted(r)
    ensures multiset(r) == multiset(s)
  {
    if |s| == 0 then []
    else
      assert s == [s[0]] + s[1..];
      Insert(s[0], SortAscending(s[1..]))
  }

  // ---------------------------------------------------------------------
  // Closed polygons
  // ---------------------------------------------------------------------

  /** The i-th edge of a closed polygon: from pts[i] to pts[(i + 1) mod n],
      so the last edge wraps around to the first point. */
  function Edge(pts: seq<Point2>, i: nat): (e: Segment)
    requires i < |pts|
    ensures e.a == pts[i]
    ensures i + 1 < |pts| ==> e.b == pts[i + 1]
    ensures i + 1 == |pts| ==> e.b == pts[0]
  {
    Segment(pts[i], pts[(i + 1) % |pts|])
  }
}
