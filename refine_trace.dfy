/** The contour symmetriser of tools/vehicle_specific/refine_trace.py: it reads
    the points of a traced outline, turns them half a turn about their
    centroid, slices the outline at 200 evenly spaced heights, keeps the
    half-width of each slice and rebuilds a left/right mirror-symmetric
    outline, which it writes as an SVG path with a 5 unit margin.

    The numbers of the path's d attribute arrive already parsed (None when
    the file has no d attribute); file and text handling are not modelled. */
module RefineTrace {
  import opened Geometry
  import opened Wrappers

  /** The three ways the script gives up. */
  datatype TraceError =
    | MissingPathData      // no d="..." attribute in the input
    | NoPoints             // fewer than two numbers: nothing to recentre
    | NoValidIntersections // no level met the outline at least twice

  // ---------------------------------------------------------------------
  // Pairing the path numbers into points (parse_svg_path_points)
  // ---------------------------------------------------------------------

  /** Consecutive numbers taken two at a time; an odd last number is dropped. */
  function Paired(ns: seq<real>): (r: seq<Point2>)
    ensures |r| == |ns| / 2
    ensures forall k :: 0 <= k < |r| ==> r[k] == Point2(ns[2 * k], ns[2 * k + 1])
    decreases |ns|
  {
    if |ns| < 2 then []
    else
      var rest := Paired(ns[2..]);
      assert forall k :: 0 < k < |rest| + 1 ==> rest[k - 1] == Point2(ns[2 * k], ns[2 * k + 1]);
      [Point2(ns[0], ns[1])] + rest
  }

  /** The numbers of a point list, x then y for each point. */
  function Flatten(ps: seq<Point2>): (ns: seq<real>)
    ensures |ns| == 2 * |ps|
  {
    if |ps| == 0 then [] else [ps[0].x, ps[0].y] + Flatten(ps[1..])
  }

  /** Pairing undoes flattening. */
  lemma {:induction false} PairedFlatten(ps: seq<Point2>)
    ensures Paired(Flatten(ps)) == ps
  {
    if |ps| > 0 {
      PairedFlatten(ps[1..]);
      assert Flatten(ps)[2..] == Flatten(ps[1..]);
    }
  }

  /** Flattening the pairs gives back every number but an odd last one. */
  lemma {:induction false} FlattenPaired(ns: seq<real>)
    ensures Flatten(Paired(ns)) == ns[..2 * (|ns| / 2)]
    decreases |ns|
  {
    if |ns| >= 2 {
      FlattenPaired(ns[2..]);
      assert Paired(ns)[1..] == Paired(ns[2..]);
      assert ns[..2 * (|ns| / 2)] == ns[..2] + ns[2..][..2 * (|ns[2..]| / 2)];
    }
  }

  /** The parse result: a failure without path data, the pairs otherwise. */
  function PathPoints(pathData: Option<seq<real>>): (r: Result<seq<Point2>, TraceError>)
    ensures r.Failure? <==> pathData.None?
    ensures r.Failure? ==> r.error == MissingPathData
    ensures r.Success? ==> |r.value| == |pathData.value| / 2
  {
    match pathData
    case None => Failure(MissingPathData)
    case Some(ns) => Success(Paired(ns))
  }

  /** parse_svg_path_points after the regex: the step-2 loop that appends
      [numbers[i], numbers[i + 1]] whenever i + 1 is still in range. */
  method ParseSvgPathPoints(pathData: Option<seq<real>>) returns (r: Result<seq<Point2>, TraceError>)
    ensures r == PathPoints(pathData)
  {
    if pathData.None? {
      return Failure(MissingPathData);
    }
    var numbers := pathData.value;
    var points: seq<Point2> := [];
    var i := 0;
    while i < |numbers|
      invariant i % 2 == 0 && i <= |numbers| + 1
      invariant |points| == (if i <= |numbers| then i else |numbers|) / 2
      invariant forall k :: 0 <= k < |points| ==> points[k] == Point2(numbers[2 * k], numbers[2 * k + 1])
      decreases |numbers| - i
    {
      if i + 1 < |numbers| {
        points := points + [Point2(numbers[i], numbers[i + 1])];
      }
      i := i + 2;
    }
    assert points == Paired(numbers);
    return Success(points);
  }

  // ---------------------------------------------------------------------
  // Half a turn about the centroid
  // ---------------------------------------------------------------------

  /** np.mean(points, axis=0). */
  function Centroid(pts: seq<Point2>): Point2
    requires |pts| > 0
  {
    Point2(Sum(XsOf(pts)) / (|pts| as real), Sum(YsOf(pts)) / (|pts| as real))
  }

  /** -(points - centroid). */
  function Recentred(pts: seq<Point2>): (r: seq<Point2>)
    requires |pts| > 0
    ensures |r| == |pts|
  {
    var c := Centroid(pts);
    seq(|pts|, i requires 0 <= i < |pts| => Point2(-(pts[i].x - c.x), -(pts[i].y - c.y)))
  }

  /** Subtracting each value from the mean leaves values that sum to 0. */
  lemma MeanDifferencesSumToZero(s: seq<real>)
    requires |s| > 0
    ensures Sum(seq(|s|, i requires 0 <= i < |s| => Sum(s) / (|s| as real) - s[i])) == 0.0
  {
    var n := |s| as real;
    var mean := Sum(s) / n;
    SumOfDifferences(s, mean);
    assert n * mean == Sum(s);
  }

  /** The recentred outline has its centroid at the origin. */
  lemma RecentredCentroidIsOrigin(pts: seq<Point2>)
    requires |pts| > 0
    ensures Centroid(Recentred(pts)) == Point2(0.0, 0.0)
  {
    var n := |pts| as real;
    var r := Recentred(pts);
    var xs, ys := XsOf(pts), YsOf(pts);
    assert XsOf(r) == seq(|xs|, i requires 0 <= i < |xs| => Sum(xs) / n - xs[i]);
    assert YsOf(r) == seq(|ys|, i requires 0 <= i < |ys| => Sum(ys) / n - ys[i]);
    MeanDifferencesSumToZero(xs);
    MeanDifferencesSumToZero(ys);
  }

  // ---------------------------------------------------------------------
  // The slicing levels (np.linspace)
  // ---------------------------------------------------------------------

  const NumSlices: nat := 200

  /** np.linspace(lo, hi, n): n values from lo to hi with a constant step. */
  function Linspace(lo: real, hi: real, n: nat): seq<real>
    requires n >= 2
  {
    var step := (hi - lo) / ((n - 1) as real);
    seq(n, i requires 0 <= i < n => if i == n - 1 then hi else lo + (i as real) * step)
  }

  /** Scaling by a non-negative factor keeps the order. */
  lemma ScaleMonotone(a: real, b: real, c: real)
    requires a <= b && c >= 0.0
    ensures a * c <= b * c
  {
    assert b * c - a * c == (b - a) * c;
  }

  /** The same, for products already named. */
  lemma ProductsOrdered(a: real, b: real, c: real, ac: real, bc: real)
    requires a <= b && c >= 0.0 && ac == a * c && bc == b * c
    ensures ac <= bc
  {
    ScaleMonotone(a, b, c);
  }

  /** A part of a positive whole divided by it lies in [0, 1]. */
  lemma FractionInUnit(part: real, whole: real)
    requires whole > 0.0 && 0.0 <= part <= whole
    ensures 0.0 <= part / whole <= 1.0
  {
    var q := part / whole;
    assert q * whole == part;
    if q > 1.0 {
      ScaleMonotone(1.0, q, whole);
    }
    if q < 0.0 {
      ScaleMonotone(q, 0.0, whole);
    }
  }

  /** lo + i * step stays within [lo, hi] for 0 <= i <= n - 1. */
  lemma StepWithin(lo: real, hi: real, n: nat, i: nat)
    requires n >= 2 && lo <= hi && i <= n - 1
    ensures var step := (hi - lo) / ((n - 1) as real);
      lo <= lo + (i as real) * step <= hi
  {
    var step := (hi - lo) / ((n - 1) as real);
    var last := ((n - 1) as real) * step;
    assert last == hi - lo;
    ProductsOrdered(0.0, i as real, step, 0.0, (i as real) * step);
    ProductsOrdered(i as real, (n - 1) as real, step, (i as real) * step, last);
  }

  /** Two levels in index order are in value order. */
  lemma LinspaceOrdered(lo: real, hi: real, n: nat, i: nat, j: nat)
    requires n >= 2 && lo <= hi && i <= j < n
    ensures Linspace(lo, hi, n)[i] <= Linspace(lo, hi, n)[j]
  {
    var r := Linspace(lo, hi, n);
    var step := (hi - lo) / ((n - 1) as real);
    StepWithin(lo, hi, n, i);
    if j < n - 1 {
      var di, dj := (i as real) * step, (j as real) * step;
      ProductsOrdered(i as real, j as real, step, di, dj);
      assert r[i] == lo + di && r[j] == lo + dj;
    } else {
      assert r[j] == hi;
    }
  }

  /** The levels start at lo, end at hi, never decrease and stay in [lo, hi]. */
  lemma LinspaceSpec(lo: real, hi: real, n: nat)
    requires n >= 2 && lo <= hi
    ensures |Linspace(lo, hi, n)| == n
    ensures Linspace(lo, hi, n)[0] == lo
    ensures Linspace(lo, hi, n)[n - 1] == hi
    ensures Sorted(Linspace(lo, hi, n))
    ensures forall i :: 0 <= i < n ==> lo <= Linspace(lo, hi, n)[i] <= hi
  {
    var r := Linspace(lo, hi, n);
    forall i | 0 <= i < n
      ensures lo <= r[i] <= hi
    {
      StepWithin(lo, hi, n, i);
    }
    forall i, j | 0 <= i < j < n
      ensures r[i] <= r[j]
    {
      LinspaceOrdered(lo, hi, n, i, j);
    }
  }

  /** The 200 levels between the lowest and the highest point. */
  function Levels(pts: seq<Point2>): seq<real>
    requires |pts| > 0
  {
    Linspace(Min(YsOf(pts)), Max(YsOf(pts)), NumSlices)
  }

  // ---------------------------------------------------------------------
  // Crossings of a horizontal line with the closed outline (get_intersections)
  // ---------------------------------------------------------------------

  /** Edges no taller than this are treated as horizontal and skipped. */
  const MinEdgeHeight: real := 0.000000001

  function Lower(e: Segment): real
  {
    if e.a.y <= e.b.y then e.a.y else e.b.y
  }

  function Upper(e: Segment): real
  {
    if e.a.y <= e.b.y then e.b.y else e.a.y
  }

  /** The line at height y meets the edge: a closed interval test on a
      non-horizontal edge. */
  predicate Crosses(y: real, e: Segment)
  {
    Lower(e) <= y <= Upper(e) && Upper(e) - Lower(e) > MinEdgeHeight
  }

  /** x where the line at height y meets the edge, by linear interpolation. */
  function CrossingX(y: real, e: Segment): real
    requires Crosses(y, e)
  {
    e.a.x + (y - e.a.y) * (e.b.x - e.a.x) / (e.b.y - e.a.y)
  }

  /** A point a fraction t in [0, 1] of the way from u to v lies between them. */
  lemma BetweenEnds(u: real, v: real, t: real, x: real)
    requires 0.0 <= t <= 1.0 && x == u + t * (v - u)
    ensures u <= v ==> u <= x <= v
    ensures v <= u ==> v <= x <= u
  {
    var d := v - u;
    assert x == u + t * d;
    if d >= 0.0 {
      ScaleMonotone(0.0, t, d);
      ScaleMonotone(t, 1.0, d);
      assert 0.0 <= t * d <= d;
    } else {
      ScaleMonotone(0.0, t, -d);
      ScaleMonotone(t, 1.0, -d);
      assert t * -d == -(t * d);
      assert d <= t * d <= 0.0;
    }
  }

  /** The crossing lies between the edge's endpoints, and is an endpoint
      when the line passes through it. */
  lemma CrossingXBetween(y: real, e: Segment)
    requires Crosses(y, e)
    ensures (e.a.x <= e.b.x ==> e.a.x <= CrossingX(y, e) <= e.b.x)
    ensures (e.b.x <= e.a.x ==> e.b.x <= CrossingX(y, e) <= e.a.x)
    ensures y == e.a.y ==> CrossingX(y, e) == e.a.x
    ensures y == e.b.y ==> CrossingX(y, e) == e.b.x
  {
    var dy := e.b.y - e.a.y;
    var t := (y - e.a.y) / dy;
    if dy > 0.0 {
      FractionInUnit(y - e.a.y, dy);
    } else {
      assert t == (e.a.y - y) / -dy;
      FractionInUnit(e.a.y - y, -dy);
    }
    BetweenEnds(e.a.x, e.b.x, t, CrossingX(y, e));
    if y == e.b.y {
      assert t == 1.0;
    }
  }

  /** Crossings of the first i edges, in edge order. */
  function CrossingsUpTo(y: real, pts: seq<Point2>, i: nat): (xs: seq<real>)
    requires i <= |pts|
    ensures |xs| <= i
  {
    if i == 0 then []
    else
      var e := Edge(pts, i - 1);
      CrossingsUpTo(y, pts, i - 1) + (if Crosses(y, e) then [CrossingX(y, e)] else [])
  }

  function Crossings(y: real, pts: seq<Point2>): (xs: seq<real>)
    ensures |xs| <= |pts|
  {
    CrossingsUpTo(y, pts, |pts|)
  }

  /** A value is among the crossings of the first i edges exactly when one
      of those edges crosses the line there. */
  lemma {:induction false} CrossingsUpToMembers(y: real, pts: seq<Point2>, i: nat)
    requires i <= |pts|
    ensures forall x :: x in CrossingsUpTo(y, pts, i) <==>
      exists j :: 0 <= j < i && Crosses(y, Edge(pts, j)) && x == CrossingX(y, Edge(pts, j))
  {
    if i > 0 {
      CrossingsUpToMembers(y, pts, i - 1);
    }
  }

  /** sorted(intersections). */
  function SortedCrossings(y: real, pts: seq<Point2>): (xs: seq<real>)
    ensures Sorted(xs)
    ensures multiset(xs) == multiset(Crossings(y, pts))
    ensures |xs| <= |pts|
  {
    var xs := SortAscending(Crossings(y, pts));
    assert |xs| == |multiset(xs)|;
    xs
  }

  /** get_intersections returns, sorted, the x of every edge crossing; a
      value appears exactly when some edge crosses the line there. */
  lemma SortedCrossingsMembers(y: real, pts: seq<Point2>)
    ensures forall x :: x in SortedCrossings(y, pts) <==>
      exists j :: 0 <= j < |pts| && Crosses(y, Edge(pts, j)) && x == CrossingX(y, Edge(pts, j))
  {
    var xs := SortedCrossings(y, pts);
    CrossingsUpToMembers(y, pts, |pts|);
    forall x
      ensures x in xs <==> x in Crossings(y, pts)
    {
      assert x in xs <==> x in multiset(xs);
    }
  }

  /** The edge loop of get_intersections followed by sorted(). */
  method GetIntersections(y: real, pts: seq<Point2>) returns (xs: seq<real>)
    ensures xs == SortedCrossings(y, pts)
  {
    var intersections: seq<real> := [];
    var n := |pts|;
    for i := 0 to n
      invariant intersections == CrossingsUpTo(y, pts, i)
    {
      var e := Edge(pts, i);
      var lo := if e.a.y <= e.b.y then e.a.y else e.b.y;
      var hi := if e.a.y <= e.b.y then e.b.y else e.a.y;
      if lo <= y && y <= hi && hi - lo > MinEdgeHeight {
        var x := CrossingX(y, e);
        intersections := intersections + [x];
      }
    }
    xs := SortAscending(intersections);
  }

  // ---------------------------------------------------------------------
  // The left and right profiles
  // ---------------------------------------------------------------------

  /** (xs[-1] - xs[0]) / 2. */
  function HalfWidth(xs: seq<real>): (w: real)
    requires |xs| > 0
    ensures Sorted(xs) ==> w >= 0.0
  {
    (xs[|xs| - 1] - xs[0]) / 2.0
  }

  /** On sorted crossings, the half-width is half the spread max - min. */
  lemma HalfWidthIsHalfExtent(xs: seq<real>)
    requires |xs| > 0 && Sorted(xs)
    ensures HalfWidth(xs) == Extent(xs) / 2.0
  {
    SortedEnds(xs);
  }

  /** What one level adds to the profiles: the half-width of the outline at
      that height when the line meets it at least twice, nothing otherwise. */
  function LevelHalfWidth(y: real, pts: seq<Point2>): (w: Option<real>)
    ensures w.Some? <==> |SortedCrossings(y, pts)| >= 2
    ensures w.Some? ==> w.value >= 0.0
  {
    var xs := SortedCrossings(y, pts);
    if |xs| >= 2 then Some(HalfWidth(xs)) else None
  }

  predicate NonNegative(ws: seq<Option<real>>)
  {
    forall i :: 0 <= i < |ws| && ws[i].Some? ==> ws[i].value >= 0.0
  }

  /** The outcome of every level, in level order. */
  function HalfWidths(levels: seq<real>, pts: seq<Point2>): (ws: seq<Option<real>>)
    ensures |ws| == |levels|
    ensures NonNegative(ws)
  {
    if |levels| == 0 then []
    else HalfWidths(levels[..|levels| - 1], pts) + [LevelHalfWidth(levels[|levels| - 1], pts)]
  }

  /** right_profile: (hw, y) for each level that has a half-width hw. */
  function RightProfile(levels: seq<real>, ws: seq<Option<real>>): (r: seq<Point2>)
    requires |ws| == |levels|
    ensures |r| <= |levels|
  {
    if |levels| == 0 then []
    else
      var n := |levels| - 1;
      RightProfile(levels[..n], ws[..n]) + (if ws[n].Some? then [Point2(ws[n].value, levels[n])] else [])
  }

  /** left_profile: (-hw, y) for each level that has a half-width hw. */
  function LeftProfile(levels: seq<real>, ws: seq<Option<real>>): (r: seq<Point2>)
    requires |ws| == |levels|
    ensures |r| <= |levels|
  {
    if |levels| == 0 then []
    else
      var n := |levels| - 1;
      LeftProfile(levels[..n], ws[..n]) + (if ws[n].Some? then [Point2(-ws[n].value, levels[n])] else [])
  }

  /** The point mirrored in the Y axis. */
  function Mirror(p: Point2): Point2
  {
    Point2(-p.x, p.y)
  }

  function Mirrored(ps: seq<Point2>): (r: seq<Point2>)
    ensures |r| == |ps|
    ensures forall k :: 0 <= k < |ps| ==> r[k] == Mirror(ps[k])
  {
    seq(|ps|, k requires 0 <= k < |ps| => Mirror(ps[k]))
  }

  /** The left profile is the right one mirrored: same length, same heights. */
  lemma {:induction false} ProfilesMirror(levels: seq<real>, ws: seq<Option<real>>)
    requires |ws| == |levels|
    ensures LeftProfile(levels, ws) == Mirrored(RightProfile(levels, ws))
    ensures YsOf(LeftProfile(levels, ws)) == YsOf(RightProfile(levels, ws))
  {
    if |levels| > 0 {
      var n := |levels| - 1;
      ProfilesMirror(levels[..n], ws[..n]);
    }
    assert LeftProfile(levels, ws) == Mirrored(RightProfile(levels, ws));
  }

  /** A point is on the right profile exactly when some level gives it. */
  lemma {:induction false} RightProfileMembers(levels: seq<real>, ws: seq<Option<real>>)
    requires |ws| == |levels|
    ensures forall p :: p in RightProfile(levels, ws) <==>
      exists i :: 0 <= i < |levels| && ws[i].Some? && p == Point2(ws[i].value, levels[i])
  {
    if |levels| > 0 {
      var n := |levels| - 1;
      var front, fws := levels[..n], ws[..n];
      RightProfileMembers(front, fws);
      forall p | p in RightProfile(levels, ws)
        ensures exists i :: 0 <= i < |levels| && ws[i].Some? && p == Point2(ws[i].value, levels[i])
      {
        if p in RightProfile(front, fws) {
          var i :| 0 <= i < n && fws[i].Some? && p == Point2(fws[i].value, front[i]);
          assert ws[i] == fws[i] && levels[i] == front[i];
        } else {
          assert ws[n].Some? && p == Point2(ws[n].value, levels[n]);
        }
      }
      forall i | 0 <= i < |levels| && ws[i].Some?
        ensures Point2(ws[i].value, levels[i]) in RightProfile(levels, ws)
      {
        if i < n {
          assert ws[i] == fws[i] && levels[i] == front[i];
        }
      }
    }
  }

  /** Over levels that never decrease, the profile heights never decrease. */
  lemma {:induction false} RightProfileAscending(levels: seq<real>, ws: seq<Option<real>>)
    requires |ws| == |levels| && Sorted(levels)
    ensures Sorted(YsOf(RightProfile(levels, ws)))
  {
    if |levels| > 0 {
      var n := |levels| - 1;
      var front, fws := levels[..n], ws[..n];
      RightProfileAscending(front, fws);
      RightProfileMembers(front, fws);
      var before := RightProfile(front, fws);
      var ys := YsOf(RightProfile(levels, ws));
      forall k | 0 <= k < |before|
        ensures before[k].y <= levels[n]
      {
        assert before[k] in before;
      }
      forall i, j | 0 <= i < j < |ys|
        ensures ys[i] <= ys[j]
      {
        assert ys[i] == YsOf(before)[i];
        if j < |before| {
          assert ys[j] == YsOf(before)[j];
        }
      }
    }
  }

  /** One more level extends both profiles by at most its own point. */
  lemma ProfilesSnoc(levels: seq<real>, ws: seq<Option<real>>, y: real, w: Option<real>)
    requires |ws| == |levels|
    ensures RightProfile(levels + [y], ws + [w])
      == RightProfile(levels, ws) + (if w.Some? then [Point2(w.value, y)] else [])
    ensures LeftProfile(levels + [y], ws + [w])
      == LeftProfile(levels, ws) + (if w.Some? then [Point2(-w.value, y)] else [])
  {
    assert (levels + [y])[..|levels|] == levels && (ws + [w])[..|ws|] == ws;
  }

  /** The profiles over the first i + 1 levels extend those over the first i
      by level i's own point, if it has one. */
  lemma ProfilesStep(levels: seq<real>, ws: seq<Option<real>>, i: nat, w: Option<real>)
    requires i < |levels| && |ws| == i
    ensures RightProfile(levels[..i + 1], ws + [w])
      == RightProfile(levels[..i], ws) + (if w.Some? then [Point2(w.value, levels[i])] else [])
    ensures LeftProfile(levels[..i + 1], ws + [w])
      == LeftProfile(levels[..i], ws) + (if w.Some? then [Point2(-w.value, levels[i])] else [])
  {
    assert levels[..i + 1] == levels[..i] + [levels[i]];
    ProfilesSnoc(levels[..i], ws, levels[i], w);
  }

  /** The half-widths of the first i + 1 levels extend those of the first i. */
  lemma HalfWidthsStep(levels: seq<real>, pts: seq<Point2>, i: nat)
    requires i < |levels|
    ensures HalfWidths(levels[..i + 1], pts) == HalfWidths(levels[..i], pts) + [LevelHalfWidth(levels[i], pts)]
  {
    assert levels[..i + 1][..i] == levels[..i];
  }

  /** One level of main's loop: the crossings at height y and, when there
      are at least two, the half-width between the outermost ones. */
  method SliceLevel(y: real, pts: seq<Point2>) returns (w: Option<real>)
    ensures w == LevelHalfWidth(y, pts)
  {
    var xs := GetIntersections(y, pts);
    if |xs| >= 2 {
      var minX := xs[0];
      var maxX := xs[|xs| - 1];
      var width := maxX - minX;
      w := Some(width / 2.0);
    } else {
      w := None;
    }
  }

  /** The level loop of main: both profiles grow by one point for each
      level the line meets the outline at least twice. */
  method BuildProfiles(levels: seq<real>, pts: seq<Point2>) returns (left: seq<Point2>, right: seq<Point2>)
    ensures left == LeftProfile(levels, HalfWidths(levels, pts))
    ensures right == RightProfile(levels, HalfWidths(levels, pts))
  {
    left, right := [], [];
    ghost var ws: seq<Option<real>> := [];
    for i := 0 to |levels|
      invariant ws == HalfWidths(levels[..i], pts)
      invariant left == LeftProfile(levels[..i], ws)
      invariant right == RightProfile(levels[..i], ws)
    {
      var y := levels[i];
      var w := SliceLevel(y, pts);
      HalfWidthsStep(levels, pts, i);
      ProfilesStep(levels, ws, i, w);
      ws := ws + [w];
      if w.Some? {
        left := left + [Point2(-w.value, y)];
        right := right + [Point2(w.value, y)];
      }
    }
    assert levels[..|levels|] == levels;
  }

  // ---------------------------------------------------------------------
  // Stitching the outline
  // ---------------------------------------------------------------------

  function Reverse<T>(s: seq<T>): (r: seq<T>)
    ensures |r| == |s|
    ensures forall k :: 0 <= k < |s| ==> r[k] == s[|s| - 1 - k]
  {
    if |s| == 0 then [] else Reverse(s[1..]) + [s[0]]
  }

  /** Down the left side, then back up the right side; an empty left
      profile is fatal. */
  function Stitch(left: seq<Point2>, right: seq<Point2>): (r: Result<seq<Point2>, TraceError>)
    ensures r.Failure? <==> |left| == 0
    ensures r.Failure? ==> r.error == NoValidIntersections
    ensures r.Success? ==> |r.value| == |left| + |right|
  {
    if |left| == 0 then Failure(NoValidIntersections) else Success(left + Reverse(right))
  }

  /** The stitched outline has twice as many points as either profile and
      is symmetric about the Y axis: with (x, y) it also holds (-x, y). */
  lemma StitchSymmetric(levels: seq<real>, ws: seq<Option<real>>)
    requires |ws| == |levels|
    ensures var r := Stitch(LeftProfile(levels, ws), RightProfile(levels, ws));
      && (r.Failure? <==> |RightProfile(levels, ws)| == 0)
      && (r.Success? ==> |r.value| == 2 * |RightProfile(levels, ws)|)
      && (r.Success? ==> forall p :: p in r.value ==> Mirror(p) in r.value)
  {
    ProfilesMirror(levels, ws);
    var right := RightProfile(levels, ws);
    var left := LeftProfile(levels, ws);
    var n := |right|;
    if n > 0 {
      var out := left + Reverse(right);
      forall p | p in out
        ensures Mirror(p) in out
      {
        var k :| 0 <= k < |out| && out[k] == p;
        if k < n {
          assert out[2 * n - 1 - k] == right[k] == Mirror(p);
        } else {
          var m := 2 * n - 1 - k;
          assert out[m] == left[m] == Mirror(right[m]) == Mirror(p);
        }
      }
    }
  }

  // ---------------------------------------------------------------------
  // The SVG document (write_svg)
  // ---------------------------------------------------------------------

  /** Space left around the outline on every side. */
  const Margin: real := 5.0

  /** The viewBox; the document's width and height attributes (in mm) are
      its width and height. */
  datatype ViewBox = ViewBox(minX: real, minY: real, width: real, height: real)

  datatype PathCommand = MoveTo(p: Point2) | LineTo(p: Point2) | ClosePath

  datatype SvgDocument = SvgDocument(viewBox: ViewBox, path: seq<PathCommand>)

  /** The bounding box of the points grown by the margin. */
  function BoxOf(points: seq<Point2>): (box: ViewBox)
    requires |points| > 0
    ensures box.width >= 2.0 * Margin && box.height >= 2.0 * Margin
  {
    var xs, ys := XsOf(points), YsOf(points);
    ViewBox(Min(xs) - Margin, Min(ys) - Margin, Extent(xs) + 2.0 * Margin, Extent(ys) + 2.0 * Margin)
  }

  /** Every point lies at least the margin inside the box, and the box is
      tight: on each side some point is exactly the margin away. */
  lemma BoxOfSpec(points: seq<Point2>)
    requires |points| > 0
    ensures var b := BoxOf(points);
      forall p :: p in points ==>
        && b.minX + Margin <= p.x <= b.minX + b.width - Margin
        && b.minY + Margin <= p.y <= b.minY + b.height - Margin
    ensures var b := BoxOf(points);
      && (exists i :: 0 <= i < |points| && points[i].x == b.minX + Margin)
      && (exists i :: 0 <= i < |points| && points[i].x == b.minX + b.width - Margin)
      && (exists i :: 0 <= i < |points| && points[i].y == b.minY + Margin)
      && (exists i :: 0 <= i < |points| && points[i].y == b.minY + b.height - Margin)
  {
    var xs, ys := XsOf(points), YsOf(points);
    forall p | p in points
      ensures Min(xs) <= p.x <= Max(xs) && Min(ys) <= p.y <= Max(ys)
    {
      var i :| 0 <= i < |points| && points[i] == p;
      assert xs[i] == p.x && ys[i] == p.y;
    }
    assert points[ArgMin(xs)].x == Min(xs);
    assert points[ArgMax(xs)].x == Max(xs);
    assert points[ArgMin(ys)].y == Min(ys);
    assert points[ArgMax(ys)].y == Max(ys);
  }

  function LineTos(ps: seq<Point2>): (r: seq<PathCommand>)
    ensures |r| == |ps|
  {
    seq(|ps|, k requires 0 <= k < |ps| => LineTo(ps[k]))
  }

  /** "M p0 L p1 ... L pn Z". */
  function PathOf(points: seq<Point2>): seq<PathCommand>
    requires |points| > 0
  {
    [MoveTo(points[0])] + LineTos(points[1..]) + [ClosePath]
  }

  /** The points a path visits, in order. */
  function Vertices(path: seq<PathCommand>): seq<Point2>
  {
    if |path| == 0 then []
    else (if path[0].ClosePath? then [] else [path[0].p]) + Vertices(path[1..])
  }

  /** The path moves to the first point, draws to each later one in order
      and closes; it visits exactly the points. */
  lemma PathOfSpec(points: seq<Point2>)
    requires |points| > 0
    ensures |PathOf(points)| == |points| + 1
    ensures PathOf(points)[0] == MoveTo(points[0])
    ensures forall i :: 0 < i < |points| ==> PathOf(points)[i] == LineTo(points[i])
    ensures PathOf(points)[|points|] == ClosePath
    ensures Vertices(PathOf(points)) == points
  {
    var rest := points[1..];
    ClosedLineTosVertices(rest);
    assert PathOf(points)[1..] == LineTos(rest) + [ClosePath];
    assert [points[0]] + rest == points;
  }

  /** Drawing to each point and closing visits exactly those points. */
  lemma {:induction false} ClosedLineTosVertices(ps: seq<Point2>)
    ensures Vertices(LineTos(ps) + [ClosePath]) == ps
  {
    var s := LineTos(ps) + [ClosePath];
    if |ps| == 0 {
      assert s == [ClosePath];
      assert s[1..] == [];
    } else {
      ClosedLineTosVertices(ps[1..]);
      assert s[0] == LineTo(ps[0]);
      assert s[1..] == LineTos(ps[1..]) + [ClosePath];
      assert [ps[0]] + ps[1..] == ps;
    }
  }

  /** write_svg without the text: the margin-grown box is computed with the
      in-place updates of min_x and min_y, and the path grows one L command
      per remaining point. */
  method WriteSvg(points: seq<Point2>) returns (doc: SvgDocument)
    requires |points| > 0
    ensures doc == SvgDocument(BoxOf(points), PathOf(points))
  {
    var minX := Min(XsOf(points));
    var maxX := Max(XsOf(points));
    var minY := Min(YsOf(points));
    var maxY := Max(YsOf(points));
    var width := maxX - minX;
    var height := maxY - minY;
    minX := minX - Margin;
    minY := minY - Margin;
    width := width + 2.0 * Margin;
    height := height + 2.0 * Margin;

    var path := [MoveTo(points[0])];
    for i := 1 to |points|
      invariant path == [MoveTo(points[0])] + LineTos(points[1..i])
    {
      assert LineTos(points[1..i + 1]) == LineTos(points[1..i]) + [LineTo(points[i])];
      path := path + [LineTo(points[i])];
    }
    path := path + [ClosePath];
    doc := SvgDocument(ViewBox(minX, minY, width, height), path);
  }

  // ---------------------------------------------------------------------
  // The whole script
  // ---------------------------------------------------------------------

  /** The symmetrised outline of the traced points: recentred, sliced at
      the 200 levels and stitched. */
  function SymmetricOutline(points: seq<Point2>): (r: Result<seq<Point2>, TraceError>)
    requires |points| > 0
    ensures r.Failure? ==> r.error == NoValidIntersections
  {
    var rotated := Recentred(points);
    var levels := Levels(rotated);
    var ws := HalfWidths(levels, rotated);
    Stitch(LeftProfile(levels, ws), RightProfile(levels, ws))
  }

  /** A stitched outline has an even, non-zero number of points, is
      symmetric about the Y axis, and its first half (the left side) runs
      down the levels in increasing y. */
  lemma SymmetricOutlineSpec(points: seq<Point2>)
    requires |points| > 0
    ensures var r := SymmetricOutline(points);
      r.Success? ==>
        && |r.value| > 0 && |r.value| % 2 == 0
        && (forall p :: p in r.value ==> Mirror(p) in r.value)
        && Sorted(YsOf(r.value[..|r.value| / 2]))
  {
    var rotated := Recentred(points);
    var ys := YsOf(rotated);
    var levels := Levels(rotated);
    var ws := HalfWidths(levels, rotated);
    StitchSymmetric(levels, ws);
    LinspaceSpec(Min(ys), Max(ys), NumSlices);
    RightProfileAscending(levels, ws);
    ProfilesMirror(levels, ws);
    var r := SymmetricOutline(points);
    if r.Success? {
      var left := LeftProfile(levels, ws);
      assert r.value[..|r.value| / 2] == left;
    }
  }

  /** What write_svg writes for an outline. */
  function Document(outline: seq<Point2>): (doc: SvgDocument)
    requires |outline| > 0
    ensures Vertices(doc.path) == outline
    ensures doc.path[|doc.path| - 1] == ClosePath
    ensures forall p :: p in outline ==>
      && doc.viewBox.minX + Margin <= p.x <= doc.viewBox.minX + doc.viewBox.width - Margin
      && doc.viewBox.minY + Margin <= p.y <= doc.viewBox.minY + doc.viewBox.height - Margin
  {
    PathOfSpec(outline);
    BoxOfSpec(outline);
    SvgDocument(BoxOf(outline), PathOf(outline))
  }

  /** What main writes for the given path data, or why it stops. */
  function RefinedTrace(pathData: Option<seq<real>>): (r: Result<SvgDocument, TraceError>)
    ensures pathData.None? ==> r == Failure(MissingPathData)
    ensures pathData.Some? && |pathData.value| < 2 ==> r == Failure(NoPoints)
    ensures pathData.Some? && |pathData.value| >= 2 && r.Failure? ==> r.error == NoValidIntersections
  {
    match PathPoints(pathData)
    case Failure(e) => Failure(e)
    case Success(points) =>
      if |points| == 0 then Failure(NoPoints)
      else
        match SymmetricOutline(points)
        case Failure(e) => Failure(e)
        case Success(outline) => Success(Document(outline))
  }

  /** A written trace is a closed path through an even number of points,
      symmetric about the Y axis, with every point the margin inside the
      view box. */
  lemma RefinedTraceSymmetric(pathData: Option<seq<real>>)
    requires RefinedTrace(pathData).Success?
    ensures var doc := RefinedTrace(pathData).value;
      var vs := Vertices(doc.path);
      && |vs| > 0 && |vs| % 2 == 0
      && doc.path[|doc.path| - 1] == ClosePath
      && (forall p :: p in vs ==> Mirror(p) in vs)
      && (forall p :: p in vs ==>
            && doc.viewBox.minX + Margin <= p.x <= doc.viewBox.minX + doc.viewBox.width - Margin
            && doc.viewBox.minY + Margin <= p.y <= doc.viewBox.minY + doc.viewBox.height - Margin)
  {
    var points := PathPoints(pathData).value;
    SymmetricOutlineSpec(points);
  }

  /** main, from the parsed path data to the document it writes. */
  method Refine(pathData: Option<seq<real>>) returns (r: Result<SvgDocument, TraceError>)
    ensures r == RefinedTrace(pathData)
  {
    var parsed := ParseSvgPathPoints(pathData);
    if parsed.Failure? {
      return Failure(parsed.error);
    }
    var points := parsed.value;
    if |points| == 0 {
      return Failure(NoPoints);
    }
    var rotated := Recentred(points);
    var ys := YsOf(rotated);
    var levels := Linspace(Min(ys), Max(ys), NumSlices);
    var left, right := BuildProfiles(levels, rotated);
    if |left| == 0 {
      return Failure(NoValidIntersections);
    }
    var outline := left + Reverse(right);
    var doc := WriteSvg(outline);
    return Success(doc);
  }
}
