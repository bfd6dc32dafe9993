/** The mesh canonicaliser of tools/orient_stl.py: a fixed chain of in-place
    rigid transforms that rests a mesh on its most stable face, aligns it to
    its minimum-area bounding rectangle, makes it landscape, puts its wider end
    at the top and sets it down on z = 0.

    Each stage is stated twice: as a function on the vertex sequence (the
    specification, with lemmas giving the promised geometry) and as the
    in-place step on Mesh that OrientLargestFaceDown performs. */
module OrientStl {
  import opened Geometry

  // ---------------------------------------------------------------------
  // Transforms
  // ---------------------------------------------------------------------

  /** A 4x4 homogeneous transform as trimesh stores a stable pose: three
      rows of the linear part and the translation column. */
  datatype Affine = Affine(row0: Point3, row1: Point3, row2: Point3, offset: Point3)

  /** The trigonometric routines the pipeline calls (arctan2, cos, sin);
      they are inputs of the model, not computed by it. */
  datatype Trig = Trig(atan2: (real, real) -> real, cos: real -> real, sin: real -> real)

  function Dot(a: Point3, b: Point3): real
  {
    a.x * b.x + a.y * b.y + a.z * b.z
  }

  function AffineMap(t: Affine): Point3 -> Point3
  {
    (p: Point3) => Point3(Dot(t.row0, p) + t.offset.x, Dot(t.row1, p) + t.offset.y, Dot(t.row2, p) + t.offset.z)
  }

  /** Rotation about Z with cosine c and sine s: the matrix [[c, -s], [s, c]]. */
  function RotationZ(c: real, s: real): Point3 -> Point3
  {
    (p: Point3) => Point3(c * p.x - s * p.y, s * p.x + c * p.y, p.z)
  }

  /** Rotation about X with cosine c and sine s. */
  function RotationX(c: real, s: real): Point3 -> Point3
  {
    (p: Point3) => Point3(p.x, c * p.y - s * p.z, s * p.y + c * p.z)
  }

  function Translation(d: Point3): Point3 -> Point3
  {
    (p: Point3) => Point3(p.x + d.x, p.y + d.y, p.z + d.z)
  }

  /** 180 degrees about X (the user flip). */
  function FlipAboutX(p: Point3): Point3
  {
    Point3(p.x, -p.y, -p.z)
  }

  /** 90 degrees about Z. */
  function QuarterTurnZ(p: Point3): Point3
  {
    Point3(-p.y, p.x, p.z)
  }

  /** 180 degrees about Z. */
  function HalfTurnZ(p: Point3): Point3
  {
    Point3(-p.x, -p.y, p.z)
  }

  /** The exact turns are the rotations by pi about X, and by pi/2 and pi
      about Z: those whose (cos, sin) are (-1, 0), (0, 1) and (-1, 0). */
  lemma ExactTurnsAreRotations(p: Point3)
    ensures FlipAboutX(p) == RotationX(-1.0, 0.0)(p)
    ensures QuarterTurnZ(p) == RotationZ(0.0, 1.0)(p)
    ensures HalfTurnZ(p) == RotationZ(-1.0, 0.0)(p)
    ensures HalfTurnZ(p) == QuarterTurnZ(QuarterTurnZ(p))
  {
  }

  function MapPoints(f: Point3 -> Point3, vs: seq<Point3>): (r: seq<Point3>)
    ensures |r| == |vs|
    ensures forall i :: 0 <= i < |vs| ==> r[i] == f(vs[i])
  {
    seq(|vs|, i requires 0 <= i < |vs| => f(vs[i]))
  }

  // The two exact turns, seen in the horizontal plane.

  function QuarterTurn2(pts: seq<Point2>): seq<Point2>
  {
    seq(|pts|, i requires 0 <= i < |pts| => Point2(-pts[i].y, pts[i].x))
  }

  function HalfTurn2(pts: seq<Point2>): seq<Point2>
  {
    seq(|pts|, i requires 0 <= i < |pts| => Point2(-pts[i].x, -pts[i].y))
  }

  lemma PlanOfTurns(vs: seq<Point3>)
    ensures Plan(MapPoints(QuarterTurnZ, vs)) == QuarterTurn2(Plan(vs))
    ensures Plan(MapPoints(HalfTurnZ, vs)) == HalfTurn2(Plan(vs))
  {
    var quarter, half := Plan(MapPoints(QuarterTurnZ, vs)), Plan(MapPoints(HalfTurnZ, vs));
    forall i | 0 <= i < |vs|
      ensures quarter[i] == QuarterTurn2(Plan(vs))[i] && half[i] == HalfTurn2(Plan(vs))[i]
    {
    }
  }

  // ---------------------------------------------------------------------
  // Minimum-area rectangle search over the hull edges
  // ---------------------------------------------------------------------

  /** min_area starts as float('inf'). */
  datatype Bound = Infinity | Finite(value: real)

  function ExtentX(pts: seq<Point2>): real
    requires |pts| > 0
  {
    Extent(XsOf(pts))
  }

  function ExtentY(pts: seq<Point2>): real
    requires |pts| > 0
  {
    Extent(YsOf(pts))
  }

  /** Area of the axis-aligned bounding box. */
  function BoxArea(pts: seq<Point2>): (area: real)
    requires |pts| > 0
    ensures area >= 0.0
  {
    ExtentX(pts) * ExtentY(pts)
  }

  /** hull_points @ R.T with R = [[c, -s], [s, c]]. */
  function Rotated2(c: real, s: real, pts: seq<Point2>): seq<Point2>
  {
    seq(|pts|, i requires 0 <= i < |pts| => Point2(c * pts[i].x - s * pts[i].y, s * pts[i].x + c * pts[i].y))
  }

  /** Direction of hull edge i, as arctan2(dy, dx). */
  function EdgeAngle(hull: seq<Point2>, i: nat, trig: Trig): real
    requires i < |hull|
  {
    var e := Edge(hull, i);
    trig.atan2(e.b.y - e.a.y, e.b.x - e.a.x)
  }

  /** The hull turned about the origin by minus `angle`. */
  function TurnedBack(hull: seq<Point2>, angle: real, trig: Trig): seq<Point2>
  {
    Rotated2(trig.cos(-angle), trig.sin(-angle), hull)
  }

  /** Bounding-box area of the hull turned by minus the angle of edge i. */
  function CandidateArea(hull: seq<Point2>, i: nat, trig: Trig): (area: real)
    requires i < |hull|
    ensures area >= 0.0
  {
    BoxArea(TurnedBack(hull, EdgeAngle(hull, i, trig), trig))
  }

  function CandidateAreas(hull: seq<Point2>, trig: Trig): (areas: seq<real>)
    ensures |areas| == |hull|
  {
    seq(|hull|, i requires 0 <= i < |hull| => CandidateArea(hull, i, trig))
  }

  /** The angle the alignment stage rotates by: that of the first hull edge
      with the least candidate area, or 0 for an empty hull. */
  function BestAngle(hull: seq<Point2>, trig: Trig): real
  {
    if |hull| == 0 then 0.0 else EdgeAngle(hull, ArgMin(CandidateAreas(hull, trig)), trig)
  }

  /** The least candidate area over all hull edges; Infinity when the hull
      has no edges (min_area keeps its initial float('inf')). */
  function LeastArea(hull: seq<Point2>, trig: Trig): (b: Bound)
    ensures b == Infinity <==> |hull| == 0
    ensures b.Finite? ==> b.value >= 0.0
    ensures b.Finite? ==> forall i :: 0 <= i < |hull| ==> b.value <= CandidateArea(hull, i, trig)
    ensures b.Finite? ==> exists i :: 0 <= i < |hull| && b.value == CandidateArea(hull, i, trig)
  {
    if |hull| == 0 then Infinity
    else
      var areas := CandidateAreas(hull, trig);
      var k := ArgMin(areas);
      assert forall j :: 0 <= j < |hull| ==> areas[k] <= areas[j] == CandidateArea(hull, j, trig);
      Finite(areas[k])
  }

  /** The edge loop of the alignment stage: every hull edge is tried once, and
      the first strict minimum of the candidate areas wins. */
  method MinAreaRectangleAngle(hull: seq<Point2>, trig: Trig) returns (bestAngle: real, minArea: Bound)
    ensures bestAngle == BestAngle(hull, trig)
    ensures minArea == LeastArea(hull, trig)
  {
    minArea := Infinity;
    bestAngle := 0.0;
    ghost var areas := CandidateAreas(hull, trig);
    var n := |hull|;
    for i := 0 to n
      invariant i == 0 ==> minArea == Infinity && bestAngle == 0.0
      invariant 0 < i ==> minArea == Finite(areas[ArgMin(areas[..i])])
      invariant 0 < i ==> bestAngle == EdgeAngle(hull, ArgMin(areas[..i]), trig)
    {
      var angle := EdgeAngle(hull, i, trig);
      var rotated := TurnedBack(hull, angle, trig);
      var area := BoxArea(rotated);
      assert area == areas[i];
      if 0 < i {
        ArgMinStep(areas, i);
      }
      if minArea.Infinity? || area < minArea.value {
        minArea := Finite(area);
        bestAngle := angle;
      }
    }
    assert areas[..n] == areas;
  }

  // ---------------------------------------------------------------------
  // Landscape and "wider end at the top"
  // ---------------------------------------------------------------------

  lemma QuarterTurnSwapsExtents(pts: seq<Point2>)
    requires |pts| > 0
    ensures ExtentX(QuarterTurn2(pts)) == ExtentY(pts)
    ensures ExtentY(QuarterTurn2(pts)) == ExtentX(pts)
  {
    assert XsOf(QuarterTurn2(pts)) == Negated(YsOf(pts));
    assert YsOf(QuarterTurn2(pts)) == XsOf(pts);
    ExtentNegated(YsOf(pts));
  }

  /** Fraction of the Y range that makes up the top and bottom slices. */
  const SliceFraction: real := 0.1

  /** x of every point strictly above `bound` (the `y > bound` mask). */
  function XsAbove(pts: seq<Point2>, bound: real): (xs: seq<real>)
    ensures |xs| <= |pts|
  {
    if |pts| == 0 then []
    else (if pts[0].y > bound then [pts[0].x] else []) + XsAbove(pts[1..], bound)
  }

  /** x of every point strictly below `bound` (the `y < bound` mask). */
  function XsBelow(pts: seq<Point2>, bound: real): (xs: seq<real>)
    ensures |xs| <= |pts|
  {
    if |pts| == 0 then []
    else (if pts[0].y < bound then [pts[0].x] else []) + XsBelow(pts[1..], bound)
  }

  /** The slice holds exactly the x of the points above the bound. */
  lemma {:induction false} XsAboveMembers(pts: seq<Point2>, bound: real)
    ensures forall i :: 0 <= i < |pts| && pts[i].y > bound ==> pts[i].x in XsAbove(pts, bound)
    ensures forall x :: x in XsAbove(pts, bound) ==> exists i :: 0 <= i < |pts| && pts[i].y > bound && pts[i].x == x
  {
    if |pts| > 0 {
      XsAboveMembers(pts[1..], bound);
      var rest := XsAbove(pts[1..], bound);
      forall x | x in XsAbove(pts, bound)
        ensures exists i :: 0 <= i < |pts| && pts[i].y > bound && pts[i].x == x
      {
        if x !in rest {
          assert pts[0].y > bound && pts[0].x == x;
        } else {
          var j :| 0 <= j < |pts[1..]| && pts[1..][j].y > bound && pts[1..][j].x == x;
          assert pts[j + 1].y > bound && pts[j + 1].x == x;
        }
      }
      forall i | 0 <= i < |pts| && pts[i].y > bound
        ensures pts[i].x in XsAbove(pts, bound)
      {
        if i > 0 {
          assert pts[1..][i - 1] == pts[i];
        }
      }
    }
  }

  /** The slice holds exactly the x of the points below the bound. */
  lemma {:induction false} XsBelowMembers(pts: seq<Point2>, bound: real)
    ensures forall i :: 0 <= i < |pts| && pts[i].y < bound ==> pts[i].x in XsBelow(pts, bound)
    ensures forall x :: x in XsBelow(pts, bound) ==> exists i :: 0 <= i < |pts| && pts[i].y < bound && pts[i].x == x
  {
    if |pts| > 0 {
      XsBelowMembers(pts[1..], bound);
      var rest := XsBelow(pts[1..], bound);
      forall x | x in XsBelow(pts, bound)
        ensures exists i :: 0 <= i < |pts| && pts[i].y < bound && pts[i].x == x
      {
        if x !in rest {
          assert pts[0].y < bound && pts[0].x == x;
        } else {
          var j :| 0 <= j < |pts[1..]| && pts[1..][j].y < bound && pts[1..][j].x == x;
          assert pts[j + 1].y < bound && pts[j + 1].x == x;
        }
      }
      forall i | 0 <= i < |pts| && pts[i].y < bound
        ensures pts[i].x in XsBelow(pts, bound)
      {
        if i > 0 {
          assert pts[1..][i - 1] == pts[i];
        }
      }
    }
  }

  /** Width of a slice: 0 when it is empty, max - min of its x otherwise. */
  function SliceWidth(xs: seq<real>): (w: real)
    ensures w >= 0.0
  {
    if |xs| == 0 then 0.0 else Extent(xs)
  }

  function SliceTolerance(pts: seq<Point2>): real
    requires |pts| > 0
  {
    (Max(YsOf(pts)) - Min(YsOf(pts))) * SliceFraction
  }

  /** The top slice is every point with y > TopBound. */
  function TopBound(pts: seq<Point2>): real
    requires |pts| > 0
  {
    Max(YsOf(pts)) - SliceTolerance(pts)
  }

  /** The bottom slice is every point with y < BottomBound. */
  function BottomBound(pts: seq<Point2>): real
    requires |pts| > 0
  {
    Min(YsOf(pts)) + SliceTolerance(pts)
  }

  function TopWidth(pts: seq<Point2>): real
    requires |pts| > 0
  {
    SliceWidth(XsAbove(pts, TopBound(pts)))
  }

  function BottomWidth(pts: seq<Point2>): real
    requires |pts| > 0
  {
    SliceWidth(XsBelow(pts, BottomBound(pts)))
  }

  lemma {:induction false} HalfTurnSlices(pts: seq<Point2>, bound: real)
    ensures XsAbove(HalfTurn2(pts), -bound) == Negated(XsBelow(pts, bound))
    ensures XsBelow(HalfTurn2(pts), -bound) == Negated(XsAbove(pts, bound))
  {
    if |pts| > 0 {
      assert HalfTurn2(pts)[1..] == HalfTurn2(pts[1..]);
      HalfTurnSlices(pts[1..], bound);
      var headBelow := if pts[0].y < bound then [pts[0].x] else [];
      var headAbove := if pts[0].y > bound then [pts[0].x] else [];
      NegatedConcat(headBelow, XsBelow(pts[1..], bound));
      NegatedConcat(headAbove, XsAbove(pts[1..], bound));
    }
  }

  lemma SliceWidthNegated(xs: seq<real>)
    ensures SliceWidth(Negated(xs)) == SliceWidth(xs)
  {
    if |xs| > 0 {
      ExtentNegated(xs);
    }
  }

  lemma HalfTurnExtents(pts: seq<Point2>)
    requires |pts| > 0
    ensures ExtentX(HalfTurn2(pts)) == ExtentX(pts)
    ensures ExtentY(HalfTurn2(pts)) == ExtentY(pts)
  {
    assert XsOf(HalfTurn2(pts)) == Negated(XsOf(pts));
    assert YsOf(HalfTurn2(pts)) == Negated(YsOf(pts));
    ExtentNegated(XsOf(pts));
    ExtentNegated(YsOf(pts));
  }

  lemma HalfTurnBounds(pts: seq<Point2>)
    requires |pts| > 0
    ensures TopBound(HalfTurn2(pts)) == -BottomBound(pts)
    ensures BottomBound(HalfTurn2(pts)) == -TopBound(pts)
  {
    var ys := YsOf(pts);
    assert YsOf(HalfTurn2(pts)) == Negated(ys);
    MinNegated(ys);
    MaxNegated(ys);
  }

  lemma HalfTurnTopWidth(pts: seq<Point2>)
    requires |pts| > 0
    ensures TopWidth(HalfTurn2(pts)) == BottomWidth(pts)
  {
    var bottom := XsBelow(pts, BottomBound(pts));
    HalfTurnBounds(pts);
    HalfTurnSlices(pts, BottomBound(pts));
    assert XsAbove(HalfTurn2(pts), TopBound(HalfTurn2(pts))) == Negated(bottom);
    SliceWidthNegated(bottom);
  }

  lemma HalfTurnBottomWidth(pts: seq<Point2>)
    requires |pts| > 0
    ensures BottomWidth(HalfTurn2(pts)) == TopWidth(pts)
  {
    var top := XsAbove(pts, TopBound(pts));
    HalfTurnBounds(pts);
    HalfTurnSlices(pts, TopBound(pts));
    assert XsBelow(HalfTurn2(pts), BottomBound(HalfTurn2(pts))) == Negated(top);
    SliceWidthNegated(top);
  }

  /** A half turn about Z keeps both extents and exchanges the top and bottom
      slice widths. */
  lemma HalfTurnSwapsWidths(pts: seq<Point2>)
    requires |pts| > 0
    ensures ExtentX(HalfTurn2(pts)) == ExtentX(pts)
    ensures ExtentY(HalfTurn2(pts)) == ExtentY(pts)
    ensures TopWidth(HalfTurn2(pts)) == BottomWidth(pts)
    ensures BottomWidth(HalfTurn2(pts)) == TopWidth(pts)
  {
    HalfTurnExtents(pts);
    HalfTurnTopWidth(pts);
    HalfTurnBottomWidth(pts);
  }

  // ---------------------------------------------------------------------
  // Z levelling
  // ---------------------------------------------------------------------

  function Abs(a: real): real
  {
    if a < 0.0 then -a else a
  }

  /** np.isclose with its default tolerances rtol = 1e-5 and atol = 1e-8. */
  predicate IsClose(a: real, b: real)
  {
    Abs(a - b) <= 0.00000001 + 0.00001 * Abs(b)
  }

  // ---------------------------------------------------------------------
  // The stages as functions of the vertex positions
  // ---------------------------------------------------------------------

  function PoseStage(vs: seq<Point3>, transforms: seq<Affine>, probs: seq<real>): seq<Point3>
    requires |transforms| == |probs| > 0
  {
    MapPoints(AffineMap(transforms[ArgMax(probs)]), vs)
  }

  function FlipStage(vs: seq<Point3>, flip: bool): seq<Point3>
  {
    if flip then MapPoints(FlipAboutX, vs) else vs
  }

  /** rotation_matrix(-angle, [0, 0, 1]). */
  function AlignRotation(angle: real, trig: Trig): Point3 -> Point3
  {
    RotationZ(trig.cos(-angle), trig.sin(-angle))
  }

  /** The convex hull of the plan, as the hull routine returns it. */
  function HullOf(convexHull: seq<Point2> -> seq<Point2>, vs: seq<Point3>): seq<Point2>
  {
    convexHull(Plan(vs))
  }

  function AlignStage(vs: seq<Point3>, hull: seq<Point2>, trig: Trig): seq<Point3>
  {
    MapPoints(AlignRotation(BestAngle(hull, trig), trig), vs)
  }

  function LandscapeStage(vs: seq<Point3>): (r: seq<Point3>)
    requires |vs| > 0
    ensures |r| == |vs|
  {
    if ExtentY(Plan(vs)) > ExtentX(Plan(vs)) then MapPoints(QuarterTurnZ, vs) else vs
  }

  function WideEndUpStage(vs: seq<Point3>): (r: seq<Point3>)
    requires |vs| > 0
    ensures |r| == |vs|
  {
    if BottomWidth(Plan(vs)) > TopWidth(Plan(vs)) then MapPoints(HalfTurnZ, vs) else vs
  }

  function LevelStage(vs: seq<Point3>): (r: seq<Point3>)
    requires |vs| > 0
    ensures |r| == |vs|
  {
    var minZ := Min(ZsOf(vs));
    if IsClose(minZ, 0.0) then vs else MapPoints(Translation(Point3(0.0, 0.0, -minZ)), vs)
  }

  /** The whole chain; with no stable pose the mesh is left as it is. */
  function Canonical(vs: seq<Point3>, transforms: seq<Affine>, probs: seq<real>, flip: bool,
                     convexHull: seq<Point2> -> seq<Point2>, trig: Trig): (r: seq<Point3>)
    requires |vs| > 0 && |transforms| == |probs|
    ensures |r| == |vs|
    ensures |probs| == 0 ==> r == vs
  {
    if |probs| == 0 then vs
    else
      var flipped := FlipStage(PoseStage(vs, transforms, probs), flip);
      var aligned := AlignStage(flipped, HullOf(convexHull, flipped), trig);
      LevelStage(WideEndUpStage(LandscapeStage(aligned)))
  }

  // ---------------------------------------------------------------------
  // What each stage guarantees
  // ---------------------------------------------------------------------

  /** The chosen pose is the first one of greatest probability. */
  lemma PoseStageUsesFirstMostProbable(vs: seq<Point3>, transforms: seq<Affine>, probs: seq<real>)
    requires |transforms| == |probs| > 0
    ensures exists k :: (&& 0 <= k < |probs|
                         && PoseStage(vs, transforms, probs) == MapPoints(AffineMap(transforms[k]), vs)
                         && (forall j :: 0 <= j < |probs| ==> probs[j] <= probs[k])
                         && (forall j :: 0 <= j < k ==> probs[j] < probs[k]))
  {
    var k := ArgMax(probs);
    assert PoseStage(vs, transforms, probs) == MapPoints(AffineMap(transforms[k]), vs);
  }

  /** The flip maps (x, y, z) to (x, -y, -z), and only when asked for. */
  lemma FlipStageSpec(vs: seq<Point3>, flip: bool)
    ensures |FlipStage(vs, flip)| == |vs|
    ensures forall i :: 0 <= i < |vs| ==>
      FlipStage(vs, flip)[i] == if flip then Point3(vs[i].x, -vs[i].y, -vs[i].z) else vs[i]
  {
  }

  lemma LandscapeStageSpec(vs: seq<Point3>)
    requires |vs| > 0
    ensures ExtentX(Plan(LandscapeStage(vs))) >= ExtentY(Plan(LandscapeStage(vs)))
    ensures ExtentY(Plan(vs)) > ExtentX(Plan(vs)) ==>
      ExtentX(Plan(LandscapeStage(vs))) == ExtentY(Plan(vs)) &&
      ExtentY(Plan(LandscapeStage(vs))) == ExtentX(Plan(vs))
    ensures ExtentY(Plan(vs)) <= ExtentX(Plan(vs)) ==> LandscapeStage(vs) == vs
  {
    PlanOfTurns(vs);
    QuarterTurnSwapsExtents(Plan(vs));
  }

  lemma WideEndUpStageSpec(vs: seq<Point3>)
    requires |vs| > 0
    ensures TopWidth(Plan(WideEndUpStage(vs))) >= BottomWidth(Plan(WideEndUpStage(vs)))
    ensures ExtentX(Plan(WideEndUpStage(vs))) == ExtentX(Plan(vs))
    ensures ExtentY(Plan(WideEndUpStage(vs))) == ExtentY(Plan(vs))
    ensures BottomWidth(Plan(vs)) > TopWidth(Plan(vs)) ==>
      TopWidth(Plan(WideEndUpStage(vs))) == BottomWidth(Plan(vs)) &&
      BottomWidth(Plan(WideEndUpStage(vs))) == TopWidth(Plan(vs))
    ensures BottomWidth(Plan(vs)) <= TopWidth(Plan(vs)) ==> WideEndUpStage(vs) == vs
  {
    PlanOfTurns(vs);
    HalfTurnSwapsWidths(Plan(vs));
  }

  lemma LevelStageSpec(vs: seq<Point3>)
    requires |vs| > 0
    ensures Plan(LevelStage(vs)) == Plan(vs)
    ensures ZsOf(LevelStage(vs)) == if IsClose(Min(ZsOf(vs)), 0.0) then ZsOf(vs) else Shifted(ZsOf(vs), -Min(ZsOf(vs)))
    ensures !IsClose(Min(ZsOf(vs)), 0.0) ==> Min(ZsOf(LevelStage(vs))) == 0.0
    ensures IsClose(Min(ZsOf(LevelStage(vs))), 0.0)
  {
    var minZ := Min(ZsOf(vs));
    if !IsClose(minZ, 0.0) {
      var r := LevelStage(vs);
      assert ZsOf(r) == Shifted(ZsOf(vs), -minZ);
      MinShifted(ZsOf(vs), -minZ);
    }
  }

  /** After a stable pose is found, the result is landscape, has its wider end
      at the top and rests on z = 0 (up to np.isclose). */
  lemma CanonicalSpec(vs: seq<Point3>, transforms: seq<Affine>, probs: seq<real>, flip: bool,
                      convexHull: seq<Point2> -> seq<Point2>, trig: Trig)
    requires |vs| > 0 && |transforms| == |probs| > 0
    ensures var r := Canonical(vs, transforms, probs, flip, convexHull, trig);
      && ExtentX(Plan(r)) >= ExtentY(Plan(r))
      && TopWidth(Plan(r)) >= BottomWidth(Plan(r))
      && IsClose(Min(ZsOf(r)), 0.0)
  {
    var flipped := FlipStage(PoseStage(vs, transforms, probs), flip);
    var aligned := AlignStage(flipped, HullOf(convexHull, flipped), trig);
    var landscape := LandscapeStage(aligned);
    var wide := WideEndUpStage(landscape);
    LandscapeStageSpec(aligned);
    WideEndUpStageSpec(landscape);
    LevelStageSpec(wide);
  }

  // ---------------------------------------------------------------------
  // The mesh, transformed in place
  // ---------------------------------------------------------------------

  /** A triangle as three indices into the vertex array. */
  datatype Face = Face(a: nat, b: nat, c: nat)

  class Mesh {
    const vertices: array<Point3>
    const faces: seq<Face>

    ghost predicate Valid()
      reads this
    {
      && vertices.Length > 0
      && forall f :: f in faces ==> f.a < vertices.Length && f.b < vertices.Length && f.c < vertices.Length
    }

    constructor (vs: seq<Point3>, fs: seq<Face>)
      requires |vs| > 0
      requires forall f :: f in fs ==> f.a < |vs| && f.b < |vs| && f.c < |vs|
      ensures Valid() && fresh(vertices)
      ensures vertices[..] == vs && faces == fs
    {
      vertices := new Point3[|vs|](i requires 0 <= i < |vs| => vs[i]);
      faces := fs;
    }

    /** mesh.apply_transform: every vertex is moved by f; faces are kept. */
    method ApplyTransform(f: Point3 -> Point3)
      requires Valid()
      modifies vertices
      ensures Valid()
      ensures vertices[..] == MapPoints(f, old(vertices[..]))
    {
      for i := 0 to vertices.Length
        invariant forall k :: 0 <= k < i ==> vertices[k] == f(old(vertices[k]))
        invariant forall k :: i <= k < vertices.Length ==> vertices[k] == old(vertices[k])
      {
        vertices[i] := f(vertices[i]);
      }
    }

    /** mesh.apply_translation. */
    method ApplyTranslation(offset: Point3)
      requires Valid()
      modifies vertices
      ensures Valid()
      ensures vertices[..] == MapPoints(Translation(offset), old(vertices[..]))
    {
      ApplyTransform(Translation(offset));
    }
  }

  // ---------------------------------------------------------------------
  // The stages, performed in place on the mesh
  // ---------------------------------------------------------------------

  /** Apply the most probable stable pose. */
  method ApplyMostStablePose(mesh: Mesh, transforms: seq<Affine>, probs: seq<real>)
    requires mesh.Valid()
    requires |transforms| == |probs| > 0
    modifies mesh.vertices
    ensures mesh.Valid()
    ensures mesh.vertices[..] == PoseStage(old(mesh.vertices[..]), transforms, probs)
  {
    var best := ArgMax(probs);
    mesh.ApplyTransform(AffineMap(transforms[best]));
  }

  /** The optional 180 degree turn about X. */
  method ApplyFlip(mesh: Mesh, flip: bool)
    requires mesh.Valid()
    modifies mesh.vertices
    ensures mesh.Valid()
    ensures mesh.vertices[..] == FlipStage(old(mesh.vertices[..]), flip)
  {
    if flip {
      mesh.ApplyTransform(FlipAboutX);
    }
  }

  /** Turn the mesh about Z so that the best hull edge lies along X. */
  method AlignToMinAreaRectangle(mesh: Mesh, convexHull: seq<Point2> -> seq<Point2>, trig: Trig)
    requires mesh.Valid()
    modifies mesh.vertices
    ensures mesh.Valid()
    ensures mesh.vertices[..] == AlignStage(old(mesh.vertices[..]), HullOf(convexHull, old(mesh.vertices[..])), trig)
  {
    var hull := HullOf(convexHull, mesh.vertices[..]);
    var bestAngle, _ := MinAreaRectangleAngle(hull, trig);
    mesh.ApplyTransform(AlignRotation(bestAngle, trig));
  }

  /** A quarter turn about Z when the mesh is taller than it is wide. */
  method MakeLandscape(mesh: Mesh)
    requires mesh.Valid()
    modifies mesh.vertices
    ensures mesh.Valid()
    ensures mesh.vertices[..] == LandscapeStage(old(mesh.vertices[..]))
  {
    var xy := Plan(mesh.vertices[..]);
    if ExtentY(xy) > ExtentX(xy) {
      mesh.ApplyTransform(QuarterTurnZ);
    }
  }

  /** A half turn about Z when the bottom slice is wider than the top one. */
  method PutWideEndUp(mesh: Mesh)
    requires mesh.Valid()
    modifies mesh.vertices
    ensures mesh.Valid()
    ensures mesh.vertices[..] == WideEndUpStage(old(mesh.vertices[..]))
  {
    var xy := Plan(mesh.vertices[..]);
    var topWidth := TopWidth(xy);
    var bottomWidth := BottomWidth(xy);
    if bottomWidth > topWidth {
      mesh.ApplyTransform(HalfTurnZ);
    }
  }

  /** Translate along Z so that the lowest vertex is at z = 0, unless it
      already is up to np.isclose. */
  method LevelOnZero(mesh: Mesh)
    requires mesh.Valid()
    modifies mesh.vertices
    ensures mesh.Valid()
    ensures mesh.vertices[..] == LevelStage(old(mesh.vertices[..]))
  {
    var minZ := Min(ZsOf(mesh.vertices[..]));
    if !IsClose(minZ, 0.0) {
      mesh.ApplyTranslation(Point3(0.0, 0.0, -minZ));
    }
  }

  /** orient_largest_face_down, between loading and exporting the mesh: the
      stable poses (transforms with probabilities), the convex hull routine
      and the trigonometric routines are inputs. */
  method OrientLargestFaceDown(mesh: Mesh, transforms: seq<Affine>, probs: seq<real>, flip: bool,
                               convexHull: seq<Point2> -> seq<Point2>, trig: Trig)
    requires mesh.Valid()
    requires |transforms| == |probs|
    modifies mesh.vertices
    ensures mesh.Valid()
    ensures mesh.vertices[..] == Canonical(old(mesh.vertices[..]), transforms, probs, flip, convexHull, trig)
  {
    if |transforms| == 0 {
      return;
    }
    ApplyMostStablePose(mesh, transforms, probs);
    ApplyFlip(mesh, flip);
    AlignToMinAreaRectangle(mesh, convexHull, trig);
    MakeLandscape(mesh);
    PutWideEndUp(mesh);
    LevelOnZero(mesh);
  }
}
