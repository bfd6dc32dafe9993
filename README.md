# Mesh canonicaliser and contour symmetriser

A Dafny model of the two geometric pipelines of the mounting-template tools.

**`tools/orient_stl.py` (`orient_largest_face_down`), module `OrientStl`.** The
mesh is changed in place by a fixed chain of rigid transforms:

1. rest the mesh on its most probable stable pose (the first one on ties);
2. optionally turn it 180° about X;
3. align it to the minimum-area rectangle of its plan's convex hull (every hull
   edge is tried and the first strict minimum wins);
4. turn it 90° about Z when it is taller (Y) than wide (X);
5. turn it 180° about Z when the bottom 10% slice is wider than the top one;
6. translate it along Z so the lowest vertex is at z = 0, unless it already
   is (`np.isclose`).

With no stable pose the mesh is left untouched. `Mesh` is a class over a vertex
array. Each stage is a method that rewrites the array in place, proved equal to a
stage function on the vertex sequence. Lemmas about those functions prove the
geometry the script aims for: the result is landscape, has its wider end at the
top and rests on z = 0 (up to `np.isclose`).

**`tools/vehicle_specific/refine_trace.py`, module `RefineTrace`.** The script
takes the numbers of an SVG path and pairs them into points. It then turns the
points half a turn about their centroid. It cuts the outline with 200 evenly
spaced horizontal lines, keeps the half-width between the outermost crossings of
each line, and stitches a left/right mirror-symmetric outline: the left profile,
then the reversed right one. It writes that outline as a closed SVG path whose
view box is the bounding box grown by a margin of 5. The loops of the script are
methods proved against specification functions. Lemmas about those functions
prove the contracts:
- pairing round-trips;
- the crossings are exactly the interpolated edge crossings, sorted;
- each crossing lies between its edge's endpoints;
- the recentred centroid is the origin;
- the levels run from min to max without decreasing;
- the profiles mirror each other;
- the stitched outline is symmetric and twice the profile length;
- the path visits exactly the outline's points inside the margin.

Module `Geometry` holds what both scripts share: points, min/max as first
argmin/argmax, extents, sums, a verified sort, and the edges of a closed
polygon. Module `Wrappers` holds `Option` and `Result`.

Facts about the code that the model keeps:
- levelling is skipped when `np.isclose(min_z, 0)` holds with numpy's
  defaults, rtol 1e-5 and atol 1e-8, so when |min_z| <= 1e-8;
- the slice count (200) and the margin (5) are constants of the script;
- the user flip is the rotation by pi about the X axis, (x, y, z) to
  (x, -y, -z).

## Model

| member | source | states |
|---|---|---|
| Geometry.ArgMax | tools/orient_stl.py:19 | `np.argmax`: an index of the greatest probability, and the first such index (every earlier value is strictly smaller) |
| Geometry.ArgMin | tools/orient_stl.py:72-74 | the first index holding the least value: no later value is smaller, every earlier one is strictly greater |
| Geometry.ArgMinStep | tools/orient_stl.py:72-74 | a scan that keeps the first strict minimum moves to index i exactly when `s[i]` is below the minimum so far |
| Geometry.Min | tools/orient_stl.py:65-68 | `np.min` is a lower bound of every element |
| Geometry.Max | tools/orient_stl.py:65-68 | `np.max` is an upper bound of every element |
| Geometry.Extent | tools/orient_stl.py:82-83 | an extent (max - min) is never negative |
| Geometry.ExtentNegated | tools/orient_stl.py:120-121 | negating an axis (a half turn) keeps its extent |
| Geometry.MinShifted | tools/orient_stl.py:131-132 | translating every z by d moves the least z by d |
| Geometry.Insert | tools/vehicle_specific/refine_trace.py:78 | inserting into a sorted list keeps it sorted and adds exactly that element (multiset) |
| Geometry.SortAscending | tools/vehicle_specific/refine_trace.py:78 | `sorted()`: the result is ascending and a permutation of the input |
| Geometry.SortedEnds | tools/vehicle_specific/refine_trace.py:121-123 | the first and last of a sorted list are its minimum and maximum |
| Geometry.Edge | tools/vehicle_specific/refine_trace.py:64-65 | edge i runs from point i to point i + 1, and the last edge closes back to point 0 |
| OrientStl.ExactTurnsAreRotations | tools/orient_stl.py:85-86 | the 90° and 180° turns about Z are the rotations with (cos, sin) = (0, 1) and (-1, 0), a half turn is two quarter turns, and the user flip is the rotation about X with (cos, sin) = (-1, 0) |
| OrientStl.BoxArea | tools/orient_stl.py:65-70 | the bounding-box area `(max_x - min_x) * (max_y - min_y)` is never negative |
| OrientStl.CandidateArea | tools/orient_stl.py:54-70 | the area tested for each hull edge is never negative |
| OrientStl.LeastArea | tools/orient_stl.py:45-74 | `min_area` stays infinite exactly when the hull has no edges; otherwise it is one edge's area and no larger than any edge's area |
| OrientStl.MinAreaRectangleAngle | tools/orient_stl.py:45-74 | the edge loop returns the angle of the first edge of least area (0 with no edges) and that least area |
| OrientStl.QuarterTurnSwapsExtents | tools/orient_stl.py:82-86 | a 90° turn about Z exchanges the X and Y extents |
| OrientStl.XsAboveMembers | tools/orient_stl.py:103-105 | the top slice holds the x of exactly the points with y above the bound |
| OrientStl.XsBelowMembers | tools/orient_stl.py:110-112 | the bottom slice holds the x of exactly the points with y below the bound |
| OrientStl.SliceWidth | tools/orient_stl.py:104-107 | a slice's width (0 when empty) is never negative |
| OrientStl.HalfTurnSlices | tools/orient_stl.py:118-121 | after a 180° turn the top slice is the old bottom slice mirrored, and the bottom slice is the old top one mirrored |
| OrientStl.HalfTurnSwapsWidths | tools/orient_stl.py:118-121 | a 180° turn keeps both extents and exchanges the top and bottom widths |
| OrientStl.Canonical | tools/orient_stl.py:14-17 | the chain keeps the vertex count and, with no stable pose, leaves the vertices unchanged |
| OrientStl.PoseStageUsesFirstMostProbable | tools/orient_stl.py:19-22 | the applied pose is the first one whose probability is the greatest |
| OrientStl.FlipStageSpec | tools/orient_stl.py:24-28 | with the flag each vertex (x, y, z) becomes (x, -y, -z); without it nothing moves |
| OrientStl.LandscapeStageSpec | tools/orient_stl.py:82-86 | afterwards X-extent >= Y-extent; a turn happens exactly when Y > X, and it swaps the extents |
| OrientStl.WideEndUpStageSpec | tools/orient_stl.py:95-121 | afterwards top width >= bottom width and both extents are unchanged; a half turn happens exactly when the bottom is wider, and it swaps the widths |
| OrientStl.LevelStageSpec | tools/orient_stl.py:126-132 | the plan is unchanged; z is shifted by -min_z unless min_z is close to 0; afterwards min_z is 0 or was already close to it |
| OrientStl.CanonicalSpec | tools/orient_stl.py:19-132 | with a stable pose the result is landscape, has top width >= bottom width and its min z is close to 0 |
| OrientStl.Mesh.ApplyTransform | tools/orient_stl.py:22 | `apply_transform` maps every vertex through the transform and keeps the faces valid |
| OrientStl.Mesh.ApplyTranslation | tools/orient_stl.py:132 | `apply_translation` adds the offset to every vertex |
| OrientStl.ApplyMostStablePose | tools/orient_stl.py:19-22 | the vertices become the pose stage of the old ones |
| OrientStl.ApplyFlip | tools/orient_stl.py:24-28 | the vertices become the flip stage of the old ones |
| OrientStl.AlignToMinAreaRectangle | tools/orient_stl.py:34-79 | the vertices are turned about Z by minus the angle of the best edge of the hull of their plan |
| OrientStl.MakeLandscape | tools/orient_stl.py:82-86 | the vertices become the landscape stage of the old ones |
| OrientStl.PutWideEndUp | tools/orient_stl.py:95-121 | the vertices become the wide-end-up stage of the old ones |
| OrientStl.LevelOnZero | tools/orient_stl.py:126-132 | the vertices become the levelling stage of the old ones |
| OrientStl.OrientLargestFaceDown | tools/orient_stl.py:7-135 | the mesh's vertices end up as the canonical chain applied to the original vertices |
| RefineTrace.Paired | tools/vehicle_specific/refine_trace.py:19-22 | point k is (numbers[2k], numbers[2k+1]); there are floor(n/2) points, so an odd last number is dropped |
| RefineTrace.PairedFlatten | tools/vehicle_specific/refine_trace.py:19-22 | pairing the flattened coordinates of a point list gives back that list |
| RefineTrace.FlattenPaired | tools/vehicle_specific/refine_trace.py:19-22 | flattening the pairs gives back every number except an odd last one |
| RefineTrace.PathPoints | tools/vehicle_specific/refine_trace.py:11-22 | without path data the parse fails with MissingPathData; otherwise it yields floor(n/2) points |
| RefineTrace.ParseSvgPathPoints | tools/vehicle_specific/refine_trace.py:11-24 | the step-2 pairing loop computes PathPoints |
| RefineTrace.Recentred | tools/vehicle_specific/refine_trace.py:96-98 | recentring keeps the number of points |
| RefineTrace.RecentredCentroidIsOrigin | tools/vehicle_specific/refine_trace.py:96-98 | the mean of `-(points - centroid)` is (0, 0) |
| RefineTrace.LinspaceOrdered | tools/vehicle_specific/refine_trace.py:109 | a level with a larger index is never lower |
| RefineTrace.LinspaceSpec | tools/vehicle_specific/refine_trace.py:102-109 | there are n levels, from min_y exactly to max_y exactly, non-decreasing, all within [min_y, max_y] |
| RefineTrace.CrossingXBetween | tools/vehicle_specific/refine_trace.py:72-76 | the interpolated x lies between the edge's end x values and equals an end's x when y is that end's y |
| RefineTrace.CrossingsUpToMembers | tools/vehicle_specific/refine_trace.py:63-76 | x is collected from the first i edges exactly when one of them spans y with height > 1e-9 and crosses y at x |
| RefineTrace.SortedCrossings | tools/vehicle_specific/refine_trace.py:78 | the returned crossings are sorted, a permutation of those collected, and no more than the edges |
| RefineTrace.SortedCrossingsMembers | tools/vehicle_specific/refine_trace.py:60-78 | x is returned exactly when some edge crosses y at x |
| RefineTrace.GetIntersections | tools/vehicle_specific/refine_trace.py:60-78 | the edge loop plus `sorted()` computes SortedCrossings |
| RefineTrace.HalfWidth | tools/vehicle_specific/refine_trace.py:122-127 | `(xs[-1] - xs[0]) / 2` is non-negative on sorted crossings |
| RefineTrace.HalfWidthIsHalfExtent | tools/vehicle_specific/refine_trace.py:121-127 | on sorted crossings the half-width is half of max - min |
| RefineTrace.LevelHalfWidth | tools/vehicle_specific/refine_trace.py:117-127 | a level yields a half-width exactly when it has at least two crossings, and that half-width is non-negative |
| RefineTrace.HalfWidths | tools/vehicle_specific/refine_trace.py:116-127 | one outcome per level, every half-width non-negative |
| RefineTrace.ProfilesMirror | tools/vehicle_specific/refine_trace.py:129-130 | the left profile is the right profile mirrored in the Y axis, with the same heights |
| RefineTrace.RightProfileMembers | tools/vehicle_specific/refine_trace.py:116-130 | a point is on the right profile exactly when some level y has half-width hw and the point is (hw, y) |
| RefineTrace.RightProfileAscending | tools/vehicle_specific/refine_trace.py:116-130 | over non-decreasing levels the profile heights are non-decreasing |
| RefineTrace.SliceLevel | tools/vehicle_specific/refine_trace.py:117-127 | one level of the loop computes LevelHalfWidth |
| RefineTrace.BuildProfiles | tools/vehicle_specific/refine_trace.py:111-130 | the level loop builds LeftProfile and RightProfile of the levels' half-widths |
| RefineTrace.Reverse | tools/vehicle_specific/refine_trace.py:150 | `[::-1]`: element k is element n-1-k of the input |
| RefineTrace.Stitch | tools/vehicle_specific/refine_trace.py:149-156 | an empty left profile fails with NoValidIntersections; otherwise the lengths add up |
| RefineTrace.StitchSymmetric | tools/vehicle_specific/refine_trace.py:149-156 | stitching fails exactly on empty profiles; otherwise it yields 2 x the profile length points and holds (-x, y) with every (x, y) |
| RefineTrace.BoxOf | tools/vehicle_specific/refine_trace.py:27-39 | the view box is at least 2 x margin wide and high |
| RefineTrace.BoxOfSpec | tools/vehicle_specific/refine_trace.py:27-39 | every point is at least the margin inside the view box, and on each side some point is exactly the margin away |
| RefineTrace.PathOfSpec | tools/vehicle_specific/refine_trace.py:47-53 | the path is M p0, then L p_i for each later point in order, then Z, and visits exactly the points |
| RefineTrace.WriteSvg | tools/vehicle_specific/refine_trace.py:26-55 | the written document is the margin box with the closed path through the points |
| RefineTrace.SymmetricOutline | tools/vehicle_specific/refine_trace.py:95-156 | the only way recentring, slicing and stitching fail is NoValidIntersections |
| RefineTrace.SymmetricOutlineSpec | tools/vehicle_specific/refine_trace.py:95-156 | a stitched outline has an even, non-zero point count, is mirror-symmetric, and its left half runs up the levels |
| RefineTrace.Document | tools/vehicle_specific/refine_trace.py:26-55 | the document's path visits exactly the outline and ends with Z, and every outline point is the margin inside the view box |
| RefineTrace.RefinedTrace | tools/vehicle_specific/refine_trace.py:80-159 | no path data gives MissingPathData, no point gives NoPoints, and every other failure is NoValidIntersections |
| RefineTrace.RefinedTraceSymmetric | tools/vehicle_specific/refine_trace.py:93-159 | a written trace is a closed path through an even, non-zero number of mirror-symmetric points, each the margin inside the view box |
| RefineTrace.Refine | tools/vehicle_specific/refine_trace.py:92-159 | main from the parsed numbers to the document computes RefinedTrace |

## Left out

- Floating point: coordinates are reals, and IEEE rounding is not modelled. Equalities such as "the centroid is the origin" and "the minimum z is 0" hold exactly in the model but only approximately in the program.
- Stable-pose computation (`trimesh.poses.compute_stable_poses`) is external. Its transforms and probabilities are inputs.
- Convex hull (`scipy.spatial.ConvexHull`) is external. It is a function parameter from a plan to its hull points.
- HullOf: the hull parameter is total. `ConvexHull` raises QhullError on a plan with fewer than three points or with all its points collinear, and the script stops before the edge loop; that crash is not modelled. The model accepts any hull, including an empty one, for which the angle stays 0 as the loop's initial value.
- `arctan2`, `cos` and `sin` are external. They are the `Trig` parameter, so an arbitrary-angle rotation is modelled as the matrix `[[c, -s], [s, c]]` of whatever values they return. The model does not assume c² + s² = 1, so it proves nothing that needs rotations to preserve distances.
- The exact 90° and 180° turns and the flip are exact point maps, not `rotation_matrix` values with rounding in them.
- `mesh.extents` and `mesh.bounds` are taken over all vertices; trimesh uses the vertices referenced by faces.
- Loading and exporting the mesh, reading and writing the SVG files, `print` messages, `argparse`/`sys.argv` and the file-existence check are I/O.
- The regular expression search for `d="..."` and the split/`float` parsing are left out. The model takes the parsed numbers as input: None when no `d` attribute is found, otherwise the numbers in order.
- The text of the SVG is not modelled: the XML header, `mm` units, `.4f` formatting and the style attribute. The document is its view box plus a list of path commands.
- RefinedTrace: an input with no point (fewer than two numbers) fails with NoPoints. The script crashes there, inside numpy, on the empty array.
- WriteSvg: requires a non-empty point list. `write_svg` fails on an empty one, and `main` only calls it after the empty-profile check.
- SymmetricOutline: requires a non-empty point list. With no pair the parse yields a one-dimensional empty array, `np.mean` of it only warns, and the script fails with an IndexError at `rotated_points[:, 1]`; RefinedTrace reports that case as NoPoints before calling SymmetricOutline.
- HalfWidths: the per-level outcomes are a recursive function over the levels. The loop that computes them is BuildProfiles with its helper SliceLevel.
- LandscapeStage, WideEndUpStage, LevelStage: their own contracts state only the vertex count. What they do is stated by LandscapeStageSpec, WideEndUpStageSpec and LevelStageSpec.
