# Collision kernel in Dafny

This project models the geometric predicates of a small game-engine collision
library, `collision.cpp` and the types it declares in `collision.h`, and
proves what those predicates decide. It covers:

- **Planes.** A plane is the coefficients of `ax + by + cz + d = 0`. The
  library evaluates the signed distance of a point and builds a plane from a
  point and a normal or from three points. It normalises a plane in place.
- **Bounding spheres.** Two spheres collide when the squared distance between
  their centres is below the squared sum of their radii.
- **The view frustum.**
  - Six planes, extracted from a combined view-projection matrix by the
    Gribb–Hartmann method.
  - Containment tests for points, spheres, boxes and compound volumes, each
    a loop over the six planes.
- **Rays.** Intersection tests against:
  - a sphere;
  - an axis-aligned box, using the eight-octant Plücker-coordinate test of
    Mahovsky and Wyvill;
  - a plane, which also reports the ray parameter and the intersection point;
  - a compound bounding volume.

The arithmetic is exact: every coordinate is a `real`.

Where the library computes `1/|n|`, the model takes the factor `k` as a
parameter, constrained by `InverseLength(n, k)`: `k > 0` and
`k*k*(n·n) == 1`. Where it compares against zero "within tolerance", the
model uses `CloseEnough(a, b, eps)`, which is `|a - b| < eps` for a positive
tolerance `eps`.

Value types are Dafny `datatype`s: `Vec3`, `Plane`, `BoundingBox`,
`BoundingSphere`, `BoundingVolume` and `Ray`. The two objects whose fields
the library updates in place are classes:

- `Planes.MutablePlane` has fields `n` and `d`. Its methods are `Set`,
  `Normalize`, `FromPointNormal` and `FromPoints`.
- `Frustums.Frustum` has `planes: array<Plane>` of length six.
  `ExtractPlanes` writes the array; the four queries read it in `for` loops.

Each query method is proved against a specification predicate on
`planes[..]`. The predicates' properties are proved as lemmas.

The ray–box test is modelled branch for branch. Two proofs cover it:

- every branch equals the all-positive branch applied to the ray and box
  mirrored on the axes where the direction is negative;
- the all-positive branch reports a hit exactly when the ray meets the closed
  box, for a well-formed box and a nonzero direction.

Modules (one per file):

- `Vectors` (`vectors.dfy`)
- `Planes` (`planes.dfy`)
- `Bounds` (`bounds.dfy`)
- `Frustums` (`frustum.dfy`)
- `Rays` (`rays.dfy`)
- `RayBoxes` (`raybox.dfy`)
- `RayPlanes` (`rayplane.dfy`)
- `RayVolumes` (`rayvolume.dfy`)
- `RayScenarios` (`rayscenarios.dfy`): the ray tests' sphere and box cases

### Where the model follows the code

- **Rows or columns.** The Gribb–Hartmann paper cited at
  `collision.cpp:190-197` builds each plane from rows of the combined matrix.
  The code at `collision.cpp:202-250` indexes `m[i][k]` with `i` running over
  the four coefficients, so each plane is built from column 3 combined with
  column 0, 1 or 2. The near plane is column 2 alone. The model does exactly
  that.
  - `Frustums.ExtractedContainsClipVolume` proves what these planes bound:
    the clip volume `-w < x < w`, `-w < y < w`, `0 < z < w`, with clip
    coordinates taken as row vector times matrix.
- **The final `return false`** of the ray–box test (`collision.cpp:589`) is
  unreachable. The three nested `if`/`else` pairs cover every direction. In
  the model the branch expression is exhaustive, so that line has no
  counterpart.
- **Box corners.** `boxInFrustum` builds its corners as centre ± half size.
  `Frustums.CornersAreVertices` proves that they are exactly the eight
  min/max combinations.

## Model

| member | source | states |
|---|---|---|
| Vectors.CrossOrthogonal | collision.cpp:155-158 | the cross product used as a plane normal is orthogonal to both edge vectors |
| Vectors.DotScaleSelf | collision.cpp:172-176 | scaling a vector by k scales its squared length by k² |
| Planes.SignedDistance | collision.cpp:127-137 | Plane::dot: n·pt + d, positive in front of the plane, negative behind, 0 on it |
| Planes.Normalized | collision.cpp:172-177 | normalize: n and d both multiplied by the factor k = 1/\|n\| |
| Planes.Equal | collision.cpp:139-142 | operator==: normals equal component-wise within tolerance and d equal within tolerance |
| Planes.NotEqual | collision.cpp:144-147 | operator!=: the negation of Equal |
| Planes.EdgeNormal | collision.cpp:157 | fromPoints' unnormalised normal: the cross product (pt2 - pt1) × (pt3 - pt1) |
| Planes.NormalizedDistance | collision.cpp:172-177 | after scaling n and d by k, every signed distance is multiplied by k |
| Planes.NormalizedKeepsSides | collision.cpp:172-177 | normalising by a positive factor keeps every point in front, behind or on the plane |
| Planes.NormalizedIsUnit | collision.cpp:172-177 | with k = 1/\|n\|, the normalised normal has squared length 1 |
| Planes.NormalizeUnitIsIdentity | collision.cpp:172-177 | normalising a plane whose normal is already unit leaves it unchanged (k = 1) |
| Planes.PointNormalPlane | collision.cpp:149-153 | the plane from a point and a normal passes through the point (signed distance 0) and has a unit normal parallel to the given one |
| Planes.PointNormalUnitKept | collision.cpp:149-153 | for a unit normal, the plane is (normal, -normal·pt) |
| Planes.ThreePointPlane | collision.cpp:155-160 | the plane from three points has all three at signed distance 0 and the normalised edge cross product as its unit normal |
| Planes.CounterClockwiseFacesUp | collision.cpp:155-160 | three points in z = 0 whose edge cross product points up give the normal (0, 0, 1) |
| Planes.FlatPointsThroughOrigin | collision.cpp:155-160 | three points in z = 0 give a plane with d = 0 |
| Planes.WindingExample | collision.cpp:155-160 | the points (0,1,0), (-1,-1,0), (1,-1,0) give the edge cross product (0, 0, 4), whose inverse length is 1/4, and the plane (0, 0, 1, 0) |
| Planes.XYPlaneSides | collision.cpp:127-137 | for the plane (0,0,1,0) the signed distance is z: 0 at the origin, positive in front, negative behind |
| Planes.NormalizeExample | collision.cpp:172-177 | the plane (0,0,2,0) normalises, with factor 1/2, to (0,0,1,0) |
| Planes.EqualReflexiveSymmetric | collision.cpp:139-147 | plane equality within tolerance is reflexive and symmetric; `!=` is its negation |
| Planes.MutablePlane.constructor | collision.cpp:105-107 | the default plane has all four coefficients 0 |
| Planes.MutablePlane.FromCoefficients | collision.cpp:109-111 | the four-value constructor stores its coefficients without normalising |
| Planes.MutablePlane.ThroughPoint | collision.cpp:113-116 | the point-normal constructor yields the point-normal plane, through the point |
| Planes.MutablePlane.ThroughPoints | collision.cpp:118-121 | the three-point constructor yields the three-point plane, through all three points |
| Planes.MutablePlane.Set | collision.cpp:179-183 | the plane becomes exactly the given coefficients |
| Planes.MutablePlane.Normalize | collision.cpp:172-177 | n and d are scaled by k, the normal becomes unit, and every signed distance is scaled by k |
| Planes.MutablePlane.FromPointNormal | collision.cpp:149-153 | the plane becomes the point-normal plane, through pt with a unit normal |
| Planes.MutablePlane.FromPoints | collision.cpp:155-160 | the plane becomes the three-point plane, with the three points at signed distance 0 |
| Bounds.Center | collision.cpp:44-47 | the centre is equidistant from min and max and lies in a well-formed box |
| Bounds.HasCollided | collision.cpp:78-85 | the spheres collide iff the squared distance between the centres is strictly below the squared sum of the radii |
| Bounds.HasCollidedSymmetric | collision.cpp:78-85 | sphere collision does not depend on the order of the two spheres |
| Bounds.TouchingSpheresDoNotCollide | collision.cpp:78-85 | spheres whose centres are exactly r1 + r2 apart do not collide (strict comparison) |
| Bounds.HasCollidedIffCommonPoint | collision.cpp:78-85 | for positive radii, two spheres collide iff some point lies strictly inside both |
| Bounds.CommonPoint | collision.cpp:78-85 | colliding spheres with positive radii share a point strictly inside both |
| Bounds.CommonPointCollides | collision.cpp:78-85 | a point strictly inside two spheres with positive radii makes them collide |
| Frustums.SlotsAreDistinctIndices | collision.h:105-115 | LEFT, RIGHT, BOTTOM, TOP, NEAR and FAR are six distinct valid indices into the six-plane array |
| Frustums.Coefficient | collision.cpp:202-250 | coefficient i of each plane: m[i][3] ± m[i][0] for LEFT/RIGHT, m[i][3] ± m[i][1] for BOTTOM/TOP, m[i][2] for NEAR, m[i][3] - m[i][2] for FAR |
| Frustums.RawPlane | collision.cpp:202-250 | the plane set from the four coefficients of its slot, before normalising |
| Frustums.Extracted | collision.cpp:202-250 | the six planes, each normalised with its factor |
| Frustums.RawPlaneClip | collision.cpp:202-249 | before normalising, each plane's signed distance is clip w ± clip x, y or z (clip z alone for NEAR) |
| Frustums.ExtractedContainsClipVolume | collision.cpp:188-251 | a point is strictly inside all six extracted planes iff its clip coordinates satisfy -w < x < w, -w < y < w, 0 < z < w |
| Frustums.Corners | collision.cpp:255-270 | boxInFrustum builds eight corners |
| Frustums.CornersAreVertices | collision.cpp:255-270 | corner i, computed from centre and half size, is the min/max combination selected by the bits of i |
| Frustums.ZeroRadiusSphereIsPoint | collision.cpp:304-324 | a sphere of radius 0 is inside iff its centre point is inside |
| Frustums.SphereInsideGrows | collision.cpp:315-324 | growing the radius never turns an inside sphere into an outside one |
| Frustums.PointInsideSphereInside | collision.cpp:304-324 | a sphere of non-negative radius whose centre is inside is inside |
| Frustums.CornerInsideMeansBoxInside | collision.cpp:253-302 | if any corner of the box passes the point test, the box is reported inside |
| Frustums.BoxInsideIfPointInside | collision.cpp:253-302 | if any point of a well-formed box is inside, the box is reported inside (the test is conservative) |
| Frustums.PositiveVertex | collision.cpp:253-302 | for any normal, some box vertex is at least as far along it as any point of the box |
| Frustums.Frustum.constructor | collision.h:115 | a new frustum holds six zero planes |
| Frustums.Frustum.ExtractPlanes | collision.cpp:188-251 | all six slots are overwritten, slot s holding the normalised Gribb–Hartmann plane for s |
| Frustums.Frustum.PointInFrustum | collision.cpp:304-313 | true iff the point is strictly in front of all six planes; a point on a plane is outside |
| Frustums.Frustum.SphereInFrustum | collision.cpp:315-324 | true iff every plane's signed distance to the centre exceeds -radius |
| Frustums.Frustum.BoxInFrustum | collision.cpp:253-302 | false iff some plane has all eight corners at signed distance <= 0 |
| Frustums.Frustum.VolumeInFrustum | collision.cpp:326-335 | true iff the sphere is inside and the box is inside |
| Rays.HitsSphere | collision.cpp:354-369 | false when proj < 0 and wsq > rsq; otherwise vsq·wsq - proj² <= vsq·rsq |
| Rays.ZeroDirectionHitsSphere | collision.cpp:354-369 | a ray with a zero direction hits every sphere: proj = vsq = 0 pass both tests |
| Rays.OriginInsideHitsSphere | collision.cpp:354-369 | a ray starting in the closed sphere hits it, whatever its direction |
| Rays.SphereHitScaleInvariant | collision.cpp:354-369 | scaling the direction by any k > 0 leaves the answer unchanged |
| Rays.HitsSphereIffSomePointInside | collision.cpp:354-369 | for a nonzero direction, the test succeeds iff some point origin + t·direction with t >= 0 lies in the closed sphere |
| Rays.SphereHitParameter | collision.cpp:354-369 | a hit yields a parameter t >= 0 whose ray point is in the closed sphere |
| Rays.PointInsideHitsSphere | collision.cpp:354-369 | any ray point with t >= 0 in the closed sphere makes the test succeed |
| RayBoxes.HitsBox | collision.cpp:371-590 | the eight branches on the signs of the direction, each an outside-the-slab rejection followed by six Plücker side tests |
| RayBoxes.OctantIsMirroredPositive | collision.cpp:371-590 | each of the eight branches equals the all-positive branch on the ray and box mirrored on the negative-direction axes |
| RayBoxes.MirrorKeepsMeeting | collision.cpp:371-590 | mirroring ray and box together maps ray points inside the box to ray points inside the mirrored box |
| RayBoxes.SideTestsAsSlabOrder | collision.cpp:562-585 | the six side tests of the all-positive branch are the six pairwise "enter one slab before leaving another" conditions |
| RayBoxes.PositiveOctantNoFalseNegative | collision.cpp:562-585 | the all-positive branch accepts every ray with non-negative direction that meets the box |
| RayBoxes.PositiveOctantHitPoint | collision.cpp:562-585 | when the all-positive branch accepts (nonzero direction, well-formed box), the latest slab entry is a ray point inside the box |
| RayBoxes.HitsBoxWhenMeets | collision.cpp:371-590 | no false negatives: any ray point with t >= 0 in the closed box makes the test succeed, for any direction |
| RayBoxes.MeetsWhenHitsBox | collision.cpp:371-590 | no false positives: for a well-formed box and a nonzero direction, a hit means some ray point with t >= 0 is in the box |
| RayBoxes.HitsBoxIffMeets | collision.cpp:371-590 | for a well-formed box and a nonzero direction, the test succeeds iff the ray meets the closed box |
| RayBoxes.OriginInsideHitsBox | collision.cpp:371-590 | a ray starting in the box hits it, whatever its direction |
| RayBoxes.RejectsBeyondFace | collision.cpp:371-590 | a ray whose origin lies beyond the face it travels away from, on any axis, misses |
| RayBoxes.ZeroDirectionHitsBox | collision.cpp:562-585 | a zero direction is reported as a hit iff the origin is at or below the maximum corner on every axis |
| RayPlanes.IntersectPlane | collision.cpp:611-642 | parallel: hit with t = 0 iff the origin is within tolerance of the plane, else t untouched. Otherwise t is set, and a hit has t >= 0 and an intersection on the plane at origin + t·direction. Intersection untouched on every miss and when parallel |
| RayPlanes.DistanceAlongRay | collision.cpp:633-640 | the signed distance of the ray point at t is dot(plane, origin) + t·(direction·n) |
| RayPlanes.AnswerIgnoresOutParameters | collision.cpp:603-609 | the two-argument overload gives the same answer whatever t and intersection held before |
| RayPlanes.HitIffApproaching | collision.cpp:633-641 | a non-parallel ray hits iff dot(plane, origin)·(direction·n) <= 0 |
| RayPlanes.HitIffCrossing | collision.cpp:633-641 | a non-parallel ray hits iff some ray point with t >= 0 lies on the plane |
| RayPlanes.HitsPlane | collision.cpp:603-609 | the two-argument overload: the answer of the full test, its out-parameters discarded |
| RayPlanes.HitAtCrossing | collision.cpp:633-641 | a non-parallel ray reaching the plane at s >= 0 hits with t = s and the intersection origin + s·direction, whatever t and intersection held before |
| RayPlanes.FloorHitFromAbove | collision.cpp:633-641 | a ray from (0,10,0) heading down hits y = 0 with t = 10 and the intersection at the origin, whatever t and intersection held before |
| RayPlanes.FloorMissGoingUp | collision.cpp:636-638 | a ray from (0,10,0) heading up misses y = 0 (t < 0) |
| RayPlanes.SegmentScenario | collision.cpp:633-641 | the segment from (0,-10,0) to (0,10,0) crosses y = 0 half-way; the one from (0,10,0) to (0,20,0) does not |
| RayPlanes.InPlaneRay | collision.cpp:615-626 | a ray lying in the plane hits with t = 0 and leaves the intersection point unchanged |
| RayVolumes.HitsVolume | collision.cpp:592-601 | true iff the sphere test and then the box test both succeed |
| RayVolumes.CommonPointHitsVolume | collision.cpp:592-601 | a ray point with t >= 0 in both the box and the closed sphere makes the volume test succeed |
| RayVolumes.VolumeHitMeetsBoth | collision.cpp:592-601 | a volume hit means the ray meets the box and the sphere, not necessarily at the same point |
| RayVolumes.EnclosingVolumeIsExact | collision.cpp:592-601 | when the sphere encloses the box, the volume test succeeds iff the ray meets the box |
| RayVolumes.OriginInsideHitsVolume | collision.cpp:592-601 | a ray starting in both the box and the sphere hits the volume |
| RayScenarios.SphereHitFromCentre | test_collision.cpp:126-131 | a ray starting at the centre of the sphere of radius 10 hits it |
| RayScenarios.SphereHitFromAbove | test_collision.cpp:134-139 | a ray from (0,0,100) heading down the z axis hits that sphere |
| RayScenarios.SphereMissGoingUp | test_collision.cpp:142-147 | a ray from (0,0,100) heading up the z axis misses that sphere |
| RayScenarios.BoxHitFromCentre | test_collision.cpp:152-157 | a ray starting at the centre of the box from (-10,-10,-10) to (10,10,10) hits it |
| RayScenarios.BoxHitFromAbove | test_collision.cpp:160-165 | a ray from (0,0,100) heading down the z axis hits that box |
| RayScenarios.BoxMissGoingUp | test_collision.cpp:168-173 | a ray from (0,0,100) heading up the z axis misses that box |

## Left out

- **Floating-point rounding.** Every property holds under exact real
  arithmetic. Float rounding, overflow, infinities and NaN are not modelled.
- **Square roots.** These are `Vector3::magnitude`, `BoundingBox::getSize`
  and `BoundingBox::getRadius`, lines 49-57.
  - The normalisation factor `1/|n|` is the parameter `k` of `Normalize`,
    `FromPointNormal` and `FromPoints`.
  - Those three take `InverseLength(n, k)`, which fails for a zero normal.
    A zero normal arises from collinear points and is a division by zero in
    the library.
  - `Frustums.Frustum.ExtractPlanes` likewise takes six factors, one per
    plane, under `Factors(m, ks)`. That excludes a matrix for which some
    plane has a zero normal, where the `normalize()` calls at
    `collision.cpp:202-250` divide by zero.
  - `getSize` and `getRadius` are not part of this model.
- **The vector and matrix library** (`mathlib.h`) is not part of this model.
  - `Vec3` defines only what the kernel uses.
  - `Frustums.Frustum.ExtractPlanes` takes the combined matrix, not the view
    and projection matrices. The matrix product at `collision.cpp:199` is not
    modelled.
- **Tolerances.**
  - `Math::closeEnough` is modelled as an absolute tolerance `|a - b| < eps`
    with `eps > 0` a parameter. The ray–plane test
    (`collision.cpp:616` and `622`) compares against 0, where a relative and
    an absolute tolerance coincide. Plane equality (`collision.cpp:141`)
    compares two arbitrary values.
- Planes.EqualReflexiveSymmetric: plane equality compares normals
  component-wise within `eps` and `d` within `eps`. It does not reproduce
  any relative scaling the vector library might apply when both values are
  nonzero. Its symmetry holds because the tolerance is absolute.
- Rays.HitsSphereIffSomePointInside and Rays.SphereHitParameter
  require `direction·direction > 0` rather than `direction != 0`. The two
  are equivalent.
  - For a zero direction the library reports a hit for every sphere:
    `proj = vsq = 0`.
  - `Rays.ZeroDirectionHitsSphere` states that case.
- RayBoxes.HitsBoxIffMeets requires a well-formed box (min <= max) and a
  nonzero direction. `RayBoxes.ZeroDirectionHitsBox` states exactly what a
  zero direction does.
- **Direction length.** No ray operation requires a unit direction,
  and none is assumed.
- **Other files.** These are not part of this model:
  - `test_core.cpp`, which tests mathlib classes;
  - `test_main.cpp` and `test_main.h`, a console harness;
  - `test_collision.cpp`, whose cases are restated as scenario lemmas
    (`RayScenarios`, `Planes.WindingExample`, the `RayPlanes` floor cases).
- **Destructors and the trivial constructors** of `BoundingBox`,
  `BoundingSphere`, `BoundingVolume` and `Ray` are the datatypes'
  constructors.
- **Out-parameters.** The ray–plane test writes its `t` and `intersection`
  through references. The model takes their previous values and returns the
  new ones in `PlaneHit`.
- **The `normal()` accessors** (`collision.cpp:162-170`) return the field `n`
  and are not modelled separately.
