/**
 * The view frustum: six planes whose normals point inwards, extracted from a
 * combined view-projection matrix by the Gribb-Hartmann method, and the
 * containment queries for points, spheres, boxes and compound volumes.
 *
 * The matrix follows the row-vector convention: a point (x, y, z, 1)
 * multiplied on the left of `m` gives the clip coordinates, so clip
 * coordinate j is the dot product of the point with column j. Each plane is
 * a sum or difference of column 3 with column 0, 1 or 2 (column 2 alone
 * for the near plane), which bounds the Direct3D clip volume
 * -w < x < w, -w < y < w, 0 < z < w.
 */
module Frustums {
  import opened Vectors
  import opened Bounds
  import opened Planes

  /** The slot of each clipping plane in the six-plane array. */
  const LEFT: nat := 0
  const RIGHT: nat := 1
  const BOTTOM: nat := 2
  const TOP: nat := 3
  const NEAR: nat := 4
  const FAR: nat := 5
  const PLANE_COUNT: nat := 6

  /** The slot constants are six distinct valid indices. */
  lemma SlotsAreDistinctIndices()
    ensures LEFT < PLANE_COUNT && RIGHT < PLANE_COUNT && BOTTOM < PLANE_COUNT
    ensures TOP < PLANE_COUNT && NEAR < PLANE_COUNT && FAR < PLANE_COUNT
    ensures |{LEFT, RIGHT, BOTTOM, TOP, NEAR, FAR}| == PLANE_COUNT
  {
  }

  /** A 4x4 matrix, indexed m[row][column]. */
  type Matrix4 = m: seq<seq<real>> | |m| == 4 && forall i :: 0 <= i < 4 ==> |m[i]| == 4
    witness [[0.0, 0.0, 0.0, 0.0], [0.0, 0.0, 0.0, 0.0], [0.0, 0.0, 0.0, 0.0], [0.0, 0.0, 0.0, 0.0]]

  /** Clip coordinate `j` (0 = x, 1 = y, 2 = z, 3 = w) of the point (p, 1) times `m`. */
  function Clip(m: Matrix4, p: Vec3, j: nat): real
    requires j < 4
  {
    p.x * m[0][j] + p.y * m[1][j] + p.z * m[2][j] + m[3][j]
  }

  /** Coefficient `i` of the unnormalised plane in `slot`, as extractPlanes combines the columns. */
  function Coefficient(m: Matrix4, slot: nat, i: nat): real
    requires slot < PLANE_COUNT && i < 4
  {
    if slot == LEFT then m[i][3] + m[i][0]
    else if slot == RIGHT then m[i][3] - m[i][0]
    else if slot == BOTTOM then m[i][3] + m[i][1]
    else if slot == TOP then m[i][3] - m[i][1]
    else if slot == NEAR then m[i][2]
    else m[i][3] - m[i][2]
  }

  /** The plane in `slot` before normalisation. */
  function RawPlane(m: Matrix4, slot: nat): Plane
    requires slot < PLANE_COUNT
  {
    Coefficients(Coefficient(m, slot, 0), Coefficient(m, slot, 1), Coefficient(m, slot, 2), Coefficient(m, slot, 3))
  }

  /**
   * The signed distance of a point from each unnormalised plane is the clip
   * coordinate expression that plane bounds.
   */
  lemma RawPlaneClip(m: Matrix4, p: Vec3)
    ensures SignedDistance(RawPlane(m, LEFT), p) == Clip(m, p, 3) + Clip(m, p, 0)
    ensures SignedDistance(RawPlane(m, RIGHT), p) == Clip(m, p, 3) - Clip(m, p, 0)
    ensures SignedDistance(RawPlane(m, BOTTOM), p) == Clip(m, p, 3) + Clip(m, p, 1)
    ensures SignedDistance(RawPlane(m, TOP), p) == Clip(m, p, 3) - Clip(m, p, 1)
    ensures SignedDistance(RawPlane(m, NEAR), p) == Clip(m, p, 2)
    ensures SignedDistance(RawPlane(m, FAR), p) == Clip(m, p, 3) - Clip(m, p, 2)
  {
  }

  /** Every slot's factor is the inverse length of that slot's unnormalised normal. */
  predicate Factors(m: Matrix4, ks: seq<real>) {
    |ks| == PLANE_COUNT && forall s :: 0 <= s < PLANE_COUNT ==> InverseLength(RawPlane(m, s).n, ks[s])
  }

  /** The six planes extractPlanes leaves in the array, each normalised. */
  function Extracted(m: Matrix4, ks: seq<real>): seq<Plane>
    requires Factors(m, ks)
  {
    seq(PLANE_COUNT, s requires 0 <= s < PLANE_COUNT => Normalized(RawPlane(m, s), ks[s]))
  }

  /** The point lies strictly inside the clip volume -w < x < w, -w < y < w, 0 < z < w. */
  predicate InClipVolume(m: Matrix4, p: Vec3) {
    var x, y, z, w := Clip(m, p, 0), Clip(m, p, 1), Clip(m, p, 2), Clip(m, p, 3);
    -w < x < w && -w < y < w && 0.0 < z < w
  }

  /** pointInFrustum's specification: strictly in front of every plane. */
  predicate PointInside(planes: seq<Plane>, point: Vec3) {
    forall j :: 0 <= j < |planes| ==> SignedDistance(planes[j], point) > 0.0
  }

  /** sphereInFrustum's specification: the centre is above -radius for every plane. */
  predicate SphereInside(planes: seq<Plane>, sphere: BoundingSphere) {
    forall j :: 0 <= j < |planes| ==> SignedDistance(planes[j], sphere.center) > -sphere.radius
  }

  /** Some corner in `corners` lies strictly in front of `plane`. */
  predicate SomeCornerInFront(plane: Plane, corners: seq<Vec3>) {
    exists i :: 0 <= i < |corners| && SignedDistance(plane, corners[i]) > 0.0
  }

  /** Every corner in `corners` lies on or behind `plane`. */
  predicate AllCornersBehind(plane: Plane, corners: seq<Vec3>) {
    forall i :: 0 <= i < |corners| ==> SignedDistance(plane, corners[i]) <= 0.0
  }

  /** boxInFrustum's specification: no plane has all eight corners on or behind it. */
  predicate BoxInside(planes: seq<Plane>, box: BoundingBox) {
    forall j :: 0 <= j < |planes| ==> SomeCornerInFront(planes[j], Corners(box))
  }

  /**
   * The eight corners as boxInFrustum computes them, from the centre and the
   * half extents, in the order (-,-,-), (+,-,-), (-,+,-), (+,+,-), (-,-,+),
   * (+,-,+), (-,+,+), (+,+,+).
   */
  function Corners(box: BoundingBox): (corners: seq<Vec3>)
    ensures |corners| == 8
  {
    var c := Center(box);
    var hx, hy, hz := (box.max.x - box.min.x) * 0.5, (box.max.y - box.min.y) * 0.5, (box.max.z - box.min.z) * 0.5;
    [Vec3(c.x - hx, c.y - hy, c.z - hz), Vec3(c.x + hx, c.y - hy, c.z - hz),
     Vec3(c.x - hx, c.y + hy, c.z - hz), Vec3(c.x + hx, c.y + hy, c.z - hz),
     Vec3(c.x - hx, c.y - hy, c.z + hz), Vec3(c.x + hx, c.y - hy, c.z + hz),
     Vec3(c.x - hx, c.y + hy, c.z + hz), Vec3(c.x + hx, c.y + hy, c.z + hz)]
  }

  /** Corner `i` of the box: bit 0 of `i` selects max.x, bit 1 max.y, bit 2 max.z. */
  function Vertex(box: BoundingBox, i: nat): Vec3
    requires i < 8
  {
    Vec3(if i % 2 == 1 then box.max.x else box.min.x,
         if (i / 2) % 2 == 1 then box.max.y else box.min.y,
         if i / 4 == 1 then box.max.z else box.min.z)
  }

  /** The corners computed from centre and half extents are exactly the box's vertices. */
  lemma CornersAreVertices(box: BoundingBox, i: nat)
    requires i < 8
    ensures Corners(box)[i] == Vertex(box, i)
  {
  }

  /**
   * A point lies strictly in front of all six extracted planes exactly when
   * its clip coordinates satisfy -w < x < w, -w < y < w and 0 < z < w.
   */
  lemma ExtractedContainsClipVolume(m: Matrix4, ks: seq<real>, p: Vec3)
    requires Factors(m, ks)
    ensures PointInside(Extracted(m, ks), p) <==> InClipVolume(m, p)
  {
    var planes := Extracted(m, ks);
    RawPlaneClip(m, p);
    forall s | 0 <= s < PLANE_COUNT
      ensures SignedDistance(planes[s], p) > 0.0 <==> SignedDistance(RawPlane(m, s), p) > 0.0
    {
      NormalizedKeepsSides(RawPlane(m, s), ks[s], p);
    }
    if InClipVolume(m, p) {
      forall j | 0 <= j < |planes|
        ensures SignedDistance(planes[j], p) > 0.0
      {
      }
    }
    if PointInside(planes, p) {
      assert SignedDistance(planes[LEFT], p) > 0.0 && SignedDistance(planes[RIGHT], p) > 0.0;
      assert SignedDistance(planes[BOTTOM], p) > 0.0 && SignedDistance(planes[TOP], p) > 0.0;
      assert SignedDistance(planes[NEAR], p) > 0.0 && SignedDistance(planes[FAR], p) > 0.0;
    }
  }

  /** A sphere of radius zero is inside exactly when its centre is. */
  lemma ZeroRadiusSphereIsPoint(planes: seq<Plane>, center: Vec3)
    ensures SphereInside(planes, BoundingSphere(center, 0.0)) <==> PointInside(planes, center)
  {
  }

  /** Growing the radius never turns an inside sphere into an outside one. */
  lemma SphereInsideGrows(planes: seq<Plane>, center: Vec3, r1: real, r2: real)
    requires r1 <= r2 && SphereInside(planes, BoundingSphere(center, r1))
    ensures SphereInside(planes, BoundingSphere(center, r2))
  {
  }

  /** A point inside the frustum is a sphere of any nonnegative radius inside it. */
  lemma PointInsideSphereInside(planes: seq<Plane>, sphere: BoundingSphere)
    requires sphere.radius >= 0.0 && PointInside(planes, sphere.center)
    ensures SphereInside(planes, sphere)
  {
  }

  /** If any corner of the box passes the point test, the box test passes. */
  lemma CornerInsideMeansBoxInside(planes: seq<Plane>, box: BoundingBox, i: nat)
    requires i < 8 && PointInside(planes, Corners(box)[i])
    ensures BoxInside(planes, box)
  {
    forall j | 0 <= j < |planes|
      ensures SomeCornerInFront(planes[j], Corners(box))
    {
      assert SignedDistance(planes[j], Corners(box)[i]) > 0.0;
    }
  }

  /**
   * The box test has no false negatives: if some point of a well-formed box
   * is inside the frustum, the box is reported inside.
   */
  lemma BoxInsideIfPointInside(planes: seq<Plane>, box: BoundingBox, p: Vec3)
    requires WellFormed(box) && InBox(box, p) && PointInside(planes, p)
    ensures BoxInside(planes, box)
  {
    forall j | 0 <= j < |planes|
      ensures SomeCornerInFront(planes[j], Corners(box))
    {
      var i := PositiveVertex(planes[j].n, box, p);
      CornersAreVertices(box, i);
    }
  }

  /**
   * The vertex of the box furthest along `n`: its signed distance from any
   * plane with normal `n` is at least that of any point of the box.
   */
  lemma PositiveVertex(n: Vec3, box: BoundingBox, p: Vec3) returns (i: nat)
    requires InBox(box, p)
    ensures i < 8 && Dot(n, Vertex(box, i)) >= Dot(n, p)
  {
    var ix := if n.x >= 0.0 then 1 else 0;
    var iy := if n.y >= 0.0 then 1 else 0;
    var iz := if n.z >= 0.0 then 1 else 0;
    i := ix + 2 * iy + 4 * iz;
    assert i % 2 == ix && (i / 2) % 2 == iy && i / 4 == iz;
    var v := Vertex(box, i);
    assert v.x == (if n.x >= 0.0 then box.max.x else box.min.x);
    assert v.y == (if n.y >= 0.0 then box.max.y else box.min.y);
    assert v.z == (if n.z >= 0.0 then box.max.z else box.min.z);
    AxisFurthest(n.x, p.x, v.x, box.min.x, box.max.x);
    AxisFurthest(n.y, p.y, v.y, box.min.y, box.max.y);
    AxisFurthest(n.z, p.z, v.z, box.min.z, box.max.z);
    DotBelow(n, p, v);
  }

  lemma DotBelow(n: Vec3, p: Vec3, v: Vec3)
    requires n.x * v.x >= n.x * p.x && n.y * v.y >= n.y * p.y && n.z * v.z >= n.z * p.z
    ensures Dot(n, v) >= Dot(n, p)
  {
  }

  /** On one axis, the end of [lo, hi] chosen by the sign of `a` maximises a*x. */
  lemma AxisFurthest(a: real, x: real, v: real, lo: real, hi: real)
    requires lo <= x <= hi
    requires v == if a >= 0.0 then hi else lo
    ensures a * v >= a * x
  {
    if a >= 0.0 {
      assert a * (hi - x) >= 0.0;
    } else {
      assert a * (x - lo) <= 0.0;
    }
  }

  /** The frustum: the six clipping planes in slots LEFT .. FAR. */
  class Frustum {
    var planes: array<Plane>

    predicate Valid()
      reads this
    {
      planes.Length == PLANE_COUNT
    }

    /** A frustum whose six planes are all the zero plane. */
    constructor ()
      ensures Valid() && fresh(planes)
      ensures forall s :: 0 <= s < PLANE_COUNT ==> planes[s] == Coefficients(0.0, 0.0, 0.0, 0.0)
    {
      planes := new Plane[PLANE_COUNT](_ => Coefficients(0.0, 0.0, 0.0, 0.0));
    }

    /**
     * Frustum::extractPlanes: overwrite all six slots with the planes of
     * the combined matrix `m`, each normalised by its factor in `ks`.
     */
    method ExtractPlanes(m: Matrix4, ks: seq<real>)
      requires Valid() && Factors(m, ks)
      modifies planes
      ensures Valid()
      ensures planes[..] == Extracted(m, ks)
    {
      planes[LEFT] := Normalized(RawPlane(m, LEFT), ks[LEFT]);
      planes[RIGHT] := Normalized(RawPlane(m, RIGHT), ks[RIGHT]);
      planes[TOP] := Normalized(RawPlane(m, TOP), ks[TOP]);
      planes[BOTTOM] := Normalized(RawPlane(m, BOTTOM), ks[BOTTOM]);
      planes[NEAR] := Normalized(RawPlane(m, NEAR), ks[NEAR]);
      planes[FAR] := Normalized(RawPlane(m, FAR), ks[FAR]);
    }

    /** Frustum::pointInFrustum: false at the first plane the point is not strictly in front of. */
    method PointInFrustum(point: Vec3) returns (inside: bool)
      requires Valid()
      ensures inside == PointInside(planes[..], point)
    {
      for i := 0 to PLANE_COUNT
        invariant forall j :: 0 <= j < i ==> SignedDistance(planes[j], point) > 0.0
      {
        if SignedDistance(planes[i], point) <= 0.0 {
          return false;
        }
      }
      return true;
    }

    /** Frustum::sphereInFrustum: false at the first plane with the centre at or below -radius. */
    method SphereInFrustum(sphere: BoundingSphere) returns (inside: bool)
      requires Valid()
      ensures inside == SphereInside(planes[..], sphere)
    {
      for i := 0 to PLANE_COUNT
        invariant forall j :: 0 <= j < i ==> SignedDistance(planes[j], sphere.center) > -sphere.radius
      {
        if SignedDistance(planes[i], sphere.center) <= -sphere.radius {
          return false;
        }
      }
      return true;
    }

    /**
     * Frustum::boxInFrustum: for each plane, move on as soon as one corner
     * is strictly in front; if none of the eight is, the box is outside.
     */
    method BoxInFrustum(box: BoundingBox) returns (inside: bool)
      requires Valid()
      ensures inside == BoxInside(planes[..], box)
      ensures !inside <==> exists j :: 0 <= j < PLANE_COUNT && AllCornersBehind(planes[j], Corners(box))
    {
      var corners := Corners(box);
      for i := 0 to PLANE_COUNT
        invariant forall j :: 0 <= j < i ==> SomeCornerInFront(planes[j], corners)
      {
        var p := planes[i];
        if SignedDistance(p, corners[0]) > 0.0 { continue; }
        if SignedDistance(p, corners[1]) > 0.0 { continue; }
        if SignedDistance(p, corners[2]) > 0.0 { continue; }
        if SignedDistance(p, corners[3]) > 0.0 { continue; }
        if SignedDistance(p, corners[4]) > 0.0 { continue; }
        if SignedDistance(p, corners[5]) > 0.0 { continue; }
        if SignedDistance(p, corners[6]) > 0.0 { continue; }
        if SignedDistance(p, corners[7]) > 0.0 { continue; }
        return false;
      }
      return true;
    }

    /** Frustum::volumeInFrustum: the sphere test first, then the box test. */
    method VolumeInFrustum(volume: BoundingVolume) returns (inside: bool)
      requires Valid()
      ensures inside == (SphereInside(planes[..], volume.sphere) && BoxInside(planes[..], volume.box))
    {
      var sphereInside := SphereInFrustum(volume.sphere);
      if sphereInside {
        var boxInside := BoxInFrustum(volume.box);
        if boxInside {
          return true;
        }
      }
      return false;
    }
  }
}
