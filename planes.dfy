/**
 * Planes in the form n.x*x + n.y*y + n.z*z + d = 0: the value type, the
 * signed distance of a point, normalisation, construction from a point and a
 * normal or from three points, the tolerance equality, and the mutable plane
 * object whose operations overwrite its coefficients in place.
 *
 * Normalisation divides by the length of the normal. Square roots are not
 * modelled: the caller supplies the factor `k`, and `InverseLength(n, k)`
 * says that `k` is exactly one over the length of `n`.
 */
module Planes {
  import opened Vectors

  datatype Plane = Plane(n: Vec3, d: real)

  /** The plane a*x + b*y + c*z + d = 0, coefficients stored as given. */
  function Coefficients(a: real, b: real, c: real, d: real): (p: Plane)
    ensures p.n == Vec3(a, b, c) && p.d == d
  {
    Plane(Vec3(a, b, c), d)
  }

  /**
   * Plane::dot: the signed distance of `pt` from the plane (for a unit
   * normal); positive in front, negative behind, zero on the plane.
   */
  function SignedDistance(p: Plane, pt: Vec3): real {
    Dot(p.n, pt) + p.d
  }

  /** `k` is positive and its square times |n|^2 is one: k = 1/|n|. */
  predicate InverseLength(n: Vec3, k: real) {
    k > 0.0 && k * (k * Dot(n, n)) == 1.0
  }

  /** Plane::normalize: the normal and the offset scaled by the same factor. */
  function Normalized(p: Plane, k: real): Plane
    requires k > 0.0
  {
    Plane(Scale(p.n, k), p.d * k)
  }

  /** Normalising scales the signed distance of every point by the factor. */
  lemma NormalizedDistance(p: Plane, k: real, pt: Vec3)
    requires k > 0.0
    ensures SignedDistance(Normalized(p, k), pt) == k * SignedDistance(p, pt)
  {
  }

  /** Rescaling by a positive factor keeps the side of the plane every point is on. */
  lemma NormalizedKeepsSides(p: Plane, k: real, pt: Vec3)
    requires k > 0.0
    ensures SignedDistance(Normalized(p, k), pt) > 0.0 <==> SignedDistance(p, pt) > 0.0
    ensures SignedDistance(Normalized(p, k), pt) < 0.0 <==> SignedDistance(p, pt) < 0.0
    ensures SignedDistance(Normalized(p, k), pt) == 0.0 <==> SignedDistance(p, pt) == 0.0
  {
    NormalizedDistance(p, k, pt);
    SignPreserved(k, SignedDistance(p, pt));
  }

  /** With the inverse length as factor, the normalised normal has unit length. */
  lemma NormalizedIsUnit(p: Plane, k: real)
    requires InverseLength(p.n, k)
    ensures Dot(Normalized(p, k).n, Normalized(p, k).n) == 1.0
  {
    DotScaleSelf(p.n, k);
  }

  /** A plane whose normal already has unit length is left unchanged. */
  lemma NormalizeUnitIsIdentity(p: Plane, k: real)
    requires Dot(p.n, p.n) == 1.0 && InverseLength(p.n, k)
    ensures k == 1.0
    ensures Normalized(p, k) == p
  {
    assert k * k == 1.0;
    SquareOneIsOne(k);
  }

  lemma SquareOneIsOne(k: real)
    requires k > 0.0 && k * k == 1.0
    ensures k == 1.0
  {
  }

  /**
   * Plane::fromPointNormal: the plane through `pt` with the given normal,
   * then normalised; `k` is the inverse length of `normal`.
   */
  function PointNormalPlane(pt: Vec3, normal: Vec3, k: real): (r: Plane)
    requires InverseLength(normal, k)
    ensures SignedDistance(r, pt) == 0.0
    ensures r.n == Scale(normal, k) && Dot(r.n, r.n) == 1.0
  {
    var raw := Coefficients(normal.x, normal.y, normal.z, -Dot(normal, pt));
    assert SignedDistance(raw, pt) == 0.0;
    NormalizedIsUnit(raw, k);
    Normalized(raw, k)
  }

  /** The normal fromPoints uses: the cross product of the two edges from `pt1`. */
  function EdgeNormal(pt1: Vec3, pt2: Vec3, pt3: Vec3): Vec3 {
    Cross(Sub(pt2, pt1), Sub(pt3, pt1))
  }

  /**
   * Plane::fromPoints: the plane through three points, its normal the cross
   * product of the edges pt2-pt1 and pt3-pt1, then normalised; `k` is the
   * inverse length of that cross product (the points are not collinear).
   */
  function ThreePointPlane(pt1: Vec3, pt2: Vec3, pt3: Vec3, k: real): (r: Plane)
    requires InverseLength(EdgeNormal(pt1, pt2, pt3), k)
    ensures SignedDistance(r, pt1) == 0.0
    ensures SignedDistance(r, pt2) == 0.0
    ensures SignedDistance(r, pt3) == 0.0
    ensures r.n == Scale(EdgeNormal(pt1, pt2, pt3), k) && Dot(r.n, r.n) == 1.0
  {
    var n := EdgeNormal(pt1, pt2, pt3);
    var raw := Plane(n, -Dot(n, pt1));
    CrossOrthogonal(Sub(pt2, pt1), Sub(pt3, pt1));
    DotSub(n, pt2, pt1);
    DotSub(n, pt3, pt1);
    NormalizedIsUnit(raw, k);
    Normalized(raw, k)
  }

  lemma DotSub(n: Vec3, a: Vec3, b: Vec3)
    ensures Dot(n, Sub(a, b)) == Dot(n, a) - Dot(n, b)
  {
  }

  /**
   * Plane::operator==: the normals agree component-wise and the offsets
   * agree, each within the tolerance `eps`.
   */
  predicate Equal(p: Plane, q: Plane, eps: real) {
    CloseEnoughVec(p.n, q.n, eps) && CloseEnough(p.d, q.d, eps)
  }

  /** Plane::operator!=: the negation of `Equal`. */
  predicate NotEqual(p: Plane, q: Plane, eps: real) {
    !Equal(p, q, eps)
  }

  /** With a positive tolerance, equality is reflexive and symmetric. */
  lemma EqualReflexiveSymmetric(p: Plane, q: Plane, eps: real)
    requires eps > 0.0
    ensures Equal(p, p, eps) && !NotEqual(p, p, eps)
    ensures Equal(p, q, eps) <==> Equal(q, p, eps)
  {
  }

  /** The plane z = 0 with normal +z: the origin is on it, points above in front, below behind. */
  lemma XYPlaneSides(x: real, y: real, z: real)
    ensures SignedDistance(Coefficients(0.0, 0.0, 1.0, 0.0), Vec3(x, y, z)) == z
    ensures SignedDistance(Coefficients(0.0, 0.0, 1.0, 0.0), Zero) == 0.0
  {
  }

  /** Normalising (0,0,2,0) with factor 1/2 gives (0,0,1,0). */
  lemma NormalizeExample()
    ensures InverseLength(Vec3(0.0, 0.0, 2.0), 0.5)
    ensures Normalized(Coefficients(0.0, 0.0, 2.0, 0.0), 0.5) == Coefficients(0.0, 0.0, 1.0, 0.0)
  {
  }

  /** A normal that already has unit length is kept as given, with inverse length 1. */
  lemma PointNormalUnitKept(pt: Vec3, normal: Vec3)
    requires Dot(normal, normal) == 1.0
    ensures InverseLength(normal, 1.0)
    ensures PointNormalPlane(pt, normal, 1.0) == Plane(normal, -Dot(normal, pt))
  {
    assert Scale(normal, 1.0) == normal;
  }

  /**
   * Three points of the plane z = 0 taken counter-clockwise when seen from
   * +z (a positive z component of the edge cross product) give the unit
   * normal +z.
   */
  lemma CounterClockwiseFacesUp(pt1: Vec3, pt2: Vec3, pt3: Vec3, k: real)
    requires pt1.z == 0.0 && pt2.z == 0.0 && pt3.z == 0.0
    requires EdgeNormal(pt1, pt2, pt3).z > 0.0
    requires InverseLength(EdgeNormal(pt1, pt2, pt3), k)
    ensures ThreePointPlane(pt1, pt2, pt3, k).n.x == 0.0
    ensures ThreePointPlane(pt1, pt2, pt3, k).n.y == 0.0
    ensures ThreePointPlane(pt1, pt2, pt3, k).n.z == 1.0
  {
    var e := EdgeNormal(pt1, pt2, pt3);
    FlatEdgeNormal(pt1, pt2, pt3);
    assert Dot(e, e) == e.z * e.z;
    UnitFactor(e.z, k);
  }

  /** A plane through three points of z = 0 passes through the origin. */
  lemma FlatPointsThroughOrigin(pt1: Vec3, pt2: Vec3, pt3: Vec3, k: real)
    requires pt1.z == 0.0 && pt2.z == 0.0 && pt3.z == 0.0
    requires InverseLength(EdgeNormal(pt1, pt2, pt3), k)
    ensures ThreePointPlane(pt1, pt2, pt3, k).d == 0.0
  {
    FlatEdgeNormal(pt1, pt2, pt3);
  }

  /** The edge cross product of three points of the plane z = 0 points along z. */
  lemma FlatEdgeNormal(pt1: Vec3, pt2: Vec3, pt3: Vec3)
    requires pt1.z == 0.0 && pt2.z == 0.0 && pt3.z == 0.0
    ensures EdgeNormal(pt1, pt2, pt3).x == 0.0 && EdgeNormal(pt1, pt2, pt3).y == 0.0
  {
  }

  /** For positive `c` and `k`, k*k*c*c = 1 forces k*c = 1. */
  lemma UnitFactor(c: real, k: real)
    requires c > 0.0 && k > 0.0 && k * (k * (c * c)) == 1.0
    ensures k * c == 1.0
  {
    assert k * (k * (c * c)) == (k * c) * (k * c);
    SquareOneIsOne(k * c);
  }

  /**
   * The points (0,1,0), (-1,-1,0), (1,-1,0), counter-clockwise seen from +z:
   * the edge cross product is (0,0,4), of inverse length 1/4, and the plane
   * through them is (0,0,1,0), the plane z = 0 facing +z.
   */
  lemma WindingExample(pt1: Vec3, pt2: Vec3, pt3: Vec3)
    requires pt1.x == 0.0 && pt1.y == 1.0 && pt1.z == 0.0
    requires pt2.x == -1.0 && pt2.y == -1.0 && pt2.z == 0.0
    requires pt3.x == 1.0 && pt3.y == -1.0 && pt3.z == 0.0
    ensures EdgeNormal(pt1, pt2, pt3).x == 0.0 && EdgeNormal(pt1, pt2, pt3).y == 0.0
            && EdgeNormal(pt1, pt2, pt3).z == 4.0
    ensures InverseLength(EdgeNormal(pt1, pt2, pt3), 0.25)
    ensures var p := ThreePointPlane(pt1, pt2, pt3, 0.25);
            p.n.x == 0.0 && p.n.y == 0.0 && p.n.z == 1.0 && p.d == 0.0
  {
    FlatEdgeNormal(pt1, pt2, pt3);
    WindingNormal(pt1, pt2, pt3);
    QuarterInverseLength(EdgeNormal(pt1, pt2, pt3));
    CounterClockwiseFacesUp(pt1, pt2, pt3, 0.25);
    FlatPointsThroughOrigin(pt1, pt2, pt3, 0.25);
  }

  lemma WindingNormal(pt1: Vec3, pt2: Vec3, pt3: Vec3)
    requires pt1.x == 0.0 && pt1.y == 1.0 && pt1.z == 0.0
    requires pt2.x == -1.0 && pt2.y == -1.0 && pt2.z == 0.0
    requires pt3.x == 1.0 && pt3.y == -1.0 && pt3.z == 0.0
    ensures EdgeNormal(pt1, pt2, pt3).z == 4.0
  {
  }

  /** The vector (0,0,4) has inverse length 1/4. */
  lemma QuarterInverseLength(e: Vec3)
    requires e.x == 0.0 && e.y == 0.0 && e.z == 4.0
    ensures InverseLength(e, 0.25)
  {
    assert Dot(e, e) == 16.0;
  }

  /**
   * The plane object: its normal and offset are overwritten in place by
   * `Set`, `Normalize`, `FromPointNormal` and `FromPoints`.
   */
  class MutablePlane {
    var n: Vec3
    var d: real

    /** The plane the object currently holds. */
    function Value(): Plane
      reads this
    {
      Plane(n, d)
    }

    /** The default plane: all four coefficients zero. */
    constructor ()
      ensures Value() == Coefficients(0.0, 0.0, 0.0, 0.0)
    {
      n := Zero;
      d := 0.0;
    }

    /** The four-coefficient constructor stores them as given, without normalising. */
    constructor FromCoefficients(a: real, b: real, c: real, d0: real)
      ensures Value() == Coefficients(a, b, c, d0)
    {
      n := Vec3(a, b, c);
      d := d0;
    }

    /** The point-and-normal constructor. */
    constructor ThroughPoint(pt: Vec3, normal: Vec3, k: real)
      requires InverseLength(normal, k)
      ensures Value() == PointNormalPlane(pt, normal, k)
      ensures SignedDistance(Value(), pt) == 0.0
    {
      n := Scale(normal, k);
      d := -Dot(normal, pt) * k;
    }

    /** The three-point constructor. */
    constructor ThroughPoints(pt1: Vec3, pt2: Vec3, pt3: Vec3, k: real)
      requires InverseLength(EdgeNormal(pt1, pt2, pt3), k)
      ensures Value() == ThreePointPlane(pt1, pt2, pt3, k)
      ensures SignedDistance(Value(), pt1) == 0.0
      ensures SignedDistance(Value(), pt2) == 0.0
      ensures SignedDistance(Value(), pt3) == 0.0
    {
      var e := EdgeNormal(pt1, pt2, pt3);
      n := Scale(e, k);
      d := -Dot(e, pt1) * k;
    }

    /** Plane::set: overwrite all four coefficients. */
    method Set(a: real, b: real, c: real, d0: real)
      modifies this
      ensures Value() == Coefficients(a, b, c, d0)
    {
      n := Vec3(a, b, c);
      d := d0;
    }

    /**
     * Plane::normalize: scale the normal and the offset by `k`, the inverse
     * length of the normal. The normal becomes a unit vector and every point
     * stays on the side of the plane it was on.
     */
    method Normalize(k: real)
      requires InverseLength(n, k)
      modifies this
      ensures Value() == Normalized(old(Value()), k)
      ensures Dot(n, n) == 1.0
      ensures forall pt :: SignedDistance(Value(), pt) == k * SignedDistance(old(Value()), pt)
    {
      NormalizedIsUnit(Value(), k);
      n := Scale(n, k);
      d := d * k;
    }

    /** Plane::fromPointNormal: set (normal, -normal.pt), then normalise. */
    method FromPointNormal(pt: Vec3, normal: Vec3, k: real)
      requires InverseLength(normal, k)
      modifies this
      ensures Value() == PointNormalPlane(pt, normal, k)
      ensures SignedDistance(Value(), pt) == 0.0 && Dot(n, n) == 1.0
    {
      Set(normal.x, normal.y, normal.z, -Dot(normal, pt));
      Normalize(k);
    }

    /** Plane::fromPoints: the edge cross product and its offset, then normalise. */
    method FromPoints(pt1: Vec3, pt2: Vec3, pt3: Vec3, k: real)
      requires InverseLength(EdgeNormal(pt1, pt2, pt3), k)
      modifies this
      ensures Value() == ThreePointPlane(pt1, pt2, pt3, k)
      ensures SignedDistance(Value(), pt1) == 0.0
      ensures SignedDistance(Value(), pt2) == 0.0
      ensures SignedDistance(Value(), pt3) == 0.0
    {
      n := EdgeNormal(pt1, pt2, pt3);
      d := -Dot(n, pt1);
      Normalize(k);
    }
  }
}
