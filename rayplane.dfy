/**
 * Ray against plane. The query writes two out-parameters: the ray
 * parameter `t` and the `intersection` point. The model takes their values
 * before the call and returns their values after it, together with the
 * answer, so that what is left untouched on each path is explicit.
 *
 * The "close enough to zero" comparisons use the tolerance `eps`, a
 * positive constant of the vector library.
 */
module RayPlanes {
  import opened Vectors
  import opened Planes
  import opened Rays

  /** The answer and the values of the two out-parameters after the call. */
  datatype PlaneHit = PlaneHit(hit: bool, t: real, intersection: Vec3)

  /** The ray is parallel to the plane: its direction is within tolerance of orthogonal to the normal. */
  predicate Parallel(ray: Ray, plane: Plane, eps: real) {
    CloseEnough(Abs(Dot(ray.direction, plane.n)), 0.0, eps)
  }

  /**
   * Ray::hasIntersected(Plane, t, intersection). A parallel ray hits, with
   * t = 0, exactly when its origin is within tolerance of the plane. Any
   * other ray meets the plane at t = -dot(plane, origin) / (direction . n),
   * which is written to `t` in every case; a negative t is a miss, and only
   * a hit writes the intersection point.
   */
  function IntersectPlane(ray: Ray, plane: Plane, eps: real, t: real, intersection: Vec3): (r: PlaneHit)
    requires eps > 0.0
    ensures !r.hit ==> r.intersection == intersection
    ensures Parallel(ray, plane, eps) ==> r.intersection == intersection
    ensures Parallel(ray, plane, eps) ==>
              (r.hit <==> CloseEnough(SignedDistance(plane, ray.origin), 0.0, eps))
              && r.t == (if r.hit then 0.0 else t)
    ensures !Parallel(ray, plane, eps) && r.hit ==>
              r.t >= 0.0 && r.intersection == PointAt(ray, r.t)
              && SignedDistance(plane, r.intersection) == 0.0
    ensures !Parallel(ray, plane, eps) ==> SignedDistance(plane, PointAt(ray, r.t)) == 0.0
  {
    var denominator := Dot(ray.direction, plane.n);
    if CloseEnough(Abs(denominator), 0.0, eps) then
      var rayOriginToPlane := SignedDistance(plane, ray.origin);
      if CloseEnough(rayOriginToPlane, 0.0, eps) then PlaneHit(true, 0.0, intersection)
      else PlaneHit(false, t, intersection)
    else
      var t' := -SignedDistance(plane, ray.origin) / denominator;
      DistanceAlongRay(ray, plane, t');
      if t' < 0.0 then PlaneHit(false, t', intersection)
      else PlaneHit(true, t', PointAt(ray, t'))
  }

  /** Ray::hasIntersected(Plane): the same answer, its out-parameters discarded. */
  predicate HitsPlane(ray: Ray, plane: Plane, eps: real)
    requires eps > 0.0
  {
    IntersectPlane(ray, plane, eps, 0.0, Zero).hit
  }

  /** The signed distance changes linearly along the ray, at the rate direction . n. */
  lemma DistanceAlongRay(ray: Ray, plane: Plane, s: real)
    ensures SignedDistance(plane, PointAt(ray, s))
            == SignedDistance(plane, ray.origin) + s * Dot(ray.direction, plane.n)
  {
  }

  /** The answer does not depend on what the out-parameters held before the call. */
  lemma AnswerIgnoresOutParameters(ray: Ray, plane: Plane, eps: real, t: real, intersection: Vec3)
    requires eps > 0.0
    ensures IntersectPlane(ray, plane, eps, t, intersection).hit == HitsPlane(ray, plane, eps)
  {
  }

  /**
   * A ray that is not parallel to the plane hits it exactly when its origin
   * and its direction lie on opposite sides (or the origin is on the plane):
   * dot(plane, origin) * (direction . n) <= 0.
   */
  lemma HitIffApproaching(ray: Ray, plane: Plane, eps: real)
    requires eps > 0.0 && !Parallel(ray, plane, eps)
    ensures HitsPlane(ray, plane, eps)
            <==> SignedDistance(plane, ray.origin) * Dot(ray.direction, plane.n) <= 0.0
  {
    var dist, den := SignedDistance(plane, ray.origin), Dot(ray.direction, plane.n);
    assert den != 0.0;
    QuotientSign(dist, den);
  }

  /** -a/b >= 0 exactly when a*b <= 0, for nonzero b. */
  lemma QuotientSign(a: real, b: real)
    requires b != 0.0
    ensures -a / b >= 0.0 <==> a * b <= 0.0
  {
    var q := a / b;
    assert q * b == a;
    assert a * b == q * (b * b);
    assert b * b > 0.0;
    if q <= 0.0 {
      assert q * (b * b) <= 0.0;
    } else {
      assert q * (b * b) > 0.0;
    }
  }

  /**
   * A ray that is not parallel to the plane hits it exactly when some point
   * of the ray (t >= 0) lies on the plane.
   */
  lemma HitIffCrossing(ray: Ray, plane: Plane, eps: real)
    requires eps > 0.0 && !Parallel(ray, plane, eps)
    ensures HitsPlane(ray, plane, eps)
            <==> exists s :: s >= 0.0 && SignedDistance(plane, PointAt(ray, s)) == 0.0
  {
    var dist, den := SignedDistance(plane, ray.origin), Dot(ray.direction, plane.n);
    var r := IntersectPlane(ray, plane, eps, 0.0, Zero);
    assert den != 0.0;
    if s :| s >= 0.0 && SignedDistance(plane, PointAt(ray, s)) == 0.0 {
      DistanceAlongRay(ray, plane, s);
      assert s * den == -dist;
      assert r.t == s;
    }
  }

  /**
   * The plane y = 0 (normal +y through the origin): a ray from y = 10
   * travelling down hits it at t = 10, at the origin.
   */
  lemma FloorHitFromAbove(plane: Plane, ray: Ray, eps: real, t0: real, p0: Vec3)
    requires eps > 0.0 && eps <= 1.0
    requires plane.n.x == 0.0 && plane.n.y == 1.0 && plane.n.z == 0.0 && plane.d == 0.0
    requires ray.origin.x == 0.0 && ray.origin.y == 10.0 && ray.origin.z == 0.0
    requires ray.direction.x == 0.0 && ray.direction.y == -1.0 && ray.direction.z == 0.0
    ensures var r := IntersectPlane(ray, plane, eps, t0, p0);
            r.hit && r.t == 10.0 && r.intersection.x == 0.0 && r.intersection.y == 0.0 && r.intersection.z == 0.0
  {
    FloorQuantities(plane, ray);
    HitAtCrossing(ray, plane, eps, t0, p0, 10.0);
    ReachesOrigin(ray);
  }

  /** Travelling 10 down from (0,10,0) reaches the origin. */
  lemma ReachesOrigin(ray: Ray)
    requires ray.origin.x == 0.0 && ray.origin.y == 10.0 && ray.origin.z == 0.0
    requires ray.direction.x == 0.0 && ray.direction.y == -1.0 && ray.direction.z == 0.0
    ensures PointAt(ray, 10.0).x == 0.0 && PointAt(ray, 10.0).y == 0.0 && PointAt(ray, 10.0).z == 0.0
  {
  }

  /** For the downward ray from y = 10: direction . n = -1 and the origin lies 10 above the plane. */
  lemma FloorQuantities(plane: Plane, ray: Ray)
    requires plane.n.x == 0.0 && plane.n.y == 1.0 && plane.n.z == 0.0 && plane.d == 0.0
    requires ray.origin.x == 0.0 && ray.origin.y == 10.0 && ray.origin.z == 0.0
    requires ray.direction.x == 0.0 && ray.direction.y == -1.0 && ray.direction.z == 0.0
    ensures Dot(ray.direction, plane.n) == -1.0 && SignedDistance(plane, ray.origin) == 10.0
  {
  }

  /**
   * A ray that is not parallel to the plane and reaches it at s >= 0 hits,
   * reports t = s, and writes the ray point there as the intersection,
   * whatever the out-parameters held before.
   */
  lemma HitAtCrossing(ray: Ray, plane: Plane, eps: real, t0: real, p0: Vec3, s: real)
    requires eps > 0.0 && !Parallel(ray, plane, eps)
    requires s >= 0.0 && SignedDistance(plane, ray.origin) + s * Dot(ray.direction, plane.n) == 0.0
    ensures var r := IntersectPlane(ray, plane, eps, t0, p0);
            r.hit && r.t == s && r.intersection == PointAt(ray, s)
  {
    var dist, den := SignedDistance(plane, ray.origin), Dot(ray.direction, plane.n);
    assert den != 0.0;
    QuotientOf(-dist, den, s);
  }

  lemma QuotientOf(a: real, b: real, s: real)
    requires b != 0.0 && s * b == a
    ensures a / b == s
  {
  }

  /** The same plane, the same origin, travelling up at any speed of at least one: a miss. */
  lemma FloorMissGoingUp(plane: Plane, ray: Ray, eps: real)
    requires eps > 0.0 && eps <= 1.0
    requires plane.n.x == 0.0 && plane.n.y == 1.0 && plane.n.z == 0.0 && plane.d == 0.0
    requires ray.origin.x == 0.0 && ray.origin.y == 10.0 && ray.origin.z == 0.0
    requires ray.direction.x == 0.0 && ray.direction.y >= 1.0 && ray.direction.z == 0.0
    ensures !HitsPlane(ray, plane, eps)
  {
    var den := Dot(ray.direction, plane.n);
    assert den == ray.direction.y;
    var dist := SignedDistance(plane, ray.origin);
    assert dist == ray.origin.y by {
      assert Dot(plane.n, ray.origin) == ray.origin.y;
    }
    assert dist * den > 0.0;
    assert !Parallel(ray, plane, eps);
    HitIffApproaching(ray, plane, eps);
  }

  /**
   * Segments as rays against y = 0: from (0,-10,0) to (0,10,0) crosses the
   * plane, half-way along; from (0,10,0) to (0,20,0) does not. The
   * direction is the difference of the end points, so t = 1 is the far end.
   */
  lemma SegmentScenario(plane: Plane, ray: Ray, eps: real)
    requires eps > 0.0 && eps <= 1.0
    requires plane.n.x == 0.0 && plane.n.y == 1.0 && plane.n.z == 0.0 && plane.d == 0.0
    requires ray.origin.x == 0.0 && ray.origin.z == 0.0 && ray.direction.x == 0.0 && ray.direction.z == 0.0
    requires (ray.origin.y == -10.0 && ray.direction.y == 20.0) || (ray.origin.y == 10.0 && ray.direction.y == 10.0)
    ensures HitsPlane(ray, plane, eps) <==> ray.origin.y == -10.0
    ensures ray.origin.y == -10.0 ==> IntersectPlane(ray, plane, eps, 0.0, Zero).t == 0.5
  {
    var den := Dot(ray.direction, plane.n);
    assert den == ray.direction.y;
    assert SignedDistance(plane, ray.origin) == ray.origin.y;
    assert !Parallel(ray, plane, eps);
    HitIffApproaching(ray, plane, eps);
    var r := IntersectPlane(ray, plane, eps, 0.0, Zero);
    DistanceAlongRay(ray, plane, r.t);
    if ray.origin.y == -10.0 {
      assert -10.0 + r.t * 20.0 == 0.0;
    }
  }

  /**
   * A ray lying in the plane (parallel, origin on it) hits with t = 0 and
   * leaves the intersection point as it was.
   */
  lemma InPlaneRay(ray: Ray, plane: Plane, eps: real, t: real, intersection: Vec3)
    requires eps > 0.0
    requires Dot(ray.direction, plane.n) == 0.0 && SignedDistance(plane, ray.origin) == 0.0
    ensures IntersectPlane(ray, plane, eps, t, intersection) == PlaneHit(true, 0.0, intersection)
  {
  }
}
