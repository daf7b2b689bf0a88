/**
 * Rays and the ray-sphere query. A ray is an origin and a direction of any
 * length; it covers the points origin + t*direction for t >= 0. The box,
 * volume and plane queries are in their own modules.
 */
module Rays {
  import opened Vectors
  import opened Bounds
  import opened Planes

  /** A ray: no unit-length requirement on the direction. */
  datatype Ray = Ray(origin: Vec3, direction: Vec3)

  /** The point reached after travelling `t` along the ray. */
  function PointAt(ray: Ray, t: real): Vec3 {
    Add(ray.origin, Scale(ray.direction, t))
  }

  /** The ray point at t, coordinate by coordinate. */
  lemma PointAtComponents(ray: Ray, t: real)
    ensures PointAt(ray, t).x == ray.origin.x + ray.direction.x * t
    ensures PointAt(ray, t).y == ray.origin.y + ray.direction.y * t
    ensures PointAt(ray, t).z == ray.origin.z + ray.direction.z * t
  {
  }

  /** The point lies in the closed sphere (distance at most the radius). */
  predicate InClosedSphere(sphere: BoundingSphere, p: Vec3) {
    var w := Sub(p, sphere.center);
    Dot(w, w) <= sphere.radius * sphere.radius
  }

  // ---------------------------------------------------------------------
  // Ray against sphere.

  /**
   * Ray::hasIntersected(BoundingSphere): reject when the centre is behind
   * the origin and the origin is outside; otherwise compare the squared
   * distance of the centre from the line, scaled by |direction|^2, with
   * the squared radius.
   */
  predicate HitsSphere(ray: Ray, sphere: BoundingSphere) {
    var w := Sub(sphere.center, ray.origin);
    var wsq := Dot(w, w);
    var proj := Dot(w, ray.direction);
    var rsq := sphere.radius * sphere.radius;
    if proj < 0.0 && wsq > rsq then false
    else
      var vsq := Dot(ray.direction, ray.direction);
      vsq * wsq - proj * proj <= vsq * rsq
  }

  /** A ray whose origin is inside (or on) the sphere hits it, whatever its direction. */
  lemma OriginInsideHitsSphere(ray: Ray, sphere: BoundingSphere)
    requires InClosedSphere(sphere, ray.origin)
    ensures HitsSphere(ray, sphere)
  {
    var w := Sub(sphere.center, ray.origin);
    var v := Sub(ray.origin, sphere.center);
    assert Dot(w, w) == Dot(v, v);
    var proj := Dot(w, ray.direction);
    var vsq := Dot(ray.direction, ray.direction);
    SquareNonNegative(proj);
    CauchySchwarz(ray.direction, ray.direction);
    MulAtMost(vsq, Dot(w, w), sphere.radius * sphere.radius);
  }

  /**
   * A ray with a zero direction hits every sphere: the projection and the
   * squared length are both 0, so neither rejection applies.
   */
  lemma ZeroDirectionHitsSphere(ray: Ray, sphere: BoundingSphere)
    requires ray.direction == Zero
    ensures HitsSphere(ray, sphere)
  {
  }

  /** The decision HitsSphere takes, as a function of the four quantities it computes. */
  predicate SphereDecision(wsq: real, proj: real, vsq: real, rsq: real) {
    if proj < 0.0 && wsq > rsq then false else vsq * wsq - proj * proj <= vsq * rsq
  }

  lemma HitsSphereDecides(ray: Ray, sphere: BoundingSphere)
    ensures var w := Sub(sphere.center, ray.origin);
            HitsSphere(ray, sphere) == SphereDecision(Dot(w, w), Dot(w, ray.direction),
                                                      Dot(ray.direction, ray.direction), sphere.radius * sphere.radius)
  {
  }

  /** Scaling the direction by a positive factor does not change the answer. */
  lemma SphereHitScaleInvariant(ray: Ray, sphere: BoundingSphere, k: real)
    requires k > 0.0
    ensures HitsSphere(Ray(ray.origin, Scale(ray.direction, k)), sphere) == HitsSphere(ray, sphere)
  {
    var w := Sub(sphere.center, ray.origin);
    var d := ray.direction;
    var scaled := Ray(ray.origin, Scale(d, k));
    HitsSphereDecides(ray, sphere);
    HitsSphereDecides(scaled, sphere);
    DotScale(w, d, k);
    DotScaleSelf(d, k);
    DecisionScaleInvariant(Dot(w, w), Dot(w, d), Dot(d, d), sphere.radius * sphere.radius, k);
  }

  /** Replacing proj by k*proj and vsq by k*k*vsq leaves the decision unchanged. */
  lemma DecisionScaleInvariant(wsq: real, proj: real, vsq: real, rsq: real, k: real)
    requires k > 0.0
    ensures SphereDecision(wsq, k * proj, k * (k * vsq), rsq) == SphereDecision(wsq, proj, vsq, rsq)
  {
    SignPreserved(k, proj);
    ScaledComparison(k, vsq, wsq, proj, rsq);
  }

  /**
   * For a direction of nonzero length (a positive squared length) the test is exact: the ray hits the
   * sphere if and only if some point of the ray lies in the closed sphere.
   */
  lemma HitsSphereIffSomePointInside(ray: Ray, sphere: BoundingSphere)
    requires Dot(ray.direction, ray.direction) > 0.0
    ensures HitsSphere(ray, sphere) <==> exists t :: t >= 0.0 && InClosedSphere(sphere, PointAt(ray, t))
  {
    if HitsSphere(ray, sphere) {
      var t := SphereHitParameter(ray, sphere);
    }
    if t :| t >= 0.0 && InClosedSphere(sphere, PointAt(ray, t)) {
      PointInsideHitsSphere(ray, sphere, t);
    }
  }

  /** The hit the test reports: the origin, or the point of the ray closest to the centre. */
  lemma SphereHitParameter(ray: Ray, sphere: BoundingSphere) returns (t: real)
    requires Dot(ray.direction, ray.direction) > 0.0
    requires HitsSphere(ray, sphere)
    ensures t >= 0.0 && InClosedSphere(sphere, PointAt(ray, t))
  {
    var w := Sub(sphere.center, ray.origin);
    var d := ray.direction;
    var wsq, proj, vsq := Dot(w, w), Dot(w, d), Dot(d, d);
    var rsq := sphere.radius * sphere.radius;
    if proj < 0.0 {
      t := 0.0;
      assert wsq <= rsq;
      PointAtDistance(ray, sphere, t);
      assert Sub(PointAt(ray, t), sphere.center) == Sub(ray.origin, sphere.center);
    } else {
      t := proj / vsq;
      assert t * vsq == proj;
      DivNonNegative(proj, vsq);
      PointAtDistance(ray, sphere, t);
      ClosestPointBound(t, vsq, wsq, proj, rsq);
    }
  }

  /** A point of the ray inside the closed sphere makes the test report a hit. */
  lemma PointInsideHitsSphere(ray: Ray, sphere: BoundingSphere, t: real)
    requires t >= 0.0 && InClosedSphere(sphere, PointAt(ray, t))
    ensures HitsSphere(ray, sphere)
  {
    var w := Sub(sphere.center, ray.origin);
    var d := ray.direction;
    var wsq, proj, vsq := Dot(w, w), Dot(w, d), Dot(d, d);
    var rsq := sphere.radius * sphere.radius;
    PointAtDistance(ray, sphere, t);
    CauchySchwarz(d, d);
    SquareNonNegative(t);
    OnRayBounds(t, vsq, wsq, proj, rsq);
  }

  /**
   * The squared distance from the centre of the point at `t`, written with
   * the quantities the test computes: wsq - 2*t*proj + t*t*vsq.
   */
  lemma PointAtDistance(ray: Ray, sphere: BoundingSphere, t: real)
    ensures var u := Sub(PointAt(ray, t), sphere.center);
            var w := Sub(sphere.center, ray.origin);
            Dot(u, u) == Dot(w, w) - 2.0 * t * Dot(w, ray.direction) + t * (t * Dot(ray.direction, ray.direction))
  {
    var u := Sub(PointAt(ray, t), sphere.center);
    var w := Sub(sphere.center, ray.origin);
    var d := ray.direction;
    assert u == Sub(Scale(d, t), w);
    ExpandDistance(w.x, d.x, t);
    ExpandDistance(w.y, d.y, t);
    ExpandDistance(w.z, d.z, t);
  }

  lemma ExpandDistance(w: real, d: real, t: real)
    ensures (d * t - w) * (d * t - w) == w * w - 2.0 * t * (w * d) + t * (t * (d * d))
  {
  }

  /** A point at parameter t >= 0 inside the sphere bounds both comparisons of the test. */
  lemma OnRayBounds(t: real, vsq: real, wsq: real, proj: real, rsq: real)
    requires t >= 0.0 && vsq >= 0.0 && t * t >= 0.0
    requires wsq - 2.0 * t * proj + t * (t * vsq) <= rsq
    ensures !(proj < 0.0 && wsq > rsq)
    ensures vsq * wsq - proj * proj <= vsq * rsq
  {
    var dist := wsq - 2.0 * t * proj + t * (t * vsq);
    if proj < 0.0 {
      assert t * proj <= 0.0;
      assert t * (t * vsq) >= 0.0;
    }
    assert vsq * dist - (vsq * wsq - proj * proj) == (t * vsq - proj) * (t * vsq - proj);
    SquareNonNegative(t * vsq - proj);
    MulAtMost(vsq, dist, rsq);
  }

  /** At t = proj/vsq the point is the one closest to the centre. */
  lemma ClosestPointBound(t: real, vsq: real, wsq: real, proj: real, rsq: real)
    requires vsq > 0.0 && t * vsq == proj
    requires vsq * wsq - proj * proj <= vsq * rsq
    ensures wsq - 2.0 * t * proj + t * (t * vsq) <= rsq
  {
    var dist := wsq - 2.0 * t * proj + t * (t * vsq);
    assert vsq * dist == vsq * wsq - 2.0 * (t * vsq) * proj + (t * vsq) * (t * vsq);
    assert vsq * dist == vsq * wsq - proj * proj;
    DivideAtMost(vsq, dist, rsq);
  }

  // ---------------------------------------------------------------------
  // Scalar facts used above, each kept small.

  lemma DivideAtMost(k: real, a: real, b: real)
    requires k > 0.0 && k * a <= k * b
    ensures a <= b
  {
    assert a - b == (k * a - k * b) / k;
    NonPositiveQuotient(k * a - k * b, k);
  }

  lemma NonPositiveQuotient(x: real, k: real)
    requires x <= 0.0 && k > 0.0
    ensures x / k <= 0.0
  {
  }

  lemma DivNonNegative(a: real, b: real)
    requires a >= 0.0 && b > 0.0
    ensures a / b >= 0.0
  {
  }

  /** Multiplying both sides of the final comparison by k*k keeps it. */
  lemma ScaledComparison(k: real, vsq: real, wsq: real, proj: real, rsq: real)
    requires k > 0.0
    ensures (k * (k * vsq)) * wsq - (k * proj) * (k * proj) <= (k * (k * vsq)) * rsq
            <==> vsq * wsq - proj * proj <= vsq * rsq
  {
    var a, b := vsq * wsq - proj * proj, vsq * rsq;
    assert (k * (k * vsq)) * wsq - (k * proj) * (k * proj) == k * (k * a);
    assert (k * (k * vsq)) * rsq == k * (k * b);
    ScaleBoth(k, a, b);
  }

  lemma ScaleBoth(k: real, a: real, b: real)
    requires k > 0.0
    ensures k * (k * a) <= k * (k * b) <==> a <= b
  {
    if a <= b {
      MulAtMost(k, a, b);
      MulAtMost(k, k * a, k * b);
    } else {
      MulBelow(k, b, a);
      assert k * b < k * a;
      MulBelow(k, k * b, k * a);
    }
  }
}
