/**
 * The ray queries on the shapes of the ray tests: a sphere of radius 10 and
 * the box from (-10,-10,-10) to (10,10,10), both centred at the origin,
 * against rays along the z axis that start inside, come down from z = 100,
 * or leave upwards from z = 100.
 */
module RayScenarios {
  import opened Vectors
  import opened Bounds
  import opened Rays
  import opened RayBoxes

  /** The sphere of radius 10 centred at the origin. */
  predicate TestSphere(sphere: BoundingSphere) {
    sphere.center.x == 0.0 && sphere.center.y == 0.0 && sphere.center.z == 0.0 && sphere.radius == 10.0
  }

  /** A ray starting at the centre of the test sphere hits it, whatever its direction. */
  lemma SphereHitFromCentre(ray: Ray, sphere: BoundingSphere)
    requires TestSphere(sphere) && ray.origin == sphere.center
    ensures HitsSphere(ray, sphere)
  {
    var v := Sub(ray.origin, sphere.center);
    ZAxisDot(v, v);
    OriginInsideHitsSphere(ray, sphere);
  }

  /** A ray from z = 100 travelling down the z axis hits the test sphere. */
  lemma SphereHitFromAbove(ray: Ray, sphere: BoundingSphere)
    requires TestSphere(sphere)
    requires ray.origin.x == 0.0 && ray.origin.y == 0.0 && ray.origin.z == 100.0
    requires ray.direction.x == 0.0 && ray.direction.y == 0.0 && ray.direction.z == -1.0
    ensures HitsSphere(ray, sphere)
  {
    DownToCentre(ray, sphere.center);
    CentreInClosedSphere(sphere);
    PointInsideHitsSphere(ray, sphere, 100.0);
  }

  /** Travelling 100 down the z axis from (0,0,100) reaches the origin `c`. */
  lemma DownToCentre(ray: Ray, c: Vec3)
    requires ray.origin.x == 0.0 && ray.origin.y == 0.0 && ray.origin.z == 100.0
    requires ray.direction.x == 0.0 && ray.direction.y == 0.0 && ray.direction.z == -1.0
    requires c.x == 0.0 && c.y == 0.0 && c.z == 0.0
    ensures PointAt(ray, 100.0) == c
  {
  }

  /** The same descent, coordinate by coordinate. */
  lemma DownToOrigin(ray: Ray)
    requires ray.origin.x == 0.0 && ray.origin.y == 0.0 && ray.origin.z == 100.0
    requires ray.direction.x == 0.0 && ray.direction.y == 0.0 && ray.direction.z == -1.0
    ensures PointAt(ray, 100.0).x == 0.0 && PointAt(ray, 100.0).y == 0.0 && PointAt(ray, 100.0).z == 0.0
  {
  }

  /** Every sphere contains its own centre. */
  lemma CentreInClosedSphere(sphere: BoundingSphere)
    ensures InClosedSphere(sphere, sphere.center)
  {
    SquareNonNegative(sphere.radius);
  }

  /** A ray from z = 100 travelling up the z axis misses the test sphere. */
  lemma SphereMissGoingUp(ray: Ray, sphere: BoundingSphere)
    requires TestSphere(sphere)
    requires ray.origin.x == 0.0 && ray.origin.y == 0.0 && ray.origin.z == 100.0
    requires ray.direction.x == 0.0 && ray.direction.y == 0.0 && ray.direction.z == 1.0
    ensures !HitsSphere(ray, sphere)
  {
    var w := Sub(sphere.center, ray.origin);
    ZAxisDot(w, w);
    ZAxisDot(w, ray.direction);
    HitsSphereDecides(ray, sphere);
  }

  /** Vectors along the z axis: the dot product is the product of the z components. */
  lemma ZAxisDot(u: Vec3, v: Vec3)
    requires u.x == 0.0 && u.y == 0.0
    ensures Dot(u, v) == u.z * v.z
  {
  }

  /** The box from (-10,-10,-10) to (10,10,10). */
  predicate TestBox(box: BoundingBox) {
    box.min.x == -10.0 && box.min.y == -10.0 && box.min.z == -10.0
    && box.max.x == 10.0 && box.max.y == 10.0 && box.max.z == 10.0
  }

  /** The origin lies in the test box. */
  lemma CentreInTestBox(box: BoundingBox, p: Vec3)
    requires TestBox(box) && p.x == 0.0 && p.y == 0.0 && p.z == 0.0
    ensures InBox(box, p)
  {
  }

  /** A ray starting at the centre of the test box hits it, whatever its direction. */
  lemma BoxHitFromCentre(ray: Ray, box: BoundingBox)
    requires TestBox(box)
    requires ray.origin.x == 0.0 && ray.origin.y == 0.0 && ray.origin.z == 0.0
    ensures HitsBox(ray, box)
  {
    OriginInsideHitsBox(ray, box);
  }

  /** A ray from z = 100 travelling down the z axis hits the test box. */
  lemma BoxHitFromAbove(ray: Ray, box: BoundingBox)
    requires TestBox(box)
    requires ray.origin.x == 0.0 && ray.origin.y == 0.0 && ray.origin.z == 100.0
    requires ray.direction.x == 0.0 && ray.direction.y == 0.0 && ray.direction.z == -1.0
    ensures HitsBox(ray, box)
  {
    DownToOrigin(ray);
    CentreInTestBox(box, PointAt(ray, 100.0));
    HitsBoxWhenMeets(ray, box, 100.0);
  }

  /** A ray from z = 100 travelling up the z axis misses the test box. */
  lemma BoxMissGoingUp(ray: Ray, box: BoundingBox)
    requires TestBox(box)
    requires ray.origin.z == 100.0 && ray.direction.z == 1.0
    ensures !HitsBox(ray, box)
  {
    RejectsBeyondFace(ray, box);
  }

}
