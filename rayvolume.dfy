/**
 * Ray against a bounding volume: the cheap sphere test first, and the box
 * test only when the sphere is hit.
 */
module RayVolumes {
  import opened Vectors
  import opened Bounds
  import opened Rays
  import opened RayBoxes

  /** Ray::hasIntersected(BoundingVolume): the ray hits both the sphere and the box. */
  predicate HitsVolume(ray: Ray, volume: BoundingVolume) {
    if HitsSphere(ray, volume.sphere) then HitsBox(ray, volume.box) else false
  }

  /** Every point of the box lies in the closed sphere. */
  ghost predicate Encloses(sphere: BoundingSphere, box: BoundingBox) {
    forall p :: InBox(box, p) ==> InClosedSphere(sphere, p)
  }

  /** A point of the ray inside both the box and the sphere makes the volume test succeed. */
  lemma CommonPointHitsVolume(ray: Ray, volume: BoundingVolume, t: real)
    requires t >= 0.0
    requires InBox(volume.box, PointAt(ray, t)) && InClosedSphere(volume.sphere, PointAt(ray, t))
    ensures HitsVolume(ray, volume)
  {
    PointInsideHitsSphere(ray, volume.sphere, t);
    HitsBoxWhenMeets(ray, volume.box, t);
  }

  /**
   * The test is conservative: a hit means the ray meets the box and the
   * sphere, though not necessarily at the same point.
   */
  lemma VolumeHitMeetsBoth(ray: Ray, volume: BoundingVolume)
    requires WellFormed(volume.box) && Dot(ray.direction, ray.direction) > 0.0
    requires HitsVolume(ray, volume)
    ensures MeetsBox(ray, volume.box)
    ensures exists t :: t >= 0.0 && InClosedSphere(volume.sphere, PointAt(ray, t))
  {
    assert ray.direction != Zero;
    MeetsWhenHitsBox(ray, volume.box);
    HitsSphereIffSomePointInside(ray, volume.sphere);
  }

  /**
   * When the sphere encloses the box (as a volume built around a mesh
   * does), the volume test is exact: it succeeds exactly when the ray meets
   * the box.
   */
  lemma EnclosingVolumeIsExact(ray: Ray, volume: BoundingVolume)
    requires WellFormed(volume.box) && ray.direction != Zero
    requires Encloses(volume.sphere, volume.box)
    ensures HitsVolume(ray, volume) <==> MeetsBox(ray, volume.box)
  {
    if HitsVolume(ray, volume) {
      MeetsWhenHitsBox(ray, volume.box);
    }
    if MeetsBox(ray, volume.box) {
      var t :| t >= 0.0 && InBox(volume.box, PointAt(ray, t));
      CommonPointHitsVolume(ray, volume, t);
    }
  }

  /** A ray starting inside the box and the sphere hits the volume, whatever its direction. */
  lemma OriginInsideHitsVolume(ray: Ray, volume: BoundingVolume)
    requires InBox(volume.box, ray.origin) && InClosedSphere(volume.sphere, ray.origin)
    ensures HitsVolume(ray, volume)
  {
    OriginInsideHitsSphere(ray, volume.sphere);
    OriginInsideHitsBox(ray, volume.box);
  }
}
