/**
 * Ray against axis-aligned box: the Pluecker-coordinate test of Mahovsky
 * and Wyvill. The test picks one of eight branches by the signs of the
 * direction's components (an octant: M for negative, P for zero or
 * positive, in x, y, z order). Each branch first rejects a ray whose origin
 * lies beyond the box face in the direction of travel on some axis, then
 * evaluates six side tests, one per silhouette edge of the box; any of them
 * signalling a miss rejects the ray.
 *
 * The model proves that every branch is the PPP branch applied to the ray
 * and box mirrored on the axes where the direction is negative, and that the
 * PPP branch is exact: for a well-formed box and a nonzero direction the
 * test reports a hit if and only if some point origin + t*direction with
 * t >= 0 lies in the closed box. It never misses a ray that meets the box,
 * whatever the direction; a zero direction is reported as a hit whenever the
 * origin lies below the box's maximum corner on every axis.
 */
module RayBoxes {
  import opened Vectors
  import opened Bounds
  import opened Rays

  /**
   * Ray::hasIntersected(BoundingBox), branch for branch. The offsets
   * xa, ya, za run from the origin to the box's minimum corner and xb, yb, zb
   * to its maximum corner.
   */
  predicate HitsBox(ray: Ray, box: BoundingBox) {
    var o, d := ray.origin, ray.direction;
    var xa, ya, za := box.min.x - o.x, box.min.y - o.y, box.min.z - o.z;
    var xb, yb, zb := box.max.x - o.x, box.max.y - o.y, box.max.z - o.z;
    if d.x < 0.0 then
      if d.y < 0.0 then
        if d.z < 0.0 then
          if o.x < box.min.x || o.y < box.min.y || o.z < box.min.z then false
          else SideTestsMMM(d.x, d.y, d.z, xa, xb, ya, yb, za, zb)
        else
          if o.x < box.min.x || o.y < box.min.y || o.z > box.max.z then false
          else SideTestsMMP(d.x, d.y, d.z, xa, xb, ya, yb, za, zb)
      else
        if d.z < 0.0 then
          if o.x < box.min.x || o.y > box.max.y || o.z < box.min.z then false
          else SideTestsMPM(d.x, d.y, d.z, xa, xb, ya, yb, za, zb)
        else
          if o.x < box.min.x || o.y > box.max.y || o.z > box.max.z then false
          else SideTestsMPP(d.x, d.y, d.z, xa, xb, ya, yb, za, zb)
    else
      if d.y < 0.0 then
        if d.z < 0.0 then
          if o.x > box.max.x || o.y < box.min.y || o.z < box.min.z then false
          else SideTestsPMM(d.x, d.y, d.z, xa, xb, ya, yb, za, zb)
        else
          if o.x > box.max.x || o.y < box.min.y || o.z > box.max.z then false
          else SideTestsPMP(d.x, d.y, d.z, xa, xb, ya, yb, za, zb)
      else
        if d.z < 0.0 then
          if o.x > box.max.x || o.y > box.max.y || o.z < box.min.z then false
          else SideTestsPPM(d.x, d.y, d.z, xa, xb, ya, yb, za, zb)
        else
          PositiveOctantHit(ray, box)
  }

  /** The PPP branch: the face-beyond rejection, then its six side tests. */
  predicate PositiveOctantHit(ray: Ray, box: BoundingBox) {
    var o, d := ray.origin, ray.direction;
    if o.x > box.max.x || o.y > box.max.y || o.z > box.max.z then false
    else SideTestsPPP(d.x, d.y, d.z, box.min.x - o.x, box.max.x - o.x, box.min.y - o.y,
                      box.max.y - o.y, box.min.z - o.z, box.max.z - o.z)
  }

  // The six side tests of each branch: true when none of them signals a miss.

  predicate SideTestsMMM(dx: real, dy: real, dz: real, xa: real, xb: real, ya: real, yb: real, za: real, zb: real) {
    !(dx * ya - dy * xb < 0.0 || dx * yb - dy * xa > 0.0
      || dx * zb - dz * xa > 0.0 || dx * za - dz * xb < 0.0
      || dy * za - dz * yb < 0.0 || dy * zb - dz * ya > 0.0)
  }

  predicate SideTestsMMP(dx: real, dy: real, dz: real, xa: real, xb: real, ya: real, yb: real, za: real, zb: real) {
    !(dx * ya - dy * xb < 0.0 || dx * yb - dy * xa > 0.0
      || dx * zb - dz * xb > 0.0 || dx * za - dz * xa < 0.0
      || dy * za - dz * ya < 0.0 || dy * zb - dz * yb > 0.0)
  }

  predicate SideTestsMPM(dx: real, dy: real, dz: real, xa: real, xb: real, ya: real, yb: real, za: real, zb: real) {
    !(dx * ya - dy * xa < 0.0 || dx * yb - dy * xb > 0.0
      || dx * zb - dz * xa > 0.0 || dx * za - dz * xb < 0.0
      || dy * zb - dz * yb < 0.0 || dy * za - dz * ya > 0.0)
  }

  predicate SideTestsMPP(dx: real, dy: real, dz: real, xa: real, xb: real, ya: real, yb: real, za: real, zb: real) {
    !(dx * ya - dy * xa < 0.0 || dx * yb - dy * xb > 0.0
      || dx * zb - dz * xb > 0.0 || dx * za - dz * xa < 0.0
      || dy * zb - dz * ya < 0.0 || dy * za - dz * yb > 0.0)
  }

  predicate SideTestsPMM(dx: real, dy: real, dz: real, xa: real, xb: real, ya: real, yb: real, za: real, zb: real) {
    !(dx * yb - dy * xb < 0.0 || dx * ya - dy * xa > 0.0
      || dx * za - dz * xa > 0.0 || dx * zb - dz * xb < 0.0
      || dy * za - dz * yb < 0.0 || dy * zb - dz * ya > 0.0)
  }

  predicate SideTestsPMP(dx: real, dy: real, dz: real, xa: real, xb: real, ya: real, yb: real, za: real, zb: real) {
    !(dx * yb - dy * xb < 0.0 || dx * ya - dy * xa > 0.0
      || dx * za - dz * xb > 0.0 || dx * zb - dz * xa < 0.0
      || dy * za - dz * ya < 0.0 || dy * zb - dz * yb > 0.0)
  }

  predicate SideTestsPPM(dx: real, dy: real, dz: real, xa: real, xb: real, ya: real, yb: real, za: real, zb: real) {
    !(dx * yb - dy * xa < 0.0 || dx * ya - dy * xb > 0.0
      || dx * za - dz * xa > 0.0 || dx * zb - dz * xb < 0.0
      || dy * zb - dz * yb < 0.0 || dy * za - dz * ya > 0.0)
  }

  predicate SideTestsPPP(dx: real, dy: real, dz: real, xa: real, xb: real, ya: real, yb: real, za: real, zb: real) {
    !(dx * yb - dy * xa < 0.0 || dx * ya - dy * xb > 0.0
      || dx * za - dz * xb > 0.0 || dx * zb - dz * xa < 0.0
      || dy * zb - dz * ya < 0.0 || dy * za - dz * yb > 0.0)
  }

  /** Some point of the ray (t >= 0) lies in the closed box. */
  ghost predicate MeetsBox(ray: Ray, box: BoundingBox) {
    exists t :: t >= 0.0 && InBox(box, PointAt(ray, t))
  }

  // ---------------------------------------------------------------------
  // Mirroring: every octant is the PPP octant seen in a mirror.

  /** Negate the coordinates whose flag is set. */
  function Mirror(v: Vec3, fx: bool, fy: bool, fz: bool): Vec3 {
    Vec3(if fx then -v.x else v.x, if fy then -v.y else v.y, if fz then -v.z else v.z)
  }

  /** The box mirrored on the flagged axes: on such an axis [lo, hi] becomes [-hi, -lo]. */
  function MirrorBox(box: BoundingBox, fx: bool, fy: bool, fz: bool): BoundingBox {
    BoundingBox(Vec3(if fx then -box.max.x else box.min.x,
                     if fy then -box.max.y else box.min.y,
                     if fz then -box.max.z else box.min.z),
                Vec3(if fx then -box.min.x else box.max.x,
                     if fy then -box.min.y else box.max.y,
                     if fz then -box.min.z else box.max.z))
  }

  /** The ray mirrored on the axes where its direction is negative: its direction is then nonnegative. */
  function MirrorRayToPositive(ray: Ray): Ray {
    var d := ray.direction;
    Ray(Mirror(ray.origin, d.x < 0.0, d.y < 0.0, d.z < 0.0), Mirror(d, d.x < 0.0, d.y < 0.0, d.z < 0.0))
  }

  /** The box mirrored on the same axes as MirrorRayToPositive mirrors the ray. */
  function MirrorBoxFor(ray: Ray, box: BoundingBox): BoundingBox {
    var d := ray.direction;
    MirrorBox(box, d.x < 0.0, d.y < 0.0, d.z < 0.0)
  }

  /**
   * Each of the eight branches decides exactly as the PPP branch does on the
   * ray and box mirrored on the axes where the direction is negative.
   */
  lemma OctantIsMirroredPositive(ray: Ray, box: BoundingBox)
    ensures HitsBox(ray, box) == PositiveOctantHit(MirrorRayToPositive(ray), MirrorBoxFor(ray, box))
  {
    var o, d := ray.origin, ray.direction;
    var xa, ya, za := box.min.x - o.x, box.min.y - o.y, box.min.z - o.z;
    var xb, yb, zb := box.max.x - o.x, box.max.y - o.y, box.max.z - o.z;
    var r, b := MirrorRayToPositive(ray), MirrorBoxFor(ray, box);
    MirroredQuantities(ray, box);
    var dx, dy, dz := d.x, d.y, d.z;
    if dx < 0.0 {
      if dy < 0.0 {
        if dz < 0.0 {
          assert r.direction == Vec3(-dx, -dy, -dz);
          MirroredMMM(d.x, d.y, d.z, xa, xb, ya, yb, za, zb);
        } else {
          assert r.direction == Vec3(-dx, -dy, dz);
          MirroredMMP(d.x, d.y, d.z, xa, xb, ya, yb, za, zb);
        }
      } else {
        if dz < 0.0 {
          assert r.direction == Vec3(-dx, dy, -dz);
          MirroredMPM(d.x, d.y, d.z, xa, xb, ya, yb, za, zb);
        } else {
          assert r.direction == Vec3(-dx, dy, dz);
          MirroredMPP(d.x, d.y, d.z, xa, xb, ya, yb, za, zb);
        }
      }
    } else {
      if dy < 0.0 {
        if dz < 0.0 {
          assert r.direction == Vec3(dx, -dy, -dz);
          MirroredPMM(d.x, d.y, d.z, xa, xb, ya, yb, za, zb);
        } else {
          assert r.direction == Vec3(dx, -dy, dz);
          MirroredPMP(d.x, d.y, d.z, xa, xb, ya, yb, za, zb);
        }
      } else {
        if dz < 0.0 {
          assert r.direction == Vec3(dx, dy, -dz);
          MirroredPPM(d.x, d.y, d.z, xa, xb, ya, yb, za, zb);
        } else {
          assert r == ray && b == box;
        }
      }
    }
  }

  /**
   * On a mirrored axis the direction and the two face offsets change sign
   * and swap: xa' = -xb and xb' = -xa; elsewhere they are kept.
   */
  lemma MirroredQuantities(ray: Ray, box: BoundingBox)
    ensures var r, b, o, d := MirrorRayToPositive(ray), MirrorBoxFor(ray, box), ray.origin, ray.direction;
      && r.direction.x == (if d.x < 0.0 then -d.x else d.x)
      && r.direction.y == (if d.y < 0.0 then -d.y else d.y)
      && r.direction.z == (if d.z < 0.0 then -d.z else d.z)
      && b.min.x - r.origin.x == (if d.x < 0.0 then -(box.max.x - o.x) else box.min.x - o.x)
      && b.max.x - r.origin.x == (if d.x < 0.0 then -(box.min.x - o.x) else box.max.x - o.x)
      && b.min.y - r.origin.y == (if d.y < 0.0 then -(box.max.y - o.y) else box.min.y - o.y)
      && b.max.y - r.origin.y == (if d.y < 0.0 then -(box.min.y - o.y) else box.max.y - o.y)
      && b.min.z - r.origin.z == (if d.z < 0.0 then -(box.max.z - o.z) else box.min.z - o.z)
      && b.max.z - r.origin.z == (if d.z < 0.0 then -(box.min.z - o.z) else box.max.z - o.z)
      && (r.origin.x > b.max.x <==> (if d.x < 0.0 then o.x < box.min.x else o.x > box.max.x))
      && (r.origin.y > b.max.y <==> (if d.y < 0.0 then o.y < box.min.y else o.y > box.max.y))
      && (r.origin.z > b.max.z <==> (if d.z < 0.0 then o.z < box.min.z else o.z > box.max.z))
  {
  }

  lemma MirroredMMM(dx: real, dy: real, dz: real, xa: real, xb: real, ya: real, yb: real, za: real, zb: real)
    ensures SideTestsMMM(dx, dy, dz, xa, xb, ya, yb, za, zb)
            == SideTestsPPP(-dx, -dy, -dz, -xb, -xa, -yb, -ya, -zb, -za)
  {
  }

  lemma MirroredMMP(dx: real, dy: real, dz: real, xa: real, xb: real, ya: real, yb: real, za: real, zb: real)
    ensures SideTestsMMP(dx, dy, dz, xa, xb, ya, yb, za, zb)
            == SideTestsPPP(-dx, -dy, dz, -xb, -xa, -yb, -ya, za, zb)
  {
  }

  lemma MirroredMPM(dx: real, dy: real, dz: real, xa: real, xb: real, ya: real, yb: real, za: real, zb: real)
    ensures SideTestsMPM(dx, dy, dz, xa, xb, ya, yb, za, zb)
            == SideTestsPPP(-dx, dy, -dz, -xb, -xa, ya, yb, -zb, -za)
  {
  }

  lemma MirroredMPP(dx: real, dy: real, dz: real, xa: real, xb: real, ya: real, yb: real, za: real, zb: real)
    ensures SideTestsMPP(dx, dy, dz, xa, xb, ya, yb, za, zb)
            == SideTestsPPP(-dx, dy, dz, -xb, -xa, ya, yb, za, zb)
  {
  }

  lemma MirroredPMM(dx: real, dy: real, dz: real, xa: real, xb: real, ya: real, yb: real, za: real, zb: real)
    ensures SideTestsPMM(dx, dy, dz, xa, xb, ya, yb, za, zb)
            == SideTestsPPP(dx, -dy, -dz, xa, xb, -yb, -ya, -zb, -za)
  {
  }

  lemma MirroredPMP(dx: real, dy: real, dz: real, xa: real, xb: real, ya: real, yb: real, za: real, zb: real)
    ensures SideTestsPMP(dx, dy, dz, xa, xb, ya, yb, za, zb)
            == SideTestsPPP(dx, -dy, dz, xa, xb, -yb, -ya, za, zb)
  {
  }

  lemma MirroredPPM(dx: real, dy: real, dz: real, xa: real, xb: real, ya: real, yb: real, za: real, zb: real)
    ensures SideTestsPPM(dx, dy, dz, xa, xb, ya, yb, za, zb)
            == SideTestsPPP(dx, dy, -dz, xa, xb, ya, yb, -zb, -za)
  {
  }

  /** Mirroring maps the points of the ray into the mirrored box exactly when they were in the box. */
  lemma MirrorKeepsMeeting(ray: Ray, box: BoundingBox, t: real)
    ensures InBox(MirrorBoxFor(ray, box), PointAt(MirrorRayToPositive(ray), t)) == InBox(box, PointAt(ray, t))
  {
    MirrorKeepsAxisX(ray, box, t);
    MirrorKeepsAxisY(ray, box, t);
    MirrorKeepsAxisZ(ray, box, t);
  }

  lemma MirrorKeepsAxisX(ray: Ray, box: BoundingBox, t: real)
    ensures var b, p, q := MirrorBoxFor(ray, box), PointAt(MirrorRayToPositive(ray), t), PointAt(ray, t);
            (b.min.x <= p.x <= b.max.x) == (box.min.x <= q.x <= box.max.x)
  {
    MirrorAxis(ray.direction.x < 0.0, ray.origin.x, ray.direction.x, t, box.min.x, box.max.x);
  }

  lemma MirrorKeepsAxisY(ray: Ray, box: BoundingBox, t: real)
    ensures var b, p, q := MirrorBoxFor(ray, box), PointAt(MirrorRayToPositive(ray), t), PointAt(ray, t);
            (b.min.y <= p.y <= b.max.y) == (box.min.y <= q.y <= box.max.y)
  {
    MirrorAxis(ray.direction.y < 0.0, ray.origin.y, ray.direction.y, t, box.min.y, box.max.y);
  }

  lemma MirrorKeepsAxisZ(ray: Ray, box: BoundingBox, t: real)
    ensures var b, p, q := MirrorBoxFor(ray, box), PointAt(MirrorRayToPositive(ray), t), PointAt(ray, t);
            (b.min.z <= p.z <= b.max.z) == (box.min.z <= q.z <= box.max.z)
  {
    MirrorAxis(ray.direction.z < 0.0, ray.origin.z, ray.direction.z, t, box.min.z, box.max.z);
  }

  /** One axis of MirrorKeepsMeeting: negating the coordinate and the interval keeps membership. */
  lemma MirrorAxis(flip: bool, o: real, d: real, t: real, lo: real, hi: real)
    ensures var p := (if flip then -o else o) + (if flip then -d else d) * t;
            ((if flip then -hi else lo) <= p <= (if flip then -lo else hi)) == (lo <= o + d * t <= hi)
  {
  }

  lemma MirrorKeepsWellFormed(ray: Ray, box: BoundingBox)
    requires WellFormed(box)
    ensures WellFormed(MirrorBoxFor(ray, box))
  {
  }

  // ---------------------------------------------------------------------
  // The PPP branch is exact.

  /**
   * Along the ray, slab i (offsets ai, bi, direction component di) is
   * entered no later than slab j is left: ai/di <= bj/dj, multiplied out.
   */
  predicate EntryBeforeExit(di: real, ai: real, dj: real, bj: real) {
    di * bj - dj * ai >= 0.0
  }

  /** The six PPP side tests pass exactly when every slab is entered before every other is left. */
  lemma SideTestsAsSlabOrder(dx: real, dy: real, dz: real, xa: real, xb: real, ya: real, yb: real, za: real, zb: real)
    ensures SideTestsPPP(dx, dy, dz, xa, xb, ya, yb, za, zb)
            <==> EntryBeforeExit(dx, xa, dy, yb) && EntryBeforeExit(dy, ya, dx, xb)
                 && EntryBeforeExit(dz, za, dx, xb) && EntryBeforeExit(dx, xa, dz, zb)
                 && EntryBeforeExit(dy, ya, dz, zb) && EntryBeforeExit(dz, za, dy, yb)
  {
  }

  /** A common point of two slabs at parameter t orders their entry and exit. */
  lemma SlabOrderFromPoint(di: real, ai: real, bi: real, dj: real, aj: real, bj: real, t: real)
    requires di >= 0.0 && dj >= 0.0
    requires ai <= di * t <= bi && aj <= dj * t <= bj
    ensures EntryBeforeExit(di, ai, dj, bj)
  {
    MulAtMost(di, dj * t, bj);
    MulAtMost(dj, ai, di * t);
    assert di * (dj * t) == dj * (di * t);
  }

  /** The PPP branch reports every ray with nonnegative direction that meets the box. */
  lemma PositiveOctantNoFalseNegative(ray: Ray, box: BoundingBox, t: real)
    requires ray.direction.x >= 0.0 && ray.direction.y >= 0.0 && ray.direction.z >= 0.0
    requires t >= 0.0 && InBox(box, PointAt(ray, t))
    ensures PositiveOctantHit(ray, box)
  {
    var o, d := ray.origin, ray.direction;
    var p := PointAt(ray, t);
    assert p.x == o.x + d.x * t && p.y == o.y + d.y * t && p.z == o.z + d.z * t;
    assert box.min.x - o.x <= d.x * t <= box.max.x - o.x;
    assert box.min.y - o.y <= d.y * t <= box.max.y - o.y;
    assert box.min.z - o.z <= d.z * t <= box.max.z - o.z;
    SlabsNoFalseNegative(d.x, d.y, d.z, box.min.x - o.x, box.max.x - o.x, box.min.y - o.y,
                         box.max.y - o.y, box.min.z - o.z, box.max.z - o.z, t);
  }

  /** SlabOrderFromPoint for the six ordered pairs of slabs, with the exits ahead of the origin. */
  lemma SlabsNoFalseNegative(dx: real, dy: real, dz: real, xa: real, xb: real, ya: real, yb: real,
                             za: real, zb: real, t: real)
    requires dx >= 0.0 && dy >= 0.0 && dz >= 0.0 && t >= 0.0
    requires xa <= dx * t <= xb && ya <= dy * t <= yb && za <= dz * t <= zb
    ensures xb >= 0.0 && yb >= 0.0 && zb >= 0.0
    ensures SideTestsPPP(dx, dy, dz, xa, xb, ya, yb, za, zb)
  {
    MulAtMost(t, 0.0, dx);
    MulAtMost(t, 0.0, dy);
    MulAtMost(t, 0.0, dz);
    SlabOrderFromPoint(dx, xa, xb, dy, ya, yb, t);
    SlabOrderFromPoint(dy, ya, yb, dx, xa, xb, t);
    SlabOrderFromPoint(dz, za, zb, dx, xa, xb, t);
    SlabOrderFromPoint(dx, xa, xb, dz, za, zb, t);
    SlabOrderFromPoint(dy, ya, yb, dz, za, zb, t);
    SlabOrderFromPoint(dz, za, zb, dy, ya, yb, t);
    SideTestsAsSlabOrder(dx, dy, dz, xa, xb, ya, yb, za, zb);
  }

  /** The parameter at which the ray enters a slab it travels along (0 when it does not travel along it). */
  function Entry(a: real, d: real): real {
    if d > 0.0 then a / d else 0.0
  }

  function Max(a: real, b: real): real {
    if a >= b then a else b
  }

  /** An entry parameter of one slab, scaled by dj, stays below the exit offset bj of a slab left later. */
  lemma EntryBelowExit(di: real, ai: real, dj: real, bj: real)
    requires di >= 0.0 && dj > 0.0 && bj >= 0.0 && EntryBeforeExit(di, ai, dj, bj)
    ensures dj * Entry(ai, di) <= bj
  {
    if di > 0.0 {
      var e := ai / di;
      assert e * di == ai;
      assert di * (dj * e) == dj * ai;
      DivideAtMost(di, dj * e, bj);
    }
  }

  /** On an axis the ray does not travel along, an entry offset no later than another slab's exit is not ahead. */
  lemma StillAxisInside(di: real, aj: real, bi: real)
    requires di > 0.0 && EntryBeforeExit(0.0, aj, di, bi)
    ensures aj <= 0.0
  {
  }

  /**
   * At the latest entry parameter t, the ray is inside slab j, provided
   * slab j is left no earlier than the other two slabs are entered.
   */
  lemma AxisCovered(t: real, dj: real, aj: real, bj: real, di: real, ai: real, dk: real, ak: real)
    requires dj >= 0.0 && di >= 0.0 && dk >= 0.0 && aj <= bj && bj >= 0.0
    requires EntryBeforeExit(di, ai, dj, bj) && EntryBeforeExit(dk, ak, dj, bj)
    requires dj == 0.0 ==> aj <= 0.0
    requires t >= 0.0 && t >= Entry(ai, di) && t >= Entry(aj, dj) && t >= Entry(ak, dk)
    requires t == 0.0 || t == Entry(ai, di) || t == Entry(aj, dj) || t == Entry(ak, dk)
    ensures aj <= dj * t <= bj
  {
    if dj > 0.0 {
      var e := aj / dj;
      assert e * dj == aj;
      MulAtMost(dj, e, t);
      EntryBelowExit(di, ai, dj, bj);
      EntryBelowExit(dj, aj, dj, bj);
      EntryBelowExit(dk, ak, dj, bj);
    }
  }

  /**
   * For a nonzero direction with nonnegative components and a well-formed
   * box, a PPP hit has a witness: the latest of the slab entry parameters.
   */
  lemma PositiveOctantHitPoint(ray: Ray, box: BoundingBox) returns (t: real)
    requires ray.direction.x >= 0.0 && ray.direction.y >= 0.0 && ray.direction.z >= 0.0
    requires ray.direction != Zero && WellFormed(box)
    requires PositiveOctantHit(ray, box)
    ensures t >= 0.0 && InBox(box, PointAt(ray, t))
  {
    var o, d := ray.origin, ray.direction;
    SomeComponentPositive(d);
    t := SlabsHitPoint(ray.direction.x, ray.direction.y, ray.direction.z,
                       box.min.x - ray.origin.x, box.max.x - ray.origin.x,
                       box.min.y - ray.origin.y, box.max.y - ray.origin.y,
                       box.min.z - ray.origin.z, box.max.z - ray.origin.z);
    OffsetsInBox(ray, box, t);
  }

  /** The ray point at t is in the box when each coordinate's travel d*t stays within the box's offsets from the origin. */
  lemma OffsetsInBox(ray: Ray, box: BoundingBox, t: real)
    requires box.min.x - ray.origin.x <= ray.direction.x * t <= box.max.x - ray.origin.x
    requires box.min.y - ray.origin.y <= ray.direction.y * t <= box.max.y - ray.origin.y
    requires box.min.z - ray.origin.z <= ray.direction.z * t <= box.max.z - ray.origin.z
    ensures InBox(box, PointAt(ray, t))
  {
    PointAtComponents(ray, t);
  }

  /** A nonzero vector with nonnegative components has a positive one. */
  lemma SomeComponentPositive(d: Vec3)
    requires d.x >= 0.0 && d.y >= 0.0 && d.z >= 0.0 && d != Zero
    ensures d.x > 0.0 || d.y > 0.0 || d.z > 0.0
  {
    assert d == Vec3(d.x, d.y, d.z);
  }

  /** The latest slab entry parameter lies in all three slabs. */
  lemma SlabsHitPoint(dx: real, dy: real, dz: real, xa: real, xb: real, ya: real, yb: real,
                      za: real, zb: real) returns (t: real)
    requires dx >= 0.0 && dy >= 0.0 && dz >= 0.0 && (dx > 0.0 || dy > 0.0 || dz > 0.0)
    requires xa <= xb && ya <= yb && za <= zb && xb >= 0.0 && yb >= 0.0 && zb >= 0.0
    requires SideTestsPPP(dx, dy, dz, xa, xb, ya, yb, za, zb)
    ensures t >= 0.0
    ensures xa <= dx * t <= xb && ya <= dy * t <= yb && za <= dz * t <= zb
  {
    SideTestsAsSlabOrder(dx, dy, dz, xa, xb, ya, yb, za, zb);
    if dx == 0.0 {
      if dy > 0.0 { StillAxisInside(dy, xa, yb); } else { StillAxisInside(dz, xa, zb); }
    }
    if dy == 0.0 {
      if dx > 0.0 { StillAxisInside(dx, ya, xb); } else { StillAxisInside(dz, ya, zb); }
    }
    if dz == 0.0 {
      if dx > 0.0 { StillAxisInside(dx, za, xb); } else { StillAxisInside(dy, za, yb); }
    }
    t := Max(Max(0.0, Entry(xa, dx)), Max(Entry(ya, dy), Entry(za, dz)));
    AxisCovered(t, dx, xa, xb, dy, ya, dz, za);
    AxisCovered(t, dy, ya, yb, dx, xa, dz, za);
    AxisCovered(t, dz, za, zb, dx, xa, dy, ya);
  }

  // ---------------------------------------------------------------------
  // What the test decides.

  /** The test never misses a ray that meets the closed box, whatever its direction. */
  lemma HitsBoxWhenMeets(ray: Ray, box: BoundingBox, t: real)
    requires t >= 0.0 && InBox(box, PointAt(ray, t))
    ensures HitsBox(ray, box)
  {
    var r, b := MirrorRayToPositive(ray), MirrorBoxFor(ray, box);
    OctantIsMirroredPositive(ray, box);
    MirroredQuantities(ray, box);
    MirrorKeepsMeeting(ray, box, t);
    PositiveOctantNoFalseNegative(r, b, t);
  }

  /** For a nonzero direction and a well-formed box, a reported hit is a real one. */
  lemma MeetsWhenHitsBox(ray: Ray, box: BoundingBox)
    requires WellFormed(box) && ray.direction != Zero
    requires HitsBox(ray, box)
    ensures MeetsBox(ray, box)
  {
    var r, b := MirrorRayToPositive(ray), MirrorBoxFor(ray, box);
    OctantIsMirroredPositive(ray, box);
    MirroredQuantities(ray, box);
    MirrorKeepsWellFormed(ray, box);
    assert r.direction != Zero;
    var t := PositiveOctantHitPoint(r, b);
    MirrorKeepsMeeting(ray, box, t);
  }

  /**
   * The octant test is exact: for a nonzero direction and a well-formed box
   * it reports a hit if and only if some point of the ray lies in the box.
   */
  lemma HitsBoxIffMeets(ray: Ray, box: BoundingBox)
    requires WellFormed(box) && ray.direction != Zero
    ensures HitsBox(ray, box) <==> MeetsBox(ray, box)
  {
    if HitsBox(ray, box) {
      MeetsWhenHitsBox(ray, box);
    }
    if t :| t >= 0.0 && InBox(box, PointAt(ray, t)) {
      HitsBoxWhenMeets(ray, box, t);
    }
  }

  /** A ray whose origin is in the box hits it, for any direction. */
  lemma OriginInsideHitsBox(ray: Ray, box: BoundingBox)
    requires InBox(box, ray.origin)
    ensures HitsBox(ray, box)
  {
    assert PointAt(ray, 0.0) == ray.origin;
    HitsBoxWhenMeets(ray, box, 0.0);
  }

  /**
   * Every branch rejects a ray whose origin lies beyond the box face it is
   * travelling away from, on any axis.
   */
  lemma RejectsBeyondFace(ray: Ray, box: BoundingBox)
    requires var o, d := ray.origin, ray.direction;
             (d.x < 0.0 && o.x < box.min.x) || (d.x >= 0.0 && o.x > box.max.x)
             || (d.y < 0.0 && o.y < box.min.y) || (d.y >= 0.0 && o.y > box.max.y)
             || (d.z < 0.0 && o.z < box.min.z) || (d.z >= 0.0 && o.z > box.max.z)
    ensures !HitsBox(ray, box)
  {
  }

  /**
   * A zero direction falls into the PPP branch with every side test equal
   * to zero: the test then reports a hit exactly when the origin is below
   * the maximum corner on every axis, inside the box or not.
   */
  lemma ZeroDirectionHitsBox(ray: Ray, box: BoundingBox)
    requires ray.direction == Zero
    ensures HitsBox(ray, box)
            <==> ray.origin.x <= box.max.x && ray.origin.y <= box.max.y && ray.origin.z <= box.max.z
  {
  }
}
