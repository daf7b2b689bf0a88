/**
 * The bounding-volume value types: an axis-aligned box given by its two
 * extreme corners, a sphere given by its centre and radius, and the compound
 * volume that pairs one of each for two-stage tests.
 */
module Bounds {
  import opened Vectors

  /** Axis-aligned box; the caller keeps `min` below `max` component-wise. */
  datatype BoundingBox = BoundingBox(min: Vec3, max: Vec3)

  datatype BoundingSphere = BoundingSphere(center: Vec3, radius: real)

  /**
   * A box and a sphere describing the same object. Nothing ties the two
   * extents together: any box may be paired with any sphere.
   */
  datatype BoundingVolume = BoundingVolume(box: BoundingBox, sphere: BoundingSphere)

  /** The box is well formed: `min` lies below `max` on every axis. */
  predicate WellFormed(box: BoundingBox) {
    box.min.x <= box.max.x && box.min.y <= box.max.y && box.min.z <= box.max.z
  }

  /** The point `p` lies in the closed box. */
  predicate InBox(box: BoundingBox, p: Vec3) {
    box.min.x <= p.x <= box.max.x && box.min.y <= p.y <= box.max.y && box.min.z <= p.z <= box.max.z
  }

  /** The point `p` lies strictly inside the sphere. */
  predicate InSphere(s: BoundingSphere, p: Vec3) {
    var w := Sub(p, s.center);
    Dot(w, w) < s.radius * s.radius
  }

  /** BoundingBox::getCenter: the midpoint of the two corners. */
  function Center(box: BoundingBox): (c: Vec3)
    ensures Sub(c, box.min) == Sub(box.max, c)
    ensures WellFormed(box) ==> InBox(box, c)
  {
    Scale(Add(box.min, box.max), 0.5)
  }

  /**
   * BoundingSphere::hasCollided: the squared distance between the centres is
   * strictly below the square of the summed radii.
   */
  predicate HasCollided(s: BoundingSphere, other: BoundingSphere) {
    var disp := Sub(other.center, s.center);
    var lengthSq := disp.x * disp.x + disp.y * disp.y + disp.z * disp.z;
    var radiiSq := (other.radius + s.radius) * (other.radius + s.radius);
    lengthSq < radiiSq
  }

  /** Colliding is symmetric: neither sphere is privileged. */
  lemma HasCollidedSymmetric(s: BoundingSphere, other: BoundingSphere)
    ensures HasCollided(s, other) == HasCollided(other, s)
  {
    var d := Sub(other.center, s.center);
    var e := Sub(s.center, other.center);
    assert e.x * e.x == d.x * d.x && e.y * e.y == d.y * d.y && e.z * e.z == d.z * d.z;
  }

  /** Spheres that only touch (distance equal to the summed radii) do not collide. */
  lemma TouchingSpheresDoNotCollide(s: BoundingSphere, other: BoundingSphere)
    requires var d := Sub(other.center, s.center);
             Dot(d, d) == (s.radius + other.radius) * (s.radius + other.radius)
    ensures !HasCollided(s, other)
  {
  }

  /**
   * For spheres of positive radius, the test is exact: they collide if and
   * only if some point lies strictly inside both of them.
   */
  lemma HasCollidedIffCommonPoint(s: BoundingSphere, other: BoundingSphere)
    requires s.radius > 0.0 && other.radius > 0.0
    ensures HasCollided(s, other) <==> exists p :: InSphere(s, p) && InSphere(other, p)
  {
    if HasCollided(s, other) {
      var p := CommonPoint(s, other);
    }
    if p :| InSphere(s, p) && InSphere(other, p) {
      CommonPointCollides(s, other, p);
    }
  }

  /** The point dividing the segment between the centres in the ratio of the radii. */
  lemma CommonPoint(s: BoundingSphere, other: BoundingSphere) returns (p: Vec3)
    requires s.radius > 0.0 && other.radius > 0.0
    requires HasCollided(s, other)
    ensures InSphere(s, p) && InSphere(other, p)
  {
    var d := Sub(other.center, s.center);
    var sum := s.radius + other.radius;
    var ratio := s.radius / sum;
    assert ratio * sum == s.radius;
    assert (1.0 - ratio) * sum == other.radius;
    p := Add(s.center, Scale(d, ratio));
    var e := Sub(s.center, other.center);
    assert Dot(d, d) < sum * sum;
    assert Dot(e, e) == Dot(d, d);
    PositiveFactor(ratio, sum, s.radius);
    PositiveFactor(1.0 - ratio, sum, other.radius);
    assert Sub(p, s.center) == Scale(d, ratio);
    OffsetInSphere(s, p, d, ratio, sum);
    assert Sub(p, other.center) == Scale(e, 1.0 - ratio);
    OffsetInSphere(other, p, e, 1.0 - ratio, sum);
  }

  /**
   * A point offset from the centre by `m*d`, where `|d|` is below `S` and
   * `m*S` is the radius, lies inside the sphere.
   */
  lemma OffsetInSphere(s: BoundingSphere, p: Vec3, d: Vec3, m: real, S: real)
    requires Sub(p, s.center) == Scale(d, m)
    requires m > 0.0 && Dot(d, d) < S * S && m * S == s.radius
    ensures InSphere(s, p)
  {
    DotScaleSelf(d, m);
    ScaledBelow(m, Dot(d, d), S);
    assert Sq(m * S) == Sq(s.radius);
  }

  /** A factor whose product with a positive number is positive is itself positive. */
  lemma PositiveFactor(f: real, sum: real, product: real)
    requires sum > 0.0 && f * sum == product && product > 0.0
    ensures f > 0.0
  {
    if f <= 0.0 {
      MulAtMost(sum, f, 0.0);
    }
  }

  /** The square, as a function so that equal arguments give equal squares. */
  function Sq(x: real): real { x * x }

  /** If `m` is positive and `L < S*S`, then `m*(m*L) < (m*S)^2`. */
  lemma ScaledBelow(m: real, L: real, S: real)
    requires m > 0.0 && L < S * S
    ensures m * (m * L) < Sq(m * S)
  {
    MulBelow(m, L, S * S);
    MulBelow(m, m * L, m * (S * S));
    assert m * (m * (S * S)) == (m * S) * (m * S);
  }

  /** A point strictly inside both spheres forces them to collide. */
  lemma CommonPointCollides(s: BoundingSphere, other: BoundingSphere, p: Vec3)
    requires s.radius > 0.0 && other.radius > 0.0
    requires InSphere(s, p) && InSphere(other, p)
    ensures HasCollided(s, other)
  {
    var u := Sub(p, s.center);
    var v := Sub(other.center, p);
    var w := Sub(p, other.center);
    assert Dot(v, v) == Dot(w, w);
    var d := Sub(other.center, s.center);
    assert d == Add(u, v);
    assert Dot(d, d) == Dot(u, u) + 2.0 * Dot(u, v) + Dot(v, v);
    CauchySchwarz(u, v);
    ProductBelow(Dot(u, u), s.radius * s.radius, Dot(v, v), other.radius * other.radius);
    assert Dot(u, u) * Dot(v, v) < (s.radius * other.radius) * (s.radius * other.radius);
    SquareBelow(Dot(u, v), s.radius * other.radius);
  }

  /** (u.v)^2 <= |u|^2 |v|^2, by Lagrange's identity. */
  lemma CauchySchwarz(u: Vec3, v: Vec3)
    ensures Dot(u, v) * Dot(u, v) <= Dot(u, u) * Dot(v, v)
    ensures Dot(u, u) >= 0.0 && Dot(v, v) >= 0.0
  {
    Lagrange(u.x, u.y, u.z, v.x, v.y, v.z);
  }

  /** (u.v)^2 <= |u|^2 |v|^2 for three-component vectors, written out. */
  lemma Lagrange(a: real, b: real, c: real, x: real, y: real, z: real)
    ensures (a * x + b * y + c * z) * (a * x + b * y + c * z) <= (a * a + b * b + c * c) * (x * x + y * y + z * z)
    ensures a * a + b * b + c * c >= 0.0 && x * x + y * y + z * z >= 0.0
  {
    var p, q, r := b * z - c * y, c * x - a * z, a * y - b * x;
    LagrangeIdentity(a, b, c, x, y, z);
    SquareNonNegative(p);
    SquareNonNegative(q);
    SquareNonNegative(r);
    GapIsSumOfSquares((a * x + b * y + c * z) * (a * x + b * y + c * z),
                      (a * a + b * b + c * c) * (x * x + y * y + z * z), p * p, q * q, r * r);
    SumOfSquaresNonNegative(a, b, c);
    SumOfSquaresNonNegative(x, y, z);
  }

  /** A quantity exceeding another by a sum of nonnegative terms is at least as large. */
  lemma GapIsSumOfSquares(lower: real, upper: real, p: real, q: real, r: real)
    requires upper - lower == p + q + r && p >= 0.0 && q >= 0.0 && r >= 0.0
    ensures lower <= upper
  {
  }

  lemma SumOfSquaresNonNegative(a: real, b: real, c: real)
    ensures a * a + b * b + c * c >= 0.0
  {
    SquareNonNegative(a);
    SquareNonNegative(b);
    SquareNonNegative(c);
  }

  /**
   * Lagrange's identity: |u|^2 |v|^2 - (u.v)^2 is the sum of the squares of
   * the components of u x v.
   */
  lemma LagrangeIdentity(a: real, b: real, c: real, x: real, y: real, z: real)
    ensures (a * a + b * b + c * c) * (x * x + y * y + z * z) - (a * x + b * y + c * z) * (a * x + b * y + c * z)
            == (b * z - c * y) * (b * z - c * y) + (c * x - a * z) * (c * x - a * z) + (a * y - b * x) * (a * y - b * x)
  {
    ProductOfSums(a * a, b * b, c * c, x * x, y * y, z * z);
    SquareOfSum(a * x, b * y, c * z);
    SquareOfDifference(b * z, c * y);
    SquareOfDifference(c * x, a * z);
    SquareOfDifference(a * y, b * x);
    // Squared terms, as they appear on each side.
    Regroup(a, x, a, x);
    Regroup(b, y, b, y);
    Regroup(c, z, c, z);
    Regroup(a, y, a, y);
    Regroup(a, z, a, z);
    Regroup(b, x, b, x);
    Regroup(b, z, b, z);
    Regroup(c, x, c, x);
    Regroup(c, y, c, y);
    // Cross terms of (u.v)^2 against those of the cross product's squares.
    Regroup(a, x, b, y);
    Regroup(a, y, b, x);
    Regroup(a, x, c, z);
    Regroup(c, x, a, z);
    Regroup(b, y, c, z);
    Regroup(b, z, c, y);
  }

  lemma ProductOfSums(a: real, b: real, c: real, x: real, y: real, z: real)
    ensures (a + b + c) * (x + y + z) == a * x + a * y + a * z + b * x + b * y + b * z + c * x + c * y + c * z
  {
  }

  lemma SquareOfSum(u: real, v: real, w: real)
    ensures (u + v + w) * (u + v + w) == u * u + v * v + w * w + 2.0 * (u * v) + 2.0 * (u * w) + 2.0 * (v * w)
  {
  }

  lemma SquareOfDifference(m: real, n: real)
    ensures (m - n) * (m - n) == m * m - 2.0 * (m * n) + n * n
  {
  }

  /** (m*n)*(u*v), regrouped as (m*u)*(n*v). */
  lemma Regroup(m: real, n: real, u: real, v: real)
    ensures (m * n) * (u * v) == (m * u) * (n * v)
  {
  }

  lemma ProductBelow(a: real, A: real, b: real, B: real)
    requires 0.0 <= a < A && 0.0 <= b < B
    ensures a * b < A * B
  {
    assert a * b <= a * B;
    assert a * B < A * B;
  }

  /** If x*x < y*y and y > 0 then x < y. */
  lemma SquareBelow(x: real, y: real)
    requires x * x < y * y && y > 0.0
    ensures x < y
  {
  }
}
