/**
 * The small part of the vector algebra that the collision kernel leans on:
 * three-component vectors over exact reals, their sum, difference, scaling,
 * dot and cross products, and the tolerance comparison used where the
 * kernel tests a value "close enough" to another.
 */
module Vectors {

  datatype Vec3 = Vec3(x: real, y: real, z: real)

  const Zero := Vec3(0.0, 0.0, 0.0)

  function Add(a: Vec3, b: Vec3): Vec3 {
    Vec3(a.x + b.x, a.y + b.y, a.z + b.z)
  }

  function Sub(a: Vec3, b: Vec3): Vec3 {
    Vec3(a.x - b.x, a.y - b.y, a.z - b.z)
  }

  function Scale(a: Vec3, k: real): Vec3 {
    Vec3(a.x * k, a.y * k, a.z * k)
  }

  function Dot(a: Vec3, b: Vec3): real {
    a.x * b.x + a.y * b.y + a.z * b.z
  }

  function Cross(a: Vec3, b: Vec3): Vec3 {
    Vec3(a.y * b.z - a.z * b.y, a.z * b.x - a.x * b.z, a.x * b.y - a.y * b.x)
  }

  function Abs(x: real): real {
    if x < 0.0 then -x else x
  }

  /** The tolerance comparison: `a` and `b` differ by less than `eps`. */
  predicate CloseEnough(a: real, b: real, eps: real) {
    Abs(a - b) < eps
  }

  /** Component-wise tolerance equality of two vectors. */
  predicate CloseEnoughVec(a: Vec3, b: Vec3, eps: real) {
    CloseEnough(a.x, b.x, eps) && CloseEnough(a.y, b.y, eps) && CloseEnough(a.z, b.z, eps)
  }

  /** The dot product is linear in a scaled argument. */
  lemma DotScale(a: Vec3, b: Vec3, k: real)
    ensures Dot(Scale(a, k), b) == k * Dot(a, b)
    ensures Dot(a, Scale(b, k)) == k * Dot(a, b)
  {
  }

  /** Scaling a vector by `k` scales its squared length by `k*k`. */
  lemma DotScaleSelf(a: Vec3, k: real)
    ensures Dot(Scale(a, k), Scale(a, k)) == k * (k * Dot(a, a))
  {
  }

  /** A cross product is orthogonal to both of its factors. */
  lemma CrossOrthogonal(a: Vec3, b: Vec3)
    ensures Dot(Cross(a, b), a) == 0.0
    ensures Dot(Cross(a, b), b) == 0.0
  {
  }

  // Scalar facts about multiplying by a nonnegative factor, each kept small
  // so that the nonlinear reasoning above them stays cheap.

  lemma SquareNonNegative(x: real)
    ensures x * x >= 0.0
  {
  }

  lemma MulAtMost(k: real, a: real, b: real)
    requires k >= 0.0 && a <= b
    ensures k * a <= k * b
  {
  }

  lemma MulBelow(k: real, a: real, b: real)
    requires k > 0.0 && a < b
    ensures k * a < k * b
  {
  }

  /** Multiplying by a positive factor keeps the sign. */
  lemma SignPreserved(k: real, s: real)
    requires k > 0.0
    ensures k * s > 0.0 <==> s > 0.0
    ensures k * s < 0.0 <==> s < 0.0
    ensures k * s == 0.0 <==> s == 0.0
  {
    if s > 0.0 {
      MulBelow(k, 0.0, s);
    } else if s < 0.0 {
      MulBelow(k, s, 0.0);
    }
  }
}
