/** Three-component real vectors: node coordinates and local axes. */
module Vectors {

  datatype Vec3 = Vec3(x: real, y: real, z: real)

  function Add(a: Vec3, b: Vec3): Vec3
  {
    Vec3(a.x + b.x, a.y + b.y, a.z + b.z)
  }

  function Sub(a: Vec3, b: Vec3): Vec3
  {
    Vec3(a.x - b.x, a.y - b.y, a.z - b.z)
  }

  function Scale(k: real, a: Vec3): Vec3
  {
    Vec3(k * a.x, k * a.y, k * a.z)
  }

  function Dot(a: Vec3, b: Vec3): real
  {
    a.x * b.x + a.y * b.y + a.z * b.z
  }

  function Cross(a: Vec3, b: Vec3): Vec3
  {
    Vec3(a.y * b.z - a.z * b.y, a.z * b.x - a.x * b.z, a.x * b.y - a.y * b.x)
  }

  function NormSq(a: Vec3): real
  {
    Dot(a, a)
  }

  function AbsReal(r: real): real
  {
    if r < 0.0 then -r else r
  }

  /** numpy's elementwise `abs`. */
  function Abs(a: Vec3): Vec3
  {
    Vec3(AbsReal(a.x), AbsReal(a.y), AbsReal(a.z))
  }

  /** `sqrt` is a square root on the non-negative reals; the model takes it as a parameter. */
  ghost predicate IsSqrt(sqrt: real -> real)
  {
    forall x :: 0.0 <= x ==> 0.0 <= sqrt(x) && sqrt(x) * sqrt(x) == x
  }

  /** `norm` is the Euclidean norm np.linalg.norm: non-negative, squaring to the sum of
      squares, and zero only at the origin; the model takes it as a parameter. */
  ghost predicate IsNorm(norm: Vec3 -> real)
  {
    forall a :: 0.0 <= norm(a) && norm(a) * norm(a) == NormSq(a) && (norm(a) == 0.0 <==> a == Vec3(0.0, 0.0, 0.0))
  }

  /** The cross product is orthogonal to both of its factors. */
  lemma CrossOrthogonal(a: Vec3, b: Vec3)
    ensures Dot(Cross(a, b), a) == 0.0 && Dot(Cross(a, b), b) == 0.0
  {
  }

  /** Lagrange's identity |a x b|^2 = |a|^2 |b|^2 - (a . b)^2. */
  lemma CrossNormSq(a: Vec3, b: Vec3)
    ensures NormSq(Cross(a, b)) == NormSq(a) * NormSq(b) - Dot(a, b) * Dot(a, b)
  {
  }

  /** A square root through IsSqrt is positive exactly on positive arguments. */
  lemma SqrtPositive(sqrt: real -> real, x: real)
    requires IsSqrt(sqrt) && x > 0.0
    ensures sqrt(x) > 0.0 && sqrt(x) * sqrt(x) == x
  {
  }

  /** A unit vector has norm one. */
  lemma NormOfUnit(norm: Vec3 -> real, a: Vec3)
    requires IsNorm(norm) && NormSq(a) == 1.0
    ensures norm(a) == 1.0
  {
    var r := norm(a);
    assert r >= 0.0 && r * r == 1.0;
    assert (r - 1.0) * (r + 1.0) == 0.0;
    assert r + 1.0 > 0.0;
    assert r - 1.0 == 0.0 || r + 1.0 == 0.0;
  }
}
