/** The integration-point sum that kbeam and mbeam share: the element matrix in local
    coordinates is the sum over the integration points of P.T @ D @ P * w * J, with P = Bint
    for stiffness and P = Nint for mass, D the diagonal property matrix and J = L / 2
    (functions/Kmat/kbeam.py, functions/Mmat/mbeam.py). The sizes are kept general: P is
    r x c, with r = 4 field components and c = 12 degrees of freedom for a beam element. */
module ElementIntegral {
  import opened Sums
  import opened Matrices

  /** P at every integration point is an r x c matrix. */
  ghost predicate Interpolations(ps: seq<Matrix>, r: nat, c: nat)
  {
    forall i :: 0 <= i < |ps| ==> IsMatrix(ps[i], r, c)
  }

  /** One integration point's term `P.T @ D @ P * w * J`, evaluated left to right. */
  function Term(p: Matrix, w: real, jac: real, d: Matrix, r: nat, c: nat): (k: Matrix)
    requires IsMatrix(p, r, c) && IsSquare(d, r)
    ensures IsSquare(k, c)
  {
    MatScale(jac, MatScale(w, Congruence(p, d, r, c), c, c), c, c)
  }

  /** The accumulated matrix after the first n points, starting from the zero matrix. */
  function Accumulated(ps: seq<Matrix>, ws: seq<real>, jac: real, d: Matrix, n: nat, r: nat, c: nat): (k: Matrix)
    requires n <= |ps| == |ws| && Interpolations(ps, r, c) && IsSquare(d, r)
    ensures IsSquare(k, c)
  {
    if n == 0 then Zeros(c, c)
    else MatAdd(Accumulated(ps, ws, jac, d, n - 1, r, c), Term(ps[n - 1], ws[n - 1], jac, d, r, c), c, c)
  }

  /** J = L / 2, the factor by which the map from [-1, 1] onto an element of length L
      stretches lengths. */
  function Jacobian(len: real): real
  {
    len / 2.0
  }

  /** What the first n points of the rule, scaled by J, give for an integrand that is the
      constant q. */
  function ConstantIntegral(ws: seq<real>, n: nat, jac: real, q: real): real
  {
    jac * WeightSum(ws, n) * q
  }

  /** The sum of the first n weights. */
  function WeightSum(ws: seq<real>, n: nat): real
  {
    Sum(n, k => Get(ws, k))
  }

  /** A symmetric property matrix gives a symmetric element matrix. */
  lemma {:induction false} AccumulatedSymmetric(ps: seq<Matrix>, ws: seq<real>, jac: real, d: Matrix, n: nat, r: nat, c: nat)
    requires n <= |ps| == |ws| && Interpolations(ps, r, c) && IsSquare(d, r)
    requires Symmetric(d, r)
    ensures Symmetric(Accumulated(ps, ws, jac, d, n, r, c), c)
  {
    if n > 0 {
      AccumulatedSymmetric(ps, ws, jac, d, n - 1, r, c);
      TermSymmetric(ps[n - 1], ws[n - 1], jac, d, r, c);
      SymmetricAdd(Accumulated(ps, ws, jac, d, n - 1, r, c), Term(ps[n - 1], ws[n - 1], jac, d, r, c), c);
    }
  }

  lemma TermSymmetric(p: Matrix, w: real, jac: real, d: Matrix, r: nat, c: nat)
    requires IsMatrix(p, r, c) && IsSquare(d, r) && Symmetric(d, r)
    ensures Symmetric(Term(p, w, jac, d, r, c), c)
  {
    var cc := Congruence(p, d, r, c);
    CongruenceSymmetric(p, d, r, c);
    SymmetricScale(w, cc, c);
    SymmetricScale(jac, MatScale(w, cc, c, c), c);
  }

  /** The quadratic form of one term is w J times that of D at P x. */
  lemma TermQuadratic(p: Matrix, w: real, jac: real, d: Matrix, x: Vector, r: nat, c: nat)
    requires IsMatrix(p, r, c) && IsSquare(d, r) && |x| == c
    ensures Quadratic(Term(p, w, jac, d, r, c), x, c) == jac * (w * Quadratic(d, MatVec(p, x, r, c), r))
  {
    var cc := Congruence(p, d, r, c);
    QuadraticScale(jac, MatScale(w, cc, c, c), x, c);
    QuadraticScale(w, cc, x, c);
    CongruenceQuadratic(p, d, x, r, c);
  }

  /** The quadratic form of the accumulated matrix at x, point by point: the sum of
      w J (P x).T @ D @ (P x). */
  function Energy(ps: seq<Matrix>, ws: seq<real>, jac: real, d: Matrix, n: nat, r: nat, c: nat, x: Vector): real
    requires n <= |ps| == |ws| && Interpolations(ps, r, c) && IsSquare(d, r) && |x| == c
  {
    if n == 0 then 0.0
    else Energy(ps, ws, jac, d, n - 1, r, c, x) + jac * (ws[n - 1] * Quadratic(d, MatVec(ps[n - 1], x, r, c), r))
  }

  /** The quadratic form of the accumulated matrix is the accumulated quadratic form. */
  lemma {:induction false} AccumulatedEnergy(ps: seq<Matrix>, ws: seq<real>, jac: real, d: Matrix, n: nat, r: nat, c: nat, x: Vector)
    requires n <= |ps| == |ws| && Interpolations(ps, r, c) && IsSquare(d, r) && |x| == c
    ensures Quadratic(Accumulated(ps, ws, jac, d, n, r, c), x, c) == Energy(ps, ws, jac, d, n, r, c, x)
  {
    if n == 0 {
      QuadraticZeros(x, c);
    } else {
      AccumulatedEnergy(ps, ws, jac, d, n - 1, r, c, x);
      QuadraticStep(ps, ws, jac, d, n, r, c, x);
    }
  }

  /** Adding the n-th point adds its term's quadratic form. */
  lemma QuadraticStep(ps: seq<Matrix>, ws: seq<real>, jac: real, d: Matrix, n: nat, r: nat, c: nat, x: Vector)
    requires 0 < n <= |ps| == |ws| && Interpolations(ps, r, c) && IsSquare(d, r) && |x| == c
    ensures Quadratic(Accumulated(ps, ws, jac, d, n, r, c), x, c) ==
      Quadratic(Accumulated(ps, ws, jac, d, n - 1, r, c), x, c) + jac * (ws[n - 1] * Quadratic(d, MatVec(ps[n - 1], x, r, c), r))
  {
    var p, w := ps[n - 1], ws[n - 1];
    assert IsMatrix(p, r, c);
    var a, t := Accumulated(ps, ws, jac, d, n - 1, r, c), Term(p, w, jac, d, r, c);
    assert Accumulated(ps, ws, jac, d, n, r, c) == MatAdd(a, t, c, c);
    QuadraticAdd(a, t, x, c);
    TermQuadratic(p, w, jac, d, x, r, c);
  }

  /** Non-negative weights, a non-negative Jacobian and a positive semi-definite property
      matrix give a positive semi-definite element matrix. */
  lemma AccumulatedNonneg(ps: seq<Matrix>, ws: seq<real>, jac: real, d: Matrix, n: nat, r: nat, c: nat, x: Vector)
    requires n <= |ps| == |ws| && Interpolations(ps, r, c) && IsSquare(d, r) && |x| == c
    requires forall i :: 0 <= i < |ws| ==> ws[i] >= 0.0
    requires jac >= 0.0
    requires PositiveSemidefinite(d, r)
    ensures Quadratic(Accumulated(ps, ws, jac, d, n, r, c), x, c) >= 0.0
  {
    AccumulatedEnergy(ps, ws, jac, d, n, r, c, x);
    EnergyNonneg(ps, ws, jac, d, n, r, c, x);
  }

  lemma {:induction false} EnergyNonneg(ps: seq<Matrix>, ws: seq<real>, jac: real, d: Matrix, n: nat, r: nat, c: nat, x: Vector)
    requires n <= |ps| == |ws| && Interpolations(ps, r, c) && IsSquare(d, r) && |x| == c
    requires forall i :: 0 <= i < |ws| ==> ws[i] >= 0.0
    requires jac >= 0.0
    requires PositiveSemidefinite(d, r)
    ensures Energy(ps, ws, jac, d, n, r, c, x) >= 0.0
  {
    if n > 0 {
      EnergyNonneg(ps, ws, jac, d, n - 1, r, c, x);
      var q := Quadratic(d, MatVec(ps[n - 1], x, r, c), r);
      assert q >= 0.0;
      NonnegStep(Energy(ps, ws, jac, d, n, r, c, x), Energy(ps, ws, jac, d, n - 1, r, c, x), jac, ws[n - 1], q);
    }
  }

  lemma NonnegStep(total: real, before: real, jac: real, w: real, q: real)
    requires total == before + jac * (w * q)
    requires before >= 0.0 && jac >= 0.0 && w >= 0.0 && q >= 0.0
    ensures total >= 0.0
  {
  }

  /** A vector that P maps to zero at every point is in the kernel of the element matrix. */
  lemma {:induction false} AccumulatedKernel(ps: seq<Matrix>, ws: seq<real>, jac: real, d: Matrix, n: nat, r: nat, c: nat, x: Vector)
    requires n <= |ps| == |ws| && Interpolations(ps, r, c) && IsSquare(d, r) && |x| == c
    requires forall i :: 0 <= i < |ps| ==> MatVec(ps[i], x, r, c) == ZeroVector(r)
    ensures MatVec(Accumulated(ps, ws, jac, d, n, r, c), x, c, c) == ZeroVector(c)
  {
    if n == 0 {
      ZerosApply(x, c, c);
    } else {
      AccumulatedKernel(ps, ws, jac, d, n - 1, r, c, x);
      TermKernel(ps[n - 1], ws[n - 1], jac, d, r, c, x);
      MatVecAdd(Accumulated(ps, ws, jac, d, n - 1, r, c), Term(ps[n - 1], ws[n - 1], jac, d, r, c), x, c, c);
    }
  }

  /** AccumulatedKernel for a named accumulated matrix k. */
  lemma NamedKernel(ps: seq<Matrix>, ws: seq<real>, jac: real, d: Matrix, n: nat, r: nat, c: nat, k: Matrix, x: Vector)
    requires n <= |ps| == |ws| && Interpolations(ps, r, c) && IsSquare(d, r) && |x| == c
    requires k == Accumulated(ps, ws, jac, d, n, r, c)
    requires forall i :: 0 <= i < |ps| ==> MatVec(ps[i], x, r, c) == ZeroVector(r)
    ensures MatVec(k, x, c, c) == ZeroVector(c)
  {
    AccumulatedKernel(ps, ws, jac, d, n, r, c, x);
  }

  lemma TermKernel(p: Matrix, w: real, jac: real, d: Matrix, r: nat, c: nat, x: Vector)
    requires IsMatrix(p, r, c) && IsSquare(d, r) && |x| == c
    requires MatVec(p, x, r, c) == ZeroVector(r)
    ensures MatVec(Term(p, w, jac, d, r, c), x, c, c) == ZeroVector(c)
  {
    var cc := Congruence(p, d, r, c);
    var wc := MatScale(w, cc, c, c);
    CongruenceKernel(p, d, x, r, c);
    MatVecScale(w, cc, x, c, c);
    MatVecScale(jac, wc, x, c, c);
    var y := MatVec(Term(p, w, jac, d, r, c), x, c, c);
    forall i | 0 <= i < c
      ensures y[i] == 0.0
    {
      assert MatVec(wc, x, c, c)[i] == w * 0.0;
    }
  }

  /** When P maps x to the same v at every point, the quadratic form of the element matrix
      at x is that of D at v, times J and the sum of the weights. */
  lemma AccumulatedQuadratic(ps: seq<Matrix>, ws: seq<real>, jac: real, d: Matrix, n: nat, r: nat, c: nat, x: Vector, v: Vector)
    requires n <= |ps| == |ws| && Interpolations(ps, r, c) && IsSquare(d, r) && |x| == c && |v| == r
    requires forall i :: 0 <= i < |ps| ==> MatVec(ps[i], x, r, c) == v
    ensures Quadratic(Accumulated(ps, ws, jac, d, n, r, c), x, c) == ConstantIntegral(ws, n, jac, Quadratic(d, v, r))
  {
    AccumulatedEnergy(ps, ws, jac, d, n, r, c, x);
    EnergyUniform(ps, ws, jac, d, n, r, c, x, v);
  }

  lemma {:induction false} EnergyUniform(ps: seq<Matrix>, ws: seq<real>, jac: real, d: Matrix, n: nat, r: nat, c: nat, x: Vector, v: Vector)
    requires n <= |ps| == |ws| && Interpolations(ps, r, c) && IsSquare(d, r) && |x| == c && |v| == r
    requires forall i :: 0 <= i < |ps| ==> MatVec(ps[i], x, r, c) == v
    ensures Energy(ps, ws, jac, d, n, r, c, x) == ConstantIntegral(ws, n, jac, Quadratic(d, v, r))
  {
    if n > 0 {
      EnergyUniform(ps, ws, jac, d, n - 1, r, c, x, v);
      assert MatVec(ps[n - 1], x, r, c) == v;
      assert WeightSum(ws, n) == WeightSum(ws, n - 1) + ws[n - 1];
      Collect(jac, WeightSum(ws, n - 1), ws[n - 1], Quadratic(d, v, r));
    }
  }

  lemma Collect(jac: real, s: real, w: real, q: real)
    ensures jac * s * q + jac * (w * q) == jac * (s + w) * q
  {
  }

  /* The element matrix in global coordinates is k = a.T @ (the accumulated matrix) @ a. The
     lemmas below name k, so that a caller with fixed dimensions meets only their results. */

  /** The transformed matrix is symmetric. */
  lemma TransformedSymmetric(a: Matrix, ps: seq<Matrix>, ws: seq<real>, jac: real, d: Matrix, n: nat, r: nat, c: nat, k: Matrix)
    requires n <= |ps| == |ws| && Interpolations(ps, r, c) && IsSquare(d, r) && Symmetric(d, r)
    requires IsSquare(a, c) && k == Congruence(a, Accumulated(ps, ws, jac, d, n, r, c), c, c)
    ensures IsSquare(k, c) && Symmetric(k, c)
  {
    AccumulatedSymmetric(ps, ws, jac, d, n, r, c);
    CongruenceSymmetric(a, Accumulated(ps, ws, jac, d, n, r, c), c, c);
  }

  /** The transformed matrix is positive semi-definite under the conditions of AccumulatedNonneg. */
  lemma TransformedNonneg(a: Matrix, ps: seq<Matrix>, ws: seq<real>, jac: real, d: Matrix, n: nat, r: nat, c: nat, k: Matrix)
    requires n <= |ps| == |ws| && Interpolations(ps, r, c) && IsSquare(d, r)
    requires forall i :: 0 <= i < |ws| ==> ws[i] >= 0.0
    requires jac >= 0.0 && PositiveSemidefinite(d, r)
    requires IsSquare(a, c) && k == Congruence(a, Accumulated(ps, ws, jac, d, n, r, c), c, c)
    ensures IsSquare(k, c) && PositiveSemidefinite(k, c)
  {
    var acc := Accumulated(ps, ws, jac, d, n, r, c);
    forall x | |x| == c
      ensures Quadratic(k, x, c) >= 0.0
    {
      CongruenceQuadratic(a, acc, x, c, c);
      AccumulatedNonneg(ps, ws, jac, d, n, r, c, MatVec(a, x, c, c));
    }
  }

  /** x is in the kernel of the transformed matrix when every P maps a @ x to zero. */
  lemma TransformedKernel(a: Matrix, ps: seq<Matrix>, ws: seq<real>, jac: real, d: Matrix, n: nat, r: nat, c: nat, k: Matrix, x: Vector)
    requires n <= |ps| == |ws| && Interpolations(ps, r, c) && IsSquare(d, r) && |x| == c
    requires IsSquare(a, c) && k == Congruence(a, Accumulated(ps, ws, jac, d, n, r, c), c, c)
    requires forall i :: 0 <= i < |ps| ==> MatVec(ps[i], MatVec(a, x, c, c), r, c) == ZeroVector(r)
    ensures MatVec(k, x, c, c) == ZeroVector(c)
  {
    var acc := Accumulated(ps, ws, jac, d, n, r, c);
    CongruenceApply(a, acc, x, c, c);
    AccumulatedKernel(ps, ws, jac, d, n, r, c, MatVec(a, x, c, c));
    MatVecZero(Transpose(a, c, c), c, c);
  }

  /** When every P maps a @ x to the same v, the quadratic form of the transformed matrix at x
      is that of D at v, times J and the sum of the weights. */
  lemma TransformedQuadratic(a: Matrix, ps: seq<Matrix>, ws: seq<real>, jac: real, d: Matrix, n: nat, r: nat, c: nat, k: Matrix, x: Vector, v: Vector)
    requires n <= |ps| == |ws| && Interpolations(ps, r, c) && IsSquare(d, r) && |x| == c && |v| == r
    requires IsSquare(a, c) && k == Congruence(a, Accumulated(ps, ws, jac, d, n, r, c), c, c)
    requires forall i :: 0 <= i < |ps| ==> MatVec(ps[i], MatVec(a, x, c, c), r, c) == v
    ensures Quadratic(k, x, c) == ConstantIntegral(ws, n, jac, Quadratic(d, v, r))
  {
    var acc := Accumulated(ps, ws, jac, d, n, r, c);
    CongruenceQuadratic(a, acc, x, c, c);
    AccumulatedQuadratic(ps, ws, jac, d, n, r, c, MatVec(a, x, c, c), v);
  }

  /** The same, with the quadratic form of D at v already evaluated to q. */
  lemma TransformedConstant(a: Matrix, ps: seq<Matrix>, ws: seq<real>, jac: real, d: Matrix, n: nat, r: nat, c: nat, k: Matrix, x: Vector, v: Vector, q: real)
    requires n <= |ps| == |ws| && Interpolations(ps, r, c) && IsSquare(d, r) && |x| == c && |v| == r
    requires IsSquare(a, c) && k == Congruence(a, Accumulated(ps, ws, jac, d, n, r, c), c, c)
    requires forall i :: 0 <= i < |ps| ==> MatVec(ps[i], MatVec(a, x, c, c), r, c) == v
    requires Quadratic(d, v, r) == q
    ensures Quadratic(k, x, c) == ConstantIntegral(ws, n, jac, q)
  {
    TransformedQuadratic(a, ps, ws, jac, d, n, r, c, k, x, v);
  }
}
