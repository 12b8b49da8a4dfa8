/** The consistent element mass matrix of a beam (functions/Mmat/mbeam.py): the Gauss sum of
    Nint.T @ D @ Nint * w * J in local coordinates, with D = diag(A rho, A rho, A rho, rho J)
    and J = L / 2, transformed to global coordinates by A.T @ m_l @ A. */
module ElementMass {
  import opened Wrappers
  import opened Sums
  import opened Vectors
  import opened Matrices
  import opened Quadrature
  import opened Beam
  import opened ShapeFunction
  import opened ElementFrame
  import opened ElementIntegral

  /** D for the element properties Ge = [A, rho, J]. */
  function MassMaterial(ge: seq<real>): (d: Matrix)
    requires |ge| >= 3
    ensures IsSquare(d, 4)
  {
    Inertia(ge[0] * ge[1], ge[1] * ge[2])
  }

  /** diag(m, m, m, i): the mass per unit length for the three displacements and the
      polar inertia for the twist. */
  function Inertia(m: real, i: real): (d: Matrix)
    ensures IsSquare(d, 4)
  {
    Diag([m, m, m, i])
  }

  /** Nint at each integration point. */
  function ShapeMatrices(xip: seq<real>, len: real): (ps: seq<Matrix>)
    ensures |ps| == |xip| && Interpolations(ps, 4, 12)
    ensures forall i :: 0 <= i < |xip| ==> ps[i] == Nint(xip[i], len)
  {
    if |xip| == 0 then [] else ShapeMatrices(xip[..|xip| - 1], len) + [Nint(xip[|xip| - 1], len)]
  }

  /** m_l, the mass matrix in local coordinates. */
  function LocalMass(rule: Rule, len: real, ge: seq<real>): (m: Matrix)
    requires |rule.xip| == |rule.wip| && |ge| >= 3
    ensures IsSquare(m, 12)
  {
    Accumulated(ShapeMatrices(rule.xip, len), rule.wip, Jacobian(len), MassMaterial(ge), |rule.xip|, 4, 12)
  }

  /** m = A.T @ m_l @ A, the mass matrix in global coordinates. */
  function Mass(n1: Vec3, n2: Vec3, ge: seq<real>, rule: Rule, norm: Vec3 -> real): (m: Matrix)
    requires IsNorm(norm) && n1 != n2 && |ge| >= 3 && |rule.xip| == |rule.wip|
    ensures IsSquare(m, 12)
  {
    var r := Abeam(n1, n2, norm);
    Congruence(r.0, LocalMass(rule, r.1, ge), 12, 12)
  }

  /** mbeam: the integration rule for PolDeg, the loop over its points, the transformation.
      A degree above 9 is the error intpL raises. */
  method MBeam(n1: Vec3, n2: Vec3, ge: seq<real>, polDeg: int, norm: Vec3 -> real) returns (r: Result<Matrix, QuadratureError>)
    requires IsNorm(norm) && n1 != n2 && |ge| >= 3
    ensures r.Err? <==> polDeg > 9
    ensures r.Ok? ==> r.value == Mass(n1, n2, ge, IntpL(polDeg).value, norm)
  {
    var (a, len) := Abeam(n1, n2, norm);
    var q := IntpL(polDeg);
    if q.Err? {
      return Err(q.error);
    }
    var xip, wip := q.value.xip, q.value.wip;
    var jac := Jacobian(len);
    var d := MassMaterial(ge);
    ghost var ps := ShapeMatrices(xip, len);
    var ml := Zeros(12, 12);
    for i := 0 to |xip|
      invariant ml == Accumulated(ps, wip, jac, d, i, 4, 12)
    {
      var n := Nint(xip[i], len);
      ml := MatAdd(ml, Term(n, wip[i], jac, d, 4, 12), 12, 12);
    }
    r := Ok(Congruence(a, ml, 12, 12));
  }

  /** The element mass matrix is symmetric. */
  lemma MassSymmetric(n1: Vec3, n2: Vec3, ge: seq<real>, rule: Rule, norm: Vec3 -> real)
    requires IsNorm(norm) && n1 != n2 && |ge| >= 3 && |rule.xip| == |rule.wip|
    ensures Symmetric(Mass(n1, n2, ge, rule, norm), 12)
  {
    var r := Abeam(n1, n2, norm);
    var m := Mass(n1, n2, ge, rule, norm);
    MassMaterialSymmetric(ge);
    TransformedSymmetric(r.0, ShapeMatrices(rule.xip, r.1), rule.wip, Jacobian(r.1), MassMaterial(ge), |rule.xip|, 4, 12, m);
  }

  lemma MassMaterialSymmetric(ge: seq<real>)
    requires |ge| >= 3
    ensures Symmetric(MassMaterial(ge), 4)
  {
  }

  /** With non-negative section properties and integration weights the kinetic energy
      x.T @ m @ x is never negative. */
  lemma MassNonneg(n1: Vec3, n2: Vec3, ge: seq<real>, rule: Rule, norm: Vec3 -> real)
    requires IsNorm(norm) && n1 != n2 && |ge| >= 3 && |rule.xip| == |rule.wip|
    requires forall i :: 0 <= i < 3 ==> ge[i] >= 0.0
    requires forall i :: 0 <= i < |rule.wip| ==> rule.wip[i] >= 0.0
    ensures PositiveSemidefinite(Mass(n1, n2, ge, rule, norm), 12)
  {
    ElementLength(n1, n2, norm);
    var r := Abeam(n1, n2, norm);
    var m := Mass(n1, n2, ge, rule, norm);
    MassMaterialNonneg(ge);
    TransformedNonneg(r.0, ShapeMatrices(rule.xip, r.1), rule.wip, Jacobian(r.1), MassMaterial(ge), |rule.xip|, 4, 12, m);
  }

  /** D is positive semi-definite when the section properties are non-negative. */
  lemma MassMaterialNonneg(ge: seq<real>)
    requires |ge| >= 3
    requires forall i :: 0 <= i < 3 ==> ge[i] >= 0.0
    ensures PositiveSemidefinite(MassMaterial(ge), 4)
  {
    var e := [ge[0] * ge[1], ge[0] * ge[1], ge[0] * ge[1], ge[1] * ge[2]];
    ProductNonneg(ge[0], ge[1]);
    ProductNonneg(ge[1], ge[2]);
    forall x | |x| == 4
      ensures Quadratic(MassMaterial(ge), x, 4) >= 0.0
    {
      DiagQuadraticNonneg(e, x);
    }
  }

  lemma ProductNonneg(a: real, b: real)
    requires a >= 0.0 && b >= 0.0
    ensures a * b >= 0.0
  {
  }

  /** Under a translation t of the whole element the shape functions give the same
      displacement t at every point, and no twist. */
  lemma ShapeTranslation(s: real, len: real, t: Vec3)
    ensures MatVec(Nint(s, len), Translation(t), 4, 12) == [t.x, t.y, t.z, 0.0]
  {
    var zero := Vec3(0.0, 0.0, 0.0);
    assert Translation(t) == Rigid(len, t, zero);
    ReproducesRigidMotion(s, len, t, zero);
  }

  /** The quadratic form of D at a translation t is A rho |t|^2. */
  lemma {:induction false} MassMaterialTranslation(ge: seq<real>, t: Vec3)
    requires |ge| >= 3
    ensures Quadratic(MassMaterial(ge), [t.x, t.y, t.z, 0.0], 4) == ge[0] * ge[1] * NormSq(t)
  {
    DiagTranslation(ge[0] * ge[1], ge[1] * ge[2], t);
  }

  lemma DiagTranslation(m: real, i: real, t: Vec3)
    ensures Quadratic(Inertia(m, i), [t.x, t.y, t.z, 0.0], 4) == m * NormSq(t)
  {
    var e := [m, m, m, i];
    var v := [t.x, t.y, t.z, 0.0];
    var f := WeightedSquare(e, v);
    assert Sum(4, f) == m * NormSq(t) by {
      Sum4(f);
      assert f(0) == m * (t.x * t.x) && f(1) == m * (t.y * t.y) && f(2) == m * (t.z * t.z);
      assert f(3) == i * (0.0 * 0.0);
      TranslationEnergy(m, i, t);
    }
    DiagQuadratic(e, v);
  }

  lemma TranslationEnergy(m: real, i: real, t: Vec3)
    ensures m * (t.x * t.x) + m * (t.y * t.y) + m * (t.z * t.z) + i * (0.0 * 0.0) == m * NormSq(t)
  {
  }

  /** The kinetic energy of a translation t of the element, whose components along the local
      axes are tl, is (L / 2) (sum of the weights) A rho |tl|^2: for a rule whose weights add up
      to 2 this is the element's total mass A rho L times |tl|^2. */
  lemma {:induction false} MassTranslation(n1: Vec3, n2: Vec3, ge: seq<real>, rule: Rule, norm: Vec3 -> real, t: Vec3, tl: Vec3)
    requires IsNorm(norm) && n1 != n2 && |ge| >= 3 && |rule.xip| == |rule.wip|
    requires tl == ToLocal(LocalAxes(n1, n2, norm), t)
    ensures var len := Abeam(n1, n2, norm).1;
      Quadratic(Mass(n1, n2, ge, rule, norm), Translation(t), 12)
        == ConstantIntegral(rule.wip, |rule.xip|, Jacobian(len), ge[0] * ge[1] * NormSq(tl))
  {
    var r := Abeam(n1, n2, norm);
    var m := Mass(n1, n2, ge, rule, norm);
    var ps := ShapeMatrices(rule.xip, r.1);
    var v := [tl.x, tl.y, tl.z, 0.0];
    TranslationToLocal(n1, n2, norm, t);
    forall i | 0 <= i < |ps|
      ensures MatVec(ps[i], MatVec(r.0, Translation(t), 12, 12), 4, 12) == v
    {
      ShapeTranslation(rule.xip[i], r.1, tl);
    }
    MassMaterialTranslation(ge, tl);
    TransformedConstant(r.0, ps, rule.wip, Jacobian(r.1), MassMaterial(ge), |rule.xip|, 4, 12, m, Translation(t), v, ge[0] * ge[1] * NormSq(tl));
  }
}
