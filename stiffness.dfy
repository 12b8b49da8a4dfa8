/** The element stiffness matrix of a beam (functions/Kmat/kbeam.py): the Gauss sum of
    Bint.T @ D @ Bint * w * J in local coordinates, with D = diag(E A, E Iz, E Iy, G J) and
    J = L / 2, transformed to global coordinates by A.T @ k_l @ A. */
module ElementStiffness {
  import opened Wrappers
  import opened Vectors
  import opened Matrices
  import opened Quadrature
  import opened Beam
  import opened StrainInterpolation
  import opened ElementFrame
  import opened ElementIntegral

  /** D for the element properties Ge = [E, A, Iz, Iy, G, J]. */
  function Material(ge: seq<real>): (d: Matrix)
    requires |ge| >= 6
    ensures IsSquare(d, 4)
  {
    Diag([ge[0] * ge[1], ge[0] * ge[2], ge[0] * ge[3], ge[4] * ge[5]])
  }

  /** Bint at each integration point. */
  function StrainMatrices(xip: seq<real>, len: real): (ps: seq<Matrix>)
    requires len != 0.0
    ensures |ps| == |xip| && Interpolations(ps, 4, 12)
    ensures forall i :: 0 <= i < |xip| ==> ps[i] == Bint(xip[i], len)
  {
    if |xip| == 0 then [] else StrainMatrices(xip[..|xip| - 1], len) + [Bint(xip[|xip| - 1], len)]
  }

  /** k_l, the stiffness matrix in local coordinates. */
  function LocalStiffness(rule: Rule, len: real, ge: seq<real>): (k: Matrix)
    requires |rule.xip| == |rule.wip| && len != 0.0 && |ge| >= 6
    ensures IsSquare(k, 12)
  {
    Accumulated(StrainMatrices(rule.xip, len), rule.wip, Jacobian(len), Material(ge), |rule.xip|, 4, 12)
  }

  /** k = A.T @ k_l @ A, the stiffness matrix in global coordinates. */
  function Stiffness(n1: Vec3, n2: Vec3, ge: seq<real>, rule: Rule, norm: Vec3 -> real): (k: Matrix)
    requires IsNorm(norm) && n1 != n2 && |ge| >= 6 && |rule.xip| == |rule.wip|
    ensures IsSquare(k, 12)
  {
    ElementLength(n1, n2, norm);
    var r := Abeam(n1, n2, norm);
    Congruence(r.0, LocalStiffness(rule, r.1, ge), 12, 12)
  }

  /** kbeam: the integration rule for PolDeg, the loop over its points, the transformation.
      A degree above 9 is the error intpL raises. */
  method KBeam(n1: Vec3, n2: Vec3, ge: seq<real>, polDeg: int, norm: Vec3 -> real) returns (r: Result<Matrix, QuadratureError>)
    requires IsNorm(norm) && n1 != n2 && |ge| >= 6
    ensures r.Err? <==> polDeg > 9
    ensures r.Ok? ==> r.value == Stiffness(n1, n2, ge, IntpL(polDeg).value, norm)
  {
    var (a, len) := Abeam(n1, n2, norm);
    ElementLength(n1, n2, norm);
    var q := IntpL(polDeg);
    if q.Err? {
      return Err(q.error);
    }
    var xip, wip := q.value.xip, q.value.wip;
    var jac := Jacobian(len);
    var d := Material(ge);
    ghost var ps := StrainMatrices(xip, len);
    var kl := Zeros(12, 12);
    for i := 0 to |xip|
      invariant kl == Accumulated(ps, wip, jac, d, i, 4, 12)
    {
      var b := Bint(xip[i], len);
      kl := MatAdd(kl, Term(b, wip[i], jac, d, 4, 12), 12, 12);
    }
    r := Ok(Congruence(a, kl, 12, 12));
  }

  /** The element stiffness matrix is symmetric. */
  lemma StiffnessSymmetric(n1: Vec3, n2: Vec3, ge: seq<real>, rule: Rule, norm: Vec3 -> real)
    requires IsNorm(norm) && n1 != n2 && |ge| >= 6 && |rule.xip| == |rule.wip|
    ensures Symmetric(Stiffness(n1, n2, ge, rule, norm), 12)
  {
    ElementLength(n1, n2, norm);
    var r := Abeam(n1, n2, norm);
    var k := Stiffness(n1, n2, ge, rule, norm);
    MaterialSymmetric(ge);
    TransformedSymmetric(r.0, StrainMatrices(rule.xip, r.1), rule.wip, Jacobian(r.1), Material(ge), |rule.xip|, 4, 12, k);
  }

  lemma MaterialSymmetric(ge: seq<real>)
    requires |ge| >= 6
    ensures Symmetric(Material(ge), 4)
  {
  }

  /** With non-negative section properties and integration weights the element stores no
      negative strain energy: x.T @ k @ x >= 0 for every x. */
  lemma StiffnessNonneg(n1: Vec3, n2: Vec3, ge: seq<real>, rule: Rule, norm: Vec3 -> real)
    requires IsNorm(norm) && n1 != n2 && |ge| >= 6 && |rule.xip| == |rule.wip|
    requires forall i :: 0 <= i < 6 ==> ge[i] >= 0.0
    requires forall i :: 0 <= i < |rule.wip| ==> rule.wip[i] >= 0.0
    ensures PositiveSemidefinite(Stiffness(n1, n2, ge, rule, norm), 12)
  {
    ElementLength(n1, n2, norm);
    var r := Abeam(n1, n2, norm);
    var k := Stiffness(n1, n2, ge, rule, norm);
    MaterialNonneg(ge);
    TransformedNonneg(r.0, StrainMatrices(rule.xip, r.1), rule.wip, Jacobian(r.1), Material(ge), |rule.xip|, 4, 12, k);
  }

  /** D is positive semi-definite when the section properties are non-negative. */
  lemma MaterialNonneg(ge: seq<real>)
    requires |ge| >= 6
    requires forall i :: 0 <= i < 6 ==> ge[i] >= 0.0
    ensures PositiveSemidefinite(Material(ge), 4)
  {
    var e := [ge[0] * ge[1], ge[0] * ge[2], ge[0] * ge[3], ge[4] * ge[5]];
    ProductNonneg(ge[0], ge[1]);
    ProductNonneg(ge[0], ge[2]);
    ProductNonneg(ge[0], ge[3]);
    ProductNonneg(ge[4], ge[5]);
    forall x | |x| == 4
      ensures Quadratic(Material(ge), x, 4) >= 0.0
    {
      DiagQuadraticNonneg(e, x);
    }
  }

  lemma ProductNonneg(a: real, b: real)
    requires a >= 0.0 && b >= 0.0
    ensures a * b >= 0.0
  {
  }

  /** A rigid motion of the element in its local coordinates produces no nodal forces. */
  lemma LocalRigidKernel(rule: Rule, len: real, ge: seq<real>, t: Vec3, theta: Vec3)
    requires |rule.xip| == |rule.wip| && len != 0.0 && |ge| >= 6
    ensures MatVec(LocalStiffness(rule, len, ge), Rigid(len, t, theta), 12, 12) == ZeroVector(12)
  {
    var ps := StrainMatrices(rule.xip, len);
    forall i | 0 <= i < |ps|
      ensures MatVec(ps[i], Rigid(len, t, theta), 4, 12) == ZeroVector(4)
    {
      RigidMotionIsStrainFree(rule.xip[i], len, t, theta);
    }
    var k := LocalStiffness(rule, len, ge);
    NamedKernel(ps, rule.wip, Jacobian(len), Material(ge), |rule.xip|, 4, 12, k, Rigid(len, t, theta));
  }

  /** A translation of both nodes by the same global vector produces no nodal forces. */
  lemma StiffnessTranslationKernel(n1: Vec3, n2: Vec3, ge: seq<real>, rule: Rule, norm: Vec3 -> real, t: Vec3)
    requires IsNorm(norm) && n1 != n2 && |ge| >= 6 && |rule.xip| == |rule.wip|
    ensures MatVec(Stiffness(n1, n2, ge, rule, norm), Translation(t), 12, 12) == ZeroVector(12)
  {
    ElementLength(n1, n2, norm);
    var r := Abeam(n1, n2, norm);
    var k := Stiffness(n1, n2, ge, rule, norm);
    var ps := StrainMatrices(rule.xip, r.1);
    var tl := ToLocal(LocalAxes(n1, n2, norm), t);
    TranslationToLocal(n1, n2, norm, t);
    forall i | 0 <= i < |ps|
      ensures MatVec(ps[i], MatVec(r.0, Translation(t), 12, 12), 4, 12) == ZeroVector(4)
    {
      TranslationIsStrainFree(rule.xip[i], r.1, tl);
    }
    TransformedKernel(r.0, ps, rule.wip, Jacobian(r.1), Material(ge), |rule.xip|, 4, 12, k, Translation(t));
  }
}
