/** Strain interpolation of the beam element (functions/Kmat/Bint.py): the 4 x 12 matrix
    taking the nodal degrees of freedom to axial strain, the two bending curvatures and
    the rate of twist at the local coordinate s in [-1, 1]. */
module StrainInterpolation {
  import opened Sums
  import opened Vectors
  import opened Matrices
  import opened Beam

  function B1(len: real): real requires len != 0.0 { -1.0 / len }
  function B4(len: real): real requires len != 0.0 { 1.0 / len }
  function B2(s: real, len: real): real requires len != 0.0 { 6.0 * s / (len * len) }
  function B3(s: real, len: real): real requires len != 0.0 { (-1.0 + 3.0 * s) / len }
  function B5(s: real, len: real): real requires len != 0.0 { -6.0 * s / (len * len) }
  function B6(s: real, len: real): real requires len != 0.0 { (1.0 + 3.0 * s) / len }

  /** The matrix of Bint for an element of length len. */
  function Bint(s: real, len: real): (b: Matrix)
    requires len != 0.0
    ensures IsMatrix(b, 4, 12)
  {
    Interpolation(B1(len), B2(s, len), B3(s, len), B4(len), B5(s, len), B6(s, len))
  }

  /** The coefficients of each strain component cancel on constants and on the line along
      the element: they are derivatives of the shape functions. */
  lemma StrainCoefficients(s: real, len: real)
    requires len != 0.0
    ensures B1(len) + B4(len) == 0.0
    ensures B2(s, len) + B5(s, len) == 0.0
    ensures B3(s, len) + len * B5(s, len) + B6(s, len) == 0.0
  {
    assert len * B5(s, len) == -6.0 * s / len;
  }

  /** A rigid motion of the element strains it nowhere: every row of Bint annihilates
      the nodal values of every rigid translation and rotation, at every point s. */
  lemma RigidMotionIsStrainFree(s: real, len: real, t: Vec3, theta: Vec3)
    requires len != 0.0
    ensures MatVec(Bint(s, len), Rigid(len, t, theta), 4, 12) == ZeroVector(4)
  {
    var u := Rigid(len, t, theta);
    RigidStrains(s, len, t, theta);
    ApplyInterpolation(B1(len), B2(s, len), B3(s, len), B4(len), B5(s, len), B6(s, len), u);
  }

  lemma RigidStrains(s: real, len: real, t: Vec3, theta: Vec3)
    requires len != 0.0
    ensures Interpolate(B1(len), B2(s, len), B3(s, len), B4(len), B5(s, len), B6(s, len), Rigid(len, t, theta)) == ZeroVector(4)
  {
    StrainCoefficients(s, len);
    RigidResponse(B1(len), B2(s, len), B3(s, len), B4(len), B5(s, len), B6(s, len), len, t, theta);
    var w := Interpolate(B1(len), B2(s, len), B3(s, len), B4(len), B5(s, len), B6(s, len), Rigid(len, t, theta));
    assert w[0] == 0.0 * t.x && w[3] == 0.0 * theta.x;
    assert w[1] == 0.0 * t.y + 0.0 * theta.z;
    assert w[2] == 0.0 * t.z - 0.0 * theta.y;
    assert w == ZeroVector(4);
  }

  /** A translation of the whole element is strain-free. */
  lemma TranslationIsStrainFree(s: real, len: real, t: Vec3)
    requires len != 0.0
    ensures MatVec(Bint(s, len), Translation(t), 4, 12) == ZeroVector(4)
  {
    RigidMotionIsStrainFree(s, len, t, Vec3(0.0, 0.0, 0.0));
  }
}
