/** Shape functions of the beam element (functions/Mmat/Nint.py): the 4 x 12 matrix taking
    the nodal degrees of freedom to the axial, the two transverse displacements and the
    twist at the local coordinate s in [-1, 1]; linear for the axial and torsional parts,
    cubic Hermite for bending. */
module ShapeFunction {
  import opened Vectors
  import opened Matrices
  import opened Beam

  /** Position along the element as a fraction of its length, from s in [-1, 1]. */
  function Xi(s: real): real { (1.0 + s) / 2.0 }

  function N1(s: real): real { (1.0 - s) / 2.0 }
  function N4(s: real): real { (1.0 + s) / 2.0 }
  function N2(s: real): real { 1.0 - 3.0 * (Xi(s) * Xi(s)) + 2.0 * (Xi(s) * Xi(s) * Xi(s)) }
  function N3(s: real, len: real): real { len * (Xi(s) - 2.0 * (Xi(s) * Xi(s)) + Xi(s) * Xi(s) * Xi(s)) }
  function N5(s: real): real { 3.0 * (Xi(s) * Xi(s)) - 2.0 * (Xi(s) * Xi(s) * Xi(s)) }
  function N6(s: real, len: real): real { len * (-(Xi(s) * Xi(s)) + Xi(s) * Xi(s) * Xi(s)) }

  /** The matrix of Nint for an element of length len. */
  function Nint(s: real, len: real): (n: Matrix)
    ensures IsMatrix(n, 4, 12)
  {
    Interpolation(N1(s), N2(s), N3(s, len), N4(s), N5(s), N6(s, len))
  }

  /** The shape functions of each field add up to one at every point. */
  lemma PartitionOfUnity(s: real, len: real)
    ensures Nint(s, len)[0][0] + Nint(s, len)[0][6] == 1.0
    ensures Nint(s, len)[1][1] + Nint(s, len)[1][7] == 1.0
    ensures Nint(s, len)[2][2] + Nint(s, len)[2][8] == 1.0
    ensures Nint(s, len)[3][3] + Nint(s, len)[3][9] == 1.0
  {
  }

  /** At the end s = -1 the interpolated field is the displacements and twist of node 1,
      at the end s = 1 those of node 2. */
  lemma InterpolatesNodes(s: real, len: real, u: Vector)
    requires s == -1.0 || s == 1.0
    requires |u| == 12
    ensures MatVec(Nint(s, len), u, 4, 12) ==
      if s == -1.0 then [u[0], u[1], u[2], u[3]] else [u[6], u[7], u[8], u[9]]
  {
    ApplyInterpolation(N1(s), N2(s), N3(s, len), N4(s), N5(s), N6(s, len), u);
    NodalValues(s, len, u);
  }

  lemma NodalValues(s: real, len: real, u: Vector)
    requires s == -1.0 || s == 1.0
    requires |u| == 12
    ensures Interpolate(N1(s), N2(s), N3(s, len), N4(s), N5(s), N6(s, len), u) ==
      if s == -1.0 then [u[0], u[1], u[2], u[3]] else [u[6], u[7], u[8], u[9]]
  {
    if s == -1.0 {
      FirstNodeValues(s, len, u);
    } else {
      SecondNodeValues(s, len, u);
    }
  }

  lemma FirstNodeValues(s: real, len: real, u: Vector)
    requires s == -1.0
    requires |u| == 12
    ensures Interpolate(N1(s), N2(s), N3(s, len), N4(s), N5(s), N6(s, len), u) == [u[0], u[1], u[2], u[3]]
  {
    EndCoefficients(s, len);
    EndValues(1.0, 0.0, u);
  }

  lemma SecondNodeValues(s: real, len: real, u: Vector)
    requires s == 1.0
    requires |u| == 12
    ensures Interpolate(N1(s), N2(s), N3(s, len), N4(s), N5(s), N6(s, len), u) == [u[6], u[7], u[8], u[9]]
  {
    EndCoefficients(s, len);
    EndValues(0.0, 1.0, u);
  }

  lemma EndValues(a: real, b: real, u: Vector)
    requires |u| == 12
    ensures Interpolate(a, a, 0.0, b, b, 0.0, u) ==
      [a * u[0] + b * u[6], a * u[1] + b * u[7], a * u[2] + b * u[8], a * u[3] + b * u[9]]
  {
  }

  /** The element reproduces rigid motions exactly: at the point x = len (1 + s) / 2 of the
      axis it interpolates the translation t + theta x (x, 0, 0) and the twist theta.x. */
  lemma ReproducesRigidMotion(s: real, len: real, t: Vec3, theta: Vec3)
    ensures var x := len * (1.0 + s) / 2.0;
      var d := Add(t, Cross(theta, Vec3(x, 0.0, 0.0)));
      MatVec(Nint(s, len), Rigid(len, t, theta), 4, 12) == [d.x, d.y, d.z, theta.x]
  {
    ApplyInterpolation(N1(s), N2(s), N3(s, len), N4(s), N5(s), N6(s, len), Rigid(len, t, theta));
    RigidValues(s, len, t, theta);
  }

  lemma RigidValues(s: real, len: real, t: Vec3, theta: Vec3)
    ensures var x := len * (1.0 + s) / 2.0;
      var d := Add(t, Cross(theta, Vec3(x, 0.0, 0.0)));
      Interpolate(N1(s), N2(s), N3(s, len), N4(s), N5(s), N6(s, len), Rigid(len, t, theta)) == [d.x, d.y, d.z, theta.x]
  {
    HermiteIdentities(s, len);
    assert len * Xi(s) == len * (1.0 + s) / 2.0;
    ReproducingCoefficients(N1(s), N2(s), N3(s, len), N4(s), N5(s), N6(s, len), len, len * (1.0 + s) / 2.0, t, theta);
  }

  /** At the ends the shape functions of the node there are one and all others vanish. */
  lemma EndCoefficients(s: real, len: real)
    requires s == -1.0 || s == 1.0
    ensures N1(s) == (if s == -1.0 then 1.0 else 0.0) && N4(s) == 1.0 - N1(s)
    ensures N2(s) == N1(s) && N5(s) == N4(s)
    ensures N3(s, len) == 0.0 && N6(s, len) == 0.0
  {
    if s == -1.0 {
      assert Xi(s) == 0.0;
    } else {
      assert Xi(s) == 1.0;
    }
  }

  /** The Hermite cubics of one element reproduce constants and the straight line x = len Xi(s). */
  lemma HermiteIdentities(s: real, len: real)
    ensures N2(s) + N5(s) == 1.0
    ensures N3(s, len) + len * N5(s) + N6(s, len) == len * Xi(s)
  {
    var xi := Xi(s);
    var p := xi - 2.0 * (xi * xi) + xi * xi * xi;
    var q := 3.0 * (xi * xi) - 2.0 * (xi * xi * xi);
    var r := -(xi * xi) + xi * xi * xi;
    assert p + q + r == xi;
    assert len * p + len * q + len * r == len * (p + q + r);
  }
}
