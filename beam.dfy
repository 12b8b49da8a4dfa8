/** The twelve local degrees of freedom of a two-node beam element: at each node the
    displacements u, v, w along the local axes, then the rotations about them. */
module Beam {
  import opened Vectors
  import opened Sums
  import opened Matrices

  /** Nodal values of the rigid motion p |-> t + theta x p, with node 1 at the local
      origin and node 2 at (len, 0, 0) on the element axis (see RigidAtNodes). */
  function Rigid(len: real, t: Vec3, theta: Vec3): (u: Vector)
    ensures |u| == 12
  {
    [t.x, t.y, t.z, theta.x, theta.y, theta.z,
     t.x, t.y + theta.z * len, t.z - theta.y * len, theta.x, theta.y, theta.z]
  }

  /** Both nodes rotate by theta, and each moves as the rigid motion moves its position. */
  lemma RigidAtNodes(len: real, t: Vec3, theta: Vec3)
    ensures var u := Rigid(len, t, theta);
      var d1 := Add(t, Cross(theta, Vec3(0.0, 0.0, 0.0)));
      var d2 := Add(t, Cross(theta, Vec3(len, 0.0, 0.0)));
      && u[0] == d1.x && u[1] == d1.y && u[2] == d1.z
      && u[6] == d2.x && u[7] == d2.y && u[8] == d2.z
      && u[3] == u[9] == theta.x && u[4] == u[10] == theta.y && u[5] == u[11] == theta.z
  {
  }

  /** A translation by t of both nodes, without rotation. */
  function Translation(t: Vec3): (u: Vector)
    ensures |u| == 12
    ensures forall len :: u == Rigid(len, t, Vec3(0.0, 0.0, 0.0))
  {
    [t.x, t.y, t.z, 0.0, 0.0, 0.0, t.x, t.y, t.z, 0.0, 0.0, 0.0]
  }

  /** The common layout of the shape and strain matrices of the element: coefficients c1, c4
      for the axial and torsional fields, c2, c3, c5, c6 for bending, with the sign of the
      rotation terms flipped in the x-z plane. */
  function Interpolation(c1: real, c2: real, c3: real, c4: real, c5: real, c6: real): (m: Matrix)
    ensures IsMatrix(m, 4, 12)
  {
    [[c1, 0.0, 0.0, 0.0, 0.0, 0.0, c4, 0.0, 0.0, 0.0, 0.0, 0.0],
     [0.0, c2, 0.0, 0.0, 0.0, c3, 0.0, c5, 0.0, 0.0, 0.0, c6],
     [0.0, 0.0, c2, 0.0, -c3, 0.0, 0.0, 0.0, c5, 0.0, -c6, 0.0],
     [0.0, 0.0, 0.0, c1, 0.0, 0.0, 0.0, 0.0, 0.0, c4, 0.0, 0.0]]
  }

  /** The field values the layout interpolates from the nodal values u. */
  function Interpolate(c1: real, c2: real, c3: real, c4: real, c5: real, c6: real, u: Vector): (w: Vector)
    requires |u| == 12
    ensures |w| == 4
  {
    [c1 * u[0] + c4 * u[6],
     c2 * u[1] + c3 * u[5] + c5 * u[7] + c6 * u[11],
     c2 * u[2] - c3 * u[4] + c5 * u[8] - c6 * u[10],
     c1 * u[3] + c4 * u[9]]
  }

  /** The matrix product with the layout is the interpolation above. */
  lemma ApplyInterpolation(c1: real, c2: real, c3: real, c4: real, c5: real, c6: real, u: Vector)
    requires |u| == 12
    ensures MatVec(Interpolation(c1, c2, c3, c4, c5, c6), u, 4, 12) == Interpolate(c1, c2, c3, c4, c5, c6, u)
  {
    var m := Interpolation(c1, c2, c3, c4, c5, c6);
    var e := Interpolate(c1, c2, c3, c4, c5, c6, u);
    forall i | 0 <= i < 4
      ensures ApplyEntry(m, u, 12, i) == e[i]
    {
      ApplyEntry12(m, u, i);
    }
  }

  /** What the layout does to a rigid motion (t, theta): the translation and rotation
      parts of each field are weighted by the sums of its coefficients. */
  lemma RigidResponse(c1: real, c2: real, c3: real, c4: real, c5: real, c6: real,
                      len: real, t: Vec3, theta: Vec3)
    ensures Interpolate(c1, c2, c3, c4, c5, c6, Rigid(len, t, theta)) ==
      [(c1 + c4) * t.x,
       (c2 + c5) * t.y + (c3 + len * c5 + c6) * theta.z,
       (c2 + c5) * t.z - (c3 + len * c5 + c6) * theta.y,
       (c1 + c4) * theta.x]
  {
    var w := Interpolate(c1, c2, c3, c4, c5, c6, Rigid(len, t, theta));
    Distribute(c1, c4, t.x);
    Distribute(c1, c4, theta.x);
    Regroup(c2, c3, c5, c6, len, t.y, theta.z);
    RegroupFlipped(c2, c3, c5, c6, len, t.z, theta.y);
    assert w[0] == (c1 + c4) * t.x;
    assert w[1] == (c2 + c5) * t.y + (c3 + len * c5 + c6) * theta.z;
    assert w[2] == (c2 + c5) * t.z - (c3 + len * c5 + c6) * theta.y;
    assert w[3] == (c1 + c4) * theta.x;
  }

  /** Coefficients that reproduce constants and the straight line x interpolate a rigid
      motion exactly: the translation of the axis point (x, 0, 0) and the twist theta.x. */
  lemma ReproducingCoefficients(c1: real, c2: real, c3: real, c4: real, c5: real, c6: real,
                                len: real, x: real, t: Vec3, theta: Vec3)
    requires c1 + c4 == 1.0 && c2 + c5 == 1.0 && c3 + len * c5 + c6 == x
    ensures var d := Add(t, Cross(theta, Vec3(x, 0.0, 0.0)));
      Interpolate(c1, c2, c3, c4, c5, c6, Rigid(len, t, theta)) == [d.x, d.y, d.z, theta.x]
  {
    RigidResponse(c1, c2, c3, c4, c5, c6, len, t, theta);
    var d := Add(t, Cross(theta, Vec3(x, 0.0, 0.0)));
    assert d.x == t.x && d.y == t.y + x * theta.z && d.z == t.z - x * theta.y;
    Unit(c1 + c4, t.x);
    Unit(c1 + c4, theta.x);
    Unit(c2 + c5, t.y);
    Unit(c2 + c5, t.z);
    var w := Interpolate(c1, c2, c3, c4, c5, c6, Rigid(len, t, theta));
    assert w[0] == d.x && w[3] == theta.x;
    assert w[1] == d.y;
    assert w[2] == d.z;
  }

  lemma Unit(a: real, v: real)
    requires a == 1.0
    ensures a * v == v
  {
  }

  lemma Distribute(c1: real, c4: real, v: real)
    ensures c1 * v + c4 * v == (c1 + c4) * v
  {
  }

  /** The x-y bending row applied to a rigid motion, regrouped by translation and rotation. */
  lemma Regroup(c2: real, c3: real, c5: real, c6: real, len: real, v: real, phi: real)
    ensures c2 * v + c3 * phi + c5 * (v + phi * len) + c6 * phi == (c2 + c5) * v + (c3 + len * c5 + c6) * phi
  {
  }

  /** The x-z bending row, whose rotation terms carry the opposite sign. */
  lemma RegroupFlipped(c2: real, c3: real, c5: real, c6: real, len: real, v: real, phi: real)
    ensures c2 * v - c3 * phi + c5 * (v - phi * len) - c6 * phi == (c2 + c5) * v - (c3 + len * c5 + c6) * phi
  {
  }
}
