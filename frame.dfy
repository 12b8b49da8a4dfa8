/** Local axes, length and the 12 x 12 transformation matrix of a beam element between
    two nodes (functions/Kmat/Abeam.py). */
module ElementFrame {
  import opened Vectors
  import opened Matrices
  import opened Sums
  import opened Beam

  /** The default relative and absolute tolerances of numpy's allclose. */
  const RTol: real := 0.00001
  const ATol: real := 0.00000001

  /** allclose on one component: |a - b| <= atol + rtol |b|. */
  predicate Close(a: real, b: real)
  {
    AbsReal(a - b) <= ATol + RTol * AbsReal(b)
  }

  /** np.allclose on three components (the reference value is the second argument). */
  predicate AllClose(a: Vec3, b: Vec3)
  {
    Close(a.x, b.x) && Close(a.y, b.y) && Close(a.z, b.z)
  }

  const GlobalY: Vec3 := Vec3(0.0, 1.0, 0.0)
  const GlobalZ: Vec3 := Vec3(0.0, 0.0, 1.0)
  const Origin: Vec3 := Vec3(0.0, 0.0, 0.0)

  /** The only square roots of one are one and minus one. */
  lemma UnitSquare(z: real)
    requires z * z == 1.0
    ensures AbsReal(z) == 1.0
  {
    var w := AbsReal(z);
    assert w * w == 1.0 by {
      if z < 0.0 {
        assert w * w == (-z) * (-z) == z * z;
      }
    }
    if w > 1.0 {
      MulMonotone(w, 1.0, w);
    } else if w < 1.0 {
      MulMonotone(1.0, w, w);
    }
  }

  lemma MulMonotone(a: real, b: real, c: real)
    requires a > b && c >= 0.0
    ensures a * c >= b * c
  {
  }

  /** `a / np.linalg.norm(a)` for a non-zero vector a. */
  function Normalize(a: Vec3, norm: Vec3 -> real): (u: Vec3)
    requires IsNorm(norm) && a != Origin
  {
    Scale(1.0 / norm(a), a)
  }

  /** Normalising gives a unit vector pointing the same way. */
  lemma NormalizeUnit(a: Vec3, norm: Vec3 -> real)
    requires IsNorm(norm) && a != Origin
    ensures NormSq(Normalize(a, norm)) == 1.0
    ensures norm(a) > 0.0 && Normalize(a, norm) == Scale(1.0 / norm(a), a)
  {
    var n := norm(a);
    var k := 1.0 / n;
    assert NormSq(Scale(k, a)) == (k * k) * NormSq(a);
    assert (k * k) * (n * n) == 1.0;
  }

  /** The local axes of an element. */
  datatype Axes = Axes(xl: Vec3, yl: Vec3, zl: Vec3)

  /** numpy's cross(z, xl) of the global z axis with a unit vector. */
  lemma CrossWithZ(xl: Vec3)
    ensures Cross(GlobalZ, xl) == Vec3(-xl.y, xl.x, 0.0)
  {
  }

  /** The element axis is close to vertical exactly when it is handled by the fallback. */
  predicate Vertical(xl: Vec3)
  {
    AllClose(Abs(xl), GlobalZ)
  }

  /** Away from the fallback the cross product z x xl of a unit xl does not vanish:
      it vanishes only for xl = (0, 0, +-1), which the fallback catches. */
  lemma CrossWithZNonzero(xl: Vec3)
    requires NormSq(xl) == 1.0 && !Vertical(xl)
    ensures Cross(GlobalZ, xl) != Origin
  {
    CrossWithZ(xl);
    if xl.x == 0.0 && xl.y == 0.0 {
      UnitSquare(xl.z);
      assert false;
    }
  }

  /** xl = (n2 - n1) / |n2 - n1|, the unit vector from node 1 to node 2. */
  function AxisX(n1: Vec3, n2: Vec3, norm: Vec3 -> real): (xl: Vec3)
    requires IsNorm(norm) && n1 != n2
    ensures NormSq(xl) == 1.0
    ensures norm(Sub(n2, n1)) > 0.0 && xl == Scale(1.0 / norm(Sub(n2, n1)), Sub(n2, n1))
  {
    assert Sub(n2, n1) != Origin;
    NormalizeUnit(Sub(n2, n1), norm);
    Normalize(Sub(n2, n1), norm)
  }

  /** The vector y that Abeam normalises into yl: z x xl, or the global y axis when xl is
      close to vertical. It is never zero. */
  function CandidateY(xl: Vec3): (y: Vec3)
    requires NormSq(xl) == 1.0
    ensures y != Origin
  {
    if Vertical(xl) then GlobalY else (CrossWithZNonzero(xl); Cross(GlobalZ, xl))
  }

  /** Local axes as Abeam computes them: xl along the element, yl from z x xl (or the
      global y axis when xl is close to vertical), zl = xl x yl. */
  function LocalAxes(n1: Vec3, n2: Vec3, norm: Vec3 -> real): (f: Axes)
    requires IsNorm(norm) && n1 != n2
  {
    var xl := AxisX(n1, n2, norm);
    var yl := Normalize(CandidateY(xl), norm);
    Axes(xl, yl, Cross(xl, yl))
  }

  /** Unit vectors u, v and their cross product form a right-handed orthonormal triad when u and v are orthogonal. */
  ghost predicate Orthonormal(f: Axes)
  {
    && NormSq(f.xl) == 1.0 && NormSq(f.yl) == 1.0 && NormSq(f.zl) == 1.0
    && Dot(f.xl, f.yl) == 0.0 && Dot(f.xl, f.zl) == 0.0 && Dot(f.yl, f.zl) == 0.0
    && f.zl == Cross(f.xl, f.yl)
  }

  /** Two orthogonal unit vectors and their cross product are orthonormal. */
  lemma OrthonormalFromPair(f: Axes)
    requires NormSq(f.xl) == 1.0 && NormSq(f.yl) == 1.0 && Dot(f.xl, f.yl) == 0.0
    requires f.zl == Cross(f.xl, f.yl)
    ensures Orthonormal(f)
  {
    CrossOrthogonal(f.xl, f.yl);
    CrossNormSq(f.xl, f.yl);
    assert Dot(f.xl, f.zl) == Dot(f.zl, f.xl);
    assert Dot(f.yl, f.zl) == Dot(f.zl, f.yl);
  }

  /** In the fallback yl is the global y axis, and it is orthogonal to xl only to within
      the absolute tolerance of allclose. */
  lemma FallbackAxes(n1: Vec3, n2: Vec3, norm: Vec3 -> real)
    requires IsNorm(norm) && n1 != n2
    requires Vertical(LocalAxes(n1, n2, norm).xl)
    ensures var f := LocalAxes(n1, n2, norm);
      && f.yl == GlobalY
      && AbsReal(f.xl.x) <= ATol && AbsReal(f.xl.y) <= ATol
      && Dot(f.xl, f.yl) == f.xl.y
  {
    NormOfUnit(norm, GlobalY);
    assert Normalize(GlobalY, norm) == GlobalY;
  }

  /** An exactly vertical element gets orthonormal axes from the fallback. */
  lemma VerticalAxes(n1: Vec3, n2: Vec3, norm: Vec3 -> real)
    requires IsNorm(norm) && n1 != n2 && n1.x == n2.x && n1.y == n2.y
    ensures Vertical(LocalAxes(n1, n2, norm).xl) && Orthonormal(LocalAxes(n1, n2, norm))
  {
    var f := LocalAxes(n1, n2, norm);
    VerticalAxis(f.xl, Sub(n2, n1), 1.0 / norm(Sub(n2, n1)));
    FallbackAxes(n1, n2, norm);
    OrthonormalFromPair(f);
  }

  /** A unit multiple of a vertical vector is (0, 0, +-1). */
  lemma VerticalAxis(xl: Vec3, d: Vec3, k: real)
    requires xl == Scale(k, d) && d.x == 0.0 && d.y == 0.0 && NormSq(xl) == 1.0
    ensures xl.x == 0.0 && xl.y == 0.0 && Abs(xl) == GlobalZ && Vertical(xl)
  {
    assert xl.x == 0.0 && xl.y == 0.0;
    UnitSquare(xl.z);
  }

  /** Away from the fallback the axes are orthonormal, yl is horizontal and zl points
      upwards (or is horizontal). */
  lemma GeneralAxes(n1: Vec3, n2: Vec3, norm: Vec3 -> real)
    requires IsNorm(norm) && n1 != n2
    requires !Vertical(LocalAxes(n1, n2, norm).xl)
    ensures var f := LocalAxes(n1, n2, norm);
      Orthonormal(f) && f.yl.z == 0.0 && f.zl.z >= 0.0
  {
    var f := LocalAxes(n1, n2, norm);
    HorizontalAxis(f.xl, norm);
    OrthonormalFromPair(f);
  }

  /** yl = (z x xl) / |z x xl| is a horizontal unit vector orthogonal to xl, and
      xl x yl has a non-negative vertical component. */
  lemma HorizontalAxis(xl: Vec3, norm: Vec3 -> real)
    requires IsNorm(norm) && NormSq(xl) == 1.0 && !Vertical(xl)
    ensures Cross(GlobalZ, xl) != Origin
    ensures var yl := Normalize(Cross(GlobalZ, xl), norm);
      NormSq(yl) == 1.0 && Dot(xl, yl) == 0.0 && yl.z == 0.0 && Cross(xl, yl).z >= 0.0
  {
    CrossWithZNonzero(xl);
    var y := Cross(GlobalZ, xl);
    NormalizeUnit(y, norm);
    var k := 1.0 / norm(y);
    var yl := Scale(k, y);
    CrossWithZ(xl);
    assert Dot(xl, yl) == k * Dot(xl, y);
    assert Cross(xl, yl).z == k * (xl.x * xl.x + xl.y * xl.y);
  }

  /** The 3 x 3 matrix with the local axes as rows (np.stack((xl, yl, zl))). */
  function Rotation(f: Axes): (c: Matrix)
    ensures IsMatrix(c, 3, 3)
  {
    [[f.xl.x, f.xl.y, f.xl.z], [f.yl.x, f.yl.y, f.yl.z], [f.zl.x, f.zl.y, f.zl.z]]
  }

  /** The components of a global vector along the local axes. */
  function ToLocal(f: Axes, v: Vec3): Vec3
  {
    Vec3(Dot(f.xl, v), Dot(f.yl, v), Dot(f.zl, v))
  }

  /** The block-diagonal matrix with four copies of the 3 x 3 matrix c. */
  function BlockDiag(c: Matrix): (a: Matrix)
    requires IsMatrix(c, 3, 3)
    ensures IsMatrix(a, 12, 12)
    ensures forall i, j :: 0 <= i < 12 && 0 <= j < 12 ==>
      a[i][j] == if i / 3 == j / 3 then c[i % 3][j % 3] else 0.0
  {
    seq(12, i requires 0 <= i < 12 => seq(12, j requires 0 <= j < 12 => if i / 3 == j / 3 then c[i % 3][j % 3] else 0.0))
  }

  /** The four three-component blocks of a vector of element degrees of freedom. */
  function Block(u: Vector, b: nat): (v: Vec3)
    requires |u| == 12 && b < 4
  {
    Vec3(u[3 * b], u[3 * b + 1], u[3 * b + 2])
  }

  /** Element degrees of freedom from their four blocks. */
  function FromBlocks(v0: Vec3, v1: Vec3, v2: Vec3, v3: Vec3): (u: Vector)
    ensures |u| == 12
    ensures Block(u, 0) == v0 && Block(u, 1) == v1 && Block(u, 2) == v2 && Block(u, 3) == v3
  {
    [v0.x, v0.y, v0.z, v1.x, v1.y, v1.z, v2.x, v2.y, v2.z, v3.x, v3.y, v3.z]
  }

  /** A acts on each displacement and rotation block of the element separately, taking
      it to its components along the local axes. */
  lemma TransformBlocks(f: Axes, u: Vector)
    requires |u| == 12
    ensures MatVec(BlockDiag(Rotation(f)), u, 12, 12) ==
      FromBlocks(ToLocal(f, Block(u, 0)), ToLocal(f, Block(u, 1)), ToLocal(f, Block(u, 2)), ToLocal(f, Block(u, 3)))
  {
    var a := BlockDiag(Rotation(f));
    var e := FromBlocks(ToLocal(f, Block(u, 0)), ToLocal(f, Block(u, 1)), ToLocal(f, Block(u, 2)), ToLocal(f, Block(u, 3)));
    BlockRows(f, u, 0);
    BlockRows(f, u, 1);
    BlockRows(f, u, 2);
    BlockRows(f, u, 3);
  }

  /** The three rows of block b of A @ u. */
  lemma BlockRows(f: Axes, u: Vector, b: nat)
    requires |u| == 12 && b < 4
    ensures var a := BlockDiag(Rotation(f));
      var v := ToLocal(f, Block(u, b));
      ApplyEntry(a, u, 12, 3 * b) == v.x && ApplyEntry(a, u, 12, 3 * b + 1) == v.y && ApplyEntry(a, u, 12, 3 * b + 2) == v.z
  {
    BlockRow(f, u, b, 0);
    BlockRow(f, u, b, 1);
    BlockRow(f, u, b, 2);
  }

  /** Row r of block b of A @ u is the component of block b along local axis r. */
  lemma BlockRow(f: Axes, u: Vector, b: nat, r: nat)
    requires |u| == 12 && b < 4 && r < 3
    ensures var v := ToLocal(f, Block(u, b));
      ApplyEntry(BlockDiag(Rotation(f)), u, 12, 3 * b + r) == if r == 0 then v.x else if r == 1 then v.y else v.z
  {
    var a := BlockDiag(Rotation(f));
    var i := 3 * b + r;
    assert i / 3 == b && i % 3 == r;
    ApplyEntry12(a, u, i);
  }

  /** The transformation matrix A and the length L that Abeam returns. */
  function Abeam(n1: Vec3, n2: Vec3, norm: Vec3 -> real): (r: (Matrix, real))
    requires IsNorm(norm) && n1 != n2
    ensures IsMatrix(r.0, 12, 12)
  {
    (BlockDiag(Rotation(LocalAxes(n1, n2, norm))), norm(Sub(n2, n1)))
  }

  /** L is the positive distance between the nodes. */
  lemma ElementLength(n1: Vec3, n2: Vec3, norm: Vec3 -> real)
    requires IsNorm(norm) && n1 != n2
    ensures var len := Abeam(n1, n2, norm).1;
      len > 0.0 && len * len == NormSq(Sub(n2, n1))
  {
    assert Sub(n2, n1) != Origin;
  }

  /** A global translation t of both nodes becomes the translation by the local components
      of t. */
  lemma TranslationToLocal(n1: Vec3, n2: Vec3, norm: Vec3 -> real, t: Vec3)
    requires IsNorm(norm) && n1 != n2
    ensures var f := LocalAxes(n1, n2, norm);
      MatVec(Abeam(n1, n2, norm).0, Translation(t), 12, 12) == Translation(ToLocal(f, t))
  {
    var f := LocalAxes(n1, n2, norm);
    TransformBlocks(f, Translation(t));
    assert ToLocal(f, Vec3(0.0, 0.0, 0.0)) == Vec3(0.0, 0.0, 0.0);
  }
}
