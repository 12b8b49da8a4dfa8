/** Dense real matrices as sequences of rows, with the products numpy's `@`
    computes and the algebraic laws the element and assembly proofs need. */
module Matrices {
  import opened Sums

  type Vector = seq<real>
  type Matrix = seq<seq<real>>

  /** `a` has r rows of c entries each. */
  ghost predicate IsMatrix(a: Matrix, r: nat, c: nat)
  {
    |a| == r && forall i :: 0 <= i < r ==> |a[i]| == c
  }

  ghost predicate IsSquare(a: Matrix, n: nat)
  {
    IsMatrix(a, n, n)
  }

  ghost predicate Symmetric(a: Matrix, n: nat)
    requires IsSquare(a, n)
  {
    forall i, j :: 0 <= i < n && 0 <= j < n ==> a[i][j] == a[j][i]
  }

  /** x.T @ a @ x >= 0 for every x. */
  ghost predicate PositiveSemidefinite(a: Matrix, n: nat)
    requires IsSquare(a, n)
  {
    forall x {:trigger Quadratic(a, x, n)} :: |x| == n ==> Quadratic(a, x, n) >= 0.0
  }

  /** Entry (i, j), read as 0 outside the matrix, so that sums need no index guards. */
  function At(a: Matrix, i: int, j: int): real
  {
    if 0 <= i < |a| && 0 <= j < |a[i]| then a[i][j] else 0.0
  }

  /** Entry i, read as 0 outside the vector. */
  function Get(v: Vector, i: int): real
  {
    if 0 <= i < |v| then v[i] else 0.0
  }

  function Zeros(r: nat, c: nat): (z: Matrix)
    ensures IsMatrix(z, r, c)
    ensures forall i, j :: 0 <= i < r && 0 <= j < c ==> z[i][j] == 0.0
  {
    seq(r, i => seq(c, j => 0.0))
  }

  function ZeroVector(n: nat): (z: Vector)
    ensures |z| == n && forall i :: 0 <= i < n ==> z[i] == 0.0
  {
    seq(n, i => 0.0)
  }

  /** The diagonal matrix with d on its diagonal. */
  function Diag(d: Vector): (m: Matrix)
    ensures IsSquare(m, |d|)
    ensures forall i, j :: 0 <= i < |d| && 0 <= j < |d| ==> m[i][j] == if i == j then d[i] else 0.0
  {
    seq(|d|, i requires 0 <= i < |d| => seq(|d|, j requires 0 <= j < |d| => if i == j then d[i] else 0.0))
  }

  function Transpose(a: Matrix, r: nat, c: nat): (t: Matrix)
    requires IsMatrix(a, r, c)
    ensures IsMatrix(t, c, r)
    ensures forall i, j :: 0 <= i < c && 0 <= j < r ==> t[i][j] == a[j][i]
  {
    seq(c, i requires 0 <= i < c => seq(r, j requires 0 <= j < r => a[j][i]))
  }

  function MatAdd(a: Matrix, b: Matrix, r: nat, c: nat): (s: Matrix)
    requires IsMatrix(a, r, c) && IsMatrix(b, r, c)
    ensures IsMatrix(s, r, c)
    ensures forall i, j :: 0 <= i < r && 0 <= j < c ==> s[i][j] == a[i][j] + b[i][j]
  {
    seq(r, i requires 0 <= i < r => seq(c, j requires 0 <= j < c => a[i][j] + b[i][j]))
  }

  function MatScale(x: real, a: Matrix, r: nat, c: nat): (s: Matrix)
    requires IsMatrix(a, r, c)
    ensures IsMatrix(s, r, c)
    ensures forall i, j :: 0 <= i < r && 0 <= j < c ==> s[i][j] == x * a[i][j]
  {
    seq(r, i requires 0 <= i < r => seq(c, j requires 0 <= j < c => x * a[i][j]))
  }

  /** Entry (i, j) of a product whose inner dimension is m: a[i][0] b[0][j] + ... +
      a[i][m - 1] b[m - 1][j], accumulated over its own operands (see ProductEntrySum). */
  function ProductEntry(a: Matrix, b: Matrix, m: nat, i: int, j: int): real
    decreases a, b, m
  {
    if m == 0 then 0.0 else ProductEntry(a, b, m - 1, i, j) + At(a, i, m - 1) * At(b, m - 1, j)
  }

  lemma {:induction false} ProductEntrySum(a: Matrix, b: Matrix, m: nat, i: int, j: int)
    ensures ProductEntry(a, b, m, i, j) == Sum(m, k => At(a, i, k) * At(b, k, j))
  {
    if m > 0 {
      ProductEntrySum(a, b, m - 1, i, j);
    }
  }

  /** The matrix product `a @ b` of an r x m and an m x c matrix. */
  function MatMul(a: Matrix, b: Matrix, r: nat, m: nat, c: nat): (p: Matrix)
    requires IsMatrix(a, r, m) && IsMatrix(b, m, c)
    ensures IsMatrix(p, r, c)
    ensures forall i, j :: 0 <= i < r && 0 <= j < c ==> p[i][j] == ProductEntry(a, b, m, i, j)
  {
    seq(r, i requires 0 <= i < r => seq(c, j requires 0 <= j < c => ProductEntry(a, b, m, i, j)))
  }

  /** Entry i of a matrix-vector product over c columns. */
  function ApplyEntry(a: Matrix, v: Vector, c: nat, i: int): real
    decreases a, v, c
  {
    if c == 0 then 0.0 else ApplyEntry(a, v, c - 1, i) + At(a, i, c - 1) * Get(v, c - 1)
  }

  lemma {:induction false} ApplyEntrySum(a: Matrix, v: Vector, c: nat, i: int)
    ensures ApplyEntry(a, v, c, i) == Sum(c, k => At(a, i, k) * Get(v, k))
  {
    if c > 0 {
      ApplyEntrySum(a, v, c - 1, i);
    }
  }

  /** A row of twelve columns applied to a vector, written out, for the twelve degrees of
      freedom of a beam element. */
  lemma ApplyEntry12(a: Matrix, v: Vector, i: int)
    ensures ApplyEntry(a, v, 12, i) ==
      At(a, i, 0) * Get(v, 0) + At(a, i, 1) * Get(v, 1) + At(a, i, 2) * Get(v, 2) + At(a, i, 3) * Get(v, 3)
      + At(a, i, 4) * Get(v, 4) + At(a, i, 5) * Get(v, 5) + At(a, i, 6) * Get(v, 6) + At(a, i, 7) * Get(v, 7)
      + At(a, i, 8) * Get(v, 8) + At(a, i, 9) * Get(v, 9) + At(a, i, 10) * Get(v, 10) + At(a, i, 11) * Get(v, 11)
  {
    assert ApplyEntry(a, v, 12, i) == ApplyEntry(a, v, 11, i) + At(a, i, 11) * Get(v, 11);
    assert ApplyEntry(a, v, 11, i) == ApplyEntry(a, v, 10, i) + At(a, i, 10) * Get(v, 10);
    assert ApplyEntry(a, v, 10, i) == ApplyEntry(a, v, 9, i) + At(a, i, 9) * Get(v, 9);
    assert ApplyEntry(a, v, 9, i) == ApplyEntry(a, v, 8, i) + At(a, i, 8) * Get(v, 8);
    assert ApplyEntry(a, v, 8, i) == ApplyEntry(a, v, 7, i) + At(a, i, 7) * Get(v, 7);
    assert ApplyEntry(a, v, 7, i) == ApplyEntry(a, v, 6, i) + At(a, i, 6) * Get(v, 6);
    assert ApplyEntry(a, v, 6, i) == ApplyEntry(a, v, 5, i) + At(a, i, 5) * Get(v, 5);
    assert ApplyEntry(a, v, 5, i) == ApplyEntry(a, v, 4, i) + At(a, i, 4) * Get(v, 4);
    assert ApplyEntry(a, v, 4, i) == ApplyEntry(a, v, 3, i) + At(a, i, 3) * Get(v, 3);
    assert ApplyEntry(a, v, 3, i) == ApplyEntry(a, v, 2, i) + At(a, i, 2) * Get(v, 2);
    assert ApplyEntry(a, v, 2, i) == ApplyEntry(a, v, 1, i) + At(a, i, 1) * Get(v, 1);
    assert ApplyEntry(a, v, 1, i) == At(a, i, 0) * Get(v, 0);
  }

  /** The product `a @ v` of an r x c matrix and a vector of length c. */
  function MatVec(a: Matrix, v: Vector, r: nat, c: nat): (w: Vector)
    requires IsMatrix(a, r, c) && |v| == c
    ensures |w| == r
    ensures forall i :: 0 <= i < r ==> w[i] == ApplyEntry(a, v, c, i)
  {
    seq(r, i requires 0 <= i < r => ApplyEntry(a, v, c, i))
  }

  /** The dot product of the first n entries. */
  function Inner(x: Vector, y: Vector, n: nat): real
    decreases x, y, n
  {
    if n == 0 then 0.0 else Inner(x, y, n - 1) + Get(x, n - 1) * Get(y, n - 1)
  }

  lemma {:induction false} InnerSum(x: Vector, y: Vector, n: nat)
    ensures Inner(x, y, n) == Sum(n, k => Get(x, k) * Get(y, k))
  {
    if n > 0 {
      InnerSum(x, y, n - 1);
    }
  }

  /** The quadratic form x.T @ a @ x of an n x n matrix. */
  function Quadratic(a: Matrix, x: Vector, n: nat): real
    requires IsSquare(a, n) && |x| == n
  {
    Inner(x, MatVec(a, x, n, n), n)
  }

  /** The congruence transform `t.T @ s @ t` of numpy, evaluated left to right, for an
      r x c matrix t and an r x r matrix s. */
  function Congruence(t: Matrix, s: Matrix, r: nat, c: nat): (k: Matrix)
    requires IsMatrix(t, r, c) && IsSquare(s, r)
    ensures IsSquare(k, c)
  {
    MatMul(MatMul(Transpose(t, r, c), s, c, r, r), t, c, r, c)
  }

  lemma {:induction false} TransposeTwice(a: Matrix, r: nat, c: nat)
    requires IsMatrix(a, r, c)
    ensures Transpose(Transpose(a, r, c), c, r) == a
  {
    var t2 := Transpose(Transpose(a, r, c), c, r);
    assert forall i :: 0 <= i < r ==> t2[i] == a[i];
  }

  lemma {:induction false} SymmetricIsOwnTranspose(a: Matrix, n: nat)
    requires IsSquare(a, n)
    ensures Symmetric(a, n) <==> Transpose(a, n, n) == a
  {
    if Symmetric(a, n) {
      var t := Transpose(a, n, n);
      assert forall i :: 0 <= i < n ==> t[i] == a[i];
    }
  }

  /** (a @ b).T == b.T @ a.T */
  lemma {:induction false} TransposeProduct(a: Matrix, b: Matrix, r: nat, m: nat, c: nat)
    requires IsMatrix(a, r, m) && IsMatrix(b, m, c)
    ensures Transpose(MatMul(a, b, r, m, c), r, c) == MatMul(Transpose(b, m, c), Transpose(a, r, m), c, m, r)
  {
    var lhs := Transpose(MatMul(a, b, r, m, c), r, c);
    var bt, at := Transpose(b, m, c), Transpose(a, r, m);
    var rhs := MatMul(bt, at, c, m, r);
    forall i, j | 0 <= i < c && 0 <= j < r
      ensures lhs[i][j] == rhs[i][j]
    {
      ProductEntrySum(a, b, m, j, i);
      ProductEntrySum(bt, at, m, i, j);
      SumExt(m, k => At(a, j, k) * At(b, k, i), k => At(bt, i, k) * At(at, k, j));
    }
    assert forall i :: 0 <= i < c ==> lhs[i] == rhs[i];
  }

  /** (a @ b) @ c == a @ (b @ c) */
  lemma {:induction false} MatMulAssoc(a: Matrix, b: Matrix, c: Matrix, r: nat, m: nat, l: nat, q: nat)
    requires IsMatrix(a, r, m) && IsMatrix(b, m, l) && IsMatrix(c, l, q)
    ensures MatMul(MatMul(a, b, r, m, l), c, r, l, q) == MatMul(a, MatMul(b, c, m, l, q), r, m, q)
  {
    var lhs := MatMul(MatMul(a, b, r, m, l), c, r, l, q);
    var rhs := MatMul(a, MatMul(b, c, m, l, q), r, m, q);
    forall i, j | 0 <= i < r && 0 <= j < q
      ensures lhs[i][j] == rhs[i][j]
    {
      AssocEntry(a, b, c, r, m, l, q, i, j);
    }
    assert forall i :: 0 <= i < r ==> lhs[i] == rhs[i];
  }

  lemma {:induction false} AssocEntry(a: Matrix, b: Matrix, c: Matrix, r: nat, m: nat, l: nat, q: nat, i: nat, j: nat)
    requires IsMatrix(a, r, m) && IsMatrix(b, m, l) && IsMatrix(c, l, q) && i < r && j < q
    ensures ProductEntry(MatMul(a, b, r, m, l), c, l, i, j) == ProductEntry(a, MatMul(b, c, m, l, q), m, i, j)
  {
    AssocLeft(a, b, c, r, m, l, q, i, j);
    SumSwap(m, l, Triple(a, b, c, i, j));
    AssocRight(a, b, c, r, m, l, q, i, j);
  }

  /** The summand a[i][k] b[k][t] c[t][j] of entry (i, j) of a triple product. */
  function Triple(a: Matrix, b: Matrix, c: Matrix, i: int, j: int): (int, int) -> real
  {
    (k, t) => At(a, i, k) * At(b, k, t) * At(c, t, j)
  }

  lemma {:induction false} AssocLeft(a: Matrix, b: Matrix, c: Matrix, r: nat, m: nat, l: nat, q: nat, i: nat, j: nat)
    requires IsMatrix(a, r, m) && IsMatrix(b, m, l) && IsMatrix(c, l, q) && i < r && j < q
    ensures ProductEntry(MatMul(a, b, r, m, l), c, l, i, j) == ColumnsFirst(m, l, Triple(a, b, c, i, j))
  {
    var ab := MatMul(a, b, r, m, l);
    var f := Triple(a, b, c, i, j);
    forall t | 0 <= t < l
      ensures At(ab, i, t) * At(c, t, j) == Sum(m, k => f(k, t))
    {
      ProductEntrySum(a, b, m, i, t);
      SumScale(m, k => At(a, i, k) * At(b, k, t), k => f(k, t), At(c, t, j));
    }
    ProductEntrySum(ab, c, l, i, j);
    SumExt(l, t => At(ab, i, t) * At(c, t, j), t => Sum(m, k => f(k, t)));
  }

  lemma {:induction false} AssocRight(a: Matrix, b: Matrix, c: Matrix, r: nat, m: nat, l: nat, q: nat, i: nat, j: nat)
    requires IsMatrix(a, r, m) && IsMatrix(b, m, l) && IsMatrix(c, l, q) && i < r && j < q
    ensures ProductEntry(a, MatMul(b, c, m, l, q), m, i, j) == RowsFirst(m, l, Triple(a, b, c, i, j))
  {
    var bc := MatMul(b, c, m, l, q);
    var f := Triple(a, b, c, i, j);
    forall k | 0 <= k < m
      ensures At(a, i, k) * At(bc, k, j) == Sum(l, t => f(k, t))
    {
      ProductEntrySum(b, c, l, k, j);
      SumScale(l, t => At(b, k, t) * At(c, t, j), t => f(k, t), At(a, i, k));
    }
    ProductEntrySum(a, bc, m, i, j);
    SumExt(m, k => At(a, i, k) * At(bc, k, j), k => Sum(l, t => f(k, t)));
  }

  /** A vector as an n x 1 matrix. */
  function Column(v: Vector): (m: Matrix)
    ensures IsMatrix(m, |v|, 1)
    ensures forall k :: 0 <= k < |v| ==> m[k][0] == v[k]
  {
    seq(|v|, k requires 0 <= k < |v| => [v[k]])
  }

  /** A vector as a 1 x n matrix. */
  function Row(v: Vector): (m: Matrix)
    ensures IsMatrix(m, 1, |v|)
    ensures m[0] == v
  {
    [v]
  }

  /** a @ v is the single column of a @ Column(v). */
  lemma {:induction false} MatVecAsProduct(a: Matrix, v: Vector, r: nat, c: nat)
    requires IsMatrix(a, r, c) && |v| == c
    ensures Column(MatVec(a, v, r, c)) == MatMul(a, Column(v), r, c, 1)
  {
    var lhs := Column(MatVec(a, v, r, c));
    var rhs := MatMul(a, Column(v), r, c, 1);
    var cv := Column(v);
    forall i | 0 <= i < r
      ensures lhs[i] == rhs[i]
    {
      ApplyEntrySum(a, v, c, i);
      ProductEntrySum(a, cv, c, i, 0);
      SumExt(c, k => At(a, i, k) * Get(v, k), k => At(a, i, k) * At(cv, k, 0));
      assert lhs[i][0] == rhs[i][0];
    }
  }

  /** The inner product is the single entry of Row(x) @ Column(y). */
  lemma {:induction false} InnerAsProduct(x: Vector, y: Vector, n: nat)
    requires |x| == n && |y| == n
    ensures Inner(x, y, n) == MatMul(Row(x), Column(y), 1, n, 1)[0][0]
  {
    var rx, cy := Row(x), Column(y);
    InnerSum(x, y, n);
    ProductEntrySum(rx, cy, n, 0, 0);
    SumExt(n, k => Get(x, k) * Get(y, k), k => At(rx, 0, k) * At(cy, k, 0));
  }

  /** Column(v) has v as its only row once transposed. */
  lemma {:induction false} TransposeColumn(v: Vector)
    ensures Transpose(Column(v), |v|, 1) == Row(v)
  {
    var t := Transpose(Column(v), |v|, 1);
    assert t[0] == v;
  }

  /** Two n x 1 matrices with the same column come from the same vector. */
  lemma {:induction false} ColumnInjective(v: Vector, w: Vector)
    requires Column(v) == Column(w)
    ensures v == w
  {
    assert |v| == |w|;
    forall k | 0 <= k < |v|
      ensures v[k] == w[k]
    {
      assert Column(v)[k][0] == Column(w)[k][0];
    }
  }

  /** (a @ b) @ v == a @ (b @ v) */
  lemma {:induction false} MatVecProduct(a: Matrix, b: Matrix, v: Vector, r: nat, m: nat, c: nat)
    requires IsMatrix(a, r, m) && IsMatrix(b, m, c) && |v| == c
    ensures MatVec(MatMul(a, b, r, m, c), v, r, c) == MatVec(a, MatVec(b, v, m, c), r, m)
  {
    var ab := MatMul(a, b, r, m, c);
    var bv := MatVec(b, v, m, c);
    MatVecAsProduct(ab, v, r, c);
    MatVecAsProduct(b, v, m, c);
    MatVecAsProduct(a, bv, r, m);
    MatMulAssoc(a, b, Column(v), r, m, c, 1);
    ColumnInjective(MatVec(ab, v, r, c), MatVec(a, bv, r, m));
  }

  /** x . (t.T @ y) == (t @ x) . y */
  lemma {:induction false} InnerTranspose(t: Matrix, x: Vector, y: Vector, r: nat, c: nat)
    requires IsMatrix(t, r, c) && |x| == c && |y| == r
    ensures Inner(x, MatVec(Transpose(t, r, c), y, c, r), c) == Inner(MatVec(t, x, r, c), y, r)
  {
    var tt := Transpose(t, r, c);
    var tx := MatVec(t, x, r, c);
    var tty := MatVec(tt, y, c, r);
    InnerAsProduct(x, tty, c);
    MatVecAsProduct(tt, y, c, r);
    MatMulAssoc(Row(x), tt, Column(y), 1, c, r, 1);
    // Row(x) @ t.T == (t @ Column(x)).T == Row(t @ x)
    TransposeProduct(t, Column(x), r, c, 1);
    TransposeColumn(x);
    MatVecAsProduct(t, x, r, c);
    TransposeColumn(tx);
    InnerAsProduct(tx, y, r);
  }

  /** A matrix applied to the zero vector gives the zero vector. */
  lemma {:induction false} MatVecZero(a: Matrix, r: nat, c: nat)
    requires IsMatrix(a, r, c)
    ensures MatVec(a, ZeroVector(c), r, c) == ZeroVector(r)
  {
    var z := ZeroVector(c);
    forall i | 0 <= i < r
      ensures ApplyEntry(a, z, c, i) == 0.0
    {
      ApplyEntrySum(a, z, c, i);
      SumZero(c, k => At(a, i, k) * Get(z, k));
    }
  }

  /** The zero matrix maps every vector to the zero vector. */
  lemma {:induction false} ZerosApply(x: Vector, r: nat, c: nat)
    requires |x| == c
    ensures MatVec(Zeros(r, c), x, r, c) == ZeroVector(r)
  {
    var z := Zeros(r, c);
    forall i | 0 <= i < r
      ensures ApplyEntry(z, x, c, i) == 0.0
    {
      ApplyEntrySum(z, x, c, i);
      SumZero(c, k => At(z, i, k) * Get(x, k));
    }
  }

  lemma {:induction false} MatVecAdd(a: Matrix, b: Matrix, v: Vector, r: nat, c: nat)
    requires IsMatrix(a, r, c) && IsMatrix(b, r, c) && |v| == c
    ensures forall i :: 0 <= i < r ==>
      MatVec(MatAdd(a, b, r, c), v, r, c)[i] == MatVec(a, v, r, c)[i] + MatVec(b, v, r, c)[i]
  {
    var s := MatAdd(a, b, r, c);
    forall i | 0 <= i < r
      ensures ApplyEntry(s, v, c, i) == ApplyEntry(a, v, c, i) + ApplyEntry(b, v, c, i)
    {
      ApplyEntrySum(a, v, c, i);
      ApplyEntrySum(b, v, c, i);
      ApplyEntrySum(s, v, c, i);
      SumAdd(c, k => At(a, i, k) * Get(v, k), k => At(b, i, k) * Get(v, k), k => At(s, i, k) * Get(v, k));
    }
  }

  lemma {:induction false} MatVecScale(x: real, a: Matrix, v: Vector, r: nat, c: nat)
    requires IsMatrix(a, r, c) && |v| == c
    ensures forall i :: 0 <= i < r ==> MatVec(MatScale(x, a, r, c), v, r, c)[i] == x * MatVec(a, v, r, c)[i]
  {
    var s := MatScale(x, a, r, c);
    forall i | 0 <= i < r
      ensures ApplyEntry(s, v, c, i) == x * ApplyEntry(a, v, c, i)
    {
      ApplyEntrySum(a, v, c, i);
      ApplyEntrySum(s, v, c, i);
      SumScale(c, k => At(a, i, k) * Get(v, k), k => At(s, i, k) * Get(v, k), x);
    }
  }

  lemma {:induction false} SymmetricAdd(a: Matrix, b: Matrix, n: nat)
    requires IsSquare(a, n) && IsSquare(b, n) && Symmetric(a, n) && Symmetric(b, n)
    ensures Symmetric(MatAdd(a, b, n, n), n)
  {
  }

  lemma {:induction false} SymmetricScale(x: real, a: Matrix, n: nat)
    requires IsSquare(a, n) && Symmetric(a, n)
    ensures Symmetric(MatScale(x, a, n, n), n)
  {
  }

  /** t.T @ s @ t is symmetric whenever s is. */
  lemma {:induction false} CongruenceSymmetric(t: Matrix, s: Matrix, r: nat, c: nat)
    requires IsMatrix(t, r, c) && IsSquare(s, r) && Symmetric(s, r)
    ensures Symmetric(Congruence(t, s, r, c), c)
  {
    var tt := Transpose(t, r, c);
    var ts := MatMul(tt, s, c, r, r);
    var k := MatMul(ts, t, c, r, c);
    TransposeProduct(ts, t, c, r, c);
    TransposeProduct(tt, s, c, r, r);
    TransposeTwice(t, r, c);
    SymmetricIsOwnTranspose(s, r);
    // k.T == t.T @ (s.T @ t) == t.T @ (s @ t) == (t.T @ s) @ t == k
    MatMulAssoc(tt, s, t, c, r, r, c);
    assert Transpose(k, c, c) == MatMul(tt, MatMul(s, t, r, r, c), c, r, c);
    SymmetricIsOwnTranspose(k, c);
  }

  /** (t.T @ s @ t) @ x == t.T @ (s @ (t @ x)) */
  lemma {:induction false} CongruenceApply(t: Matrix, s: Matrix, x: Vector, r: nat, c: nat)
    requires IsMatrix(t, r, c) && IsSquare(s, r) && |x| == c
    ensures MatVec(Congruence(t, s, r, c), x, c, c)
         == MatVec(Transpose(t, r, c), MatVec(s, MatVec(t, x, r, c), r, r), c, r)
  {
    var tt := Transpose(t, r, c);
    MatVecProduct(MatMul(tt, s, c, r, r), t, x, c, r, c);
    MatVecProduct(tt, s, MatVec(t, x, r, c), c, r, r);
  }

  /** The quadratic form of t.T @ s @ t at x is that of s at t @ x. */
  lemma {:induction false} CongruenceQuadratic(t: Matrix, s: Matrix, x: Vector, r: nat, c: nat)
    requires IsMatrix(t, r, c) && IsSquare(s, r) && |x| == c
    ensures Quadratic(Congruence(t, s, r, c), x, c) == Quadratic(s, MatVec(t, x, r, c), r)
  {
    var tx := MatVec(t, x, r, c);
    CongruenceApply(t, s, x, r, c);
    InnerTranspose(t, x, MatVec(s, tx, r, r), r, c);
  }

  /** Whatever t maps to zero, t.T @ s @ t maps to zero. */
  lemma {:induction false} CongruenceKernel(t: Matrix, s: Matrix, x: Vector, r: nat, c: nat)
    requires IsMatrix(t, r, c) && IsSquare(s, r) && |x| == c
    requires MatVec(t, x, r, c) == ZeroVector(r)
    ensures MatVec(Congruence(t, s, r, c), x, c, c) == ZeroVector(c)
  {
    CongruenceApply(t, s, x, r, c);
    MatVecZero(s, r, r);
    MatVecZero(Transpose(t, r, c), c, r);
  }

  /** Row k of diag(d) @ x is d[k] x[k]. */
  lemma {:induction false} DiagRow(d: Vector, x: Vector, k: nat)
    requires |x| == |d| && k < |d|
    ensures ApplyEntry(Diag(d), x, |d|, k) == d[k] * x[k]
  {
    var dm := Diag(d);
    forall j | 0 <= j < |d| && j != k
      ensures At(dm, k, j) * Get(x, j) == 0.0
    {
      assert At(dm, k, j) == 0.0;
    }
    ApplyEntrySum(dm, x, |d|, k);
    SumSingle(|d|, j => At(dm, k, j) * Get(x, j), k);
  }

  /** A diagonal matrix with non-negative entries has a non-negative quadratic form. */
  lemma {:induction false} DiagQuadraticNonneg(d: Vector, x: Vector)
    requires |x| == |d|
    requires forall k :: 0 <= k < |d| ==> d[k] >= 0.0
    ensures Quadratic(Diag(d), x, |d|) >= 0.0
  {
    var dx := MatVec(Diag(d), x, |d|, |d|);
    forall k | 0 <= k < |d|
      ensures Get(x, k) * Get(dx, k) >= 0.0
    {
      DiagRow(d, x, k);
      var xk, dk := x[k], d[k];
      assert xk * (dk * xk) == dk * (xk * xk);
      assert xk * xk >= 0.0;
    }
    InnerSum(x, dx, |d|);
    SumNonneg(|d|, k => Get(x, k) * Get(dx, k));
  }

  /** The k-th term d[k] x[k]^2 of a weighted sum of squares. */
  function WeightedSquare(d: Vector, x: Vector): int -> real
  {
    k => Get(d, k) * (Get(x, k) * Get(x, k))
  }

  /** The quadratic form of diag(d) is the d-weighted sum of squares. */
  lemma {:induction false} DiagQuadratic(d: Vector, x: Vector)
    requires |x| == |d|
    ensures Quadratic(Diag(d), x, |d|) == Sum(|d|, WeightedSquare(d, x))
  {
    var dx := MatVec(Diag(d), x, |d|, |d|);
    forall k | 0 <= k < |d|
      ensures Get(x, k) * Get(dx, k) == Get(d, k) * (Get(x, k) * Get(x, k))
    {
      DiagTerm(d, x, k);
    }
    InnerSum(x, dx, |d|);
    SumExt(|d|, k => Get(x, k) * Get(dx, k), WeightedSquare(d, x));
  }

  lemma {:induction false} DiagTerm(d: Vector, x: Vector, k: nat)
    requires |x| == |d| && k < |d|
    ensures Get(x, k) * Get(MatVec(Diag(d), x, |d|, |d|), k) == Get(d, k) * (Get(x, k) * Get(x, k))
  {
    var dx := MatVec(Diag(d), x, |d|, |d|);
    DiagRow(d, x, k);
    assert Get(dx, k) == ApplyEntry(Diag(d), x, |d|, k);
    Commute(Get(x, k), Get(d, k), Get(dx, k));
  }

  lemma {:induction false} Commute(x: real, d: real, e: real)
    requires e == d * x
    ensures x * e == d * (x * x)
  {
  }

  /** The quadratic form is additive in the matrix. */
  lemma {:induction false} QuadraticAdd(a: Matrix, b: Matrix, x: Vector, n: nat)
    requires IsSquare(a, n) && IsSquare(b, n) && |x| == n
    ensures Quadratic(MatAdd(a, b, n, n), x, n) == Quadratic(a, x, n) + Quadratic(b, x, n)
  {
    MatVecAdd(a, b, x, n, n);
    InnerAdd(x, MatVec(a, x, n, n), MatVec(b, x, n, n), MatVec(MatAdd(a, b, n, n), x, n, n), n);
  }

  /** The quadratic form is homogeneous in the matrix. */
  lemma {:induction false} QuadraticScale(y: real, a: Matrix, x: Vector, n: nat)
    requires IsSquare(a, n) && |x| == n
    ensures Quadratic(MatScale(y, a, n, n), x, n) == y * Quadratic(a, x, n)
  {
    MatVecScale(y, a, x, n, n);
    InnerScale(y, x, MatVec(a, x, n, n), MatVec(MatScale(y, a, n, n), x, n, n), n);
  }

  lemma {:induction false} InnerAdd(x: Vector, u: Vector, v: Vector, w: Vector, n: nat)
    requires |x| == |u| == |v| == |w| == n
    requires forall k :: 0 <= k < n ==> w[k] == u[k] + v[k]
    ensures Inner(x, w, n) == Inner(x, u, n) + Inner(x, v, n)
  {
    forall k | 0 <= k < n
      ensures Get(x, k) * Get(w, k) == Get(x, k) * Get(u, k) + Get(x, k) * Get(v, k)
    {
      assert Get(w, k) == Get(u, k) + Get(v, k);
    }
    InnerSum(x, u, n);
    InnerSum(x, v, n);
    InnerSum(x, w, n);
    SumAdd(n, k => Get(x, k) * Get(u, k), k => Get(x, k) * Get(v, k), k => Get(x, k) * Get(w, k));
  }

  lemma {:induction false} InnerScale(y: real, x: Vector, v: Vector, w: Vector, n: nat)
    requires |x| == |v| == |w| == n
    requires forall k :: 0 <= k < n ==> w[k] == y * v[k]
    ensures Inner(x, w, n) == y * Inner(x, v, n)
  {
    forall k | 0 <= k < n
      ensures Get(x, k) * Get(w, k) == y * (Get(x, k) * Get(v, k))
    {
      var xk, vk := Get(x, k), Get(v, k);
      assert Get(w, k) == y * vk;
      assert xk * (y * vk) == y * (xk * vk);
    }
    InnerSum(x, v, n);
    InnerSum(x, w, n);
    SumScale(n, k => Get(x, k) * Get(v, k), k => Get(x, k) * Get(w, k), y);
  }

  /** The quadratic form of the zero matrix vanishes. */
  lemma {:induction false} QuadraticZeros(x: Vector, n: nat)
    requires |x| == n
    ensures Quadratic(Zeros(n, n), x, n) == 0.0
  {
    var z := Zeros(n, n);
    var zx := MatVec(z, x, n, n);
    forall i | 0 <= i < n
      ensures zx[i] == 0.0
    {
      ApplyEntrySum(z, x, n, i);
      SumZero(n, k => At(z, i, k) * Get(x, k));
    }
    InnerSum(x, zx, n);
    SumZero(n, k => Get(x, k) * Get(zx, k));
  }

  /** (x a) @ b == x (a @ b) */
  lemma {:induction false} MatMulScaleLeft(x: real, a: Matrix, b: Matrix, r: nat, m: nat, c: nat)
    requires IsMatrix(a, r, m) && IsMatrix(b, m, c)
    ensures MatMul(MatScale(x, a, r, m), b, r, m, c) == MatScale(x, MatMul(a, b, r, m, c), r, c)
  {
    var lhs := MatMul(MatScale(x, a, r, m), b, r, m, c);
    var rhs := MatScale(x, MatMul(a, b, r, m, c), r, c);
    forall i, j | 0 <= i < r && 0 <= j < c
      ensures lhs[i][j] == rhs[i][j]
    {
      ScaledRowEntry(x, a, MatScale(x, a, r, m), b, m, i, j);
    }
    assert forall i :: 0 <= i < r ==> lhs[i] == rhs[i];
  }

  /** Entry (i, j) over the first k terms, row i of xa being x times row i of a. */
  lemma {:induction false} ScaledRowEntry(x: real, a: Matrix, xa: Matrix, b: Matrix, k: nat, i: int, j: int)
    requires forall t :: 0 <= t < k ==> At(xa, i, t) == x * At(a, i, t)
    ensures ProductEntry(xa, b, k, i, j) == x * ProductEntry(a, b, k, i, j)
  {
    if k > 0 {
      ScaledRowEntry(x, a, xa, b, k - 1, i, j);
      ScaledFactor(x, At(a, i, k - 1), At(xa, i, k - 1), At(b, k - 1, j));
      Distribute(x, ProductEntry(a, b, k - 1, i, j), At(a, i, k - 1) * At(b, k - 1, j));
    }
  }

  /** A factor scaled by x scales the product by x. */
  lemma ScaledFactor(x: real, p: real, xp: real, q: real)
    requires xp == x * p
    ensures xp * q == x * (p * q) && q * xp == x * (q * p)
  {
  }

  /** a @ (x b) == x (a @ b) */
  lemma {:induction false} MatMulScaleRight(x: real, a: Matrix, b: Matrix, r: nat, m: nat, c: nat)
    requires IsMatrix(a, r, m) && IsMatrix(b, m, c)
    ensures MatMul(a, MatScale(x, b, m, c), r, m, c) == MatScale(x, MatMul(a, b, r, m, c), r, c)
  {
    var lhs := MatMul(a, MatScale(x, b, m, c), r, m, c);
    var rhs := MatScale(x, MatMul(a, b, r, m, c), r, c);
    forall i, j | 0 <= i < r && 0 <= j < c
      ensures lhs[i][j] == rhs[i][j]
    {
      ScaledColumnEntry(x, a, b, MatScale(x, b, m, c), m, i, j);
    }
    assert forall i :: 0 <= i < r ==> lhs[i] == rhs[i];
  }

  /** Entry (i, j) over the first k terms, column j of xb being x times column j of b. */
  lemma {:induction false} ScaledColumnEntry(x: real, a: Matrix, b: Matrix, xb: Matrix, k: nat, i: int, j: int)
    requires forall t :: 0 <= t < k ==> At(xb, t, j) == x * At(b, t, j)
    ensures ProductEntry(a, xb, k, i, j) == x * ProductEntry(a, b, k, i, j)
  {
    if k > 0 {
      ScaledColumnEntry(x, a, b, xb, k - 1, i, j);
      ScaledFactor(x, At(b, k - 1, j), At(xb, k - 1, j), At(a, i, k - 1));
      Distribute(x, ProductEntry(a, b, k - 1, i, j), At(a, i, k - 1) * At(b, k - 1, j));
    }
  }

  lemma Distribute(x: real, p: real, q: real)
    ensures x * (p + q) == x * p + x * q
  {
  }

  /** The congruence transform is linear in the middle factor. */
  lemma {:induction false} CongruenceScale(x: real, t: Matrix, s: Matrix, r: nat, c: nat)
    requires IsMatrix(t, r, c) && IsSquare(s, r)
    ensures Congruence(t, MatScale(x, s, r, r), r, c) == MatScale(x, Congruence(t, s, r, c), c, c)
  {
    var tt := Transpose(t, r, c);
    MatMulScaleRight(x, tt, s, c, r, r);
    MatMulScaleLeft(x, MatMul(tt, s, c, r, r), t, c, r, c);
  }
}
