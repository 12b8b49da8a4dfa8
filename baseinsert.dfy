/** baseinsert (functions/data/baseinsert.py): the rows written to the database tables. Each
    table's rows are a list built from the model's data; the cursor that executes the
    INSERT statements is not part of this model. Dense matrices are stored as their nonzero
    entries, each as a 1-based triplet (i, j, value), row by row. */
module StoredRows {
  import opened Vectors
  import opened Structure
  import opened Properties
  import opened Matrices
  import FrequencyAnalysis

  /** A row of the node table: (id, x, y, z). */
  datatype NodeRow = NodeRow(id: int, x: real, y: real, z: real)

  /** A row of the connectivity table: (id, node1, node2, propno). */
  datatype ConnRow = ConnRow(id: int, node1: int, node2: int, propno: int)

  /** A row of the material table: (propno, E, A, rho, Iy, Iz, J, G, type). */
  datatype MaterialRow = MaterialRow(propno: int, e: real, a: real, rho: real, iy: real, iz: real, j: real, g: real, kind: string)

  /** A row of the Mass, Stiffness or Eigenvectors table: (i, j, value), counted from 1. */
  datatype Triplet = Triplet(i: int, j: int, v: real)

  /** A row of the Eigenvalues table: (id, omega). float(o) keeps a NaN frequency NaN;
      SQLite stores it as NULL, which np.array(..., dtype=float) reads back as nan. */
  datatype OmegaRow = OmegaRow(id: int, omega: FrequencyAnalysis.Frequency)

  /** Lines 6-7: enumerate(X, start=1). */
  function NodeRows(x: seq<Vec3>): (rows: seq<NodeRow>)
    ensures |rows| == |x|
    ensures forall i :: 0 <= i < |x| ==> rows[i].id == i + 1 && Vec3(rows[i].x, rows[i].y, rows[i].z) == x[i]
  {
    seq(|x|, i requires 0 <= i < |x| => NodeRow(i + 1, x[i].x, x[i].y, x[i].z))
  }

  /** Lines 9-10: enumerate(C, start=1). */
  function ConnRows(c: seq<Element>): (rows: seq<ConnRow>)
    ensures |rows| == |c|
    ensures forall i :: 0 <= i < |c| ==> rows[i].id == i + 1 && Element(rows[i].node1, rows[i].node2, rows[i].propno) == c[i]
  {
    seq(|c|, i requires 0 <= i < |c| => ConnRow(i + 1, c[i].n1, c[i].n2, c[i].prop))
  }

  /** Every record has a 'type' entry, as mat['type'] needs. */
  predicate AllTyped(t: PropTable)
  {
    forall i :: 0 <= i < |t| ==> t[i].1.kind.Some?
  }

  /** Lines 12-14: one row per item of mprop, in insertion order. */
  function MaterialRows(t: PropTable): (rows: seq<MaterialRow>)
    requires AllTyped(t)
    ensures |rows| == |t| && forall i :: 0 <= i < |t| ==> rows[i].propno == t[i].0
  {
    seq(|t|, i requires 0 <= i < |t| =>
      var m := t[i].1;
      MaterialRow(t[i].0, m.e, m.a, m.rho, m.iy, m.iz, m.j, m.g, m.kind.value))
  }

  /** Lines 16-20: the bound and spring rows (node, ldof, value), in input order. */
  function NodalRows(b: seq<NodalRow>): (rows: seq<(int, int, real)>)
    ensures |rows| == |b|
    ensures forall i :: 0 <= i < |b| ==> rows[i] == (b[i].node, b[i].dof, b[i].value)
  {
    seq(|b|, i requires 0 <= i < |b| => (b[i].node, b[i].dof, b[i].value))
  }

  /** Lines 30-31: enumerate(omega, start=1). */
  function OmegaRows(omega: seq<FrequencyAnalysis.Frequency>): (rows: seq<OmegaRow>)
    ensures |rows| == |omega|
    ensures forall i :: 0 <= i < |omega| ==> rows[i] == OmegaRow(i + 1, omega[i])
  {
    seq(|omega|, i requires 0 <= i < |omega| => OmegaRow(i + 1, omega[i]))
  }

  /** The triplets of row i of a, columns 0 ... k - 1 (the inner `for j` with its filter). */
  function RowTriplets(a: Matrix, i: nat, k: nat): seq<Triplet>
    requires i < |a| && k <= |a[i]|
  {
    if k == 0 then []
    else RowTriplets(a, i, k - 1) + (if a[i][k - 1] != 0.0 then [Triplet(i + 1, k, a[i][k - 1])] else [])
  }

  /** The triplets of rows 0 ... m - 1. */
  function MatrixTriplets(a: Matrix, cols: nat, m: nat): seq<Triplet>
    requires m <= |a| && forall r :: 0 <= r < |a| ==> |a[r]| == cols
  {
    if m == 0 then [] else MatrixTriplets(a, cols, m - 1) + RowTriplets(a, m - 1, cols)
  }

  /** Lines 22-23, 26-27 and 33-34: [(i + 1, j + 1, A[i, j]) for i for j if A[i, j] != 0]. */
  function Triplets(a: Matrix, rows: nat, cols: nat): seq<Triplet>
    requires IsMatrix(a, rows, cols)
  {
    MatrixTriplets(a, cols, rows)
  }

  /** t comes before u in row-major order. */
  predicate RowMajorBefore(t: Triplet, u: Triplet)
  {
    t.i < u.i || (t.i == u.i && t.j < u.j)
  }

  /** Each triplet of row i names a nonzero entry of that row, below column k, with its
      value; the columns increase. */
  lemma {:induction false} RowTripletsSound(a: Matrix, i: nat, k: nat)
    requires i < |a| && k <= |a[i]|
    ensures forall n :: 0 <= n < |RowTriplets(a, i, k)| ==>
      var t := RowTriplets(a, i, k)[n];
      t.i == i + 1 && 1 <= t.j <= k && t.v == a[i][t.j - 1] && t.v != 0.0
    ensures forall n, n' :: 0 <= n < n' < |RowTriplets(a, i, k)| ==> RowTriplets(a, i, k)[n].j < RowTriplets(a, i, k)[n'].j
  {
    if k > 0 {
      RowTripletsSound(a, i, k - 1);
    }
  }

  /** Each nonzero entry of row i below column k has its triplet, at position n. */
  lemma {:induction false} RowTripletsComplete(a: Matrix, i: nat, k: nat, q: nat) returns (n: nat)
    requires i < |a| && q < k <= |a[i]| && a[i][q] != 0.0
    ensures n < |RowTriplets(a, i, k)| && RowTriplets(a, i, k)[n] == Triplet(i + 1, q + 1, a[i][q])
  {
    var pre := RowTriplets(a, i, k - 1);
    if q < k - 1 {
      n := RowTripletsComplete(a, i, k - 1, q);
      assert RowTriplets(a, i, k)[n] == pre[n];
    } else {
      n := |pre|;
    }
  }

  /** Every triplet names a nonzero entry with its 1-based indices and its value, and the
      triplets are in strict row-major order, so no entry appears twice. */
  lemma {:induction false} TripletsSound(a: Matrix, cols: nat, m: nat)
    requires m <= |a| && forall r :: 0 <= r < |a| ==> |a[r]| == cols
    ensures forall n :: 0 <= n < |MatrixTriplets(a, cols, m)| ==>
      var t := MatrixTriplets(a, cols, m)[n];
      1 <= t.i <= m && 1 <= t.j <= cols && t.v == a[t.i - 1][t.j - 1] && t.v != 0.0
    ensures forall n, n' :: 0 <= n < n' < |MatrixTriplets(a, cols, m)| ==>
      RowMajorBefore(MatrixTriplets(a, cols, m)[n], MatrixTriplets(a, cols, m)[n'])
  {
    if m > 0 {
      TripletsSound(a, cols, m - 1);
      RowTripletsSound(a, m - 1, cols);
      var p, r := MatrixTriplets(a, cols, m - 1), RowTriplets(a, m - 1, cols);
      assert MatrixTriplets(a, cols, m) == p + r;
      forall n, n' | 0 <= n < n' < |p + r|
        ensures RowMajorBefore((p + r)[n], (p + r)[n'])
      {
        if n' < |p| {
          assert (p + r)[n] == p[n] && (p + r)[n'] == p[n'];
        } else if n < |p| {
          assert (p + r)[n] == p[n] && (p + r)[n'] == r[n' - |p|];
        } else {
          assert (p + r)[n] == r[n - |p|] && (p + r)[n'] == r[n' - |p|];
        }
      }
    }
  }

  /** Every nonzero entry in rows 0 ... m - 1 has its triplet, at position n. */
  lemma {:induction false} TripletsComplete(a: Matrix, cols: nat, m: nat, p: nat, q: nat) returns (n: nat)
    requires m <= |a| && forall r :: 0 <= r < |a| ==> |a[r]| == cols
    requires p < m && q < cols && a[p][q] != 0.0
    ensures n < |MatrixTriplets(a, cols, m)| && MatrixTriplets(a, cols, m)[n] == Triplet(p + 1, q + 1, a[p][q])
  {
    var pre, r := MatrixTriplets(a, cols, m - 1), RowTriplets(a, m - 1, cols);
    assert MatrixTriplets(a, cols, m) == pre + r;
    if p < m - 1 {
      n := TripletsComplete(a, cols, m - 1, p, q);
      assert (pre + r)[n] == pre[n];
    } else {
      var k := RowTripletsComplete(a, m - 1, cols, q);
      n := |pre| + k;
      assert (pre + r)[n] == r[k];
    }
  }
}
