/** VIBdata (classes/VIBdata.py): reading a stored analysis back. The rows of each table, in
    the order the SELECT statements return them, are the input here (the sqlite3 connection
    and cursor are not part of this model). Matrices stored as nonzero triplets are rebuilt
    as dense arrays whose size is the largest index among the triplets. */
module StoredData {
  import opened Wrappers
  import opened Vectors
  import opened Structure
  import opened Properties
  import opened Matrices
  import opened StoredRows
  import FrequencyAnalysis

  /** A row of the var table: (id, ldof, nno, nne, ndof). */
  datatype VarRow = VarRow(id: int, ldof: int, nno: int, nne: int, ndof: int)

  /** The stored tables. */
  datatype Tables = Tables(vars: seq<VarRow>, nodes: seq<NodeRow>, conn: seq<ConnRow>, materials: seq<MaterialRow>,
                           bound: seq<(int, int, real)>, springs: seq<(int, int, real)>,
                           mass: seq<Triplet>, stiffness: seq<Triplet>, eigenvalues: seq<OmegaRow>, eigenvectors: seq<Triplet>)

  /** Lines 40-42: SELECT x, y, z FROM node. */
  function FetchNodes(rows: seq<NodeRow>): (x: seq<Vec3>)
    ensures |x| == |rows|
  {
    seq(|rows|, k requires 0 <= k < |rows| => Vec3(rows[k].x, rows[k].y, rows[k].z))
  }

  /** Lines 44-46: SELECT node1, node2, propno FROM connectivity. */
  function FetchConnectivity(rows: seq<ConnRow>): (c: seq<Element>)
    ensures |c| == |rows|
  {
    seq(|rows|, k requires 0 <= k < |rows| => Element(rows[k].node1, rows[k].node2, rows[k].propno))
  }

  /** The record of a material row; its type column fills the 'type' entry. */
  function RowMaterial(r: MaterialRow): Material
  {
    Material(r.e, r.a, r.rho, r.iy, r.iz, r.j, r.g, Some(r.kind))
  }

  /** Lines 48-57: {row[0]: {...} for row in rows}. The comprehension inserts the rows in
      order, so a repeated propno keeps its first place and takes its last record. */
  function FetchMaterials(rows: seq<MaterialRow>): PropTable
  {
    if |rows| == 0 then []
    else Insert(FetchMaterials(rows[..|rows| - 1]), rows[|rows| - 1].propno, RowMaterial(rows[|rows| - 1]))
  }

  /** The record of the last row with this propno. */
  function LastMaterial(rows: seq<MaterialRow>, key: int): Option<Material>
  {
    if |rows| == 0 then None
    else if rows[|rows| - 1].propno == key then Some(RowMaterial(rows[|rows| - 1]))
    else LastMaterial(rows[..|rows| - 1], key)
  }

  /** Lines 59-65: SELECT node, ldof, disp FROM bound, and the same for spring. */
  function FetchNodal(rows: seq<(int, int, real)>): (b: seq<NodalRow>)
    ensures |b| == |rows|
  {
    seq(|rows|, k requires 0 <= k < |rows| => NodalRow(rows[k].0, rows[k].1, rows[k].2))
  }

  /** The ids strictly increase, as SELECT ... ORDER BY id returns distinct ids. */
  predicate OrderedById(rows: seq<OmegaRow>)
  {
    forall k, l :: 0 <= k < l < |rows| ==> rows[k].id < rows[l].id
  }

  /** Lines 89-91: SELECT omega FROM Eigenvalues ORDER BY id, the rows being in that order. */
  function FetchOmega(rows: seq<OmegaRow>): (omega: seq<FrequencyAnalysis.Frequency>)
    requires OrderedById(rows)
    ensures |omega| == |rows|
  {
    seq(|rows|, k requires 0 <= k < |rows| => rows[k].omega)
  }

  /** The value the last triplet with indices (i, j) gives, if any. */
  function LastEntry(rows: seq<Triplet>, i: int, j: int): Option<real>
  {
    if |rows| == 0 then None
    else if rows[|rows| - 1].i == i && rows[|rows| - 1].j == j then Some(rows[|rows| - 1].v)
    else LastEntry(rows[..|rows| - 1], i, j)
  }

  /** Entry (p, q) of the rebuilt array: lil_matrix starts at zero, and each triplet
      overwrites entry (i - 1, j - 1). */
  function Entry(rows: seq<Triplet>, p: int, q: int): real
  {
    match LastEntry(rows, p + 1, q + 1) {
      case Some(v) => v
      case None => 0.0
    }
  }

  function Max(a: int, b: int): int
  {
    if a >= b then a else b
  }

  /** max(max(i, j) for i, j, _ in rows); Python's max has no value for no rows. */
  function MaxIndex(rows: seq<Triplet>): int
    requires |rows| >= 1
  {
    if |rows| == 1 then Max(rows[0].i, rows[0].j)
    else Max(MaxIndex(rows[..|rows| - 1]), Max(rows[|rows| - 1].i, rows[|rows| - 1].j))
  }

  /** max(i for i, _, _ in rows). */
  function MaxI(rows: seq<Triplet>): int
    requires |rows| >= 1
  {
    if |rows| == 1 then rows[0].i else Max(MaxI(rows[..|rows| - 1]), rows[|rows| - 1].i)
  }

  /** max(j for _, j, _ in rows). */
  function MaxJ(rows: seq<Triplet>): int
    requires |rows| >= 1
  {
    if |rows| == 1 then rows[0].j else Max(MaxJ(rows[..|rows| - 1]), rows[|rows| - 1].j)
  }

  /** Indices counted from 1, so that i - 1 and j - 1 are array positions. */
  predicate OneBased(rows: seq<Triplet>)
  {
    forall k :: 0 <= k < |rows| ==> rows[k].i >= 1 && rows[k].j >= 1
  }

  /** The largest index bounds every index and is the index of some triplet. */
  lemma {:induction false} MaxIndexBounds(rows: seq<Triplet>) returns (w: nat)
    requires |rows| >= 1
    ensures forall k :: 0 <= k < |rows| ==> rows[k].i <= MaxIndex(rows) && rows[k].j <= MaxIndex(rows)
    ensures w < |rows| && MaxIndex(rows) == Max(rows[w].i, rows[w].j)
  {
    if |rows| == 1 {
      w := 0;
    } else {
      var pre := rows[..|rows| - 1];
      w := MaxIndexBounds(pre);
      assert forall k :: 0 <= k < |pre| ==> pre[k] == rows[k];
      if MaxIndex(rows) != MaxIndex(pre) {
        w := |rows| - 1;
      }
    }
  }

  lemma {:induction false} MaxIBounds(rows: seq<Triplet>) returns (w: nat)
    requires |rows| >= 1
    ensures forall k :: 0 <= k < |rows| ==> rows[k].i <= MaxI(rows)
    ensures w < |rows| && MaxI(rows) == rows[w].i
  {
    if |rows| == 1 {
      w := 0;
    } else {
      var pre := rows[..|rows| - 1];
      w := MaxIBounds(pre);
      assert forall k :: 0 <= k < |pre| ==> pre[k] == rows[k];
      if MaxI(rows) != MaxI(pre) {
        w := |rows| - 1;
      }
    }
  }

  lemma {:induction false} MaxJBounds(rows: seq<Triplet>) returns (w: nat)
    requires |rows| >= 1
    ensures forall k :: 0 <= k < |rows| ==> rows[k].j <= MaxJ(rows)
    ensures w < |rows| && MaxJ(rows) == rows[w].j
  {
    if |rows| == 1 {
      w := 0;
    } else {
      var pre := rows[..|rows| - 1];
      w := MaxJBounds(pre);
      assert forall k :: 0 <= k < |pre| ==> pre[k] == rows[k];
      if MaxJ(rows) != MaxJ(pre) {
        w := |rows| - 1;
      }
    }
  }

  /** The square size is the larger of the row and column sizes. */
  lemma {:induction false} MaxIndexSplit(rows: seq<Triplet>)
    requires |rows| >= 1
    ensures MaxIndex(rows) == Max(MaxI(rows), MaxJ(rows))
  {
    if |rows| > 1 {
      MaxIndexSplit(rows[..|rows| - 1]);
    }
  }

  /** Lines 71-78 (_fetch_Mass) and 80-87 (_fetch_Stiffness, the same code): a size x size
      array, size the largest index, holding the last value given to each entry. */
  method FetchSquare(rows: seq<Triplet>) returns (m: array2<real>)
    requires |rows| >= 1 && OneBased(rows)
    ensures fresh(m) && m.Length0 == MaxIndex(rows) && m.Length1 == MaxIndex(rows)
    ensures forall p, q :: 0 <= p < m.Length0 && 0 <= q < m.Length1 ==> m[p, q] == Entry(rows, p, q)
  {
    var size := Max(rows[0].i, rows[0].j);
    for k := 1 to |rows|
      invariant size == MaxIndex(rows[..k])
    {
      assert rows[..k + 1][..k] == rows[..k];
      size := Max(size, Max(rows[k].i, rows[k].j));
    }
    assert rows[..|rows|] == rows;
    ghost var w := MaxIndexBounds(rows);
    m := new real[size, size]((_, _) => 0.0);
    for k := 0 to |rows|
      invariant forall p, q :: 0 <= p < size && 0 <= q < size ==> m[p, q] == Entry(rows[..k], p, q)
    {
      assert rows[..k + 1][..k] == rows[..k];
      m[rows[k].i - 1, rows[k].j - 1] := rows[k].v;
    }
    assert rows[..|rows|] == rows;
  }

  /** Lines 93-101: a max_i x max_j array, the rows and columns sized separately. */
  method FetchRect(rows: seq<Triplet>) returns (u: array2<real>)
    requires |rows| >= 1 && OneBased(rows)
    ensures fresh(u) && u.Length0 == MaxI(rows) && u.Length1 == MaxJ(rows)
    ensures forall p, q :: 0 <= p < u.Length0 && 0 <= q < u.Length1 ==> u[p, q] == Entry(rows, p, q)
  {
    var maxI := rows[0].i;
    var maxJ := rows[0].j;
    for k := 1 to |rows|
      invariant maxI == MaxI(rows[..k]) && maxJ == MaxJ(rows[..k])
    {
      assert rows[..k + 1][..k] == rows[..k];
      maxI := Max(maxI, rows[k].i);
      maxJ := Max(maxJ, rows[k].j);
    }
    assert rows[..|rows|] == rows;
    ghost var wi := MaxIBounds(rows);
    ghost var wj := MaxJBounds(rows);
    u := new real[maxI, maxJ]((_, _) => 0.0);
    for k := 0 to |rows|
      invariant forall p, q :: 0 <= p < maxI && 0 <= q < maxJ ==> u[p, q] == Entry(rows[..k], p, q)
    {
      assert rows[..k + 1][..k] == rows[..k];
      u[rows[k].i - 1, rows[k].j - 1] := rows[k].v;
    }
    assert rows[..|rows|] == rows;
  }

  /** The triplet at k gives the entry when no later triplet has the same indices. */
  lemma {:induction false} LastEntryAt(rows: seq<Triplet>, k: nat, i: int, j: int)
    requires k < |rows| && rows[k].i == i && rows[k].j == j
    requires forall l :: k < l < |rows| ==> rows[l].i != i || rows[l].j != j
    ensures LastEntry(rows, i, j) == Some(rows[k].v)
  {
    if k < |rows| - 1 {
      var pre := rows[..|rows| - 1];
      assert forall l :: 0 <= l < |pre| ==> pre[l] == rows[l];
      LastEntryAt(pre, k, i, j);
    }
  }

  /** No triplet with these indices gives no entry. */
  lemma {:induction false} LastEntryAbsent(rows: seq<Triplet>, i: int, j: int)
    requires forall l :: 0 <= l < |rows| ==> rows[l].i != i || rows[l].j != j
    ensures LastEntry(rows, i, j).None?
  {
    if |rows| > 0 {
      var pre := rows[..|rows| - 1];
      assert forall l :: 0 <= l < |pre| ==> pre[l] == rows[l];
      LastEntryAbsent(pre, i, j);
    }
  }

  /** The triplets of rows 0 ... m - 1 give each nonzero entry of those rows, and nothing
      else. */
  lemma MatrixLastEntry(a: Matrix, cols: nat, m: nat, p: nat, q: nat)
    requires m <= |a| && forall r :: 0 <= r < |a| ==> |a[r]| == cols
    ensures LastEntry(MatrixTriplets(a, cols, m), p + 1, q + 1) == if p < m && q < cols && a[p][q] != 0.0 then Some(a[p][q]) else None
  {
    var t := MatrixTriplets(a, cols, m);
    TripletsSound(a, cols, m);
    if p < m && q < cols && a[p][q] != 0.0 {
      var n := TripletsComplete(a, cols, m, p, q);
      assert forall l :: n < l < |t| ==> RowMajorBefore(t[n], t[l]);
      LastEntryAt(t, n, p + 1, q + 1);
    } else {
      LastEntryAbsent(t, p + 1, q + 1);
    }
  }

  /** Row p has a nonzero entry among columns 0 ... c - 1. */
  predicate RowNonzero(a: Matrix, p: nat, c: nat)
    requires p < |a| && c <= |a[p]|
  {
    exists q :: 0 <= q < c && a[p][q] != 0.0
  }

  /** Column q has a nonzero entry among rows 0 ... r - 1. */
  predicate ColumnNonzero(a: Matrix, q: nat, r: nat)
    requires r <= |a| && forall p :: 0 <= p < r ==> q < |a[p]|
  {
    exists p :: 0 <= p < r && a[p][q] != 0.0
  }

  /** Rebuilding from baseinsert's triplets of an r x c matrix that has a nonzero entry:
      every entry is recovered, the rebuilt array is max_i x max_j with max_i <= r and
      max_j <= c, every entry outside it is zero, and it keeps all r rows exactly when the
      last row has a nonzero entry (all c columns when the last column has one). */
  lemma RoundTripRect(a: Matrix, r: nat, c: nat)
    requires IsMatrix(a, r, c) && |Triplets(a, r, c)| >= 1
    ensures OneBased(Triplets(a, r, c))
    ensures forall p, q :: 0 <= p < r && 0 <= q < c ==> Entry(Triplets(a, r, c), p, q) == a[p][q]
    ensures 1 <= MaxI(Triplets(a, r, c)) <= r && 1 <= MaxJ(Triplets(a, r, c)) <= c
    ensures forall p, q :: 0 <= p < r && 0 <= q < c && (p >= MaxI(Triplets(a, r, c)) || q >= MaxJ(Triplets(a, r, c))) ==> a[p][q] == 0.0
    ensures MaxI(Triplets(a, r, c)) == r <==> RowNonzero(a, r - 1, c)
    ensures MaxJ(Triplets(a, r, c)) == c <==> ColumnNonzero(a, c - 1, r)
  {
    var t := Triplets(a, r, c);
    TripletsSound(a, c, r);
    var wi := MaxIBounds(t);
    var wj := MaxJBounds(t);
    forall p, q | 0 <= p < r && 0 <= q < c
      ensures Entry(t, p, q) == a[p][q]
    {
      MatrixLastEntry(a, c, r, p, q);
    }
    forall p, q | 0 <= p < r && 0 <= q < c && a[p][q] != 0.0
      ensures p < MaxI(t) && q < MaxJ(t)
    {
      var n := TripletsComplete(a, c, r, p, q);
    }
    if MaxI(t) == r {
      assert a[r - 1][t[wi].j - 1] != 0.0;
    }
    if MaxJ(t) == c {
      assert a[t[wj].i - 1][c - 1] != 0.0;
    }
  }

  /** The square case (M and K): the rebuilt s x s array has s = max(max_i, max_j), every
      entry is recovered, entries outside s x s are zero, and s = n exactly when the last
      row or the last column has a nonzero entry; otherwise trailing zero rows and columns
      are dropped. */
  lemma RoundTripSquare(a: Matrix, n: nat)
    requires IsMatrix(a, n, n) && |Triplets(a, n, n)| >= 1
    ensures OneBased(Triplets(a, n, n))
    ensures forall p, q :: 0 <= p < n && 0 <= q < n ==> Entry(Triplets(a, n, n), p, q) == a[p][q]
    ensures 1 <= MaxIndex(Triplets(a, n, n)) <= n
    ensures forall p, q :: 0 <= p < n && 0 <= q < n && (p >= MaxIndex(Triplets(a, n, n)) || q >= MaxIndex(Triplets(a, n, n))) ==> a[p][q] == 0.0
    ensures MaxIndex(Triplets(a, n, n)) == n <==> RowNonzero(a, n - 1, n) || ColumnNonzero(a, n - 1, n)
  {
    RoundTripRect(a, n, n);
    MaxIndexSplit(Triplets(a, n, n));
  }

  /** baseinsert stores no triplet exactly when the matrix is zero, and then the size is
      undefined (max of nothing). */
  lemma TripletsEmpty(a: Matrix, r: nat, c: nat)
    requires IsMatrix(a, r, c)
    ensures |Triplets(a, r, c)| == 0 <==> forall p, q :: 0 <= p < r && 0 <= q < c ==> a[p][q] == 0.0
  {
    TripletsSound(a, c, r);
    forall p, q | 0 <= p < r && 0 <= q < c && a[p][q] != 0.0
      ensures |Triplets(a, r, c)| > 0
    {
      var n := TripletsComplete(a, c, r, p, q);
    }
    if |Triplets(a, r, c)| > 0 {
      var t := Triplets(a, r, c)[0];
      assert a[t.i - 1][t.j - 1] != 0.0;
    }
  }

  /** The node rows read back are X. */
  lemma NodesRoundTrip(x: seq<Vec3>)
    ensures FetchNodes(NodeRows(x)) == x
  {
  }

  /** The connectivity rows read back are C. */
  lemma ConnectivityRoundTrip(c: seq<Element>)
    ensures FetchConnectivity(ConnRows(c)) == c
  {
  }

  /** The bound and spring rows read back are the input rows. */
  lemma NodalRoundTrip(b: seq<NodalRow>)
    ensures FetchNodal(NodalRows(b)) == b
  {
  }

  /** The eigenvalue rows have increasing ids 1, 2, ..., so ORDER BY id returns them as
      stored, and read back they are omega. */
  lemma OmegaRoundTrip(omega: seq<FrequencyAnalysis.Frequency>)
    ensures OrderedById(OmegaRows(omega))
    ensures FetchOmega(OmegaRows(omega)) == omega
  {
  }

  /** A propno read back gives the record of its last row; a propno of no row is missing. */
  lemma {:induction false} FetchMaterialsLookup(rows: seq<MaterialRow>, key: int)
    ensures Lookup(FetchMaterials(rows), key) == LastMaterial(rows, key)
  {
    if |rows| > 0 {
      FetchMaterialsLookup(rows[..|rows| - 1], key);
    }
  }

  /** The material rows of a dict whose records all have a 'type' read back as that dict,
      in the same order. */
  lemma {:induction false} MaterialsRoundTrip(t: PropTable)
    requires AllTyped(t) && DistinctKeys(t)
    ensures FetchMaterials(MaterialRows(t)) == t
  {
    if |t| > 0 {
      var pre := t[..|t| - 1];
      MaterialRowsLast(t);
      MaterialsRoundTrip(pre);
      FetchNewKey(MaterialRows(t), pre, t);
    }
  }

  /** A last row whose propno is new goes to the end. */
  lemma FetchNewKey(rows: seq<MaterialRow>, pre: PropTable, t: PropTable)
    requires |rows| > 0 && FetchMaterials(rows[..|rows| - 1]) == pre
    requires forall i :: 0 <= i < |pre| ==> pre[i].0 != rows[|rows| - 1].propno
    requires t == pre + [(rows[|rows| - 1].propno, RowMaterial(rows[|rows| - 1]))]
    ensures FetchMaterials(rows) == t
  {
  }

  /** The rows of all but the last item, and the last row read back as the last record. */
  lemma MaterialRowsLast(t: PropTable)
    requires AllTyped(t) && DistinctKeys(t) && |t| > 0
    ensures AllTyped(t[..|t| - 1]) && DistinctKeys(t[..|t| - 1])
    ensures forall i :: 0 <= i < |t| - 1 ==> t[i].0 != t[|t| - 1].0
    ensures t == t[..|t| - 1] + [(MaterialRows(t)[|t| - 1].propno, RowMaterial(MaterialRows(t)[|t| - 1]))]
    ensures MaterialRows(t)[..|t| - 1] == MaterialRows(t[..|t| - 1])
    ensures RowMaterial(MaterialRows(t)[|t| - 1]) == t[|t| - 1].1
  {
  }

  /** VIBdata(name): the fields read from the tables. */
  class StoredModel {
    var x: seq<Vec3>
    var c: seq<Element>
    var mprop: PropTable
    var bound: seq<NodalRow>
    var springs: seq<NodalRow>
    var ldof: int
    var nno: int
    var nne: int
    var ndof: int
    var mmat: array2<real>
    var kmat: array2<real>
    var omega: seq<FrequencyAnalysis.Frequency>
    var u: array2<real>

    /** Lines 7-38. fetchone needs a var row, the matrix tables a row each for max, and
        their indices are counted from 1. */
    constructor (db: Tables)
      requires |db.vars| >= 1 && OrderedById(db.eigenvalues)
      requires |db.mass| >= 1 && OneBased(db.mass)
      requires |db.stiffness| >= 1 && OneBased(db.stiffness)
      requires |db.eigenvectors| >= 1 && OneBased(db.eigenvectors)
      ensures x == FetchNodes(db.nodes) && c == FetchConnectivity(db.conn) && mprop == FetchMaterials(db.materials)
      ensures bound == FetchNodal(db.bound) && springs == FetchNodal(db.springs)
      ensures ldof == db.vars[0].ldof && nno == db.vars[0].nno && nne == db.vars[0].nne && ndof == db.vars[0].ndof
      ensures fresh(mmat) && mmat.Length0 == mmat.Length1 == MaxIndex(db.mass)
      ensures forall p, q :: 0 <= p < mmat.Length0 && 0 <= q < mmat.Length1 ==> mmat[p, q] == Entry(db.mass, p, q)
      ensures fresh(kmat) && kmat.Length0 == kmat.Length1 == MaxIndex(db.stiffness)
      ensures forall p, q :: 0 <= p < kmat.Length0 && 0 <= q < kmat.Length1 ==> kmat[p, q] == Entry(db.stiffness, p, q)
      ensures omega == FetchOmega(db.eigenvalues)
      ensures fresh(u) && u.Length0 == MaxI(db.eigenvectors) && u.Length1 == MaxJ(db.eigenvectors)
      ensures forall p, q :: 0 <= p < u.Length0 && 0 <= q < u.Length1 ==> u[p, q] == Entry(db.eigenvectors, p, q)
    {
      x := FetchNodes(db.nodes);
      c := FetchConnectivity(db.conn);
      mprop := FetchMaterials(db.materials);
      bound := FetchNodal(db.bound);
      springs := FetchNodal(db.springs);
      var v := db.vars[0];
      ldof, nno, nne, ndof := v.ldof, v.nno, v.nne, v.ndof;
      var mArr := FetchSquare(db.mass);
      var kArr := FetchSquare(db.stiffness);
      var uArr := FetchRect(db.eigenvectors);
      mmat, kmat, u := mArr, kArr, uArr;
      omega := FetchOmega(db.eigenvalues);
    }
  }
}
