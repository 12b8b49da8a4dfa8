/** NFA (functions/Mmat/NFA.py): the natural frequency analysis. The degrees of freedom
    named by bound are removed from K and M, the generalised eigenproblem K u = D M u of
    what remains is solved, the frequencies are the square roots of the eigenvalues, and
    each mode column is divided by its largest absolute entry. The eigensolver
    scipy.linalg.eigh and the square root are parameters of the model. */
module FrequencyAnalysis {
  import opened Wrappers
  import opened Vectors
  import opened Matrices
  import opened Structure

  /** subset_by_index = [lo, hi]. */
  datatype Subset = Subset(lo: int, hi: int)

  /** An entry of np.sqrt(D).real: the square root of a non-negative eigenvalue, or the NaN
      that np.sqrt gives for a negative one. */
  datatype Frequency = Real(value: real) | NaN

  /** linalg.eigh(K, M, subset_by_index): eigenvalues D and eigenvector columns U. */
  type Eigensolver = (Matrix, Matrix, Option<Subset>) -> (seq<real>, Matrix)

  /** For each of the |d| columns j of u, K u_j = d[j] M u_j. */
  ghost predicate Eigenpairs(a: Matrix, b: Matrix, d: seq<real>, u: Matrix)
    requires IsSquare(a, |a|) && IsSquare(b, |a|)
  {
    && |d| <= |a|
    && IsMatrix(u, |a|, |d|)
    && forall i, j :: 0 <= i < |a| && 0 <= j < |d| ==> ProductEntry(a, u, |a|, i, j) == d[j] * ProductEntry(b, u, |a|, i, j)
  }

  /** What the model needs of eigh: at most n eigenpairs of an n x n problem. */
  ghost predicate IsEigensolver(eigh: Eigensolver)
  {
    forall a, b, s :: IsSquare(a, |a|) && IsSquare(b, |a|) ==> Eigenpairs(a, b, eigh(a, b, s).0, eigh(a, b, s).1)
  }

  /** du: the index (node - 1) ldof + d - 1 of each bound row; the prescribed value is not read. */
  function ConstrainedDofs(bound: seq<NodalRow>, ldof: int): (du: seq<int>)
    ensures |du| == |bound| && forall i :: 0 <= i < |bound| ==> du[i] == RowIndex(bound[i], ldof)
  {
    seq(|bound|, i requires 0 <= i < |bound| => RowIndex(bound[i], ldof))
  }

  /** df = list(set(range(n)) - set(du)), in increasing order (the order CPython lists a
      set of small non-negative integers in). */
  function FreeDofs(n: nat, du: seq<int>): (df: seq<int>)
    ensures forall k :: 0 <= k < |df| ==> 0 <= df[k] < n
    ensures forall i, j :: 0 <= i < j < |df| ==> df[i] < df[j]
  {
    if n == 0 then [] else FreeDofs(n - 1, du) + (if n - 1 in du then [] else [n - 1])
  }

  /** df holds exactly the indices below n that du does not name. */
  lemma {:induction false} FreeDofsMembers(n: nat, du: seq<int>, p: int)
    ensures p in FreeDofs(n, du) <==> 0 <= p < n && p !in du
  {
    if n > 0 {
      FreeDofsMembers(n - 1, du, p);
    }
  }

  /** df has no repeated index. */
  lemma FreeDofsDistinct(n: nat, du: seq<int>)
    ensures Distinct(FreeDofs(n, du))
  {
    var df := FreeDofs(n, du);
    forall i, j | 0 <= i < |df| && 0 <= j < |df| && i != j
      ensures df[i] != df[j]
    {
      if i < j {
        assert df[i] < df[j];
      } else {
        assert df[j] < df[i];
      }
    }
  }

  /** Only the set of constrained indices matters: repeated bound rows collapse. */
  lemma {:induction false} FreeDofsSetOnly(n: nat, du1: seq<int>, du2: seq<int>)
    requires forall p :: p in du1 <==> p in du2
    ensures FreeDofs(n, du1) == FreeDofs(n, du2)
  {
    if n > 0 {
      FreeDofsSetOnly(n - 1, du1, du2);
    }
  }

  /** With no constrained index in range, every index is free. */
  lemma {:induction false} FreeDofsAll(n: nat, du: seq<int>)
    requires forall p :: 0 <= p < n ==> p !in du
    ensures FreeDofs(n, du) == seq(n, p => p)
  {
    if n > 0 {
      FreeDofsAll(n - 1, du);
      assert seq(n - 1, p => p) + [n - 1] == seq(n, p => p);
    }
  }

  /** The entries of an array as a matrix. */
  function Cells(a: array2<real>): (r: Matrix)
    reads a
    ensures IsMatrix(r, a.Length0, a.Length1)
    ensures forall i, j :: 0 <= i < a.Length0 && 0 <= j < a.Length1 ==> r[i][j] == a[i, j]
  {
    seq(a.Length0, i requires 0 <= i < a.Length0 reads a => seq(a.Length1, j requires 0 <= j < a.Length1 reads a => a[i, j]))
  }

  /** a[np.ix_(df, df)]: the same index list on rows and columns. */
  function Restrict(a: array2<real>, df: seq<int>): (r: Matrix)
    reads a
    requires forall k :: 0 <= k < |df| ==> 0 <= df[k] < a.Length0 && 0 <= df[k] < a.Length1
    ensures IsSquare(r, |df|)
    ensures forall i, j :: 0 <= i < |df| && 0 <= j < |df| ==> r[i][j] == a[df[i], df[j]]
  {
    seq(|df|, i requires 0 <= i < |df| reads a => seq(|df|, j requires 0 <= j < |df| reads a => a[df[i], df[j]]))
  }

  /** The shortcut for an all-zero bound changes nothing: restricting to every index is the
      whole matrix. */
  lemma RestrictAll(a: array2<real>, n: nat)
    requires a.Length0 == n && a.Length1 == n
    ensures Restrict(a, seq(n, p => p)) == Cells(a)
  {
    var all := seq(n, p => p);
    var r, c := Restrict(a, all), Cells(a);
    forall i | 0 <= i < n
      ensures r[i] == c[i]
    {
      assert forall j :: 0 <= j < n ==> r[i][j] == c[i][j];
    }
  }

  /** The matrices handed to eigh: restricted to df when bound has a nonzero entry. */
  function Problem(k: array2<real>, m: array2<real>, n: nat, ldof: int, bound: seq<NodalRow>): (r: (Matrix, Matrix))
    reads k, m
    requires k.Length0 == n && k.Length1 == n && m.Length0 == n && m.Length1 == n
    ensures IsSquare(r.0, |r.0|) && IsSquare(r.1, |r.0|)
  {
    if AnyNonzero(bound) then
      var df := FreeDofs(n, ConstrainedDofs(bound, ldof));
      (Restrict(k, df), Restrict(m, df))
    else
      (Cells(k), Cells(m))
  }

  /** When no bound row names an index of the model, both branches of NFA hand eigh the
      same matrices. */
  lemma ProblemShortcut(k: array2<real>, m: array2<real>, n: nat, ldof: int, bound: seq<NodalRow>)
    requires k.Length0 == n && k.Length1 == n && m.Length0 == n && m.Length1 == n
    requires forall i :: 0 <= i < |bound| ==> !(0 <= RowIndex(bound[i], ldof) < n)
    ensures Problem(k, m, n, ldof, bound) == (Cells(k), Cells(m))
  {
    var du := ConstrainedDofs(bound, ldof);
    FreeDofsAll(n, du);
    RestrictAll(k, n);
    RestrictAll(m, n);
  }

  /** omega = np.sqrt(D).real. */
  function Omega(d: seq<real>, sqrt: real -> real): (omega: seq<Frequency>)
    ensures |omega| == |d|
    ensures forall i :: 0 <= i < |d| ==> (omega[i].Real? <==> d[i] >= 0.0)
  {
    seq(|d|, i requires 0 <= i < |d| => if d[i] >= 0.0 then Real(sqrt(d[i])) else NaN)
  }

  /** A frequency is the non-negative number whose square is its eigenvalue. */
  lemma OmegaSquares(d: seq<real>, sqrt: real -> real, i: nat)
    requires IsSqrt(sqrt) && i < |d| && d[i] >= 0.0
    ensures Omega(d, sqrt)[i].value >= 0.0 && Omega(d, sqrt)[i].value * Omega(d, sqrt)[i].value == d[i]
  {
  }

  function Max(a: real, b: real): real
  {
    if a >= b then a else b
  }

  /** np.max(np.abs(U[:n, j])), with 0 for an empty column. */
  function MaxAbs(u: Matrix, n: nat, j: int): (mx: real)
    ensures mx >= 0.0
    ensures forall r :: 0 <= r < n ==> AbsReal(At(u, r, j)) <= mx
  {
    if n == 0 then 0.0 else Max(MaxAbs(u, n - 1, j), AbsReal(At(u, n - 1, j)))
  }

  /** The largest absolute entry is the absolute value of some entry. */
  lemma {:induction false} MaxAbsAttained(u: Matrix, n: nat, j: int) returns (r: nat)
    requires n > 0
    ensures r < n && AbsReal(At(u, r, j)) == MaxAbs(u, n, j)
  {
    if n == 1 || MaxAbs(u, n - 1, j) < AbsReal(At(u, n - 1, j)) {
      r := n - 1;
    } else {
      r := MaxAbsAttained(u, n - 1, j);
    }
  }

  /** A bound on the absolute entries that one of them reaches is the maximum. */
  lemma MaxAbsExact(u: Matrix, n: nat, j: int, x: real, r: nat)
    requires r < n && AbsReal(At(u, r, j)) == x
    requires forall s :: 0 <= s < n ==> AbsReal(At(u, s, j)) <= x
    ensures MaxAbs(u, n, j) == x
  {
    var t := MaxAbsAttained(u, n, j);
  }

  /** The maximum is zero exactly for an all-zero column. */
  lemma MaxAbsZero(u: Matrix, n: nat, j: int)
    ensures MaxAbs(u, n, j) == 0.0 <==> forall r :: 0 <= r < n ==> At(u, r, j) == 0.0
  {
    if n > 0 && MaxAbs(u, n, j) == 0.0 {
      forall r | 0 <= r < n
        ensures At(u, r, j) == 0.0
      {
        assert AbsReal(At(u, r, j)) <= 0.0;
      }
    }
    if n > 0 && forall r :: 0 <= r < n ==> At(u, r, j) == 0.0 {
      var t := MaxAbsAttained(u, n, j);
    }
  }

  /** Entry (r, j) after the loop: U[:, j] /= max_disp when max_disp != 0. */
  function NormalisedEntry(u: Matrix, n: nat, r: int, j: int): real
  {
    var mx := MaxAbs(u, n, j);
    if mx != 0.0 then At(u, r, j) / mx else At(u, r, j)
  }

  /** U after the normalisation loop, for an n x c matrix. */
  function Normalised(u: Matrix, n: nat, c: nat): (v: Matrix)
    ensures IsMatrix(v, n, c)
    ensures forall r, j :: 0 <= r < n && 0 <= j < c ==> v[r][j] == NormalisedEntry(u, n, r, j)
  {
    seq(n, r requires 0 <= r < n => seq(c, j requires 0 <= j < c => NormalisedEntry(u, n, r, j)))
  }

  /** The factor column j is multiplied by. */
  function ColumnFactor(u: Matrix, n: nat, j: int): real
  {
    var mx := MaxAbs(u, n, j);
    if mx != 0.0 then 1.0 / mx else 1.0
  }

  lemma NormalisedScales(u: Matrix, n: nat, c: nat, r: int, j: int)
    requires 0 <= r < n && 0 <= j < c
    ensures At(Normalised(u, n, c), r, j) == ColumnFactor(u, n, j) * At(u, r, j)
  {
    var mx := MaxAbs(u, n, j);
    if mx != 0.0 {
      assert At(u, r, j) / mx == (1.0 / mx) * At(u, r, j);
    }
  }

  /** After the loop a nonzero column has largest absolute entry 1, reached at +1 or -1;
      the mode is normalised to a maximum displacement of magnitude 1, not of sign +1. */
  lemma NormalisedPeak(u: Matrix, n: nat, c: nat, j: nat)
    requires n > 0 && j < c && MaxAbs(u, n, j) != 0.0
    ensures MaxAbs(Normalised(u, n, c), n, j) == 1.0
    ensures exists r :: 0 <= r < n && (Normalised(u, n, c)[r][j] == 1.0 || Normalised(u, n, c)[r][j] == -1.0)
  {
    var v := Normalised(u, n, c);
    var mx := MaxAbs(u, n, j);
    var t := MaxAbsAttained(u, n, j);
    forall s | 0 <= s < n
      ensures AbsReal(At(v, s, j)) <= 1.0
    {
      assert AbsReal(At(u, s, j)) <= mx;
      AbsQuotient(At(u, s, j), mx);
    }
    AbsQuotient(At(u, t, j), mx);
    MaxAbsExact(v, n, j, 1.0, t);
    assert v[t][j] == 1.0 || v[t][j] == -1.0;
  }

  lemma AbsQuotient(x: real, m: real)
    requires m > 0.0
    ensures AbsReal(x / m) == AbsReal(x) / m
    ensures AbsReal(x) <= m ==> AbsReal(x / m) <= 1.0
    ensures AbsReal(x) == m ==> AbsReal(x / m) == 1.0
  {
    if x < 0.0 {
      assert x / m < 0.0;
      assert AbsReal(x / m) == -(x / m) == (-x) / m;
    } else {
      assert x / m >= 0.0;
    }
  }

  /** An all-zero column is left unchanged. */
  lemma NormalisedZeroColumn(u: Matrix, n: nat, c: nat, j: nat)
    requires j < c && forall r :: 0 <= r < n ==> At(u, r, j) == 0.0
    ensures forall r :: 0 <= r < n ==> Normalised(u, n, c)[r][j] == 0.0
  {
    MaxAbsZero(u, n, j);
  }

  /** Column j of the normalised matrix is column j of u times its factor. */
  lemma NormalisedColumn(u: Matrix, n: nat, c: nat, j: nat)
    requires j < c
    ensures ColumnScaledBy(Normalised(u, n, c), u, n, j, ColumnFactor(u, n, j))
  {
    forall k | 0 <= k < n
      ensures At(Normalised(u, n, c), k, j) == ColumnFactor(u, n, j) * At(u, k, j)
    {
      NormalisedScales(u, n, c, k, j);
    }
  }

  /** Scaling column j of the right factor scales column j of the product. */
  /** Column j of w is f times column j of u on its first m rows. */
  predicate ColumnScaledBy(w: Matrix, u: Matrix, m: nat, j: int, f: real)
  {
    forall k :: 0 <= k < m ==> At(w, k, j) == f * At(u, k, j)
  }

  lemma {:induction false} ProductColumnScale(a: Matrix, u: Matrix, w: Matrix, m: nat, i: int, j: int, f: real)
    requires ColumnScaledBy(w, u, m, j, f)
    ensures ProductEntry(a, w, m, i, j) == f * ProductEntry(a, u, m, i, j)
  {
    if m > 0 {
      ProductColumnScale(a, u, w, m - 1, i, j, f);
      var x, y := At(a, i, m - 1), At(u, m - 1, j);
      assert x * (f * y) == f * (x * y);
    }
  }

  /** A scaled eigenvector is an eigenvector for the same eigenvalue. */
  lemma ScaledEigenpair(pa: real, pb: real, qa: real, qb: real, f: real, dj: real)
    requires qa == f * pa && qb == f * pb && pa == dj * pb
    ensures qa == dj * qb
  {
    assert f * (dj * pb) == dj * (f * pb);
  }

  /** Scaling each column of the eigenvectors keeps them eigenvectors. */
  lemma ScaledEigenpairs(a: Matrix, b: Matrix, d: seq<real>, u: Matrix, w: Matrix, fs: seq<real>)
    requires IsSquare(a, |a|) && IsSquare(b, |a|) && Eigenpairs(a, b, d, u)
    requires IsMatrix(w, |a|, |d|) && |fs| == |d|
    requires forall j :: 0 <= j < |d| ==> ColumnScaledBy(w, u, |a|, j, fs[j])
    ensures Eigenpairs(a, b, d, w)
  {
    forall i, j | 0 <= i < |a| && 0 <= j < |d|
      ensures ProductEntry(a, w, |a|, i, j) == d[j] * ProductEntry(b, w, |a|, i, j)
    {
      ProductColumnScale(a, u, w, |a|, i, j, fs[j]);
      ProductColumnScale(b, u, w, |a|, i, j, fs[j]);
      ScaledEigenpair(ProductEntry(a, u, |a|, i, j), ProductEntry(b, u, |a|, i, j),
                      ProductEntry(a, w, |a|, i, j), ProductEntry(b, w, |a|, i, j), fs[j], d[j]);
    }
  }

  /** Normalised modes are still eigenvectors for the same eigenvalues. */
  lemma NormalisedEigenpairs(a: Matrix, b: Matrix, d: seq<real>, u: Matrix)
    requires IsSquare(a, |a|) && IsSquare(b, |a|) && Eigenpairs(a, b, d, u)
    ensures Eigenpairs(a, b, d, Normalised(u, |a|, |d|))
  {
    var n := |a|;
    var fs := seq(|d|, j => ColumnFactor(u, n, j));
    forall j | 0 <= j < |d|
      ensures ColumnScaledBy(Normalised(u, n, |d|), u, n, j, fs[j])
    {
      NormalisedColumn(u, n, |d|, j);
    }
    ScaledEigenpairs(a, b, d, u, Normalised(u, n, |d|), fs);
  }

  /** Whatever eigh returns for the matrices NFA hands it, the normalised modes NFA
      returns are eigenvectors of that problem for the returned eigenvalues. */
  lemma NFAEigenpairs(k: array2<real>, m: array2<real>, n: nat, ldof: int, bound: seq<NodalRow>, subset: Option<Subset>, eigh: Eigensolver)
    requires k.Length0 == n && k.Length1 == n && m.Length0 == n && m.Length1 == n
    requires IsEigensolver(eigh)
    ensures var p := Problem(k, m, n, ldof, bound);
            var e := eigh(p.0, p.1, subset);
            Eigenpairs(p.0, p.1, e.0, Normalised(e.1, |p.0|, |e.0|))
  {
    var p := Problem(k, m, n, ldof, bound);
    var e := eigh(p.0, p.1, subset);
    assert Eigenpairs(p.0, p.1, e.0, e.1);
    NormalisedEigenpairs(p.0, p.1, e.0, e.1);
  }

  /** max_disp = np.max(np.abs(U[:, j])) for a column the loop has not touched yet. */
  method ColumnMaxAbs(u: array2<real>, j: nat, ghost u0: Matrix) returns (mx: real)
    requires j < u.Length1
    requires forall r :: 0 <= r < u.Length0 ==> At(u0, r, j) == u[r, j]
    ensures mx == MaxAbs(u0, u.Length0, j)
  {
    mx := 0.0;
    for r := 0 to u.Length0
      invariant mx == MaxAbs(u0, r, j)
    {
      mx := Max(mx, AbsReal(u[r, j]));
    }
  }

  /** The loop of lines 48-51, dividing the columns of U in place. A column of an empty U
      would make np.max fail, so a U with columns has rows. */
  method NormaliseColumns(u: array2<real>)
    requires u.Length0 > 0 || u.Length1 == 0
    modifies u
    ensures Cells(u) == Normalised(old(Cells(u)), u.Length0, u.Length1)
  {
    ghost var u0 := Cells(u);
    var n := u.Length0;
    for j := 0 to u.Length1
      invariant forall r, i :: 0 <= r < n && 0 <= i < u.Length1 ==> u[r, i] == if i < j then NormalisedEntry(u0, n, r, i) else u0[r][i]
    {
      var mx := ColumnMaxAbs(u, j, u0);
      if mx != 0.0 {
        forall r | 0 <= r < n {
          u[r, j] := u[r, j] / mx;
        }
      }
    }
    SameCells(u, Normalised(u0, n, u.Length1));
  }

  /** An array equals a matrix of its shape whose entries it holds. */
  lemma SameCells(u: array2<real>, v: Matrix)
    requires IsMatrix(v, u.Length0, u.Length1)
    requires forall r, j :: 0 <= r < u.Length0 && 0 <= j < u.Length1 ==> u[r, j] == v[r][j]
    ensures Cells(u) == v
  {
    var c := Cells(u);
    forall r | 0 <= r < u.Length0
      ensures c[r] == v[r]
    {
      assert forall j :: 0 <= j < u.Length1 ==> c[r][j] == v[r][j];
    }
  }

  /** NFA: the eigenproblem, the frequencies, and the normalised modes, one row per free
      index when bound is nonzero (the modes are not expanded back to all indices). */
  method NFA(k: array2<real>, m: array2<real>, nno: nat, ldof: nat, bound: seq<NodalRow>, subset: Option<Subset>,
             eigh: Eigensolver, sqrt: real -> real)
    returns (omega: seq<Frequency>, u: array2<real>)
    requires k.Length0 == nno * ldof && k.Length1 == nno * ldof && m.Length0 == nno * ldof && m.Length1 == nno * ldof
    requires IsEigensolver(eigh)
    ensures var p := Problem(k, m, nno * ldof, ldof, bound);
            var e := eigh(p.0, p.1, subset);
            && omega == Omega(e.0, sqrt)
            && fresh(u) && Cells(u) == Normalised(e.1, |p.0|, |e.0|)
  {
    var p := Problem(k, m, nno * ldof, ldof, bound);
    var e := eigh(p.0, p.1, subset);
    omega := Omega(e.0, sqrt);
    var rows, cols := |p.0|, |e.0|;
    u := new real[rows, cols]((r, j) requires 0 <= r < rows && 0 <= j < cols => e.1[r][j]);
    SameCells(u, e.1);
    NormaliseColumns(u);
  }
}
