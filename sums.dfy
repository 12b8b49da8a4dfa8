/** Finite sums over the reals, the algebra every matrix product below rests on. */
module Sums {

  /** Sum of f(0) + ... + f(n - 1). */
  function Sum(n: nat, f: int -> real): real
    decreases n
  {
    if n == 0 then 0.0 else Sum(n - 1, f) + f(n - 1)
  }

  lemma {:induction false} SumExt(n: nat, f: int -> real, g: int -> real)
    requires forall k :: 0 <= k < n ==> f(k) == g(k)
    ensures Sum(n, f) == Sum(n, g)
  {
    if n > 0 {
      SumExt(n - 1, f, g);
    }
  }

  lemma {:induction false} SumAdd(n: nat, f: int -> real, g: int -> real, h: int -> real)
    requires forall k :: 0 <= k < n ==> h(k) == f(k) + g(k)
    ensures Sum(n, h) == Sum(n, f) + Sum(n, g)
  {
    if n > 0 {
      SumAdd(n - 1, f, g, h);
    }
  }

  lemma {:induction false} SumScale(n: nat, f: int -> real, g: int -> real, c: real)
    requires forall k :: 0 <= k < n ==> g(k) == c * f(k)
    ensures Sum(n, g) == c * Sum(n, f)
  {
    if n > 0 {
      SumScale(n - 1, f, g, c);
    }
  }

  lemma {:induction false} SumZero(n: nat, f: int -> real)
    requires forall k :: 0 <= k < n ==> f(k) == 0.0
    ensures Sum(n, f) == 0.0
  {
    if n > 0 {
      SumZero(n - 1, f);
    }
  }

  lemma {:induction false} SumNonneg(n: nat, f: int -> real)
    requires forall k :: 0 <= k < n ==> f(k) >= 0.0
    ensures Sum(n, f) >= 0.0
  {
    if n > 0 {
      SumNonneg(n - 1, f);
    }
  }

  /** A sum whose terms vanish except at p is that one term. */
  lemma {:induction false} SumSingle(n: nat, f: int -> real, p: int)
    requires 0 <= p < n
    requires forall k :: 0 <= k < n && k != p ==> f(k) == 0.0
    ensures Sum(n, f) == f(p)
  {
    if p < n - 1 {
      SumSingle(n - 1, f, p);
    } else {
      SumZero(n - 1, f);
    }
  }

  /** Row sums first, then their total. */
  function RowsFirst(n: nat, m: nat, f: (int, int) -> real): real
  {
    Sum(n, i => Sum(m, j => f(i, j)))
  }

  /** Column sums first, then their total. */
  function ColumnsFirst(n: nat, m: nat, f: (int, int) -> real): real
  {
    Sum(m, j => Sum(n, i => f(i, j)))
  }

  /** The order of a double sum does not matter. */
  lemma {:induction false} SumSwap(n: nat, m: nat, f: (int, int) -> real)
    ensures RowsFirst(n, m, f) == ColumnsFirst(n, m, f)
  {
    if n > 0 {
      SumSwap(n - 1, m, f);
      var g := j => Sum(n - 1, i => f(i, j));
      var h := j => f(n - 1, j);
      var gh := j => Sum(n, i => f(i, j));
      SumAdd(m, g, h, gh);
      var r := i => Sum(m, j => f(i, j));
      assert RowsFirst(n, m, f) == Sum(n - 1, r) + r(n - 1);
      assert Sum(n - 1, r) == RowsFirst(n - 1, m, f);
      assert ColumnsFirst(n - 1, m, f) == Sum(m, g);
      assert ColumnsFirst(n, m, f) == Sum(m, gh);
      SumExt(m, j => f(n - 1, j), h);
      assert r(n - 1) == Sum(m, h);
    } else {
      SumZero(m, j => Sum(n, i => f(i, j)));
    }
  }

  /** perm lists each of 0 .. n - 1 exactly once. */
  predicate IsPermutation(perm: seq<int>, n: nat)
  {
    |perm| == n
    && (forall i :: 0 <= i < n ==> 0 <= perm[i] < n)
    && (forall i, j :: 0 <= i < j < n ==> perm[i] != perm[j])
    && (forall k :: 0 <= k < n ==> k in perm)
  }

  /** Summing the terms in another order gives the same total. */
  lemma {:induction false} SumPermutation(n: nat, f: int -> real, perm: seq<int>, g: int -> real)
    requires IsPermutation(perm, n)
    requires forall i :: 0 <= i < n ==> g(i) == f(perm[i])
    ensures Sum(n, g) == Sum(n, f)
  {
    var h := (i, j) => if 0 <= i < |perm| && perm[i] == j then f(j) else 0.0;
    SumSwap(n, n, h);
    var rows := i => Sum(n, j => h(i, j));
    var cols := j => Sum(n, i => h(i, j));
    forall i | 0 <= i < n
      ensures rows(i) == g(i)
    {
      SumSingle(n, j => h(i, j), perm[i]);
    }
    SumExt(n, rows, g);
    forall j | 0 <= j < n
      ensures cols(j) == f(j)
    {
      assert j in perm;
      var i0 :| 0 <= i0 < n && perm[i0] == j;
      SumSingle(n, i => h(i, j), i0);
    }
    SumExt(n, cols, f);
  }

  /** A sum of four terms written out, for the four strain components of a beam element. */
  lemma Sum4(f: int -> real)
    ensures Sum(4, f) == f(0) + f(1) + f(2) + f(3)
  {
    assert Sum(4, f) == Sum(3, f) + f(3);
    assert Sum(3, f) == Sum(2, f) + f(2);
    assert Sum(2, f) == Sum(1, f) + f(1);
    assert Sum(1, f) == Sum(0, f) + f(0);
  }
}
