/** Assembly of element matrices into a global matrix, the step
    `Mat[np.ix_(de - 1, de - 1)] += k` of buildK and buildM: entry (de[i], de[j]) of the
    global matrix receives entry (i, j) of the element matrix. */
module Assembly {
  import opened Wrappers
  import opened Vectors
  import opened Matrices
  import opened Properties
  import opened Structure
  import opened Sums

  /** An element the loops of buildK and buildM can process: both nodes are rows of X
      (X[C[i, 0] - 1] counts from 1), at different places, and its property number is a key
      of mprop. */
  predicate Processable(x: seq<Vec3>, e: Element, props: PropTable)
  {
    1 <= e.n1 <= |x| && 1 <= e.n2 <= |x| && x[e.n1 - 1] != x[e.n2 - 1] && Lookup(props, e.prop).Some?
  }

  /** The element's indices de - 1 are inside a global matrix of order n. */
  predicate Fits(e: Element, n: int)
  {
    1 <= e.n1 && 1 <= e.n2 && 6 * e.n1 <= n && 6 * e.n2 <= n
  }

  /** The index lists de - 1 of the first nne rows of C. */
  function DofLists(c: seq<Element>, nne: nat): (des: seq<seq<int>>)
    requires nne <= |c|
    ensures |des| == nne && forall i :: 0 <= i < nne ==> des[i] == ElementDofs(c[i])
  {
    seq(nne, i requires 0 <= i < nne => ElementDofs(c[i]))
  }

  /** What element matrix k with index list de adds to global entry (p, q). */
  function Contribution(k: Matrix, de: seq<int>, p: int, q: int): real
  {
    match (IndexOf(de, p), IndexOf(de, q)) {
      case (Some(i), Some(j)) => At(k, i, j)
      case _ => 0.0
    }
  }

  /** Global entry (p, q) after the first n elements have been added to a zero matrix. */
  function Assembled(ks: seq<Matrix>, des: seq<seq<int>>, n: nat, p: int, q: int): real
    requires n <= |ks| && n <= |des|
  {
    if n == 0 then 0.0 else Assembled(ks, des, n - 1, p, q) + Contribution(ks[n - 1], des[n - 1], p, q)
  }

  /** The twelve indices are different and name entries of g. */
  ghost predicate Scatterable(g: array2<real>, k: Matrix, de: seq<int>)
    reads {}
  {
    IsSquare(k, 12) && |de| == 12 && Distinct(de)
    && forall i :: 0 <= i < 12 ==> 0 <= de[i] < g.Length0 && 0 <= de[i] < g.Length1
  }

  /** g[np.ix_(de, de)] += k: every index appears once, so each touched entry receives
      exactly one element entry. */
  method ScatterAdd(g: array2<real>, k: Matrix, de: seq<int>)
    requires Scatterable(g, k, de)
    modifies g
    ensures forall p, q :: 0 <= p < g.Length0 && 0 <= q < g.Length1 ==> g[p, q] == old(g[p, q]) + Contribution(k, de, p, q)
  {
    forall i, j | 0 <= i < 12 && 0 <= j < 12 {
      g[de[i], de[j]] := g[de[i], de[j]] + k[i][j];
    }
    forall p, q | 0 <= p < g.Length0 && 0 <= q < g.Length1
      ensures g[p, q] == old(g[p, q]) + Contribution(k, de, p, q)
    {
      match (IndexOf(de, p), IndexOf(de, q)) {
        case (Some(i), Some(j)) =>
        case (None, _) =>
        case (_, None) =>
      }
    }
  }

  /** Mat[np.ix_(de - 1, de - 1)] += k for one row of C. */
  method AddElement(g: array2<real>, k: Matrix, e: Element)
    requires IsSquare(k, 12) && Fits(e, g.Length0) && Fits(e, g.Length1) && e.n1 != e.n2
    modifies g
    ensures forall p, q :: 0 <= p < g.Length0 && 0 <= q < g.Length1 ==> g[p, q] == old(g[p, q]) + Contribution(k, ElementDofs(e), p, q)
  {
    ElementDofsValid(e, g.Length0);
    ElementDofsValid(e, g.Length1);
    ScatterAdd(g, k, ElementDofs(e));
  }

  /** Adding element n to the first n assembles the first n + 1. */
  lemma AssembledStep(ks: seq<Matrix>, des: seq<seq<int>>, n: nat, k: Matrix, de: seq<int>)
    requires n < |ks| && n < |des| && ks[n] == k && des[n] == de
    ensures forall p, q :: Assembled(ks, des, n + 1, p, q) == Assembled(ks, des, n, p, q) + Contribution(k, de, p, q)
  {
  }

  /** The element entry (i, j) lands at (de[i], de[j]). */
  lemma ContributionAt(k: Matrix, de: seq<int>, i: nat, j: nat)
    requires IsSquare(k, 12) && |de| == 12 && Distinct(de) && i < 12 && j < 12
    ensures Contribution(k, de, de[i], de[j]) == k[i][j]
  {
    IndexOfDistinct(de, i);
    IndexOfDistinct(de, j);
  }

  /** An entry outside the element's rows or columns receives nothing. */
  lemma ContributionOutside(k: Matrix, de: seq<int>, p: int, q: int)
    requires (forall i :: 0 <= i < |de| ==> de[i] != p) || (forall i :: 0 <= i < |de| ==> de[i] != q)
    ensures Contribution(k, de, p, q) == 0.0
  {
  }

  /** A symmetric element matrix adds symmetrically. */
  lemma ContributionSymmetric(k: Matrix, de: seq<int>, p: int, q: int)
    requires IsSquare(k, 12) && Symmetric(k, 12) && |de| == 12
    ensures Contribution(k, de, p, q) == Contribution(k, de, q, p)
  {
  }

  /** Assembling symmetric element matrices gives a symmetric global matrix. */
  lemma {:induction false} AssembledSymmetric(ks: seq<Matrix>, des: seq<seq<int>>, n: nat, p: int, q: int)
    requires n <= |ks| && n <= |des|
    requires forall e :: 0 <= e < n ==> IsSquare(ks[e], 12) && Symmetric(ks[e], 12) && |des[e]| == 12
    ensures Assembled(ks, des, n, p, q) == Assembled(ks, des, n, q, p)
  {
    if n > 0 {
      AssembledSymmetric(ks, des, n - 1, p, q);
      ContributionSymmetric(ks[n - 1], des[n - 1], p, q);
    }
  }

  /** A global entry that no element touches stays zero. */
  lemma {:induction false} AssembledUntouched(ks: seq<Matrix>, des: seq<seq<int>>, n: nat, p: int, q: int)
    requires n <= |ks| && n <= |des|
    requires forall e :: 0 <= e < n ==> (forall i :: 0 <= i < |des[e]| ==> des[e][i] != p) || (forall i :: 0 <= i < |des[e]| ==> des[e][i] != q)
    ensures Assembled(ks, des, n, p, q) == 0.0
  {
    if n > 0 {
      AssembledUntouched(ks, des, n - 1, p, q);
      ContributionOutside(ks[n - 1], des[n - 1], p, q);
    }
  }

  /** Assembling two lists of elements one after the other adds their global matrices. */
  lemma {:induction false} AssembledAppend(ks1: seq<Matrix>, des1: seq<seq<int>>, ks2: seq<Matrix>, des2: seq<seq<int>>, n: nat, p: int, q: int)
    requires |ks1| == |des1| && n <= |ks2| && n <= |des2|
    ensures Assembled(ks1 + ks2, des1 + des2, |ks1| + n, p, q)
            == Assembled(ks1, des1, |ks1|, p, q) + Assembled(ks2, des2, n, p, q)
  {
    if n == 0 {
      PrefixAssembled(ks1, des1, ks2, des2, |ks1|, p, q);
    } else {
      AssembledAppend(ks1, des1, ks2, des2, n - 1, p, q);
      assert (ks1 + ks2)[|ks1| + n - 1] == ks2[n - 1];
      assert (des1 + des2)[|ks1| + n - 1] == des2[n - 1];
    }
  }

  /** Appending elements does not change what the first n of them assemble to. */
  lemma {:induction false} PrefixAssembled(ks1: seq<Matrix>, des1: seq<seq<int>>, ks2: seq<Matrix>, des2: seq<seq<int>>, n: nat, p: int, q: int)
    requires n <= |ks1| && n <= |des1|
    ensures Assembled(ks1 + ks2, des1 + des2, n, p, q) == Assembled(ks1, des1, n, p, q)
  {
    if n > 0 {
      PrefixAssembled(ks1, des1, ks2, des2, n - 1, p, q);
      assert (ks1 + ks2)[n - 1] == ks1[n - 1];
      assert (des1 + des2)[n - 1] == des1[n - 1];
    }
  }

  /** Assembling two groups of elements in either order gives the same global matrix. */
  lemma AssemblyOrder(ks1: seq<Matrix>, des1: seq<seq<int>>, ks2: seq<Matrix>, des2: seq<seq<int>>, p: int, q: int)
    requires |ks1| == |des1| && |ks2| == |des2|
    ensures Assembled(ks1 + ks2, des1 + des2, |ks1| + |ks2|, p, q)
            == Assembled(ks2 + ks1, des2 + des1, |ks2| + |ks1|, p, q)
  {
    AssembledAppend(ks1, des1, ks2, des2, |ks2|, p, q);
    AssembledAppend(ks2, des2, ks1, des1, |ks1|, p, q);
  }

  /** Element e's contribution to global entry (p, q), as a term of a sum over the elements. */
  function ElementTerm(ks: seq<Matrix>, des: seq<seq<int>>, p: int, q: int): int -> real
  {
    e => if 0 <= e < |ks| && e < |des| then Contribution(ks[e], des[e], p, q) else 0.0
  }

  /** The assembled entry is the sum of the elements' contributions. */
  lemma {:induction false} AssembledSum(ks: seq<Matrix>, des: seq<seq<int>>, n: nat, p: int, q: int)
    requires n <= |ks| && n <= |des|
    ensures Assembled(ks, des, n, p, q) == Sum(n, ElementTerm(ks, des, p, q))
  {
    if n > 0 {
      AssembledSum(ks, des, n - 1, p, q);
    }
  }

  /** The order of the elements in C does not matter: assembling the elements in any
      order perm (ks2[i] and des2[i] being element perm[i]) gives the same global matrix. */
  lemma AssemblyPermutation(ks: seq<Matrix>, des: seq<seq<int>>, perm: seq<int>, ks2: seq<Matrix>, des2: seq<seq<int>>, p: int, q: int)
    requires |ks| == |des| && IsPermutation(perm, |ks|)
    requires |ks2| == |ks| && |des2| == |ks|
    requires forall i :: 0 <= i < |ks| ==> ks2[i] == ks[perm[i]] && des2[i] == des[perm[i]]
    ensures Assembled(ks2, des2, |ks2|, p, q) == Assembled(ks, des, |ks|, p, q)
  {
    AssembledSum(ks, des, |ks|, p, q);
    AssembledSum(ks2, des2, |ks2|, p, q);
    SumPermutation(|ks|, ElementTerm(ks, des, p, q), perm, ElementTerm(ks2, des2, p, q));
  }
}
