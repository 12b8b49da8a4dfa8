/** The integer bookkeeping of the frame model: elements as rows of the connectivity array C,
    nodal rows of the bound and spring_support arrays, and the map from a node and one of its
    directions to a global degree of freedom. Node numbers and directions count from 1,
    degree-of-freedom indices from 0. */
module Structure {
  import opened Wrappers

  /** A row [node 1, node 2, property number] of C. */
  datatype Element = Element(n1: int, n2: int, prop: int)

  /** A row [node, direction, value] of bound (the value is a prescribed displacement that
      nothing reads) or of spring_support (the value is a spring stiffness). */
  datatype NodalRow = NodalRow(node: int, dof: int, value: real)

  /** (node - 1) ldof + d - 1, the index of direction d of a node. */
  function DofIndex(node: int, d: int, ldof: int): int
  {
    (node - 1) * ldof + d - 1
  }

  /** The index a bound or spring row names. */
  function RowIndex(r: NodalRow, ldof: int): int
  {
    DofIndex(r.node, r.dof, ldof)
  }

  /** A row naming an existing node and one of its directions. */
  predicate ValidRow(r: NodalRow, nno: int, ldof: int)
  {
    1 <= r.node <= nno && 1 <= r.dof <= ldof
  }

  /** np.any of a bound or spring_support array: some entry of some row is nonzero. */
  predicate AnyNonzero(rows: seq<NodalRow>)
  {
    exists i :: 0 <= i < |rows| && (rows[i].node != 0 || rows[i].dof != 0 || rows[i].value != 0.0)
  }

  /** Rows that name existing nodes are never all zero, so np.any of such an array holds
      exactly when it has a row. */
  lemma AnyNonzeroValid(rows: seq<NodalRow>, nno: int, ldof: int)
    requires forall i :: 0 <= i < |rows| ==> ValidRow(rows[i], nno, ldof)
    ensures AnyNonzero(rows) <==> |rows| > 0
  {
    if |rows| > 0 {
      assert rows[0].node != 0;
    }
  }

  /** The index of a direction of an existing node lies in [0, nno ldof). */
  lemma DofIndexRange(node: int, d: int, ldof: int, nno: int)
    requires 1 <= node <= nno && 1 <= d <= ldof
    ensures 0 <= DofIndex(node, d, ldof) < nno * ldof
  {
    assert (node - 1) * ldof <= (nno - 1) * ldof by {
      MulLeft(node - 1, nno - 1, ldof);
    }
  }

  lemma MulLeft(a: int, b: int, c: int)
    requires a <= b && 0 <= c
    ensures a * c <= b * c
  {
  }

  /** de - 1 of an element: directions 1 to 6 of its first node, then of its second, with
      six directions per node written into the formula. */
  function ElementDofs(e: Element): (de: seq<int>)
    ensures |de| == 12
    ensures forall k :: 0 <= k < 12 ==> de[k] == DofIndex(if k < 6 then e.n1 else e.n2, k % 6 + 1, 6)
  {
    [6 * e.n1 - 6, 6 * e.n1 - 5, 6 * e.n1 - 4, 6 * e.n1 - 3, 6 * e.n1 - 2, 6 * e.n1 - 1,
     6 * e.n2 - 6, 6 * e.n2 - 5, 6 * e.n2 - 4, 6 * e.n2 - 3, 6 * e.n2 - 2, 6 * e.n2 - 1]
  }

  /** No index occurs twice. */
  ghost predicate Distinct(s: seq<int>)
  {
    forall i, j :: 0 <= i < |s| && 0 <= j < |s| && i != j ==> s[i] != s[j]
  }

  /** The twelve indices of an element with two different nodes are different, and they lie
      in [0, n) when 6 times each node number is at most n. */
  lemma ElementDofsValid(e: Element, n: int)
    requires e.n1 != e.n2 && 1 <= e.n1 && 1 <= e.n2 && 6 * e.n1 <= n && 6 * e.n2 <= n
    ensures Distinct(ElementDofs(e))
    ensures forall k :: 0 <= k < 12 ==> 0 <= ElementDofs(e)[k] < n
  {
    var de := ElementDofs(e);
    forall i, j | 0 <= i < 12 && 0 <= j < 12 && i != j
      ensures de[i] != de[j]
    {
    }
  }

  /** The first position of x in s. */
  function IndexOf(s: seq<int>, x: int): (r: Option<nat>)
    ensures r.Some? ==> r.value < |s| && s[r.value] == x
    ensures r.None? <==> forall i :: 0 <= i < |s| ==> s[i] != x
  {
    if |s| == 0 then None
    else if s[0] == x then Some(0)
    else match IndexOf(s[1..], x) {
      case None => None
      case Some(i) => Some(i + 1)
    }
  }

  /** In a sequence without repetitions the position of s[i] is i. */
  lemma IndexOfDistinct(s: seq<int>, i: nat)
    requires Distinct(s) && i < |s|
    ensures IndexOf(s, s[i]) == Some(i)
  {
  }
}
