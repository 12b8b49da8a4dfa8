/** buildM (functions/Mmat/buildM.py): the global consistent mass matrix, the sum of the
    element mass matrices of the first nne rows of C placed at their nodes' indices, plus
    a lumped mass of 0.787 on the three translations of each of the four footing nodes. */
module GlobalMass {
  import opened Wrappers
  import opened Vectors
  import opened Matrices
  import opened Quadrature
  import opened Properties
  import opened Structure
  import opened ElementMass
  import opened Assembly
  import opened Sums

  /** The lumped mass added at each footing direction. */
  const FootingMass: real := 0.787

  /** Ge = [A, rho, J] of a property record. */
  function MassProperties(m: Material): (ge: seq<real>)
    ensures |ge| == 3
  {
    [m.a, m.rho, m.j]
  }

  /** mbeam(X[C[i, 0] - 1], X[C[i, 1] - 1], Ge, 6) of one row of C. */
  function MassOf(x: seq<Vec3>, e: Element, props: PropTable, norm: Vec3 -> real): (m: Matrix)
    requires IsNorm(norm) && Processable(x, e, props)
    ensures IsSquare(m, 12)
  {
    Mass(x[e.n1 - 1], x[e.n2 - 1], MassProperties(Lookup(props, e.prop).value), IntpL(6).value, norm)
  }

  function MassesOf(x: seq<Vec3>, c: seq<Element>, props: PropTable, nne: nat, norm: Vec3 -> real): (ms: seq<Matrix>)
    requires IsNorm(norm) && nne <= |c| && forall i :: 0 <= i < nne ==> Processable(x, c[i], props)
    ensures |ms| == nne && forall i :: 0 <= i < nne ==> ms[i] == MassOf(x, c[i], props, norm)
  {
    seq(nne, i requires 0 <= i < nne => MassOf(x, c[i], props, norm))
  }

  /** The indices 6 n, 6 n + 1, 6 n + 2 for n = 116, ..., 119 that receive the footing
      mass: the translations of nodes 117 to 120. */
  predicate FootingIndex(p: int)
  {
    6 * 116 <= p <= 6 * 119 + 2 && p % 6 <= 2
  }

  /** What the twelve footing statements add to entry (p, q). */
  function Footing(p: int, q: int): real
  {
    if p == q && FootingIndex(p) then FootingMass else 0.0
  }

  /** What buildM's preconditions are: every element can be processed and fits, and the
      matrix is large enough for the footing nodes. */
  ghost predicate Buildable(x: seq<Vec3>, c: seq<Element>, props: PropTable, nno: nat, nne: nat, ldof: nat)
  {
    && nne <= |c|
    && (forall i :: 0 <= i < nne ==> Processable(x, c[i], props) && Fits(c[i], nno * ldof))
    && 6 * 119 + 2 < nno * ldof
  }

  /** Entry (p, q) of Mmat. */
  ghost function MEntry(x: seq<Vec3>, c: seq<Element>, props: PropTable, nno: nat, nne: nat, ldof: nat, norm: Vec3 -> real, p: int, q: int): real
    requires IsNorm(norm) && Buildable(x, c, props, nno, nne, ldof)
  {
    Assembled(MassesOf(x, c, props, nne, norm), DofLists(c, nne), nne, p, q) + Footing(p, q)
  }

  /** m = mbeam(X[C[i, 0] - 1], X[C[i, 1] - 1], Ge, 6) for one row of C. */
  method ElementMatrix(x: seq<Vec3>, e: Element, props: PropTable, norm: Vec3 -> real) returns (m: Matrix)
    requires IsNorm(norm) && Processable(x, e, props)
    ensures m == MassOf(x, e, props, norm)
  {
    var ge := MassProperties(Lookup(props, e.prop).value);
    var r := MBeam(x[e.n1 - 1], x[e.n2 - 1], ge, 6, norm);
    m := r.value;
  }

  /** The loop of buildM over the first nne rows of C, starting from np.zeros. */
  method AssembleMass(x: seq<Vec3>, c: seq<Element>, props: PropTable, nne: nat, n: nat, norm: Vec3 -> real)
    returns (mmat: array2<real>)
    requires IsNorm(norm) && nne <= |c|
    requires forall i :: 0 <= i < nne ==> Processable(x, c[i], props) && Fits(c[i], n)
    ensures fresh(mmat) && mmat.Length0 == n && mmat.Length1 == n
    ensures forall p, q :: 0 <= p < n && 0 <= q < n ==>
      mmat[p, q] == Assembled(MassesOf(x, c, props, nne, norm), DofLists(c, nne), nne, p, q)
  {
    mmat := new real[n, n]((_, _) => 0.0);
    ghost var ms := MassesOf(x, c, props, nne, norm);
    ghost var des := DofLists(c, nne);
    for i := 0 to nne
      invariant forall p, q :: 0 <= p < n && 0 <= q < n ==> mmat[p, q] == Assembled(ms, des, i, p, q)
    {
      var m := ElementMatrix(x, c[i], props, norm);
      AddElement(mmat, m, c[i]);
      AssembledStep(ms, des, i, m, ElementDofs(c[i]));
    }
  }

  /** What the three statements for footing node n (counted from 0) add to entry (p, q). */
  function FootingAt(node: int, p: int, q: int): real
  {
    if p == q && 6 * node <= p <= 6 * node + 2 then FootingMass else 0.0
  }

  /** The four footing nodes' additions touch different entries and together make Footing. */
  lemma FootingParts(p: int, q: int)
    ensures Footing(p, q) == FootingAt(116, p, q) + FootingAt(117, p, q) + FootingAt(118, p, q) + FootingAt(119, p, q)
  {
  }

  /** The three statements for one footing node: Mmat[6 n + d, 6 n + d] += 0.787 for
      d = 0, 1, 2. */
  method AddFooting(mmat: array2<real>, node: int)
    requires 0 <= node && 6 * node + 2 < mmat.Length0 && 6 * node + 2 < mmat.Length1
    modifies mmat
    ensures forall p, q :: 0 <= p < mmat.Length0 && 0 <= q < mmat.Length1 ==>
      mmat[p, q] == old(mmat[p, q]) + FootingAt(node, p, q)
  {
    mmat[6 * node, 6 * node] := mmat[6 * node, 6 * node] + FootingMass;
    mmat[6 * node + 1, 6 * node + 1] := mmat[6 * node + 1, 6 * node + 1] + FootingMass;
    mmat[6 * node + 2, 6 * node + 2] := mmat[6 * node + 2, 6 * node + 2] + FootingMass;
  }

  /** The TP flag is accepted and not read. */
  method BuildM(x: seq<Vec3>, c: seq<Element>, props: PropTable, nno: nat, nne: nat, ldof: nat, tp: bool, norm: Vec3 -> real)
    returns (mmat: array2<real>)
    requires IsNorm(norm) && Buildable(x, c, props, nno, nne, ldof)
    ensures fresh(mmat) && mmat.Length0 == nno * ldof && mmat.Length1 == nno * ldof
    ensures forall p, q :: 0 <= p < nno * ldof && 0 <= q < nno * ldof ==>
      mmat[p, q] == MEntry(x, c, props, nno, nne, ldof, norm, p, q)
  {
    var n := nno * ldof;
    mmat := AssembleMass(x, c, props, nne, n, norm);
    AddFooting(mmat, 116);
    AddFooting(mmat, 117);
    AddFooting(mmat, 118);
    AddFooting(mmat, 119);
    forall p, q {
      FootingParts(p, q);
    }
  }

  /** Mmat is symmetric. */
  lemma MEntrySymmetric(x: seq<Vec3>, c: seq<Element>, props: PropTable, nno: nat, nne: nat, ldof: nat, norm: Vec3 -> real, p: int, q: int)
    requires IsNorm(norm) && Buildable(x, c, props, nno, nne, ldof)
    ensures MEntry(x, c, props, nno, nne, ldof, norm, p, q) == MEntry(x, c, props, nno, nne, ldof, norm, q, p)
  {
    var ms := MassesOf(x, c, props, nne, norm);
    var des := DofLists(c, nne);
    forall e | 0 <= e < nne
      ensures IsSquare(ms[e], 12) && Symmetric(ms[e], 12) && |des[e]| == 12
    {
      var m := Lookup(props, c[e].prop).value;
      MassSymmetric(x[c[e].n1 - 1], x[c[e].n2 - 1], MassProperties(m), IntpL(6).value, norm);
    }
    AssembledSymmetric(ms, des, nne, p, q);
  }

  /** The footing mass sits on the diagonal, exactly at directions 1, 2 and 3 (the
      translations) of nodes 117, 118, 119 and 120. */
  lemma FootingTranslations(p: int, q: int)
    ensures Footing(p, q) != 0.0 <==>
      p == q && exists node, d :: 117 <= node <= 120 && 1 <= d <= 3 && p == DofIndex(node, d, 6)
  {
    if p == q && FootingIndex(p) {
      var node, d := p / 6 + 1, p % 6 + 1;
      assert p == DofIndex(node, d, 6);
    }
  }

  /** Mmat does not depend on the order of the elements: c2 lists the first nne rows of c
      in the order perm. */
  lemma MEntryElementOrder(x: seq<Vec3>, c: seq<Element>, c2: seq<Element>, perm: seq<int>, props: PropTable, nno: nat, nne: nat, ldof: nat, norm: Vec3 -> real, p: int, q: int)
    requires IsNorm(norm) && Buildable(x, c, props, nno, nne, ldof)
    requires nne <= |c2| && IsPermutation(perm, nne) && forall i :: 0 <= i < nne ==> c2[i] == c[perm[i]]
    ensures Buildable(x, c2, props, nno, nne, ldof)
    ensures MEntry(x, c2, props, nno, nne, ldof, norm, p, q) == MEntry(x, c, props, nno, nne, ldof, norm, p, q)
  {
    assert Buildable(x, c2, props, nno, nne, ldof);
    AssemblyPermutation(MassesOf(x, c, props, nne, norm), DofLists(c, nne), perm,
      MassesOf(x, c2, props, nne, norm), DofLists(c2, nne), p, q);
  }
}
