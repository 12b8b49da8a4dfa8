/** buildK (functions/Kmat/buildK.py): the global stiffness matrix, the sum of the element
    stiffness matrices of the first nne rows of C placed at their nodes' indices, plus the
    spring-support matrix when spring_support has a nonzero entry. */
module GlobalStiffness {
  import opened Wrappers
  import opened Vectors
  import opened Matrices
  import opened Quadrature
  import opened Properties
  import opened Structure
  import opened ElementStiffness
  import opened Springs
  import opened Assembly
  import opened Sums

  /** Ge = [E, A, Iz, Iy, G, J] of a property record. */
  function StiffnessProperties(m: Material): (ge: seq<real>)
    ensures |ge| == 6
  {
    [m.e, m.a, m.iz, m.iy, m.g, m.j]
  }

  /** kbeam(X[C[i, 0] - 1], X[C[i, 1] - 1], Ge, 3) of one row of C. */
  function StiffnessOf(x: seq<Vec3>, e: Element, props: PropTable, norm: Vec3 -> real): (k: Matrix)
    requires IsNorm(norm) && Processable(x, e, props)
    ensures IsSquare(k, 12)
  {
    Stiffness(x[e.n1 - 1], x[e.n2 - 1], StiffnessProperties(Lookup(props, e.prop).value), IntpL(3).value, norm)
  }

  function StiffnessesOf(x: seq<Vec3>, c: seq<Element>, props: PropTable, nne: nat, norm: Vec3 -> real): (ks: seq<Matrix>)
    requires IsNorm(norm) && nne <= |c| && forall i :: 0 <= i < nne ==> Processable(x, c[i], props)
    ensures |ks| == nne && forall i :: 0 <= i < nne ==> ks[i] == StiffnessOf(x, c[i], props, norm)
  {
    seq(nne, i requires 0 <= i < nne => StiffnessOf(x, c[i], props, norm))
  }

  /** What buildK's preconditions are: every element can be processed and fits, and the
      spring rows name existing nodes when kspring is called. */
  ghost predicate Buildable(x: seq<Vec3>, c: seq<Element>, props: PropTable, springs: seq<NodalRow>, nno: nat, nne: nat, ldof: nat)
  {
    && nne <= |c|
    && (forall i :: 0 <= i < nne ==> Processable(x, c[i], props) && Fits(c[i], nno * ldof))
    && (AnyNonzero(springs) ==> forall i :: 0 <= i < |springs| ==> ValidRow(springs[i], nno, ldof))
  }

  /** Entry (p, q) of Kmat. */
  ghost function KEntry(x: seq<Vec3>, c: seq<Element>, props: PropTable, springs: seq<NodalRow>, nno: nat, nne: nat, ldof: nat, norm: Vec3 -> real, p: int, q: int): real
    requires IsNorm(norm) && Buildable(x, c, props, springs, nno, nne, ldof)
  {
    Assembled(StiffnessesOf(x, c, props, nne, norm), DofLists(c, nne), nne, p, q)
    + (if AnyNonzero(springs) then SpringEntry(springs, ldof, |springs|, p, q) else 0.0)
  }

  /** The loop of buildK over the first nne rows of C, starting from np.zeros. */
  method AssembleStiffness(x: seq<Vec3>, c: seq<Element>, props: PropTable, nne: nat, n: nat, norm: Vec3 -> real)
    returns (kmat: array2<real>)
    requires IsNorm(norm) && nne <= |c|
    requires forall i :: 0 <= i < nne ==> Processable(x, c[i], props) && Fits(c[i], n)
    ensures fresh(kmat) && kmat.Length0 == n && kmat.Length1 == n
    ensures forall p, q :: 0 <= p < n && 0 <= q < n ==>
      kmat[p, q] == Assembled(StiffnessesOf(x, c, props, nne, norm), DofLists(c, nne), nne, p, q)
  {
    kmat := new real[n, n]((_, _) => 0.0);
    ghost var ks := StiffnessesOf(x, c, props, nne, norm);
    ghost var des := DofLists(c, nne);
    for i := 0 to nne
      invariant forall p, q :: 0 <= p < n && 0 <= q < n ==> kmat[p, q] == Assembled(ks, des, i, p, q)
    {
      var k := ElementMatrix(x, c[i], props, norm);
      AddElement(kmat, k, c[i]);
      AssembledStep(ks, des, i, k, ElementDofs(c[i]));
    }
  }

  method BuildK(x: seq<Vec3>, c: seq<Element>, props: PropTable, springs: seq<NodalRow>, nno: nat, nne: nat, ldof: nat, norm: Vec3 -> real)
    returns (kmat: array2<real>)
    requires IsNorm(norm) && Buildable(x, c, props, springs, nno, nne, ldof)
    ensures fresh(kmat) && kmat.Length0 == nno * ldof && kmat.Length1 == nno * ldof
    ensures forall p, q :: 0 <= p < nno * ldof && 0 <= q < nno * ldof ==>
      kmat[p, q] == KEntry(x, c, props, springs, nno, nne, ldof, norm, p, q)
  {
    var n := nno * ldof;
    kmat := AssembleStiffness(x, c, props, nne, n, norm);
    if AnyNonzero(springs) {
      var kk := KSpring(springs, nno, ldof);
      forall p, q | 0 <= p < n && 0 <= q < n {
        kmat[p, q] := kmat[p, q] + kk[p, q];
      }
    }
  }

  /** k = kbeam(X[C[i, 0] - 1], X[C[i, 1] - 1], Ge, 3) for one row of C. */
  method ElementMatrix(x: seq<Vec3>, e: Element, props: PropTable, norm: Vec3 -> real) returns (k: Matrix)
    requires IsNorm(norm) && Processable(x, e, props)
    ensures k == StiffnessOf(x, e, props, norm)
  {
    var ge := StiffnessProperties(Lookup(props, e.prop).value);
    var r := KBeam(x[e.n1 - 1], x[e.n2 - 1], ge, 3, norm);
    k := r.value;
  }

  /** Kmat is symmetric. */
  lemma KEntrySymmetric(x: seq<Vec3>, c: seq<Element>, props: PropTable, springs: seq<NodalRow>, nno: nat, nne: nat, ldof: nat, norm: Vec3 -> real, p: int, q: int)
    requires IsNorm(norm) && Buildable(x, c, props, springs, nno, nne, ldof)
    ensures KEntry(x, c, props, springs, nno, nne, ldof, norm, p, q) == KEntry(x, c, props, springs, nno, nne, ldof, norm, q, p)
  {
    var ks := StiffnessesOf(x, c, props, nne, norm);
    var des := DofLists(c, nne);
    forall e | 0 <= e < nne
      ensures IsSquare(ks[e], 12) && Symmetric(ks[e], 12) && |des[e]| == 12
    {
      var m := Lookup(props, c[e].prop).value;
      StiffnessSymmetric(x[c[e].n1 - 1], x[c[e].n2 - 1], StiffnessProperties(m), IntpL(3).value, norm);
    }
    AssembledSymmetric(ks, des, nne, p, q);
  }

  /** An entry that no element and no spring row touches is zero. */
  lemma KEntryUntouched(x: seq<Vec3>, c: seq<Element>, props: PropTable, springs: seq<NodalRow>, nno: nat, nne: nat, ldof: nat, norm: Vec3 -> real, p: int, q: int)
    requires IsNorm(norm) && Buildable(x, c, props, springs, nno, nne, ldof)
    requires forall e, i :: 0 <= e < nne && 0 <= i < 12 ==> ElementDofs(c[e])[i] != p
    requires forall j :: 0 <= j < |springs| ==> RowIndex(springs[j], ldof) != p
    ensures KEntry(x, c, props, springs, nno, nne, ldof, norm, p, q) == 0.0
  {
    AssembledUntouched(StiffnessesOf(x, c, props, nne, norm), DofLists(c, nne), nne, p, q);
    UnnamedStaysZero(springs, ldof, |springs|, p);
  }

  /** Kmat does not depend on the order of the elements: c2 lists the first nne rows of c
      in the order perm. */
  lemma KEntryElementOrder(x: seq<Vec3>, c: seq<Element>, c2: seq<Element>, perm: seq<int>, props: PropTable, springs: seq<NodalRow>, nno: nat, nne: nat, ldof: nat, norm: Vec3 -> real, p: int, q: int)
    requires IsNorm(norm) && Buildable(x, c, props, springs, nno, nne, ldof)
    requires nne <= |c2| && IsPermutation(perm, nne) && forall i :: 0 <= i < nne ==> c2[i] == c[perm[i]]
    ensures Buildable(x, c2, props, springs, nno, nne, ldof)
    ensures KEntry(x, c2, props, springs, nno, nne, ldof, norm, p, q) == KEntry(x, c, props, springs, nno, nne, ldof, norm, p, q)
  {
    assert Buildable(x, c2, props, springs, nno, nne, ldof);
    AssemblyPermutation(StiffnessesOf(x, c, props, nne, norm), DofLists(c, nne), perm,
      StiffnessesOf(x, c2, props, nne, norm), DofLists(c2, nne), p, q);
  }
}
