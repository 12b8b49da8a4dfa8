/** kspring (functions/Kmat/kspring.py): the stiffness matrix of the spring supports, zero
    except on the diagonal, where each spring row writes its stiffness at the index of its
    node and direction. */
module Springs {
  import opened Structure

  /** What the diagonal entry p holds after the first n rows: the stiffness of the last of
      them naming p, or the initial zero. */
  function LastStiffness(springs: seq<NodalRow>, ldof: int, n: nat, p: int): real
    requires n <= |springs|
  {
    if n == 0 then 0.0
    else if RowIndex(springs[n - 1], ldof) == p then springs[n - 1].value
    else LastStiffness(springs, ldof, n - 1, p)
  }

  /** Entry (p, q) of the spring matrix after the first n rows. */
  function SpringEntry(springs: seq<NodalRow>, ldof: int, n: nat, p: int, q: int): real
    requires n <= |springs|
  {
    if p == q then LastStiffness(springs, ldof, n, p) else 0.0
  }

  /** np.zeros((nno ldof, nno ldof)), then Kkmat[dof, dof] = k for each row in order. */
  method KSpring(springs: seq<NodalRow>, nno: nat, ldof: nat) returns (kk: array2<real>)
    requires forall i :: 0 <= i < |springs| ==> ValidRow(springs[i], nno, ldof)
    ensures fresh(kk) && kk.Length0 == nno * ldof && kk.Length1 == nno * ldof
    ensures forall p, q :: 0 <= p < nno * ldof && 0 <= q < nno * ldof ==> kk[p, q] == SpringEntry(springs, ldof, |springs|, p, q)
  {
    kk := new real[nno * ldof, nno * ldof]((_, _) => 0.0);
    for i := 0 to |springs|
      invariant forall p, q :: 0 <= p < nno * ldof && 0 <= q < nno * ldof ==> kk[p, q] == SpringEntry(springs, ldof, i, p, q)
    {
      var dof := RowIndex(springs[i], ldof);
      DofIndexRange(springs[i].node, springs[i].dof, ldof, nno);
      kk[dof, dof] := springs[i].value;
    }
  }

  /** A later row for the same node and direction overwrites an earlier one: the diagonal
      entry is the stiffness of the last row naming it. */
  lemma {:induction false} LastRowWins(springs: seq<NodalRow>, ldof: int, i: nat)
    requires i < |springs|
    requires forall j :: i < j < |springs| ==> RowIndex(springs[j], ldof) != RowIndex(springs[i], ldof)
    ensures SpringEntry(springs, ldof, |springs|, RowIndex(springs[i], ldof), RowIndex(springs[i], ldof)) == springs[i].value
  {
    LastRowWinsAt(springs, ldof, |springs|, i);
  }

  lemma {:induction false} LastRowWinsAt(springs: seq<NodalRow>, ldof: int, n: nat, i: nat)
    requires i < n <= |springs|
    requires forall j :: i < j < n ==> RowIndex(springs[j], ldof) != RowIndex(springs[i], ldof)
    ensures LastStiffness(springs, ldof, n, RowIndex(springs[i], ldof)) == springs[i].value
  {
    if i < n - 1 {
      LastRowWinsAt(springs, ldof, n - 1, i);
    }
  }

  /** A diagonal position no row names keeps its zero. */
  lemma {:induction false} UnnamedStaysZero(springs: seq<NodalRow>, ldof: int, n: nat, p: int)
    requires n <= |springs|
    requires forall j :: 0 <= j < n ==> RowIndex(springs[j], ldof) != p
    ensures SpringEntry(springs, ldof, n, p, p) == 0.0
  {
    if n > 0 {
      UnnamedStaysZero(springs, ldof, n - 1, p);
    }
  }
}
