/** VIBframe (classes/VIBframe.py): the vibration analysis of a frame. The constructor stores
    its inputs, fixes six degrees of freedom per node, decides whether the mill is present,
    and then builds M, builds K and solves the eigenproblem, storing each result in a field. */
module VibrationFrame {
  import opened Wrappers
  import opened Vectors
  import opened Properties
  import opened Structure
  import GlobalMass
  import GlobalStiffness
  import opened FrequencyAnalysis

  /** The type name that marks the mill. */
  const MillType: string := "Tower element 9"

  /** mill: the last record of mprop, in insertion order, that has a 'type' has this one. */
  predicate MillPresent(props: PropTable)
  {
    LastType(props) == Some(MillType)
  }

  /** Lines 47-51: last_type is updated by every record with a 'type' entry, so after the
      loop it is the type of the last such record. */
  method DetectMill(props: PropTable) returns (mill: bool)
    ensures mill == MillPresent(props)
    ensures mill ==> exists i :: 0 <= i < |props| && props[i].1.kind == Some(MillType)
  {
    var lastType: Option<string> := None;
    for i := 0 to |props|
      invariant lastType == LastType(props[..i])
      invariant lastType.Some? ==> exists k :: 0 <= k < i && props[k].1.kind == lastType
    {
      assert props[..i + 1][..i] == props[..i];
      if props[i].1.kind.Some? {
        lastType := props[i].1.kind;
      }
    }
    assert props[..|props|] == props;
    mill := lastType == Some(MillType);
  }

  /** A record without a 'type' after the last typed one does not change the flag, and a
      typed record appended last decides it alone. */
  lemma MillLastTypedDecides(props: PropTable, key: int, m: Material)
    ensures m.kind.None? ==> MillPresent(props + [(key, m)]) == MillPresent(props)
    ensures m.kind.Some? ==> (MillPresent(props + [(key, m)]) <==> m.kind == Some(MillType))
  {
    var t := props + [(key, m)];
    assert t[..|t| - 1] == props;
  }

  class VibFrame {
    const x: seq<Vec3>
    const c: seq<Element>
    const props: PropTable
    const bound: seq<NodalRow>
    const springs: seq<NodalRow>
    const subset: Option<Subset>
    /** The vector norm, the eigensolver and the square root the analysis calls. */
    const norm: Vec3 -> real
    const eigh: Eigensolver
    const sqrt: real -> real

    const ldof: nat
    const nno: nat
    const nne: nat
    const ndof: nat

    var mill: bool
    var mmat: array2<real>
    var kmat: array2<real>
    var omega: seq<Frequency>
    var u: array2<real>

    /** What buildM and buildK need of the inputs, and what the model needs of the
        parameters. */
    ghost predicate Inputs()
    {
      && ldof == 6 && nno == |x| && nne == |c| && ndof == nno * ldof
      && IsNorm(norm) && IsEigensolver(eigh)
      && GlobalMass.Buildable(x, c, props, nno, nne, ldof)
      && GlobalStiffness.Buildable(x, c, props, springs, nno, nne, ldof)
    }

    /** Entry (p, q) of M as buildM defines it for these inputs. */
    ghost predicate MassBuilt()
      reads this`mmat, mmat
      requires Inputs()
    {
      && mmat.Length0 == ndof && mmat.Length1 == ndof
      && forall p, q :: 0 <= p < ndof && 0 <= q < ndof ==>
           mmat[p, q] == GlobalMass.MEntry(x, c, props, nno, nne, ldof, norm, p, q)
    }

    ghost predicate StiffnessBuilt()
      reads this`kmat, kmat
      requires Inputs()
    {
      && kmat.Length0 == ndof && kmat.Length1 == ndof
      && forall p, q :: 0 <= p < ndof && 0 <= q < ndof ==>
           kmat[p, q] == GlobalStiffness.KEntry(x, c, props, springs, nno, nne, ldof, norm, p, q)
    }

    /** omega and U are what NFA returns for the stored K and M. */
    ghost predicate Analysed()
      reads this`kmat, this`mmat, this`omega, this`u, kmat, mmat, u
      requires Inputs() && kmat.Length0 == ndof && kmat.Length1 == ndof && mmat.Length0 == ndof && mmat.Length1 == ndof
    {
      var p := Problem(kmat, mmat, ndof, ldof, bound);
      var e := eigh(p.0, p.1, subset);
      omega == Omega(e.0, sqrt) && Cells(u) == Normalised(e.1, |p.0|, |e.0|)
    }

    constructor (x: seq<Vec3>, c: seq<Element>, props: PropTable, bound: seq<NodalRow>, springs: seq<NodalRow>,
                 subset: Option<Subset>, norm: Vec3 -> real, eigh: Eigensolver, sqrt: real -> real)
      requires IsNorm(norm) && IsEigensolver(eigh)
      requires GlobalMass.Buildable(x, c, props, |x|, |c|, 6)
      requires GlobalStiffness.Buildable(x, c, props, springs, |x|, |c|, 6)
      ensures this.x == x && this.c == c && this.props == props && this.bound == bound
      ensures this.springs == springs && this.subset == subset
      ensures this.norm == norm && this.eigh == eigh && this.sqrt == sqrt
      ensures ldof == 6 && nno == |x| && nne == |c| && ndof == 6 * |x|
      ensures Inputs()
      ensures mill == MillPresent(props)
      ensures fresh(mmat) && fresh(kmat) && fresh(u)
      ensures MassBuilt() && StiffnessBuilt() && Analysed()
    {
      this.x := x;
      this.c := c;
      this.props := props;
      this.bound := bound;
      this.springs := springs;
      this.subset := subset;
      this.norm := norm;
      this.eigh := eigh;
      this.sqrt := sqrt;
      ldof := 6;
      nno := |x|;
      nne := |c|;
      ndof := |x| * 6;
      var m := DetectMill(props);
      mill := m;
      new;
      Run();
    }

    /** Lines 53-56: build M, build K, then solve the eigenproblem. */
    method Run()
      requires Inputs()
      modifies this
      ensures mill == old(mill)
      ensures fresh(mmat) && fresh(kmat) && fresh(u)
      ensures MassBuilt() && StiffnessBuilt() && Analysed()
    {
      BuildMass();
      BuildStiffness();
      Analyse();
    }

    /** self.M = buildM(X, C, mprop, nno, nne, ldof, mill). */
    method BuildMass()
      requires Inputs()
      modifies this
      ensures fresh(mmat)
      ensures mill == old(mill) && kmat == old(kmat) && omega == old(omega) && u == old(u)
      ensures MassBuilt()
    {
      mmat := GlobalMass.BuildM(x, c, props, nno, nne, ldof, mill, norm);
    }

    /** self.K = buildK(X, C, mprop, spring_support, nno, nne, ldof); the mill flag is not
        passed. */
    method BuildStiffness()
      requires Inputs()
      modifies this
      ensures fresh(kmat)
      ensures mill == old(mill) && mmat == old(mmat) && omega == old(omega) && u == old(u)
      ensures StiffnessBuilt()
    {
      kmat := GlobalStiffness.BuildK(x, c, props, springs, nno, nne, ldof, norm);
    }

    /** self.omega, self.U = NFA(K, M, nno, ldof, bound, solve_subset). */
    method Analyse()
      requires Inputs() && kmat.Length0 == ndof && kmat.Length1 == ndof && mmat.Length0 == ndof && mmat.Length1 == ndof
      modifies this
      ensures fresh(u)
      ensures mill == old(mill) && mmat == old(mmat) && kmat == old(kmat)
      ensures Analysed()
    {
      omega, u := NFA(kmat, mmat, nno, ldof, bound, subset, eigh, sqrt);
    }
  }
}
