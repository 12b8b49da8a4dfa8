/** The re-expansion of a mode in plotmodeshapes (functions/plot/plotmodeshapes.py, lines
    28-46): a column of U, which has one row per free index when bound is nonzero, is
    written back into a zero vector over all nno ldof indices at the free positions df, built
    as NFA builds it; the vector is read as nno rows of six, the three translations of each
    node are kept, and the deformed coordinates are X plus scale times those. */
module ModeShapes {
  import opened Wrappers
  import opened Vectors
  import opened Structure
  import opened FrequencyAnalysis

  /** U[:, mode]. */
  function ModeColumn(u: array2<real>, mode: nat): (col: seq<real>)
    reads u
    requires mode < u.Length1
    ensures |col| == u.Length0 && forall r :: 0 <= r < u.Length0 ==> col[r] == u[r, mode]
  {
    seq(u.Length0, r requires 0 <= r < u.Length0 reads u => u[r, mode])
  }

  /** np.zeros(n) with U_mode[df] = col: position df[k] holds col[k], every other position 0. */
  function Expanded(col: seq<real>, df: seq<int>, n: nat): (v: seq<real>)
    requires |col| == |df|
    ensures |v| == n
  {
    seq(n, p => match IndexOf(df, p) { case Some(k) => col[k] case None => 0.0 })
  }

  /** The entries of a full vector at the positions of df, in df order: what restricting to
      df keeps of it. */
  function Gather(v: seq<real>, df: seq<int>): (col: seq<real>)
    requires forall k :: 0 <= k < |df| ==> 0 <= df[k] < |v|
    ensures |col| == |df| && forall k :: 0 <= k < |df| ==> col[k] == v[df[k]]
  {
    seq(|df|, k requires 0 <= k < |df| => v[df[k]])
  }

  /** The free positions of the mode vector: df of NFA (functions/Mmat/NFA.py, line 35) and of
      plotmodeshapes (line 34) alike. */
  function ModeDofs(n: nat, ldof: int, bound: seq<NodalRow>): (df: seq<int>)
    ensures forall k :: 0 <= k < |df| ==> 0 <= df[k] < n
  {
    FreeDofs(n, ConstrainedDofs(bound, ldof))
  }

  /** U_mode before the reshape: the column written back at df when bound has a nonzero
      entry, the column itself otherwise. */
  function FullMode(col: seq<real>, n: nat, ldof: int, bound: seq<NodalRow>): (v: seq<real>)
    requires AnyNonzero(bound) ==> |col| == |ModeDofs(n, ldof, bound)|
  {
    if AnyNonzero(bound) then Expanded(col, ModeDofs(n, ldof, bound), n) else col
  }

  /** Lines 29-40. The assignment U_mode[df] = U[:, mode] needs U to have one row per free
      index, as the U that NFA returns has. */
  method ExpandMode(u: array2<real>, mode: nat, nno: nat, ldof: nat, bound: seq<NodalRow>) returns (full: array<real>)
    requires mode < u.Length1
    requires AnyNonzero(bound) ==> u.Length0 == |ModeDofs(ldof * nno, ldof, bound)|
    ensures fresh(full)
    ensures full[..] == FullMode(ModeColumn(u, mode), ldof * nno, ldof, bound)
  {
    var n := ldof * nno;
    if AnyNonzero(bound) {
      full := new real[n](_ => 0.0);
      var df := ModeDofs(n, ldof, bound);
      FreeDofsDistinct(n, ConstrainedDofs(bound, ldof));
      forall k | 0 <= k < |df| {
        full[df[k]] := u[k, mode];
      }
      ghost var v := Expanded(ModeColumn(u, mode), df, n);
      forall p | 0 <= p < n
        ensures full[p] == v[p]
      {
        match IndexOf(df, p) {
          case Some(k) => IndexOfDistinct(df, k);
          case None =>
        }
      }
      assert full[..] == v;
    } else {
      full := new real[u.Length0](r requires 0 <= r < u.Length0 reads u => u[r, mode]);
      assert full[..] == ModeColumn(u, mode);
    }
  }

  /** Writing a column back at df and restricting to df again gives the column. */
  lemma GatherExpanded(col: seq<real>, df: seq<int>, n: nat)
    requires |col| == |df| && Distinct(df) && forall k :: 0 <= k < |df| ==> 0 <= df[k] < n
    ensures Gather(Expanded(col, df, n), df) == col
  {
    forall k | 0 <= k < |df|
      ensures Expanded(col, df, n)[df[k]] == col[k]
    {
      IndexOfDistinct(df, k);
    }
  }

  /** A vector over all indices that is zero off df is the write-back of its restriction:
      restriction and re-expansion are inverse on such vectors. */
  lemma ExpandedGather(v: seq<real>, df: seq<int>)
    requires Distinct(df) && forall k :: 0 <= k < |df| ==> 0 <= df[k] < |v|
    requires forall p :: 0 <= p < |v| && IndexOf(df, p).None? ==> v[p] == 0.0
    ensures Expanded(Gather(v, df), df, |v|) == v
  {
    var w := Expanded(Gather(v, df), df, |v|);
    forall p | 0 <= p < |v|
      ensures w[p] == v[p]
    {
    }
  }

  /** The expanded mode is zero at every constrained index of the model. */
  lemma ExpandedConstrained(col: seq<real>, n: nat, ldof: int, bound: seq<NodalRow>, i: nat)
    requires AnyNonzero(bound) && |col| == |ModeDofs(n, ldof, bound)|
    requires i < |bound| && 0 <= RowIndex(bound[i], ldof) < n
    ensures FullMode(col, n, ldof, bound)[RowIndex(bound[i], ldof)] == 0.0
  {
    var du := ConstrainedDofs(bound, ldof);
    var p := RowIndex(bound[i], ldof);
    assert du[i] == p;
    FreeDofsMembers(n, du, p);
    assert IndexOf(ModeDofs(n, ldof, bound), p).None?;
  }

  /** At a free index the expanded mode holds the column entry of that index's place in df. */
  lemma ExpandedFree(col: seq<real>, n: nat, ldof: int, bound: seq<NodalRow>, k: nat)
    requires AnyNonzero(bound) && |col| == |ModeDofs(n, ldof, bound)| && k < |col|
    ensures FullMode(col, n, ldof, bound)[ModeDofs(n, ldof, bound)[k]] == col[k]
  {
    var df := ModeDofs(n, ldof, bound);
    FreeDofsDistinct(n, ConstrainedDofs(bound, ldof));
    IndexOfDistinct(df, k);
  }

  /** U_mode.reshape((nno, 6))[:, 0:3]: the first three of each node's six entries. */
  function Translations(full: seq<real>, nno: nat): (t: seq<Vec3>)
    requires |full| == 6 * nno
    ensures |t| == nno
  {
    seq(nno, i requires 0 <= i < nno => Vec3(full[6 * i], full[6 * i + 1], full[6 * i + 2]))
  }

  /** Component d (1, 2 or 3) of a vector. */
  function Component(v: Vec3, d: int): real
    requires 1 <= d <= 3
  {
    if d == 1 then v.x else if d == 2 then v.y else v.z
  }

  /** The translation of node n (counted from 1) in direction d is entry 6 (n - 1) + d - 1 of
      the full vector; directions 4 to 6, the rotations, are dropped. */
  lemma TranslationIndex(full: seq<real>, nno: nat, node: int, d: int)
    requires |full| == 6 * nno && 1 <= node <= nno && 1 <= d <= 3
    ensures Component(Translations(full, nno)[node - 1], d) == full[DofIndex(node, d, 6)]
  {
  }

  /** A rotation entry does not reach the translations: changing it leaves them alone. */
  lemma RotationsDropped(full: seq<real>, nno: nat, p: nat, x: real)
    requires |full| == 6 * nno && p < |full| && p % 6 >= 3
    ensures Translations(full[p := x], nno) == Translations(full, nno)
  {
    var t, t' := Translations(full, nno), Translations(full[p := x], nno);
    forall i | 0 <= i < nno
      ensures t'[i] == t[i]
    {
      assert 6 * i != p && 6 * i + 1 != p && 6 * i + 2 != p;
    }
  }

  /** X_deformed = X + scale U_mode. */
  function Deformed(x: seq<Vec3>, t: seq<Vec3>, scale: real): (xd: seq<Vec3>)
    requires |t| == |x|
    ensures |xd| == |x|
  {
    seq(|x|, i requires 0 <= i < |x| => Add(x[i], Scale(scale, t[i])))
  }

  /** Each deformed node sits at its coordinates moved by scale times its translation; at
      scale 0 the structure is undeformed. */
  lemma DeformedNode(x: seq<Vec3>, t: seq<Vec3>, scale: real, i: nat)
    requires |t| == |x| && i < |x|
    ensures Sub(Deformed(x, t, scale)[i], x[i]) == Scale(scale, t[i])
    ensures scale == 0.0 ==> Deformed(x, t, scale)[i] == x[i]
  {
  }

  /** Lines 28-46: the deformed coordinates of mode `mode`. The reshape to six entries per
      node needs nno ldof = 6 nno entries, so ldof is 6 (the value VIBframe uses), and the
      column used as-is needs one entry per index. */
  method ModeShape(x: seq<Vec3>, u: array2<real>, mode: nat, nno: nat, ldof: nat, bound: seq<NodalRow>, scale: real)
    returns (xd: seq<Vec3>)
    requires |x| == nno && ldof == 6 && mode < u.Length1
    requires if AnyNonzero(bound) then u.Length0 == |ModeDofs(ldof * nno, ldof, bound)| else u.Length0 == ldof * nno
    ensures xd == Deformed(x, Translations(FullMode(ModeColumn(u, mode), ldof * nno, ldof, bound), nno), scale)
  {
    var full := ExpandMode(u, mode, nno, ldof, bound);
    xd := Deformed(x, Translations(full[..], nno), scale);
  }
}
