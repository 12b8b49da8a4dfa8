/** buildC (functions/indata/buildC.py): the connectivity of a jacket with nn_levels levels.
    The jacket has four sides; each side has 3 nn_levels + 2 node positions held in the list
    idx, and writes 5 nn_levels consecutive rows of C from it. Between sides idx is updated:
    the positions 0, 2, 5, ..., 3 nn_levels - 1 take the node of the next position (the
    corner shared with the previous side), on the last side the positions 1, 3, 6, ...,
    3 nn_levels take the node of the same number (nodes of the first side), and the remaining
    positions take new node numbers counting up from the first node of the last row written.
    The pile and transition-piece rows C_TP are separate. */
module Connectivity {
  import opened Wrappers
  import opened Structure

  /** The positions of update_idx = [0, 2, 5, ..., 2 + 3 (nn_levels - 1)]. */
  predicate ShiftPos(k: int, levels: nat)
  {
    k == 0 || (2 <= k <= 3 * levels - 1 && k % 3 == 2)
  }

  /** The positions of side1nodes_idx = [1, 3, 6, ..., 3 + 3 (nn_levels - 1)]. */
  predicate PinPos(k: int, levels: nat)
  {
    k == 1 || (3 <= k <= 3 * levels && k % 3 == 0)
  }

  /** A position that keeps an old node on the side being built. */
  predicate Kept(k: int, levels: nat, last: bool)
  {
    ShiftPos(k, levels) || (last && PinPos(k, levels))
  }

  /** np.setdiff1d(np.arange(0, n), update_idx): the other positions below n, ascending. */
  function Remaining(n: nat, levels: nat, last: bool): (rem: seq<int>)
    ensures forall r :: 0 <= r < |rem| ==> 0 <= rem[r] < n && !Kept(rem[r], levels, last)
    ensures forall r, s :: 0 <= r < s < |rem| ==> rem[r] < rem[s]
  {
    if n == 0 then [] else Remaining(n - 1, levels, last) + (if Kept(n - 1, levels, last) then [] else [n - 1])
  }

  /** Every position below n that is not kept is in the list. */
  lemma {:induction false} RemainingMembers(n: nat, levels: nat, last: bool, k: int)
    ensures k in Remaining(n, levels, last) <==> 0 <= k < n && !Kept(k, levels, last)
  {
    if n > 0 {
      RemainingMembers(n - 1, levels, last, k);
    }
  }

  lemma RemainingDistinct(n: nat, levels: nat, last: bool)
    ensures Distinct(Remaining(n, levels, last))
  {
    var rem := Remaining(n, levels, last);
    forall r, s | 0 <= r < |rem| && 0 <= s < |rem| && r != s
      ensures rem[r] != rem[s]
    {
      if r < s {
        assert rem[r] < rem[s];
      } else {
        assert rem[s] < rem[r];
      }
    }
  }

  /** The number of node positions of a side, nno_per_side = 5 + 3 (nn_levels - 1). */
  function SideLength(levels: nat): nat
  {
    3 * levels + 2
  }

  /** idx after `for i in update_idx: idx[i] = idx[i + 1]`: no position i + 1 is itself
      updated, so each updated position takes the old node of the next one. */
  function Shifted(a: seq<int>, levels: nat): (b: seq<int>)
    requires |a| == SideLength(levels)
    ensures |b| == |a|
  {
    seq(|a|, k requires 0 <= k < |a| => if ShiftPos(k, levels) then a[k + 1] else a[k])
  }

  /** idx[side1nodes_idx] = side1nodes_idx. */
  function Pinned(a: seq<int>, levels: nat): (b: seq<int>)
    ensures |b| == |a|
  {
    seq(|a|, k requires 0 <= k < |a| => if PinPos(k, levels) then k else a[k])
  }

  /** idx[update_idx] = np.arange(nno + 1, nno + len(update_idx) + 1): the r-th remaining
      position takes node nno + 1 + r. */
  function Renumber(a: seq<int>, rem: seq<int>, nno: int): (b: seq<int>)
    ensures |b| == |a|
  {
    seq(|a|, k requires 0 <= k < |a| => match IndexOf(rem, k) { case Some(r) => nno + 1 + r case None => a[k] })
  }

  /** The five rows of level 1 (lines 89-90). */
  function FirstLevelRow(a: seq<int>, levels: nat, r: int): Element
    requires |a| == SideLength(levels) && levels >= 1
  {
    if r == 0 then Element(a[0], a[4], 1)
    else if r == 1 then Element(a[1], a[3], levels + 1)
    else if r == 2 then Element(a[1], a[4], 1)
    else if r == 3 then Element(a[4], a[2], 1)
    else Element(a[4], a[3], 1)
  }

  /** The five rows of level i + 1 (lines 95-105), for 1 <= i < nn_levels. */
  function LevelRow(a: seq<int>, levels: nat, i: int, r: int): Element
    requires |a| == SideLength(levels) && 1 <= i < levels
  {
    if r == 0 then Element(a[3 * i - 1], a[3 * (i + 1) + 1], i + 1)
    else if r == 1 then Element(a[3 * i], a[3 * (i + 1)], i + 1 + levels)
    else if r == 2 then Element(a[3 * i], a[3 * (i + 1) + 1], i + 1)
    else if r == 3 then Element(a[3 * i + 4], a[3 * i + 2], i + 1)
    else Element(a[3 * i + 4], a[3 * i + 3], i + 1)
  }

  /** Row t of a side (0 <= t < 5 nn_levels): row t % 5 of level t / 5 + 1. */
  function Row(a: seq<int>, levels: nat, t: int): (row: Element)
    requires |a| == SideLength(levels) && 0 <= t < 5 * levels
  {
    if t < 5 then FirstLevelRow(a, levels, t) else LevelRow(a, levels, t / 5, t % 5)
  }

  /** nno = C[idx_nne - 1, 0] once a side is written: the first node of its last row, which is
      the node at the side's last position (see LastRowFirstNode). */
  function LastFirstNode(a: seq<int>, levels: nat): int
    requires |a| == SideLength(levels) && levels >= 1
  {
    a[3 * levels + 1]
  }

  lemma LastRowFirstNode(a: seq<int>, levels: nat)
    requires |a| == SideLength(levels) && levels >= 1
    ensures Row(a, levels, 5 * levels - 1).n1 == LastFirstNode(a, levels)
  {
    if levels > 1 {
      assert (5 * levels - 1) / 5 == levels - 1 && (5 * levels - 1) % 5 == 4;
    }
  }

  /** idx for the side after prev, nno being the first node of prev's last row. */
  function NextIndex(prev: seq<int>, levels: nat, last: bool, nno: int): (a: seq<int>)
    requires |prev| == SideLength(levels)
    ensures |a| == SideLength(levels)
  {
    var shifted := Shifted(prev, levels);
    Renumber(if last then Pinned(shifted, levels) else shifted, Remaining(SideLength(levels), levels, last), nno)
  }

  /** idx while side s is written. */
  function IndexAt(levels: nat, s: nat): (a: seq<int>)
    requires levels >= 1
    ensures |a| == SideLength(levels)
  {
    if s == 0 then seq(SideLength(levels), k => k + 1)
    else
      var prev := IndexAt(levels, s - 1);
      NextIndex(prev, levels, s == 3, LastFirstNode(prev, levels))
  }

  lemma IndexAtNext(levels: nat, s: nat)
    requires levels >= 1 && s >= 1
    ensures IndexAt(levels, s) == NextIndex(IndexAt(levels, s - 1), levels, s == 3, LastFirstNode(IndexAt(levels, s - 1), levels))
  {
  }

  /** The first row of side s, 5 s nn_levels. */
  function SideStart(levels: nat, s: nat): nat
    requires s <= 4
  {
    if s == 0 then 0 else if s == 1 then 5 * levels else if s == 2 then 10 * levels
    else if s == 3 then 15 * levels else 20 * levels
  }

  lemma SideStartNext(levels: nat, s: nat)
    requires s < 4
    ensures SideStart(levels, s + 1) == SideStart(levels, s) + 5 * levels
  {
  }

  lemma SideStartBelow(levels: nat, s: nat, s': nat)
    requires s < s' <= 4
    ensures SideStart(levels, s) + 5 * levels <= SideStart(levels, s')
  {
  }

  /** The five rows of level i + 1 of a side (0 <= i < nn_levels). */
  function LevelRows(a: seq<int>, levels: nat, i: nat): (rows: seq<Element>)
    requires |a| == SideLength(levels) && i < levels
    ensures |rows| == 5
  {
    if i == 0 then
      [FirstLevelRow(a, levels, 0), FirstLevelRow(a, levels, 1), FirstLevelRow(a, levels, 2),
       FirstLevelRow(a, levels, 3), FirstLevelRow(a, levels, 4)]
    else
      [LevelRow(a, levels, i, 0), LevelRow(a, levels, i, 1), LevelRow(a, levels, i, 2),
       LevelRow(a, levels, i, 3), LevelRow(a, levels, i, 4)]
  }

  /** The rows of the first i levels of a side. */
  function LevelsUpTo(a: seq<int>, levels: nat, i: nat): (rows: seq<Element>)
    requires |a| == SideLength(levels) && i <= levels
    ensures |rows| == 5 * i
  {
    if i == 0 then [] else LevelsUpTo(a, levels, i - 1) + LevelRows(a, levels, i - 1)
  }

  /** The 5 nn_levels rows one side writes, idx being a. */
  function SideRows(a: seq<int>, levels: nat): (rows: seq<Element>)
    requires |a| == SideLength(levels)
    ensures |rows| == 5 * levels
  {
    seq(5 * levels, t requires 0 <= t < 5 * levels => Row(a, levels, t))
  }

  /** Row t of the first i levels is Row(a, nn_levels, t). */
  lemma {:induction false} LevelsUpToRow(a: seq<int>, levels: nat, i: nat, t: nat)
    requires |a| == SideLength(levels) && i <= levels && t < 5 * i
    ensures LevelsUpTo(a, levels, i)[t] == Row(a, levels, t)
  {
    if t < 5 * (i - 1) {
      LevelsUpToRow(a, levels, i - 1, t);
    } else {
      var r := t - 5 * (i - 1);
      assert t / 5 == i - 1 && t % 5 == r;
    }
  }

  /** Writing the levels one after another writes the side's rows. */
  lemma SideRowsByLevels(a: seq<int>, levels: nat)
    requires |a| == SideLength(levels)
    ensures LevelsUpTo(a, levels, levels) == SideRows(a, levels)
  {
    forall t | 0 <= t < 5 * levels
      ensures LevelsUpTo(a, levels, levels)[t] == SideRows(a, levels)[t]
    {
      LevelsUpToRow(a, levels, levels, t);
    }
  }

  /** The rows of the first s sides, in the order they are written. */
  function SidesUpTo(levels: nat, s: nat): (rows: seq<Element>)
    requires levels >= 1 && s <= 4
    ensures |rows| == SideStart(levels, s)
  {
    if s == 0 then [] else SidesUpTo(levels, s - 1) + SideRows(IndexAt(levels, s - 1), levels)
  }

  lemma SidesUpToNext(levels: nat, s: nat, a: seq<int>)
    requires levels >= 1 && s < 4 && a == IndexAt(levels, s)
    ensures SidesUpTo(levels, s + 1) == SidesUpTo(levels, s) + SideRows(a, levels)
  {
  }

  lemma SplitPrefix(c: seq<Element>, n: nat, m: nat)
    requires n + m <= |c|
    ensures c[..n + m] == c[..n] + c[n..n + m]
  {
  }

  lemma WholePrefix(c: seq<Element>, n: nat)
    requires n == |c|
    ensures c[..n] == c
  {
  }

  /** C: the four sides. */
  function Connectivity(levels: nat): (c: seq<Element>)
    requires levels >= 1
    ensures |c| == 20 * levels
  {
    SidesUpTo(levels, 4)
  }

  /** The last row written for side s has the first node of that side's last row. */
  lemma LastRowOfSide(c: seq<Element>, levels: nat, s: nat)
    requires levels >= 1 && s < 4 && c == SidesUpTo(levels, s + 1)
    ensures c[|c| - 1].n1 == LastFirstNode(IndexAt(levels, s), levels)
  {
    assert c[|c| - 1] == SideRows(IndexAt(levels, s), levels)[5 * levels - 1];
    LastRowFirstNode(IndexAt(levels, s), levels);
  }

  /** The first node of the last row written before side s, c holding those rows first. */
  lemma LastNodeOfSides(c: seq<Element>, n: nat, levels: nat, s: nat, nno: int)
    requires levels >= 1 && 1 <= s <= 4 && n == SideStart(levels, s) && n <= |c|
    requires c[..n] == SidesUpTo(levels, s) && nno == c[n - 1].n1
    ensures nno == LastFirstNode(IndexAt(levels, s - 1), levels)
  {
    assert c[..n][n - 1] == c[n - 1];
    LastRowOfSide(c[..n], levels, s - 1);
  }

  /** The four sides' rows cover C: row r is row t of side s for one s and t. */
  lemma SidesCover(levels: nat, r: int) returns (s: nat, t: nat)
    requires levels >= 1 && 0 <= r < 20 * levels
    ensures s < 4 && t < 5 * levels && r == SideStart(levels, s) + t
  {
    if r < 5 * levels {
      s, t := 0, r;
    } else if r < 10 * levels {
      s, t := 1, r - 5 * levels;
    } else if r < 15 * levels {
      s, t := 2, r - 10 * levels;
    } else {
      s, t := 3, r - 15 * levels;
    }
  }

  lemma ConcatAt(p: seq<Element>, q: seq<Element>, i: nat)
    requires i < |p| + |q|
    ensures (p + q)[i] == if i < |p| then p[i] else q[i - |p|]
  {
  }

  /** Row t of side s sits at row SideStart(s) + t of the first n sides written. */
  lemma {:induction false} SidesUpToRow(levels: nat, n: nat, s: nat, t: nat)
    requires levels >= 1 && s < n <= 4 && t < 5 * levels
    ensures SidesUpTo(levels, n)[SideStart(levels, s) + t] == Row(IndexAt(levels, s), levels, t)
  {
    SideStartNext(levels, n - 1);
    var a := IndexAt(levels, n - 1);
    var prefix := SidesUpTo(levels, n - 1);
    SidesUpToNext(levels, n - 1, a);
    ConcatAt(prefix, SideRows(a, levels), SideStart(levels, s) + t);
    if s < n - 1 {
      SideStartBelow(levels, s, n - 1);
      SidesUpToRow(levels, n - 1, s, t);
    }
  }

  /** Every row of C is a row of one of the four sides, and its property number lies in
      1 ... 2 nn_levels. */
  lemma ConnectivityRows(levels: nat, r: int)
    requires levels >= 1 && 0 <= r < 20 * levels
    ensures exists s, t :: 0 <= s < 4 && 0 <= t < 5 * levels && r == SideStart(levels, s) + t && Connectivity(levels)[r] == Row(IndexAt(levels, s), levels, t)
    ensures 1 <= Connectivity(levels)[r].prop <= 2 * levels
  {
    var s, t := SidesCover(levels, r);
    SidesUpToRow(levels, 4, s, t);
    RowProperty(IndexAt(levels, s), levels, t);
  }

  /** nno_max = (4 + 8 nn_levels) + (nne_per_beam - 1) 20 nn_levels. */
  function NnoMax(levels: int, perBeam: int): int
  {
    (4 + 8 * levels) + (perBeam - 1) * 20 * levels
  }

  /** C_TP: the eight pile rows, then with TP the four transition braces. */
  function PileRows(levels: int, nnoMax: int, tp: bool): (ctp: seq<Element>)
  {
    var piles := [Element(1, nnoMax + 1, levels + 1),
                  Element(2, nnoMax + 2, levels + 1),
                  Element(6 + (levels - 1) * 3, nnoMax + 3, levels + 1),
                  Element(9 + (levels - 1) * 5, nnoMax + 4, levels + 1),
                  Element(levels * 3, nnoMax + 5, levels * 2),
                  Element(levels * 3 + 1, nnoMax + 6, levels * 2),
                  Element(2 + 5 * levels, nnoMax + 7, levels * 2),
                  Element(3 + 7 * levels, nnoMax + 8, levels * 2)];
    if tp then
      piles + [Element(nnoMax + 5, nnoMax + 9, levels * 2 + 1),
               Element(nnoMax + 6, nnoMax + 9, levels * 2 + 1),
               Element(nnoMax + 7, nnoMax + 9, levels * 2 + 1),
               Element(nnoMax + 8, nnoMax + 9, levels * 2 + 1)]
    else piles
  }

  /** Entry k of idx once the first t positions of update_idx have been shifted. */
  function ShiftedBelow(a: seq<int>, levels: nat, t: int, k: int): int
    requires |a| == SideLength(levels) && 0 <= k < |a|
  {
    if ShiftPos(k, levels) && (k + 1) / 3 < t then a[k + 1] else a[k]
  }

  /** Position t of update_idx is the only shift position whose turn is t, and the entry
      after it is not itself shifted. */
  lemma ShiftStep(a: seq<int>, levels: nat, t: nat, i: int)
    requires |a| == SideLength(levels) && t <= levels && i == if t == 0 then 0 else 3 * t - 1
    ensures ShiftPos(i, levels) && 0 <= i < i + 1 < |a| && (i + 1) / 3 == t && !ShiftPos(i + 1, levels)
    ensures forall k :: 0 <= k < |a| && k != i ==> ShiftedBelow(a, levels, t + 1, k) == ShiftedBelow(a, levels, t, k)
  {
    forall k | 0 <= k < |a| && k != i
      ensures ShiftedBelow(a, levels, t + 1, k) == ShiftedBelow(a, levels, t, k)
    {
      assert ShiftPos(k, levels) && (k + 1) / 3 == t ==> k == i;
    }
  }

  /** After every turn, every shift position holds its right neighbour. */
  lemma ShiftDone(a: seq<int>, levels: nat)
    requires |a| == SideLength(levels)
    ensures forall k :: 0 <= k < |a| ==> ShiftedBelow(a, levels, levels + 1, k) == Shifted(a, levels)[k]
  {
  }

  /** Lines 48-51 and 73-76: the loop over update_idx. */
  method ShiftIndex(idx: array<int>, levels: nat)
    requires levels >= 1 && idx.Length == SideLength(levels)
    modifies idx
    ensures idx[..] == Shifted(old(idx[..]), levels)
  {
    ghost var a := idx[..];
    var update := [0] + seq(levels, m => 2 + 3 * m);
    for t := 0 to |update|
      invariant forall k :: 0 <= k < idx.Length ==> idx[k] == ShiftedBelow(a, levels, t, k)
    {
      var i := update[t];
      ShiftStep(a, levels, t, i);
      assert idx[i + 1] == ShiftedBelow(a, levels, t, i + 1);
      idx[i] := idx[i + 1];
    }
    ShiftDone(a, levels);
    assert idx[..] == Shifted(a, levels);
  }

  /** Line 56: idx[side1nodes_idx] = side1nodes_idx. */
  method PinIndex(idx: array<int>, levels: nat)
    modifies idx
    ensures idx[..] == Pinned(old(idx[..]), levels)
  {
    forall k | 0 <= k < idx.Length && PinPos(k, levels) {
      idx[k] := k;
    }
  }

  /** Lines 61-68 and 79-86: new node numbers for the remaining positions. */
  method RenumberIndex(idx: array<int>, levels: nat, last: bool, nno: int)
    requires idx.Length == SideLength(levels)
    modifies idx
    ensures idx[..] == Renumber(old(idx[..]), Remaining(SideLength(levels), levels, last), nno)
  {
    ghost var a := idx[..];
    var rem := Remaining(SideLength(levels), levels, last);
    RemainingDistinct(SideLength(levels), levels, last);
    forall r | 0 <= r < |rem| {
      idx[rem[r]] := nno + 1 + r;
    }
    ghost var b := Renumber(a, rem, nno);
    forall k | 0 <= k < idx.Length
      ensures idx[k] == b[k]
    {
      match IndexOf(rem, k) {
        case Some(r) => IndexOfDistinct(rem, r);
        case None =>
      }
    }
    assert idx[..] == b;
  }

  /** Lines 45-86 for sides 2 to 4. */
  method UpdateIndex(idx: array<int>, levels: nat, last: bool, nno: int)
    requires levels >= 1 && idx.Length == SideLength(levels)
    modifies idx
    ensures idx[..] == NextIndex(old(idx[..]), levels, last, nno)
  {
    ShiftIndex(idx, levels);
    if last {
      PinIndex(idx, levels);
    }
    RenumberIndex(idx, levels, last, nno);
  }

  /** Lines 89-91: the rows of level 1, from row n on. */
  method WriteFirstLevel(c: array<Element>, idx: array<int>, n: nat, levels: nat)
    requires levels >= 1 && idx.Length == SideLength(levels) && n + 5 <= c.Length
    modifies c
    ensures c[n..n + 5] == LevelRows(idx[..], levels, 0)
    ensures forall q :: 0 <= q < c.Length && !(n <= q < n + 5) ==> c[q] == old(c[q])
  {
    c[n] := Element(idx[0], idx[4], 1);
    c[n + 1] := Element(idx[1], idx[3], levels + 1);
    c[n + 2] := Element(idx[1], idx[4], 1);
    c[n + 3] := Element(idx[4], idx[2], 1);
    c[n + 4] := Element(idx[4], idx[3], 1);
  }

  /** Lines 94-106: the rows of level i + 1, from row n on. */
  method WriteLevel(c: array<Element>, idx: array<int>, n: nat, levels: nat, i: nat)
    requires 1 <= i < levels && idx.Length == SideLength(levels) && n + 5 <= c.Length
    modifies c
    ensures c[n..n + 5] == LevelRows(idx[..], levels, i)
    ensures forall q :: 0 <= q < c.Length && !(n <= q < n + 5) ==> c[q] == old(c[q])
  {
    c[n] := Element(idx[3 * i - 1], idx[3 * (i + 1) + 1], i + 1);
    c[n + 1] := Element(idx[3 * i], idx[3 * (i + 1)], i + 1 + levels);
    c[n + 2] := Element(idx[3 * i], idx[3 * (i + 1) + 1], i + 1);
    c[n + 3] := Element(idx[3 * i + 4], idx[3 * i + 2], i + 1);
    c[n + 4] := Element(idx[3 * i + 4], idx[3 * i + 3], i + 1);
  }

  /** Lines 89-106, one pass: level i + 1 follows the first i levels, written from `start`
      on. */
  method WriteNextLevel(c: array<Element>, idx: array<int>, start: nat, n: nat, levels: nat, i: nat)
    requires i < levels && idx.Length == SideLength(levels) && n == start + 5 * i && n + 5 <= c.Length
    requires c[start..n] == LevelsUpTo(idx[..], levels, i)
    modifies c
    ensures c[start..n + 5] == LevelsUpTo(idx[..], levels, i + 1)
    ensures forall q :: 0 <= q < c.Length && !(n <= q < n + 5) ==> c[q] == old(c[q])
  {
    ghost var before := c[start..n];
    if i == 0 {
      WriteFirstLevel(c, idx, n, levels);
    } else {
      WriteLevel(c, idx, n, levels, i);
    }
    assert c[start..n] == before;
    assert c[start..n + 5] == c[start..n] + c[n..n + 5];
  }

  /** Lines 89-106: the rows of the nn_levels levels of one side, written from row `start`
      on. */
  method WriteLevels(c: array<Element>, idx: array<int>, start: nat, levels: nat)
    requires levels >= 1 && idx.Length == SideLength(levels) && start + 5 * levels <= c.Length
    modifies c
    ensures c[start..start + 5 * levels] == LevelsUpTo(idx[..], levels, levels)
    ensures forall q :: 0 <= q < c.Length && !(start <= q < start + 5 * levels) ==> c[q] == old(c[q])
  {
    var n := start;
    for i := 0 to levels
      invariant n == start + 5 * i
      invariant c[start..n] == LevelsUpTo(idx[..], levels, i)
      invariant forall q :: 0 <= q < c.Length && !(start <= q < n) ==> c[q] == old(c[q])
    {
      WriteNextLevel(c, idx, start, n, levels, i);
      n := n + 5;
    }
  }

  /** Lines 89-106: the 5 nn_levels rows of one side, written from row `start` on. */
  method WriteSide(c: array<Element>, idx: array<int>, start: nat, levels: nat)
    requires levels >= 1 && idx.Length == SideLength(levels) && start + 5 * levels <= c.Length
    modifies c
    ensures c[start..start + 5 * levels] == SideRows(idx[..], levels)
    ensures forall q :: 0 <= q < c.Length && !(start <= q < start + 5 * levels) ==> c[q] == old(c[q])
  {
    WriteLevels(c, idx, start, levels);
    SideRowsByLevels(idx[..], levels);
  }

  /** Lines 65-86: idx for side s from idx for side s - 1, nno being the first node of the
      last row written. */
  method NextSide(idx: array<int>, levels: nat, side: nat, nno: int)
    requires levels >= 1 && 1 <= side < 4
    requires idx.Length == SideLength(levels) && idx[..] == IndexAt(levels, side - 1)
    requires nno == LastFirstNode(idx[..], levels)
    modifies idx
    ensures idx[..] == IndexAt(levels, side)
  {
    UpdateIndex(idx, levels, side == 3, nno);
    IndexAtNext(levels, side);
  }

  /** Lines 65-80: nno is the first node of the last row written. */
  method AdvanceSide(c: array<Element>, idx: array<int>, levels: nat, side: nat)
    requires levels >= 1 && 1 <= side < 4
    requires idx.Length == SideLength(levels) && idx[..] == IndexAt(levels, side - 1)
    requires SideStart(levels, side) <= c.Length && c[..SideStart(levels, side)] == SidesUpTo(levels, side)
    modifies idx
    ensures idx[..] == IndexAt(levels, side)
  {
    var n := SideStart(levels, side);
    var nno := c[n - 1].n1;
    LastNodeOfSides(c[..], n, levels, side, nno);
    NextSide(idx, levels, side, nno);
  }

  /** Lines 88-106 for one side: its rows follow the rows already written. */
  method AppendSide(c: array<Element>, idx: array<int>, start: nat, levels: nat, ghost prefix: seq<Element>)
    requires levels >= 1 && idx.Length == SideLength(levels) && start + 5 * levels <= c.Length
    requires c[..start] == prefix
    modifies c
    ensures c[..start + 5 * levels] == prefix + SideRows(idx[..], levels)
  {
    WriteSide(c, idx, start, levels);
    assert c[..start] == prefix;
    SplitPrefix(c[..], start, 5 * levels);
  }

  /** Lines 45-106 for sides 2 to 4: idx is updated, then the side's rows follow the rows
      already written. */
  method NextSideRows(c: array<Element>, idx: array<int>, levels: nat, side: nat)
    requires levels >= 1 && 1 <= side < 4 && c.Length == 20 * levels
    requires idx.Length == SideLength(levels) && idx[..] == IndexAt(levels, side - 1)
    requires c[..SideStart(levels, side)] == SidesUpTo(levels, side)
    modifies c, idx
    ensures idx[..] == IndexAt(levels, side)
    ensures c[..SideStart(levels, side + 1)] == SidesUpTo(levels, side + 1)
  {
    SideStartNext(levels, side);
    AdvanceSide(c, idx, levels, side);
    AppendSide(c, idx, SideStart(levels, side), levels, SidesUpTo(levels, side));
    SidesUpToNext(levels, side, idx[..]);
  }

  /** Lines 41-43 and 88-106 for side 1: idx = np.arange(1, 6 + 3 (nn_levels - 1)), and the
      first rows of C. */
  method FirstSideRows(c: array<Element>, levels: nat) returns (idx: array<int>)
    requires levels >= 1 && c.Length == 20 * levels
    modifies c
    ensures fresh(idx) && idx.Length == SideLength(levels) && idx[..] == IndexAt(levels, 0)
    ensures c[..SideStart(levels, 1)] == SidesUpTo(levels, 1)
  {
    idx := new int[5 + 3 * (levels - 1)](k => k + 1);
    assert idx[..] == IndexAt(levels, 0);
    AppendSide(c, idx, 0, levels, []);
    SidesUpToNext(levels, 0, idx[..]);
  }

  /** One pass of the loop over the sides (lines 38-106): idx for the side, then its rows. */
  method BuildSide(c: array<Element>, idx: array<int>, levels: nat, side: nat) returns (next: array<int>)
    requires levels >= 1 && side < 4 && c.Length == 20 * levels
    requires side > 0 ==> idx.Length == SideLength(levels) && idx[..] == IndexAt(levels, side - 1)
    requires c[..SideStart(levels, side)] == SidesUpTo(levels, side)
    modifies c, idx
    ensures side == 0 ==> fresh(next)
    ensures side > 0 ==> next == idx
    ensures next.Length == SideLength(levels) && next[..] == IndexAt(levels, side)
    ensures c[..SideStart(levels, side + 1)] == SidesUpTo(levels, side + 1)
  {
    if side == 0 {
      next := FirstSideRows(c, levels);
    } else {
      NextSideRows(c, idx, levels, side);
      next := idx;
    }
  }

  /** Lines 29-106: C, side by side. With nn_levels = 0 the first side would write five rows
      into a C of none, so nn_levels >= 1. */
  method SideConnectivity(levels: nat) returns (c: array<Element>)
    requires levels >= 1
    ensures fresh(c) && c[..] == Connectivity(levels)
  {
    var nne := 20 * levels;
    c := new Element[nne](_ => Element(0, 0, 0));
    var idxNne := 0;
    var idx := new int[0];
    for side := 0 to 4
      invariant idxNne == SideStart(levels, side)
      invariant side > 0 ==> idx.Length == SideLength(levels) && idx[..] == IndexAt(levels, side - 1)
      invariant c.Length == nne && c[..idxNne] == SidesUpTo(levels, side)
      invariant fresh(idx)
    {
      SideStartNext(levels, side);
      idx := BuildSide(c, idx, levels, side);
      idxNne := idxNne + 5 * levels;
    }
    WholePrefix(c[..], idxNne);
  }

  /** buildC(nn_levels, nne_per_beam, TP): C, then the pile rows (lines 109-135). */
  method BuildC(levels: nat, perBeam: int, tp: bool) returns (c: array<Element>, ctp: seq<Element>)
    requires levels >= 1
    ensures fresh(c) && c[..] == Connectivity(levels)
    ensures ctp == PileRows(levels, NnoMax(levels, perBeam), tp)
  {
    c := SideConnectivity(levels);
    ctp := PileRows(levels, NnoMax(levels, perBeam), tp);
  }

  /** Property numbers: level 1 uses 1 and nn_levels + 1, level i + 1 uses i + 1 and
      i + 1 + nn_levels, so every number of C lies in 1 ... 2 nn_levels. */
  lemma RowProperty(a: seq<int>, levels: nat, t: int)
    requires |a| == SideLength(levels) && 0 <= t < 5 * levels
    ensures t < 5 ==> Row(a, levels, t).prop == 1 || Row(a, levels, t).prop == levels + 1
    ensures t >= 5 ==> Row(a, levels, t).prop == t / 5 + 1 || Row(a, levels, t).prop == t / 5 + 1 + levels
    ensures 1 <= Row(a, levels, t).prop <= 2 * levels
  {
  }

  /** The first side's node positions hold the nodes 1 ... 5 + 3 (nn_levels - 1). */
  lemma FirstSideNodes(levels: nat)
    requires levels >= 1
    ensures forall k :: 0 <= k < SideLength(levels) ==> IndexAt(levels, 0)[k] == k + 1
  {
  }

  /** C_TP has twelve rows with the transition piece and eight without, the first eight
      the same either way: bottom piles with property nn_levels + 1, top piles with
      2 nn_levels, and the four transition braces with 2 nn_levels + 1, all ending at
      node nno_max + 9. */
  lemma PileRowsShape(levels: int, nnoMax: int)
    ensures |PileRows(levels, nnoMax, true)| == 12 && |PileRows(levels, nnoMax, false)| == 8
    ensures PileRows(levels, nnoMax, true)[..8] == PileRows(levels, nnoMax, false)
    ensures forall r :: 0 <= r < 4 ==> PileRows(levels, nnoMax, false)[r].prop == levels + 1
    ensures forall r :: 4 <= r < 8 ==> PileRows(levels, nnoMax, false)[r].prop == 2 * levels
    ensures forall r :: 0 <= r < 8 ==> PileRows(levels, nnoMax, false)[r].n2 == nnoMax + 1 + r
    ensures forall r :: 8 <= r < 12 ==> PileRows(levels, nnoMax, true)[r] == Element(nnoMax + r - 3, nnoMax + 9, 2 * levels + 1)
  {
  }

  /** With one element per beam nno_max is the node count 4 + 8 nn_levels of the jacket;
      each further element per beam adds one node to each of the 20 nn_levels beams. */
  lemma NnoMaxCount(levels: int, perBeam: int)
    ensures NnoMax(levels, 1) == 4 + 8 * levels
    ensures NnoMax(levels, perBeam + 1) == NnoMax(levels, perBeam) + 20 * levels
  {
  }
}
