/** mprop (functions/indata/mprop.py): the property table of a jacket with nn_levels levels.
    Level i + 1 has a brace record under key i + 1 and a leg record under key i + 1 + nn_levels,
    both tubes given by outer diameter and wall thickness; a transition piece, when present,
    goes under key 2 nn_levels + 1. */
module SectionProperties {
  import opened Wrappers
  import opened Properties

  /** np.pi. */
  const Pi: real := 3.141592653589793

  /** Young's moduli the code fixes for braces and legs, whatever E is passed. */
  const BraceModulus: real := 195000000000.0
  const LegModulus: real := 215000000000.0

  /** A row [outer diameter, thickness] of dim_brace or dim_leg. */
  datatype Tube = Tube(outer: real, thickness: real)

  function Square(x: real): real { x * x }
  function Fourth(x: real): real { Square(x) * Square(x) }

  /** r and r - t, the outer and inner radius. */
  function Outer(d: Tube): real { d.outer / 2.0 }
  function Inner(d: Tube): real { d.outer / 2.0 - d.thickness }

  function Area(d: Tube): real { Pi * (Square(Outer(d)) - Square(Inner(d))) }
  function SecondMoment(d: Tube): real { Pi / 4.0 * (Fourth(Outer(d)) - Fourth(Inner(d))) }
  function TorsionConstant(d: Tube): real { Pi / 2.0 * (Fourth(Outer(d)) - Fourth(Inner(d))) }

  /** chr(65 + i): A for the first level, B for the second, and so on. */
  function Letter(i: nat): char
    requires 65 + i < 0xD800
  {
    (65 + i) as char
  }

  function BraceLabel(i: nat): string
    requires 65 + i < 0xD800
  {
    "Steel rod brace level " + [Letter(i)]
  }

  function LegLabel(i: nat): string
    requires 65 + i < 0xD800
  {
    "Steel rod leg level " + [Letter(i)]
  }

  /** The record of the brace (or leg) of level i + 1. */
  function BraceRecord(d: Tube, i: nat, rho: real, g: real): Material
    requires 65 + i < 0xD800
  {
    Material(BraceModulus, Area(d), rho, SecondMoment(d), SecondMoment(d), TorsionConstant(d), g, Some(BraceLabel(i)))
  }

  function LegRecord(d: Tube, i: nat, rho: real, g: real): Material
    requires 65 + i < 0xD800
  {
    Material(LegModulus, Area(d), rho, SecondMoment(d), SecondMoment(d), TorsionConstant(d), g, Some(LegLabel(i)))
  }

  /** The transition piece: the only record that uses the E passed in. */
  function TransitionRecord(e: real, rho: real, g: real): Material
  {
    Material(e, 0.00368, rho, 0.00000512, 0.000000045, 0.000000165, g, Some("Transition piece"))
  }

  /** The brace records of levels 1 .. nl in order, and the same for the legs. */
  function BraceRecords(nl: nat, braces: seq<Tube>, rho: real, g: real): (ms: seq<Material>)
    requires nl <= |braces| && 65 + nl <= 0xD800
    ensures |ms| == nl && forall i :: 0 <= i < nl ==> ms[i] == BraceRecord(braces[i], i, rho, g)
  {
    seq(nl, i requires 0 <= i < nl => BraceRecord(braces[i], i, rho, g))
  }

  function LegRecords(nl: nat, legs: seq<Tube>, rho: real, g: real): (ms: seq<Material>)
    requires nl <= |legs| && 65 + nl <= 0xD800
    ensures |ms| == nl && forall i :: 0 <= i < nl ==> ms[i] == LegRecord(legs[i], i, rho, g)
  {
    seq(nl, i requires 0 <= i < nl => LegRecord(legs[i], i, rho, g))
  }

  /** The table after the first n iterations of the assignment loop, which stores the
      brace record of level k under k and its leg record under k + nl. Those keys are new
      to the table (LevelsFresh), so each assignment appends. */
  function Levels(n: nat, nl: nat, bs: seq<Material>, ls: seq<Material>): PropTable
    requires n <= |bs| && n <= |ls|
  {
    if n == 0 then [] else Levels(n - 1, nl, bs, ls) + [(n, bs[n - 1]), (n + nl, ls[n - 1])]
  }

  /** The dict mprop returns when the dimension lists are long enough. */
  function PropertyTable(nl: nat, braces: seq<Tube>, legs: seq<Tube>, e: real, g: real, rho: real, tp: bool): PropTable
    requires nl <= |braces| && nl <= |legs| && 65 + nl <= 0xD800
  {
    var t := Levels(nl, nl, BraceRecords(nl, braces, rho, g), LegRecords(nl, legs, rho, g));
    if tp then Insert(t, 2 * nl + 1, TransitionRecord(e, rho, g)) else t
  }

  /** The loop of lines 49-55 for one of the two lists: the area, the second moment of area
      and the torsional constant of each of the first n tubes. */
  method Sections(dims: seq<Tube>, n: nat) returns (area: array<real>, iyz: array<real>, tj: array<real>)
    requires n <= |dims|
    ensures fresh(area) && fresh(iyz) && fresh(tj)
    ensures area.Length == n && iyz.Length == n && tj.Length == n
    ensures forall k :: 0 <= k < n ==> area[k] == Area(dims[k]) && iyz[k] == SecondMoment(dims[k]) && tj[k] == TorsionConstant(dims[k])
  {
    area := new real[n](_ => 0.0);
    iyz := new real[n](_ => 0.0);
    tj := new real[n](_ => 0.0);
    for i := 0 to n
      invariant forall k :: 0 <= k < i ==> area[k] == Area(dims[k])
      invariant forall k :: 0 <= k < i ==> iyz[k] == SecondMoment(dims[k])
      invariant forall k :: 0 <= k < i ==> tj[k] == TorsionConstant(dims[k])
    {
      area[i] := Area(dims[i]);
      iyz[i] := SecondMoment(dims[i]);
      tj[i] := TorsionConstant(dims[i]);
    }
  }

  /** Lines 57-58: mprop[i + 1] and mprop[i + 1 + nl] for level i. */
  method AddLevel(t: PropTable, i: nat, nl: nat, ghost bs: seq<Material>, ghost ls: seq<Material>, brace: Material, leg: Material)
    returns (next: PropTable)
    requires i < nl && i < |bs| && i < |ls| && t == Levels(i, nl, bs, ls) && brace == bs[i] && leg == ls[i]
    ensures next == Levels(i + 1, nl, bs, ls)
  {
    LevelStep(t, i, nl, bs, ls);
    next := Insert(t, i + 1, brace);
    next := Insert(next, i + 1 + nl, leg);
  }

  /** Lines 49-58: the sections of both lists, then the brace and leg record of every level. */
  method LevelTable(nl: nat, braces: seq<Tube>, legs: seq<Tube>, g: real, rho: real) returns (t: PropTable)
    requires nl == |braces| && nl == |legs| && 65 + nl <= 0xD800
    ensures t == Levels(nl, nl, BraceRecords(nl, braces, rho, g), LegRecords(nl, legs, rho, g))
  {
    var aBrace, iBrace, jBrace := Sections(braces, nl);
    var aLeg, iLeg, jLeg := Sections(legs, nl);
    ghost var bs, ls := BraceRecords(nl, braces, rho, g), LegRecords(nl, legs, rho, g);
    t := [];
    for i := 0 to nl
      invariant t == Levels(i, nl, bs, ls)
      modifies {}
    {
      var brace := Material(BraceModulus, aBrace[i], rho, iBrace[i], iBrace[i], jBrace[i], g, Some(BraceLabel(i)));
      var leg := Material(LegModulus, aLeg[i], rho, iLeg[i], iLeg[i], jLeg[i], g, Some(LegLabel(i)));
      assert brace == bs[i] && leg == ls[i];
      t := AddLevel(t, i, nl, bs, ls, brace, leg);
    }
  }

  /** mprop with the guard its message describes: None unless both lists have one row per
      level. */
  method Mprop(nl: nat, braces: seq<Tube>, legs: seq<Tube>, e: real, g: real, rho: real, tp: bool) returns (r: Option<PropTable>)
    requires 65 + nl <= 0xD800
    ensures r.None? <==> nl != |braces| || nl != |legs|
    ensures r.Some? ==> r.value == PropertyTable(nl, braces, legs, e, g, rho, tp)
  {
    if nl != |braces| || nl != |legs| {
      return None;
    }
    var t := LevelTable(nl, braces, legs, g, rho);
    if tp {
      t := Insert(t, nl * 2 + 1, TransitionRecord(e, rho, g));
    }
    r := Some(t);
  }

  /** What mprop.py computes as written, whose guard joins the two length tests with `and`:
      a list with too few rows gets past it when the other list is right, and the loop then
      indexes past its end. */
  datatype Outcome = Returned(table: Option<PropTable>) | IndexError

  function MpropAsWritten(nl: nat, braces: seq<Tube>, legs: seq<Tube>, e: real, g: real, rho: real, tp: bool): (r: Outcome)
    requires 65 + nl <= 0xD800
    ensures r == Returned(None) <==> nl != |braces| && nl != |legs|
    ensures r == IndexError <==> (nl == |braces| || nl == |legs|) && (|braces| < nl || |legs| < nl)
    ensures r.Returned? && r.table.Some? ==>
              nl <= |braces| && nl <= |legs| && r.table.value == PropertyTable(nl, braces[..nl], legs[..nl], e, g, rho, tp)
  {
    if nl != |braces| && nl != |legs| then Returned(None)
    else if |braces| < nl || |legs| < nl then IndexError
    else
      ExtraRowsIgnored(nl, braces, legs, e, g, rho, tp);
      Returned(Some(PropertyTable(nl, braces, legs, e, g, rho, tp)))
  }

  /** mprop reads only the first nl rows of each list. */
  lemma ExtraRowsIgnored(nl: nat, braces: seq<Tube>, legs: seq<Tube>, e: real, g: real, rho: real, tp: bool)
    requires nl <= |braces| && nl <= |legs| && 65 + nl <= 0xD800
    ensures PropertyTable(nl, braces, legs, e, g, rho, tp) == PropertyTable(nl, braces[..nl], legs[..nl], e, g, rho, tp)
  {
    assert BraceRecords(nl, braces, rho, g) == BraceRecords(nl, braces[..nl], rho, g);
    assert LegRecords(nl, legs, rho, g) == LegRecords(nl, legs[..nl], rho, g);
  }

  /** Two levels, two brace rows and one leg row: the code as written fails reading the
      second leg row, where the guard was meant to return None. */
  lemma ShortLegListFails(d: Tube, e: real, g: real, rho: real)
    ensures MpropAsWritten(2, [d, d], [d], e, g, rho, false) == IndexError
  {
  }

  /** One level with one brace row and two leg rows: the code as written returns a table and
      ignores the extra row, where the guard was meant to return None. */
  lemma LongLegListAccepted(d: Tube, e: real, g: real, rho: real)
    ensures MpropAsWritten(1, [d], [d, d], e, g, rho, false).Returned?
    ensures MpropAsWritten(1, [d], [d, d], e, g, rho, false).table.Some?
  {
  }

  /** Where both lists match nn_levels the corrected guard agrees with the one as written. */
  lemma AgreesWhenLengthsMatch(nl: nat, braces: seq<Tube>, legs: seq<Tube>, e: real, g: real, rho: real, tp: bool)
    requires 65 + nl <= 0xD800 && nl == |braces| && nl == |legs|
    ensures MpropAsWritten(nl, braces, legs, e, g, rho, tp) == Returned(Some(PropertyTable(nl, braces, legs, e, g, rho, tp)))
  {
  }

  /** Brace and leg records have Iy = Iz and J = 2 Iy. */
  lemma TubeConstants(d: Tube, i: nat, rho: real, g: real)
    requires 65 + i < 0xD800
    ensures BraceRecord(d, i, rho, g).iy == BraceRecord(d, i, rho, g).iz
    ensures BraceRecord(d, i, rho, g).j == 2.0 * BraceRecord(d, i, rho, g).iy
    ensures LegRecord(d, i, rho, g).iy == LegRecord(d, i, rho, g).iz
    ensures LegRecord(d, i, rho, g).j == 2.0 * LegRecord(d, i, rho, g).iy
  {
  }

  /** After n iterations the table holds, in this order, brace 1, leg 1, brace 2, leg 2, ...:
      item 2k is key k + 1 with the brace record of level k + 1 and item 2k + 1 is key
      k + 1 + nl with its leg record. */
  lemma {:induction false} LevelsItems(n: nat, nl: nat, bs: seq<Material>, ls: seq<Material>)
    requires n <= nl && n <= |bs| && n <= |ls|
    ensures var t := Levels(n, nl, bs, ls);
      |t| == 2 * n &&
      (forall k :: 1 <= k <= n ==> t[2 * k - 2] == (k, bs[k - 1])) &&
      (forall k :: 1 <= k <= n ==> t[2 * k - 1] == (k + nl, ls[k - 1])) &&
      (forall i :: 0 <= i < |t| ==> 1 <= t[i].0 <= n || nl + 1 <= t[i].0 <= nl + n)
  {
    if n > 0 {
      LevelsItems(n - 1, nl, bs, ls);
    }
  }

  /** No key occurs twice. */
  lemma LevelsDistinct(n: nat, nl: nat, bs: seq<Material>, ls: seq<Material>)
    requires n <= nl && n <= |bs| && n <= |ls|
    ensures DistinctKeys(Levels(n, nl, bs, ls))
  {
    var t := Levels(n, nl, bs, ls);
    LevelsItems(n, nl, bs, ls);
    forall i, j | 0 <= i < j < |t|
      ensures t[i].0 != t[j].0
    {
      LevelsItem(n, nl, bs, ls, i);
      LevelsItem(n, nl, bs, ls, j);
    }
  }

  lemma LevelsItem(n: nat, nl: nat, bs: seq<Material>, ls: seq<Material>, i: nat)
    requires n <= nl && n <= |bs| && n <= |ls| && i < 2 * n
    ensures |Levels(n, nl, bs, ls)| == 2 * n
    ensures Levels(n, nl, bs, ls)[i] == if i % 2 == 0 then (i / 2 + 1, bs[i / 2]) else (i / 2 + 1 + nl, ls[i / 2])
  {
    LevelsItems(n, nl, bs, ls);
    var k := i / 2 + 1;
    if i % 2 == 0 {
      assert i == 2 * k - 2;
    } else {
      assert i == 2 * k - 1;
    }
  }

  /** Iteration n + 1 of the assignment loop appends the two records of level n + 1. */
  lemma LevelStep(t: PropTable, n: nat, nl: nat, bs: seq<Material>, ls: seq<Material>)
    requires n < nl && n < |bs| && n < |ls| && t == Levels(n, nl, bs, ls)
    ensures Insert(Insert(t, n + 1, bs[n]), n + 1 + nl, ls[n]) == Levels(n + 1, nl, bs, ls)
  {
    LevelsFresh(n, nl, bs, ls);
    var t1 := Insert(t, n + 1, bs[n]);
    assert t1 == t + [(n + 1, bs[n])];
    assert Insert(t1, n + 1 + nl, ls[n]) == t1 + [(n + 1 + nl, ls[n])];
    assert t1 + [(n + 1 + nl, ls[n])] == t + [(n + 1, bs[n]), (n + 1 + nl, ls[n])];
  }

  /** The keys iteration n assigns are not in the table yet. */
  lemma LevelsFresh(n: nat, nl: nat, bs: seq<Material>, ls: seq<Material>)
    requires n < nl && n < |bs| && n < |ls|
    ensures Find(Levels(n, nl, bs, ls), n + 1).None?
    ensures Find(Levels(n, nl, bs, ls) + [(n + 1, bs[n])], n + 1 + nl).None?
  {
    LevelsItems(n, nl, bs, ls);
  }

  /** The keys of the table are exactly 1 .. 2 nn_levels, and 2 nn_levels + 1 if and only if
      the transition piece is present; each key holds the record its level and kind call for. */
  lemma TableLookup(nl: nat, braces: seq<Tube>, legs: seq<Tube>, e: real, g: real, rho: real, tp: bool, key: int)
    requires nl <= |braces| && nl <= |legs| && 65 + nl <= 0xD800
    ensures var t := PropertyTable(nl, braces, legs, e, g, rho, tp);
      (Lookup(t, key).Some? <==> 1 <= key <= 2 * nl || (tp && key == 2 * nl + 1)) &&
      (1 <= key <= nl ==> Lookup(t, key) == Some(BraceRecord(braces[key - 1], key - 1, rho, g))) &&
      (nl < key <= 2 * nl ==> Lookup(t, key) == Some(LegRecord(legs[key - nl - 1], key - nl - 1, rho, g))) &&
      (tp && key == 2 * nl + 1 ==> Lookup(t, key) == Some(TransitionRecord(e, rho, g)))
  {
    LevelsLookup(nl, BraceRecords(nl, braces, rho, g), LegRecords(nl, legs, rho, g), key);
  }

  /** The levels' records: brace k under key k, leg k under key nl + k, nothing else. */
  lemma LevelsLookup(nl: nat, bs: seq<Material>, ls: seq<Material>, key: int)
    requires nl <= |bs| && nl <= |ls|
    ensures Lookup(Levels(nl, nl, bs, ls), key) ==
      if 1 <= key <= nl then Some(bs[key - 1]) else if nl < key <= 2 * nl then Some(ls[key - nl - 1]) else None
  {
    var s := Levels(nl, nl, bs, ls);
    LevelsItems(nl, nl, bs, ls);
    LevelsDistinct(nl, nl, bs, ls);
    if 1 <= key <= nl {
      ItemLookup(s, 2 * key - 2);
    } else if nl < key <= 2 * nl {
      ItemLookup(s, 2 * (key - nl) - 1);
    } else {
      assert Find(s, key).None?;
    }
  }

  /** Every record of the table carries the density and shear modulus passed in. */
  lemma SharedConstants(nl: nat, braces: seq<Tube>, legs: seq<Tube>, e: real, g: real, rho: real, tp: bool, key: int)
    requires nl <= |braces| && nl <= |legs| && 65 + nl <= 0xD800
    requires Lookup(PropertyTable(nl, braces, legs, e, g, rho, tp), key).Some?
    ensures var m := Lookup(PropertyTable(nl, braces, legs, e, g, rho, tp), key).value;
      m.rho == rho && m.g == g
  {
    TableLookup(nl, braces, legs, e, g, rho, tp, key);
  }

  /** The last record with a type is the transition piece when there is one, otherwise the
      leg of the top level: a table built by mprop never marks the mill. */
  lemma TableLastType(nl: nat, braces: seq<Tube>, legs: seq<Tube>, e: real, g: real, rho: real, tp: bool)
    requires nl <= |braces| && nl <= |legs| && 65 + nl <= 0xD800
    requires nl > 0 || tp
    ensures LastType(PropertyTable(nl, braces, legs, e, g, rho, tp)) ==
      if tp then Some("Transition piece") else Some(LegLabel(nl - 1))
  {
    var s := Levels(nl, nl, BraceRecords(nl, braces, rho, g), LegRecords(nl, legs, rho, g));
    LevelsItems(nl, nl, BraceRecords(nl, braces, rho, g), LegRecords(nl, legs, rho, g));
    var t := PropertyTable(nl, braces, legs, e, g, rho, tp);
    if tp {
      assert Find(s, 2 * nl + 1).None?;
      LastTypeAt(t, |t| - 1);
    } else {
      LastTypeAt(t, 2 * nl - 1);
    }
  }
}
