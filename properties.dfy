/** The material property table mprop: a Python dict from property number to a record of
    section and material constants. A dict keeps its keys in insertion order, and the order
    matters (VIBframe looks at the last record), so the table is the list of its items. */
module Properties {
  import opened Wrappers

  /** One record {E, A, rho, Iy, Iz, J, G, type}; `kind` is the 'type' entry, None for a
      record that has none. */
  datatype Material = Material(e: real, a: real, rho: real, iy: real, iz: real, j: real, g: real, kind: Option<string>)

  /** The items of the dict, in insertion order. */
  type PropTable = seq<(int, Material)>

  function Keys(t: PropTable): (ks: seq<int>)
    ensures |ks| == |t| && forall i :: 0 <= i < |t| ==> ks[i] == t[i].0
  {
    if |t| == 0 then [] else Keys(t[..|t| - 1]) + [t[|t| - 1].0]
  }

  /** What every dict satisfies: no key occurs twice. */
  ghost predicate DistinctKeys(t: PropTable)
  {
    forall i, j :: 0 <= i < j < |t| ==> t[i].0 != t[j].0
  }

  /** The position of a key. */
  function Find(t: PropTable, key: int): (r: Option<nat>)
    ensures r.Some? ==> r.value < |t| && t[r.value].0 == key
    ensures r.Some? ==> forall i :: 0 <= i < r.value ==> t[i].0 != key
    ensures r.None? <==> forall i :: 0 <= i < |t| ==> t[i].0 != key
  {
    if |t| == 0 then None
    else if t[0].0 == key then Some(0)
    else match Find(t[1..], key) {
      case None => None
      case Some(i) => Some(i + 1)
    }
  }

  /** d[key], or None where Python raises KeyError. */
  function Lookup(t: PropTable, key: int): Option<Material>
  {
    match Find(t, key) {
      case None => None
      case Some(i) => Some(t[i].1)
    }
  }

  /** d[key] = m: an existing key keeps its place and takes the new value, a new key goes
      to the end. */
  function Insert(t: PropTable, key: int, m: Material): (r: PropTable)
    ensures Lookup(r, key) == Some(m)
    ensures forall k :: k != key ==> Lookup(r, k) == Lookup(t, k)
    ensures Find(t, key).None? ==> r == t + [(key, m)]
    ensures Find(t, key).Some? ==> Keys(r) == Keys(t)
  {
    match Find(t, key) {
      case None =>
        AppendLookup(t, key, m);
        t + [(key, m)]
      case Some(i) =>
        ReplaceLookup(t, i, key, m);
        KeysReplace(t, i, key, m);
        t[i := (key, m)]
    }
  }

  lemma AppendLookup(t: PropTable, key: int, m: Material)
    requires Find(t, key).None?
    ensures Lookup(t + [(key, m)], key) == Some(m)
    ensures forall k :: k != key ==> Lookup(t + [(key, m)], k) == Lookup(t, k)
  {
    FindAt(t + [(key, m)], key, |t|);
    forall k | k != key
      ensures Lookup(t + [(key, m)], k) == Lookup(t, k)
    {
      match Find(t, k) {
        case None =>
          assert Find(t + [(key, m)], k).None?;
        case Some(i) =>
          FindAt(t + [(key, m)], k, i);
      }
    }
  }

  lemma ReplaceLookup(t: PropTable, i: nat, key: int, m: Material)
    requires Find(t, key) == Some(i)
    ensures Lookup(t[i := (key, m)], key) == Some(m)
    ensures forall k :: k != key ==> Lookup(t[i := (key, m)], k) == Lookup(t, k)
  {
    var r := t[i := (key, m)];
    FindAt(r, key, i);
    forall k | k != key
      ensures Lookup(r, k) == Lookup(t, k)
    {
      match Find(t, k) {
        case None =>
          assert Find(r, k).None?;
        case Some(j) =>
          FindAt(r, k, j);
      }
    }
  }

  lemma KeysReplace(t: PropTable, i: nat, key: int, m: Material)
    requires i < |t| && t[i].0 == key
    ensures Keys(t[i := (key, m)]) == Keys(t)
  {
  }

  /** Find returns the first position holding the key. */
  lemma {:induction false} FindAt(t: PropTable, key: int, j: nat)
    requires j < |t| && t[j].0 == key
    requires forall i :: 0 <= i < j ==> t[i].0 != key
    ensures Find(t, key) == Some(j)
  {
    if j > 0 {
      FindAt(t[1..], key, j - 1);
    }
  }

  /** In a dict, looking up the key of an item gives that item's value. */
  lemma ItemLookup(t: PropTable, i: nat)
    requires DistinctKeys(t) && i < |t|
    ensures Lookup(t, t[i].0) == Some(t[i].1)
  {
    FindAt(t, t[i].0, i);
  }

  /** The 'type' of the last record that has one, scanning the values in insertion order. */
  function LastType(t: PropTable): (r: Option<string>)
    ensures r.None? <==> forall i :: 0 <= i < |t| ==> t[i].1.kind.None?
  {
    if |t| == 0 then None
    else if t[|t| - 1].1.kind.Some? then t[|t| - 1].1.kind
    else
      var r := LastType(t[..|t| - 1]);
      assert forall i :: 0 <= i < |t| - 1 ==> t[..|t| - 1][i] == t[i];
      r
  }

  /** The last record with a 'type' decides LastType, whatever the records before it say. */
  lemma {:induction false} LastTypeAt(t: PropTable, i: nat)
    requires i < |t| && t[i].1.kind.Some?
    requires forall j :: i < j < |t| ==> t[j].1.kind.None?
    ensures LastType(t) == t[i].1.kind
  {
    if i < |t| - 1 {
      LastTypeAt(t[..|t| - 1], i);
    }
  }
}
