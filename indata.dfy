/** indata (functions/indata/indata.py): the subdivision of every element of the jacket into
    nne_per_beam chained sub-elements. The coordinates X and X_mill and the connectivity C and
    C_mill, which buildX and buildC produce, are inputs here. With one element per beam X and C
    are kept; otherwise each element gets nne_per_beam - 1 new nodes on the line between its
    end nodes, numbered on from nno in element order and appended to X in that order, and its
    row of C becomes nne_per_beam rows through them. The mill rows come last. */
module Subdivision {
  import opened Vectors
  import opened Structure

  /** Both node numbers of a row name one of nno nodes (counted from 1). */
  predicate NodesValid(e: Element, nno: int)
  {
    1 <= e.n1 <= nno && 1 <= e.n2 <= nno
  }

  predicate ConnectivityValid(c: seq<Element>, nno: int)
  {
    forall i :: 0 <= i < |c| ==> NodesValid(c[i], nno)
  }

  /** The point k / nne_per_beam of the way from p to q (line 65). */
  function Interpolated(p: Vec3, q: Vec3, k: int, npb: int): Vec3
    requires npb >= 1
  {
    Add(p, Scale(k as real / npb as real, Sub(q, p)))
  }

  /** X_i: the nne_per_beam - 1 new nodes of element e, k = 1 ... nne_per_beam - 1. */
  function InnerNodes(x: seq<Vec3>, e: Element, npb: int): (xi: seq<Vec3>)
    requires npb >= 1 && NodesValid(e, |x|)
    ensures |xi| == npb - 1
  {
    seq(npb - 1, m requires 0 <= m < npb - 1 => Interpolated(x[e.n1 - 1], x[e.n2 - 1], m + 1, npb))
  }

  /** C_i (lines 68-77): the rows of element e, its new nodes being first, first + 1, ... The
      first row starts at the start node, the last ends at the end node. */
  function SubElements(e: Element, npb: int, first: int): (ci: seq<Element>)
    requires npb >= 2
    ensures |ci| == npb
  {
    seq(npb, j =>
      if j == 0 then Element(e.n1, first, e.prop)
      else if j == npb - 1 then Element(first + npb - 2, e.n2, e.prop)
      else Element(first + j - 1, first + j, e.prop))
  }

  /** The first new node of element i: nno + idx + 1, idx counting the new nodes before it. */
  function FirstNew(nno: int, npb: int, i: int): int
  {
    nno + i * (npb - 1) + 1
  }

  /** X_full after the first n elements. */
  function SubdividedX(x: seq<Vec3>, c: seq<Element>, npb: int, n: nat): (xs: seq<Vec3>)
    requires npb >= 1 && n <= |c| && ConnectivityValid(c, |x|)
    ensures |xs| == |x| + n * (npb - 1)
  {
    if n == 0 then x else SubdividedX(x, c, npb, n - 1) + InnerNodes(x, c[n - 1], npb)
  }

  /** C_full after the first n elements. */
  function SubdividedC(c: seq<Element>, nno: int, npb: int, n: nat): (cs: seq<Element>)
    requires npb >= 2 && n <= |c|
    ensures |cs| == n * npb
  {
    if n == 0 then [] else SubdividedC(c, nno, npb, n - 1) + SubElements(c[n - 1], npb, FirstNew(nno, npb, n - 1))
  }

  /** The coordinates indata returns. */
  function FullX(x: seq<Vec3>, xMill: seq<Vec3>, c: seq<Element>, npb: int): seq<Vec3>
    requires npb >= 1 && ConnectivityValid(c, |x|)
  {
    (if npb == 1 then x else SubdividedX(x, c, npb, |c|)) + xMill
  }

  /** The connectivity indata returns: C_mill is appended when X_mill has entries. */
  function FullC(c: seq<Element>, cMill: seq<Element>, nno: int, npb: int, xMillEmpty: bool): seq<Element>
    requires npb >= 1
  {
    (if npb == 1 then c else SubdividedC(c, nno, npb, |c|)) + (if xMillEmpty then [] else cMill)
  }

  /** Lines 54 and 63-65: X_i for element e. */
  method ElementNodes(x: seq<Vec3>, e: Element, npb: int) returns (xi: array<Vec3>)
    requires npb >= 2 && NodesValid(e, |x|)
    ensures fresh(xi) && xi[..] == InnerNodes(x, e, npb)
  {
    xi := new Vec3[npb - 1](_ => Vec3(0.0, 0.0, 0.0));
    var dnStart := e.n1;
    var dnEnd := e.n2;
    for k := 1 to npb
      invariant forall m :: 0 <= m < k - 1 ==> xi[m] == Interpolated(x[dnStart - 1], x[dnEnd - 1], m + 1, npb)
    {
      xi[k - 1] := Add(x[dnStart - 1], Scale(k as real / npb as real, Sub(x[dnEnd - 1], x[dnStart - 1])));
    }
    assert xi[..] == InnerNodes(x, e, npb);
  }

  /** Lines 55 and 67-77: C_i for element e, idx counting the new nodes handed out so far;
      each element hands out nne_per_beam - 1 of them. */
  method ElementRows(e: Element, npb: int, nno: int, idx0: int) returns (ci: array<Element>, idx: int)
    requires npb >= 2
    ensures fresh(ci) && ci[..] == SubElements(e, npb, nno + idx0 + 1)
    ensures idx == idx0 + npb - 1
  {
    ci := new Element[npb](_ => Element(0, 0, 0));
    var dnStart := e.n1;
    var dnEnd := e.n2;
    var propno := e.prop;
    idx := idx0;
    for j := 0 to npb
      invariant idx == idx0 + (if j < npb then j else npb - 1)
      invariant forall m :: 0 <= m < j ==> ci[m] == SubElements(e, npb, nno + idx0 + 1)[m]
    {
      if j == 0 {
        ci[j] := Element(dnStart, nno + idx + 1, propno);
        idx := idx + 1;
      } else if j == npb - 1 {
        ci[j] := Element(nno + idx, dnEnd, propno);
      } else {
        ci[j] := Element(nno + idx, nno + idx + 1, propno);
        idx := idx + 1;
      }
    }
    assert ci[..] == SubElements(e, npb, nno + idx0 + 1);
  }

  lemma FirstNewNext(nno: int, npb: int, i: int)
    ensures FirstNew(nno, npb, i + 1) == FirstNew(nno, npb, i) + npb - 1
  {
  }

  /** Lines 49-85: the element loop. C_full and X_full are only bound inside it, so it needs
      one element at least. */
  method Subdivide(x: seq<Vec3>, c: seq<Element>, npb: int) returns (xFull: seq<Vec3>, cFull: seq<Element>)
    requires npb >= 2 && |c| >= 1 && ConnectivityValid(c, |x|)
    ensures xFull == SubdividedX(x, c, npb, |c|)
    ensures cFull == SubdividedC(c, |x|, npb, |c|)
  {
    var nno := |x|;
    var idx := 0;
    xFull, cFull := x, [];
    for i := 0 to |c|
      invariant nno + idx + 1 == FirstNew(nno, npb, i)
      invariant xFull == SubdividedX(x, c, npb, i)
      invariant cFull == SubdividedC(c, nno, npb, i)
    {
      var xi := ElementNodes(x, c[i], npb);
      var ci;
      ci, idx := ElementRows(c[i], npb, nno, idx);
      FirstNewNext(nno, npb, i);
      xFull := xFull + xi[..];
      cFull := cFull + ci[..];
    }
  }

  /** indata with X, X_mill, C and C_mill given: lines 38-92. nne_per_beam is at least 1, as
      np.zeros((nne_per_beam - 1, 3)) requires. */
  method Indata(x: seq<Vec3>, xMill: seq<Vec3>, c: seq<Element>, cMill: seq<Element>, npb: int)
    returns (xFull: seq<Vec3>, cFull: seq<Element>)
    requires npb >= 1 && ConnectivityValid(c, |x|)
    requires npb >= 2 ==> |c| >= 1
    ensures xFull == FullX(x, xMill, c, npb)
    ensures cFull == FullC(c, cMill, |x|, npb, |xMill| == 0)
  {
    if npb == 1 {
      xFull, cFull := x, c;
    } else {
      xFull, cFull := Subdivide(x, c, npb);
    }
    if |xMill| > 0 {
      xFull := xFull + xMill;
      cFull := cFull + cMill;
    }
  }

  lemma MulMonotone(a: int, b: int, m: int)
    requires 0 <= a <= b && m >= 0
    ensures a * m <= b * m
  {
  }

  /** Interpolation hits the start node at k = 0 and the end node at k = nne_per_beam. */
  lemma InterpolatedEnds(p: Vec3, q: Vec3, npb: int)
    requires npb >= 1
    ensures Interpolated(p, q, 0, npb) == p
    ensures Interpolated(p, q, npb, npb) == q
  {
    assert npb as real / npb as real == 1.0;
  }

  /** The rows of an element form a chain from its start node to its end node through its
      new nodes first, ..., first + nne_per_beam - 2, all with its property number. */
  lemma SubElementsChain(e: Element, npb: int, first: int)
    requires npb >= 2
    ensures SubElements(e, npb, first)[0].n1 == e.n1
    ensures SubElements(e, npb, first)[npb - 1].n2 == e.n2
    ensures forall j :: 0 <= j < npb - 1 ==> SubElements(e, npb, first)[j].n2 == first + j
    ensures forall j :: 1 <= j < npb ==> SubElements(e, npb, first)[j].n1 == first + j - 1
    ensures forall j :: 0 <= j < npb ==> SubElements(e, npb, first)[j].prop == e.prop
  {
  }

  /** In C_full, row i nne_per_beam + j is row j of element i. */
  lemma {:induction false} SubdividedCRow(c: seq<Element>, nno: int, npb: int, n: nat, i: nat, j: nat)
    requires npb >= 2 && i < n <= |c| && j < npb
    ensures i * npb + j < n * npb
    ensures SubdividedC(c, nno, npb, n)[i * npb + j] == SubElements(c[i], npb, FirstNew(nno, npb, i))[j]
  {
    if i < n - 1 {
      SubdividedCRow(c, nno, npb, n - 1, i, j);
      assert i * npb + j < (n - 1) * npb;
    } else {
      assert i * npb == (n - 1) * npb;
    }
  }

  /** X_full starts with X, so the original nodes keep their numbers. */
  lemma {:induction false} SubdividedXPrefix(x: seq<Vec3>, c: seq<Element>, npb: int, n: nat, p: nat)
    requires npb >= 1 && n <= |c| && ConnectivityValid(c, |x|) && p < |x|
    ensures SubdividedX(x, c, npb, n)[p] == x[p]
  {
    if n > 0 {
      SubdividedXPrefix(x, c, npb, n - 1, p);
    }
  }

  /** New node FirstNew(nno, i) + k - 1 (counted from 1) is the k-th interpolated point of
      element i: the coordinates are appended in the order the numbers are handed out. */
  lemma {:induction false} SubdividedXNew(x: seq<Vec3>, c: seq<Element>, npb: int, n: nat, i: nat, k: int)
    requires npb >= 1 && i < n <= |c| && ConnectivityValid(c, |x|) && 1 <= k < npb
    ensures 0 <= FirstNew(|x|, npb, i) + k - 2 < |SubdividedX(x, c, npb, n)|
    ensures SubdividedX(x, c, npb, n)[FirstNew(|x|, npb, i) + k - 2] == Interpolated(x[c[i].n1 - 1], x[c[i].n2 - 1], k, npb)
  {
    var p := FirstNew(|x|, npb, i) + k - 2;
    var prev := SubdividedX(x, c, npb, n - 1);
    assert SubdividedX(x, c, npb, n) == prev + InnerNodes(x, c[n - 1], npb);
    if i < n - 1 {
      SubdividedXNew(x, c, npb, n - 1, i, k);
      MulMonotone(i + 1, n - 1, npb - 1);
      assert p < |prev|;
    } else {
      assert p == |prev| + k - 1;
    }
  }

  /** Node m of the subdivided structure, m being an original node or a new node of element
      i: where it lies. */
  lemma NodeOfElement(x: seq<Vec3>, c: seq<Element>, npb: int, i: nat, k: int)
    requires npb >= 2 && i < |c| && ConnectivityValid(c, |x|) && 0 <= k <= npb
    ensures var xs := SubdividedX(x, c, npb, |c|);
            var m := if k == 0 then c[i].n1 else if k == npb then c[i].n2 else FirstNew(|x|, npb, i) + k - 1;
            1 <= m <= |xs| && xs[m - 1] == Interpolated(x[c[i].n1 - 1], x[c[i].n2 - 1], k, npb)
  {
    var p, q := x[c[i].n1 - 1], x[c[i].n2 - 1];
    InterpolatedEnds(p, q, npb);
    MulMonotone(0, |c|, npb - 1);
    assert |x| <= |SubdividedX(x, c, npb, |c|)|;
    if k == 0 {
      SubdividedXPrefix(x, c, npb, |c|, c[i].n1 - 1);
    } else if k == npb {
      SubdividedXPrefix(x, c, npb, |c|, c[i].n2 - 1);
    } else {
      SubdividedXNew(x, c, npb, |c|, i, k);
    }
  }

  /** Sub-element j of element i runs from the point j / nne_per_beam to the point
      (j + 1) / nne_per_beam of the way along the element, so the sub-elements split it into
      equal parts, and both its node numbers are valid for X_full. */
  lemma SubElementGeometry(x: seq<Vec3>, c: seq<Element>, npb: int, i: nat, j: nat)
    requires npb >= 2 && i < |c| && ConnectivityValid(c, |x|) && j < npb
    ensures i * npb + j < |SubdividedC(c, |x|, npb, |c|)|
    ensures var xs := SubdividedX(x, c, npb, |c|);
            var se := SubdividedC(c, |x|, npb, |c|)[i * npb + j];
            NodesValid(se, |xs|) && se.prop == c[i].prop
            && xs[se.n1 - 1] == Interpolated(x[c[i].n1 - 1], x[c[i].n2 - 1], j, npb)
            && xs[se.n2 - 1] == Interpolated(x[c[i].n1 - 1], x[c[i].n2 - 1], j + 1, npb)
  {
    SubdividedCRow(c, |x|, npb, |c|, i, j);
    SubElementsChain(c[i], npb, FirstNew(|x|, npb, i));
    NodeOfElement(x, c, npb, i, j);
    NodeOfElement(x, c, npb, i, j + 1);
  }
}
