/** Gauss-Legendre points and weights on [-1, 1], chosen by the polynomial degree
    they must integrate (functions/Kmat/intpL.py). */
module Quadrature {
  import opened Wrappers

  /** Integration points `xip` and weights `wip`. */
  datatype Rule = Rule(xip: seq<real>, wip: seq<real>)

  datatype QuadratureError = DegreeTooHigh

  /** Points strictly increasing inside (-1, 1), one positive weight per point. */
  ghost predicate WellFormed(r: Rule)
  {
    && |r.xip| == |r.wip|
    && (forall k :: 0 <= k < |r.xip| ==> -1.0 < r.xip[k] < 1.0)
    && (forall k :: 0 <= k < |r.xip| - 1 ==> r.xip[k] < r.xip[k + 1])
    && (forall k :: 0 <= k < |r.wip| ==> r.wip[k] > 0.0)
  }

  /** Points mirror about 0 and mirrored points share their weight. */
  ghost predicate Mirrored(r: Rule)
    requires |r.xip| == |r.wip|
  {
    forall k :: 0 <= k < |r.xip| ==>
      r.xip[k] == -r.xip[|r.xip| - 1 - k] && r.wip[k] == r.wip[|r.wip| - 1 - k]
  }

  /** The n-point Gauss-Legendre rule of the table, 1 <= n <= 5. */
  function Gauss(n: int): (r: Rule)
    requires 1 <= n <= 5
    ensures |r.xip| == n && |r.wip| == n
  {
    if n == 1 then
      Rule([0.0], [2.0])
    else if n == 2 then
      Rule([-0.577350269189626, 0.577350269189626], [1.0, 1.0])
    else if n == 3 then
      Rule([-0.774596669241483, 0.0, 0.774596669241483],
           [0.555555555555556, 0.888888888888889, 0.555555555555556])
    else if n == 4 then
      Rule([-0.861136311594053, -0.339981043584856, 0.339981043584856, 0.861136311594053],
           [0.347854845137454, 0.652145154862546, 0.652145154862546, 0.347854845137454])
    else
      Rule([-0.906179845938664, -0.538469310105683, 0.0, 0.538469310105683, 0.906179845938664],
           [0.236926885056189, 0.478628670499366, 0.568888888888889, 0.478628670499366, 0.236926885056189])
  }

  /** The table of intpL: the n-point rule for the least n with 2n - 1 >= polDeg; an error above degree 9. */
  function IntpL(polDeg: int): (r: Result<Rule, QuadratureError>)
    ensures r.Err? <==> polDeg > 9
    ensures r.Ok? ==> |r.value.xip| == |r.value.wip|
    ensures r.Ok? ==> var n := |r.value.xip|;
      1 <= n <= 5 && polDeg <= 2 * n - 1 && (n == 1 || 2 * (n - 1) - 1 < polDeg)
  {
    if polDeg <= 1 then Ok(Gauss(1))
    else if polDeg <= 3 then Ok(Gauss(2))
    else if polDeg <= 5 then Ok(Gauss(3))
    else if polDeg <= 7 then Ok(Gauss(4))
    else if polDeg <= 9 then Ok(Gauss(5))
    else Err(DegreeTooHigh)
  }

  /** Points in (-1, 1), increasing, with positive weights, mirrored about 0. */
  lemma GaussWellFormed(n: int)
    requires 1 <= n <= 5
    ensures WellFormed(Gauss(n)) && Mirrored(Gauss(n))
  {
    var r := Gauss(n);
    forall k | 0 <= k < n
      ensures -1.0 < r.xip[k] < 1.0 && r.wip[k] > 0.0
      ensures r.xip[k] == -r.xip[n - 1 - k] && r.wip[k] == r.wip[n - 1 - k]
      ensures k < n - 1 ==> r.xip[k] < r.xip[k + 1]
    {
      GaussPoint(n, k);
    }
  }

  lemma GaussPoint(n: int, k: int)
    requires 1 <= n <= 5 && 0 <= k < n
    ensures -1.0 < Gauss(n).xip[k] < 1.0 && Gauss(n).wip[k] > 0.0
    ensures Gauss(n).xip[k] == -Gauss(n).xip[n - 1 - k] && Gauss(n).wip[k] == Gauss(n).wip[n - 1 - k]
    ensures k < n - 1 ==> Gauss(n).xip[k] < Gauss(n).xip[k + 1]
  {
    if n == 1 {
    } else if n == 2 {
    } else if n == 3 {
    } else if n == 4 {
    } else {
    }
  }

  /** Whatever rule intpL returns is well formed and symmetric. */
  lemma IntpLWellFormed(polDeg: int)
    requires polDeg <= 9
    ensures IntpL(polDeg).Ok?
    ensures WellFormed(IntpL(polDeg).value) && Mirrored(IntpL(polDeg).value)
  {
    GaussWellFormed(|IntpL(polDeg).value.xip|);
  }

  /** Degree at most 1 is the midpoint rule: the point 0 with weight 2. */
  lemma MidpointRule(polDeg: int)
    requires polDeg <= 1
    ensures IntpL(polDeg) == Ok(Rule([0.0], [2.0]))
  {
  }

  /** A higher degree never yields fewer points. */
  lemma PointCountMonotone(d1: int, d2: int)
    requires d1 <= d2 <= 9
    ensures IntpL(d1).Ok? && IntpL(d2).Ok?
    ensures |IntpL(d1).value.xip| <= |IntpL(d2).value.xip|
  {
  }
}
