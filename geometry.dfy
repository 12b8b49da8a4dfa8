/** intersection (functions/indata/geometry.py, lines 5-37): the point where two lines of the
    plane meet, line 1 through X1 and X2 and line 2 through X3 and X4, each written in
    slope-intercept form. */
module Geometry {
  /** The first two coordinates of a point, X[0] and X[1]. */
  datatype Point2 = Point2(x: real, y: real)

  /** m = (Q[1] - P[1]) / (Q[0] - P[0]). */
  function Slope(p: Point2, q: Point2): real
    requires q.x != p.x
  {
    (q.y - p.y) / (q.x - p.x)
  }

  /** b = P[1] - m P[0]. */
  function Intercept(p: Point2, m: real): real
  {
    p.y - m * p.x
  }

  /** The point lies on y = m x + b. */
  predicate OnLine(m: real, b: real, r: Point2)
  {
    r.y == m * r.x + b
  }

  /** r lies on the line through p and q, stated without slopes. */
  predicate Collinear(p: Point2, q: Point2, r: Point2)
  {
    (r.y - p.y) * (q.x - p.x) == (q.y - p.y) * (r.x - p.x)
  }

  /** The lines are neither vertical nor parallel. */
  predicate Crossing(x1: Point2, x2: Point2, x3: Point2, x4: Point2)
  {
    x2.x != x1.x && x4.x != x3.x && Slope(x1, x2) != Slope(x3, x4)
  }

  /** Lines 35-36: x = (b2 - b1) / (m1 - m2), y = m1 x + b1. */
  function Meet(m1: real, b1: real, m2: real, b2: real): (r: Point2)
    requires m1 != m2
    ensures OnLine(m1, b1, r) && OnLine(m2, b2, r)
  {
    var x := (b2 - b1) / (m1 - m2);
    MeetsBoth(m1, b1, m2, b2);
    Point2(x, m1 * x + b1)
  }

  /** x = (b2 - b1) / (m1 - m2) solves m1 x + b1 = m2 x + b2. */
  lemma MeetsBoth(m1: real, b1: real, m2: real, b2: real)
    requires m1 != m2
    ensures m1 * ((b2 - b1) / (m1 - m2)) + b1 == m2 * ((b2 - b1) / (m1 - m2)) + b2
  {
    var x := (b2 - b1) / (m1 - m2);
    assert (m1 - m2) * x == b2 - b1;
    assert m1 * x - m2 * x == (m1 - m2) * x;
  }

  /** Lines of different slopes share one point only. */
  lemma MeetUnique(m1: real, b1: real, m2: real, b2: real, r: Point2)
    requires m1 != m2 && OnLine(m1, b1, r) && OnLine(m2, b2, r)
    ensures r == Meet(m1, b1, m2, b2)
  {
    assert (m1 - m2) * r.x == b2 - b1;
    DivMul(b2 - b1, m1 - m2);
    Cancel(r.x, (b2 - b1) / (m1 - m2), m1 - m2);
  }

  /** Lines 27-37. */
  function Intersection(x1: Point2, x2: Point2, x3: Point2, x4: Point2): (r: Point2)
    requires Crossing(x1, x2, x3, x4)
    ensures Collinear(x1, x2, r) && Collinear(x3, x4, r)
  {
    var m1 := Slope(x1, x2);
    var m2 := Slope(x3, x4);
    var b1 := Intercept(x1, m1);
    var b2 := Intercept(x3, m2);
    var r := Meet(m1, b1, m2, b2);
    OnLineCollinear(x1, x2, r);
    OnLineCollinear(x3, x4, r);
    r
  }

  /** (a / d) d = a. */
  lemma DivMul(a: real, d: real)
    requires d != 0.0
    ensures (a / d) * d == a
  {
  }

  /** The slope-intercept line through p and q holds exactly the points collinear with them. */
  lemma OnLineCollinear(p: Point2, q: Point2, r: Point2)
    requires q.x != p.x
    ensures OnLine(Slope(p, q), Intercept(p, Slope(p, q)), r) <==> Collinear(p, q, r)
  {
    var m, d := Slope(p, q), q.x - p.x;
    DivMul(q.y - p.y, d);
    assert OnLine(m, Intercept(p, m), r) <==> r.y - p.y == m * (r.x - p.x);
    Cancel(r.y - p.y, m * (r.x - p.x), d);
    assert m * (r.x - p.x) * d == (m * d) * (r.x - p.x);
  }

  /** Multiplying by a nonzero d keeps equality and inequality. */
  lemma Cancel(a: real, b: real, d: real)
    requires d != 0.0
    ensures a == b <==> a * d == b * d
  {
    if a * d == b * d {
      assert (a - b) * d == 0.0;
    }
  }

  /** Line 1 passes through X1 and X2 (and line 2 through X3 and X4). */
  lemma LineThroughPoints(p: Point2, q: Point2)
    requires q.x != p.x
    ensures OnLine(Slope(p, q), Intercept(p, Slope(p, q)), p)
    ensures OnLine(Slope(p, q), Intercept(p, Slope(p, q)), q)
  {
    OnLineCollinear(p, q, p);
    OnLineCollinear(p, q, q);
  }

  /** The point lies on y = m1 x + b1 and on y = m2 x + b2, and is the only point on both. */
  lemma IntersectionOnBoth(x1: Point2, x2: Point2, x3: Point2, x4: Point2, r: Point2)
    requires Crossing(x1, x2, x3, x4)
    ensures var m1, m2 := Slope(x1, x2), Slope(x3, x4);
            OnLine(m1, Intercept(x1, m1), Intersection(x1, x2, x3, x4))
            && OnLine(m2, Intercept(x3, m2), Intersection(x1, x2, x3, x4))
    ensures var m1, m2 := Slope(x1, x2), Slope(x3, x4);
            OnLine(m1, Intercept(x1, m1), r) && OnLine(m2, Intercept(x3, m2), r) ==> r == Intersection(x1, x2, x3, x4)
  {
    var m1, m2 := Slope(x1, x2), Slope(x3, x4);
    var b1, b2 := Intercept(x1, m1), Intercept(x3, m2);
    if OnLine(m1, b1, r) && OnLine(m2, b2, r) {
      MeetUnique(m1, b1, m2, b2, r);
    }
  }

  /** Swapping the two lines gives the same point. */
  lemma IntersectionSymmetric(x1: Point2, x2: Point2, x3: Point2, x4: Point2)
    requires Crossing(x1, x2, x3, x4)
    ensures Crossing(x3, x4, x1, x2)
    ensures Intersection(x3, x4, x1, x2) == Intersection(x1, x2, x3, x4)
  {
    var r := Intersection(x3, x4, x1, x2);
    IntersectionOnBoth(x3, x4, x1, x2, r);
    IntersectionOnBoth(x1, x2, x3, x4, r);
  }
}
