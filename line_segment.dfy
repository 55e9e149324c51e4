/**
 * `between_ray` and `between_line_segments` of src/intersections/line_segment.js.
 *
 * Both write the line through two points `p`, `q` as `A x + B y = C`, with `A = q.y - p.y`,
 * `B = p.x - q.x` and `C = A p.x + B p.y`, and solve the pair of equations by Cramer's rule.
 * `between_line_segments` writes its products with the factors the other way round
 * (`p.x * A`, `B2 * C1`); products commute, so both compute the same lines and the same point,
 * and the model shares `LineThrough` and `Crossing` between them. `null` is `None`.
 */
module LineIntersections {
  import opened Wrappers
  import opened Vectors

  /** The line `a x + b y = c`. */
  datatype Line = Line(a: real, b: real, c: real)

  /** The coefficients `A`, `B`, `C` of the line through `p` and `q`. */
  function LineThrough(p: Vec2, q: Vec2): (l: Line)
    ensures OnLine(l, p) && OnLine(l, q)
  {
    var a := q.y - p.y;
    var b := p.x - q.x;
    LineEquationIsCross(p.x, p.y, q.x, q.y, p.x, p.y);
    LineEquationIsCross(p.x, p.y, q.x, q.y, q.x, q.y);
    Line(a, b, a * p.x + b * p.y)
  }

  /** `v` satisfies the equation of `l`. */
  predicate OnLine(l: Line, v: Vec2) {
    l.a * v.x + l.b * v.y == l.c
  }

  /** The determinant `A1 B2 - A2 B1` of the two equations, the functions' `denominator`. */
  function Determinant(l1: Line, l2: Line): real {
    l1.a * l2.b - l2.a * l1.b
  }

  /** Cramer's solution of the two equations: the one point on both lines. */
  function Crossing(l1: Line, l2: Line): (r: Vec2)
    requires Determinant(l1, l2) != 0.0
    ensures OnLine(l1, r) && OnLine(l2, r)
  {
    var denominator := Determinant(l1, l2);
    var x, y := (l1.c * l2.b - l2.c * l1.b) / denominator, (l2.c * l1.a - l1.c * l2.a) / denominator;
    CramerSolves(l1.a, l1.b, l1.c, l2.a, l2.b, l2.c, x, y);
    Vec2(x, y)
  }

  /** `v` lies on the line through `s` and `e` (or `s == e`): the two displacements from `s` are parallel. */
  predicate Collinear(s: Vec2, e: Vec2, v: Vec2) {
    s.To(e).Cross(s.To(v)) == 0.0
  }

  /** The point a fraction `t` of the way from `s` to `e`. */
  function PointAt(s: Vec2, e: Vec2, t: real): Vec2 {
    Vec2(s.x + t * (e.x - s.x), s.y + t * (e.y - s.y))
  }

  /** `v` lies on the closed segment from `s` to `e`. */
  ghost predicate OnSegment(v: Vec2, s: Vec2, e: Vec2) {
    exists t :: 0.0 <= t <= 1.0 && PointAt(s, e, t) == v
  }

  /** The two lines are parallel (or one of them is given by a single point): their directions' cross product is 0. */
  predicate Parallel(p0: Vec2, p1: Vec2, p2: Vec2, p3: Vec2) {
    p0.To(p1).Cross(p2.To(p3)) == 0.0
  }

  /** `between_ray(p0, p1, p2, p3)`: where the line through `p0`, `p1` meets the line through `p2`, `p3`. */
  function BetweenRay(p0: Vec2, p1: Vec2, p2: Vec2, p3: Vec2): (r: Option<Vec2>)
    ensures r.None? <==> Parallel(p0, p1, p2, p3)
  {
    var l1, l2 := LineThrough(p0, p1), LineThrough(p2, p3);
    var denominator := Determinant(l1, l2);
    DenominatorIsCross(p0.x, p0.y, p1.x, p1.y, p2.x, p2.y, p3.x, p3.y);
    if denominator == 0.0 then None else Some(Crossing(l1, l2))
  }

  /**
   * The ratio of `between_line_segments` on one axis: where `v` sits from `start` (0) to `end`
   * (1), or the sentinel -1 when the segment does not move on that axis. The sentinel never
   * passes the test `0 <= r <= 1`.
   */
  function Ratio(v: real, start: real, end: real): (r: real)
    ensures start == end ==> r == -1.0 && !InUnit(r)
  {
    if start != end then (v - start) / (end - start) else -1.0
  }

  /** The test `r >= 0 && r <= 1` of one ratio. */
  predicate InUnit(r: real) {
    r >= 0.0 && r <= 1.0
  }

  /**
   * `between_line_segments(p0, p1, p2, p3)` as written: the crossing point of the two lines
   * when they are not parallel and the acceptance test passes. The test has no parentheses
   * around its disjunctions, so `&&` binds first: `rx0 ok || (ry0 ok && rx1 ok) || ry1 ok`.
   */
  function BetweenLineSegments(p0: Vec2, p1: Vec2, p2: Vec2, p3: Vec2): (r: Option<Vec2>)
    ensures Parallel(p0, p1, p2, p3) ==> r.None?
  {
    var l1, l2 := LineThrough(p0, p1), LineThrough(p2, p3);
    var denominator := Determinant(l1, l2);
    DenominatorIsCross(p0.x, p0.y, p1.x, p1.y, p2.x, p2.y, p3.x, p3.y);
    if denominator != 0.0 then
      var intersect := Crossing(l1, l2);
      var rx0 := Ratio(intersect.x, p0.x, p1.x);
      var ry0 := Ratio(intersect.y, p0.y, p1.y);
      var rx1 := Ratio(intersect.x, p2.x, p3.x);
      var ry1 := Ratio(intersect.y, p2.y, p3.y);
      if InUnit(rx0) || (InUnit(ry0) && InUnit(rx1)) || InUnit(ry1) then Some(intersect) else None
    else None
  }

  /**
   * `between_line_segments` with the acceptance test it evidently means: the crossing point
   * is within the first segment on some axis and within the second segment on some axis.
   */
  function BetweenLineSegmentsIntended(p0: Vec2, p1: Vec2, p2: Vec2, p3: Vec2): (r: Option<Vec2>)
    ensures Parallel(p0, p1, p2, p3) ==> r.None?
  {
    var l1, l2 := LineThrough(p0, p1), LineThrough(p2, p3);
    var denominator := Determinant(l1, l2);
    DenominatorIsCross(p0.x, p0.y, p1.x, p1.y, p2.x, p2.y, p3.x, p3.y);
    if denominator != 0.0 then
      var intersect := Crossing(l1, l2);
      var rx0 := Ratio(intersect.x, p0.x, p1.x);
      var ry0 := Ratio(intersect.y, p0.y, p1.y);
      var rx1 := Ratio(intersect.x, p2.x, p3.x);
      var ry1 := Ratio(intersect.y, p2.y, p3.y);
      if (InUnit(rx0) || InUnit(ry0)) && (InUnit(rx1) || InUnit(ry1)) then Some(intersect) else None
    else None
  }

  // Arithmetic over plain reals.

  /** The denominator `A1 B2 - A2 B1` is the cross product of the two directions. */
  lemma DenominatorIsCross(x0: real, y0: real, x1: real, y1: real, x2: real, y2: real, x3: real, y3: real)
    ensures (y1 - y0) * (x2 - x3) - (y3 - y2) * (x0 - x1) == (x1 - x0) * (y3 - y2) - (y1 - y0) * (x3 - x2)
  {
  }

  /** Cramer's rule: with a non-zero determinant, Cramer's quotients solve both equations. */
  lemma CramerSolves(a1: real, b1: real, c1: real, a2: real, b2: real, c2: real, x: real, y: real)
    requires a1 * b2 - a2 * b1 != 0.0
    requires x == (c1 * b2 - c2 * b1) / (a1 * b2 - a2 * b1) && y == (c2 * a1 - c1 * a2) / (a1 * b2 - a2 * b1)
    ensures a1 * x + b1 * y == c1 && a2 * x + b2 * y == c2
  {
    var t := a1 * b2 - a2 * b1;
    var k := 1.0 / t;
    assert t * k == 1.0;
    var n1, n2 := c1 * b2 - c2 * b1, c2 * a1 - c1 * a2;
    assert x == n1 * k && y == n2 * k;
    assert a1 * n1 + b1 * n2 == c1 * t;
    assert a2 * n1 + b2 * n2 == c2 * t;
    assert a1 * x + b1 * y == (a1 * n1 + b1 * n2) * k;
    assert a2 * x + b2 * y == (a2 * n1 + b2 * n2) * k;
    assert c1 * t * k == c1 * (t * k);
    assert c2 * t * k == c2 * (t * k);
  }

  /** Cramer's rule: with a non-zero determinant, a solution of both equations is Cramer's quotients. */
  lemma CramerUnique(a1: real, b1: real, c1: real, a2: real, b2: real, c2: real, x: real, y: real)
    requires a1 * b2 - a2 * b1 != 0.0
    requires a1 * x + b1 * y == c1 && a2 * x + b2 * y == c2
    ensures x == (c1 * b2 - c2 * b1) / (a1 * b2 - a2 * b1) && y == (c2 * a1 - c1 * a2) / (a1 * b2 - a2 * b1)
  {
    var t := a1 * b2 - a2 * b1;
    var k := 1.0 / t;
    assert t * k == 1.0;
    var n1, n2 := c1 * b2 - c2 * b1, c2 * a1 - c1 * a2;
    assert n1 / t == n1 * k;
    assert n2 / t == n2 * k;
    assert n1 == x * t;
    assert n2 == y * t;
    assert n1 * k == x * (t * k);
    assert n2 * k == y * (t * k);
  }

  /** The line equation through `(sx, sy)`, `(ex, ey)` at `(vx, vy)` is the negated cross product of the displacements. */
  lemma LineEquationIsCross(sx: real, sy: real, ex: real, ey: real, vx: real, vy: real)
    ensures (ey - sy) * vx + (sx - ex) * vy - ((ey - sy) * sx + (sx - ex) * sy) == -((ex - sx) * (vy - sy) - (ey - sy) * (vx - sx))
  {
  }

  /**
   * On one axis: when the segment moves on it (`s != e`) and `v` is collinear with it, the ratio
   * `(v - s) / (e - s)` places `v` on both axes.
   */
  lemma AxisRatio(s: real, e: real, v: real, so: real, eo: real, vo: real)
    requires s != e
    requires (e - s) * (vo - so) == (eo - so) * (v - s)
    ensures s + (v - s) / (e - s) * (e - s) == v
    ensures so + (v - s) / (e - s) * (eo - so) == vo
  {
    var k := 1.0 / (e - s);
    assert (e - s) * k == 1.0;
    assert (v - s) / (e - s) == (v - s) * k;
    assert (v - s) * k * (e - s) == (v - s) * ((e - s) * k);
    assert (v - s) * k * (eo - so) == (e - s) * (vo - so) * k;
    assert (e - s) * (vo - so) * k == (vo - so) * ((e - s) * k);
  }

  /** On one axis: the ratio of the point a fraction `t` along a segment that moves on the axis is `t`. */
  lemma RatioOfFraction(s: real, e: real, t: real)
    requires s != e
    ensures (s + t * (e - s) - s) / (e - s) == t
  {
  }

  /** The point a fraction `t` along a segment is collinear with it. */
  lemma FractionCollinear(sx: real, sy: real, ex: real, ey: real, t: real)
    ensures (ex - sx) * (sy + t * (ey - sy) - sy) - (ey - sy) * (sx + t * (ex - sx) - sx) == 0.0
  {
  }

  // The model.

  /** The lines are parallel exactly when the determinant of their equations, the functions' denominator, is 0. */
  lemma ParallelIffDeterminant(p0: Vec2, p1: Vec2, p2: Vec2, p3: Vec2)
    ensures Parallel(p0, p1, p2, p3) <==> Determinant(LineThrough(p0, p1), LineThrough(p2, p3)) == 0.0
  {
    DenominatorIsCross(p0.x, p0.y, p1.x, p1.y, p2.x, p2.y, p3.x, p3.y);
  }

  /** A point satisfies the equation of the line through `s` and `e` exactly when it is collinear with them. */
  lemma OnLineIffCollinear(s: Vec2, e: Vec2, v: Vec2)
    ensures OnLine(LineThrough(s, e), v) <==> Collinear(s, e, v)
  {
    LineEquationIsCross(s.x, s.y, e.x, e.y, v.x, v.y);
  }

  /** With a non-zero determinant, a point on both lines is Cramer's solution. */
  lemma CrossingUnique(l1: Line, l2: Line, v: Vec2)
    requires Determinant(l1, l2) != 0.0
    requires OnLine(l1, v) && OnLine(l2, v)
    ensures Crossing(l1, l2).x == v.x && Crossing(l1, l2).y == v.y
  {
    CramerUnique(l1.a, l1.b, l1.c, l2.a, l2.b, l2.c, v.x, v.y);
  }

  /**
   * `between_ray` finds `v` exactly when the lines are not parallel and `v` is on both of them:
   * the point it returns is on both lines, and it is the only such point.
   */
  lemma BetweenRayMeets(p0: Vec2, p1: Vec2, p2: Vec2, p3: Vec2, v: Vec2)
    ensures BetweenRay(p0, p1, p2, p3) == Some(v)
        <==> !Parallel(p0, p1, p2, p3) && OnLine(LineThrough(p0, p1), v) && OnLine(LineThrough(p2, p3), v)
  {
    var l1, l2 := LineThrough(p0, p1), LineThrough(p2, p3);
    if !Parallel(p0, p1, p2, p3) && OnLine(l1, v) && OnLine(l2, v) {
      DenominatorIsCross(p0.x, p0.y, p1.x, p1.y, p2.x, p2.y, p3.x, p3.y);
      CrossingUnique(l1, l2, v);
    }
  }

  /** The same, stated geometrically: the point `between_ray` returns is collinear with both pairs, and only that point is. */
  lemma BetweenRayCollinear(p0: Vec2, p1: Vec2, p2: Vec2, p3: Vec2, v: Vec2)
    ensures BetweenRay(p0, p1, p2, p3) == Some(v)
        <==> !Parallel(p0, p1, p2, p3) && Collinear(p0, p1, v) && Collinear(p2, p3, v)
  {
    BetweenRayMeets(p0, p1, p2, p3, v);
    OnLineIffCollinear(p0, p1, v);
    OnLineIffCollinear(p2, p3, v);
  }

  /** A point either version of `between_line_segments` returns is the point `between_ray` returns for the same lines. */
  lemma SegmentsAgreeWithRay(p0: Vec2, p1: Vec2, p2: Vec2, p3: Vec2)
    ensures BetweenLineSegments(p0, p1, p2, p3).Some? ==> BetweenLineSegments(p0, p1, p2, p3) == BetweenRay(p0, p1, p2, p3)
    ensures BetweenLineSegmentsIntended(p0, p1, p2, p3).Some? ==> BetweenLineSegmentsIntended(p0, p1, p2, p3) == BetweenRay(p0, p1, p2, p3)
  {
  }

  /** The as-written test accepts every point the intended one accepts. */
  lemma AsWrittenAcceptsIntended(p0: Vec2, p1: Vec2, p2: Vec2, p3: Vec2)
    ensures BetweenLineSegmentsIntended(p0, p1, p2, p3).Some?
        ==> BetweenLineSegments(p0, p1, p2, p3) == BetweenLineSegmentsIntended(p0, p1, p2, p3)
  {
  }

  /** A collinear point whose ratio on some axis is in [0, 1] is on the segment. */
  lemma RatioPlacesPoint(s: Vec2, e: Vec2, v: Vec2)
    requires Collinear(s, e, v)
    ensures InUnit(Ratio(v.x, s.x, e.x)) || InUnit(Ratio(v.y, s.y, e.y)) ==> OnSegment(v, s, e)
  {
    if InUnit(Ratio(v.x, s.x, e.x)) {
      var t := Ratio(v.x, s.x, e.x);
      AxisRatio(s.x, e.x, v.x, s.y, e.y, v.y);
      assert PointAt(s, e, t) == v;
    } else if InUnit(Ratio(v.y, s.y, e.y)) {
      var t := Ratio(v.y, s.y, e.y);
      AxisRatio(s.y, e.y, v.y, s.x, e.x, v.x);
      assert PointAt(s, e, t) == v;
    }
  }

  /** A point on a segment has its fraction as ratio on every axis the segment moves on. */
  lemma SegmentPointRatios(s: Vec2, e: Vec2, t: real)
    ensures s.x != e.x ==> Ratio(PointAt(s, e, t).x, s.x, e.x) == t
    ensures s.y != e.y ==> Ratio(PointAt(s, e, t).y, s.y, e.y) == t
    ensures Collinear(s, e, PointAt(s, e, t))
  {
    if s.x != e.x {
      RatioOfFraction(s.x, e.x, t);
    }
    if s.y != e.y {
      RatioOfFraction(s.y, e.y, t);
    }
    FractionCollinear(s.x, s.y, e.x, e.y, t);
  }

  /** What the intended test accepts is on both closed segments. */
  lemma IntendedIsSound(p0: Vec2, p1: Vec2, p2: Vec2, p3: Vec2, v: Vec2)
    ensures BetweenLineSegmentsIntended(p0, p1, p2, p3) == Some(v) ==> OnSegment(v, p0, p1) && OnSegment(v, p2, p3)
  {
    if BetweenLineSegmentsIntended(p0, p1, p2, p3) == Some(v) {
      BetweenRayCollinear(p0, p1, p2, p3, v);
      RatioPlacesPoint(p0, p1, v);
      RatioPlacesPoint(p2, p3, v);
    }
  }

  /**
   * Both versions find every crossing of two non-parallel segments: a point on both closed
   * segments is returned, by the as-written test as well as by the intended one.
   */
  lemma SegmentsComplete(p0: Vec2, p1: Vec2, p2: Vec2, p3: Vec2, v: Vec2)
    requires !Parallel(p0, p1, p2, p3)
    requires OnSegment(v, p0, p1) && OnSegment(v, p2, p3)
    ensures BetweenLineSegmentsIntended(p0, p1, p2, p3) == Some(v)
    ensures BetweenLineSegments(p0, p1, p2, p3) == Some(v)
  {
    var t1 :| 0.0 <= t1 <= 1.0 && PointAt(p0, p1, t1) == v;
    var t2 :| 0.0 <= t2 <= 1.0 && PointAt(p2, p3, t2) == v;
    SegmentPointRatios(p0, p1, t1);
    SegmentPointRatios(p2, p3, t2);
    BetweenRayCollinear(p0, p1, p2, p3, v);
  }

  /** Away from parallel lines, both versions return the crossing point exactly when their tests of its ratios pass. */
  lemma SegmentsTests(p0: Vec2, p1: Vec2, p2: Vec2, p3: Vec2)
    requires Determinant(LineThrough(p0, p1), LineThrough(p2, p3)) != 0.0
    ensures var i := Crossing(LineThrough(p0, p1), LineThrough(p2, p3));
      var rx0, ry0, rx1, ry1 := Ratio(i.x, p0.x, p1.x), Ratio(i.y, p0.y, p1.y), Ratio(i.x, p2.x, p3.x), Ratio(i.y, p2.y, p3.y);
      && BetweenLineSegments(p0, p1, p2, p3) == (if InUnit(rx0) || (InUnit(ry0) && InUnit(rx1)) || InUnit(ry1) then Some(i) else None)
      && BetweenLineSegmentsIntended(p0, p1, p2, p3) == (if (InUnit(rx0) || InUnit(ry0)) && (InUnit(rx1) || InUnit(ry1)) then Some(i) else None)
  {
    DenominatorIsCross(p0.x, p0.y, p1.x, p1.y, p2.x, p2.y, p3.x, p3.y);
  }

  /** A point whose ratio along a segment that is not vertical falls outside [0, 1] is off that segment. */
  lemma OffSegmentByRatio(s: Vec2, e: Vec2, v: Vec2)
    requires s.x != e.x && !InUnit(Ratio(v.x, s.x, e.x))
    ensures !OnSegment(v, s, e)
  {
    forall t | 0.0 <= t <= 1.0
      ensures PointAt(s, e, t) != v
    {
      SegmentPointRatios(s, e, t);
    }
  }

  /**
   * The precedence slip lets through a point that is not on the second segment: when the lines
   * cross at v, v lies within the first segment along x, and v's ratios along the second segment
   * are outside [0, 1], the as-written test returns v although v is off the second segment, while
   * the intended test returns nothing.
   */
  lemma PrecedenceAcceptsOffSegmentPoint(p0: Vec2, p1: Vec2, p2: Vec2, p3: Vec2, v: Vec2)
    requires !Parallel(p0, p1, p2, p3)
    requires Collinear(p0, p1, v) && Collinear(p2, p3, v)
    requires InUnit(Ratio(v.x, p0.x, p1.x))
    requires p2.x != p3.x && !InUnit(Ratio(v.x, p2.x, p3.x)) && !InUnit(Ratio(v.y, p2.y, p3.y))
    ensures BetweenLineSegments(p0, p1, p2, p3) == Some(v)
    ensures !OnSegment(v, p2, p3)
    ensures BetweenLineSegmentsIntended(p0, p1, p2, p3).None?
  {
    BetweenRayCollinear(p0, p1, p2, p3, v);
    ParallelIffDeterminant(p0, p1, p2, p3);
    SegmentsTests(p0, p1, p2, p3);
    OffSegmentByRatio(p2, p3, v);
  }

  /** The cross product of two displacements, written out in coordinates. */
  lemma DisplacementCross(x0: real, y0: real, x1: real, y1: real, x2: real, y2: real, x3: real, y3: real)
    ensures Vec2(x0, y0).To(Vec2(x1, y1)).Cross(Vec2(x2, y2).To(Vec2(x3, y3))) == (x1 - x0) * (y3 - y2) - (y1 - y0) * (x3 - x2)
  {
  }

  /** `PrecedenceAcceptsOffSegmentPoint` with the points given by their coordinates. */
  lemma PrecedenceAcceptsAt(x0: real, y0: real, x1: real, y1: real, x2: real, y2: real, x3: real, y3: real, vx: real, vy: real)
    requires (x1 - x0) * (y3 - y2) - (y1 - y0) * (x3 - x2) != 0.0
    requires (x1 - x0) * (vy - y0) - (y1 - y0) * (vx - x0) == 0.0
    requires (x3 - x2) * (vy - y2) - (y3 - y2) * (vx - x2) == 0.0
    requires InUnit(Ratio(vx, x0, x1))
    requires x2 != x3 && !InUnit(Ratio(vx, x2, x3)) && !InUnit(Ratio(vy, y2, y3))
    ensures BetweenLineSegments(Vec2(x0, y0), Vec2(x1, y1), Vec2(x2, y2), Vec2(x3, y3)) == Some(Vec2(vx, vy))
    ensures !OnSegment(Vec2(vx, vy), Vec2(x2, y2), Vec2(x3, y3))
    ensures BetweenLineSegmentsIntended(Vec2(x0, y0), Vec2(x1, y1), Vec2(x2, y2), Vec2(x3, y3)).None?
  {
    DisplacementCross(x0, y0, x1, y1, x2, y2, x3, y3);
    DisplacementCross(x0, y0, x1, y1, x0, y0, vx, vy);
    DisplacementCross(x2, y2, x3, y3, x2, y2, vx, vy);
    PrecedenceAcceptsOffSegmentPoint(Vec2(x0, y0), Vec2(x1, y1), Vec2(x2, y2), Vec2(x3, y3), Vec2(vx, vy));
  }

  /**
   * The segments (0, 0)-(4, 4) and (0, 4)-(1, 3) do not meet, yet the as-written test returns
   * (2, 2), where their lines cross: halfway along the first segment, at twice the length of the second.
   */
  lemma PrecedenceExample()
    ensures BetweenLineSegments(Vec2(0.0, 0.0), Vec2(4.0, 4.0), Vec2(0.0, 4.0), Vec2(1.0, 3.0)) == Some(Vec2(2.0, 2.0))
    ensures !OnSegment(Vec2(2.0, 2.0), Vec2(0.0, 4.0), Vec2(1.0, 3.0))
    ensures BetweenLineSegmentsIntended(Vec2(0.0, 0.0), Vec2(4.0, 4.0), Vec2(0.0, 4.0), Vec2(1.0, 3.0)).None?
  {
    PrecedenceAcceptsAt(0.0, 0.0, 4.0, 4.0, 0.0, 4.0, 1.0, 3.0, 2.0, 2.0);
  }
}
