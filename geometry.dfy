/** The integer geometry of the rasteriser, independent of the bus: the points
    LCD_DrawLine visits, the states of the LCD_Circle loop with the octant
    points they plot, and the scanline spans of the filled LCD_DrawTriangle. */
module Geometry {
  import opened Bus

  datatype Pt = Pt(x: int, y: int)

  function Abs(v: int): nat { if v < 0 then -v else v }

  function Sign(v: int): int { if v > 0 then 1 else if v == 0 then 0 else -1 }

  /*** Line ***/

  /** One axis of the LCD_DrawLine loop: the coordinate (uRow or uCol) and its
      error accumulator (xerr or yerr). */
  datatype Axis = Axis(pos: int, err: int)

  /** One iteration on one axis: add the axis delta to the error, and when the
      error exceeds the distance, take it back and step the coordinate. */
  function AxisStep(a: Axis, delta: nat, inc: int, dist: nat): Axis {
    var e := a.err + delta;
    if e > dist then Axis(a.pos + inc, e - dist) else Axis(a.pos, e)
  }

  /** The axis after `n` iterations. */
  function AxisAfter(a: Axis, delta: nat, inc: int, dist: nat, n: nat): Axis {
    if n == 0 then a else AxisStep(AxisAfter(a, delta, inc, dist, n - 1), delta, inc, dist)
  }

  /** The loop bound of LCD_DrawLine: the larger of |dx| and |dy|. */
  function Distance(x0: int, y0: int, x1: int, y1: int): nat {
    var dx, dy := Abs(x1 - x0), Abs(y1 - y0);
    if dx > dy then dx else dy
  }

  /** The point LCD_DrawLine plots at iteration `t`. */
  function LinePointAt(x0: int, y0: int, x1: int, y1: int, t: nat): Pt {
    var d := Distance(x0, y0, x1, y1);
    Pt(AxisAfter(Axis(x0, 0), Abs(x1 - x0), Sign(x1 - x0), d, t).pos,
       AxisAfter(Axis(y0, 0), Abs(y1 - y0), Sign(y1 - y0), d, t).pos)
  }

  /** All points LCD_DrawLine plots: iterations 0 .. distance+1. */
  function LinePoints(x0: int, y0: int, x1: int, y1: int): seq<Pt> {
    seq(Distance(x0, y0, x1, y1) + 2, t requires 0 <= t => LinePointAt(x0, y0, x1, y1, t))
  }

  /** An axis with no delta never moves. */
  lemma {:induction false} AxisStill(p0: int, inc: int, dist: nat, n: nat)
    ensures AxisAfter(Axis(p0, 0), 0, inc, dist, n) == Axis(p0, 0)
  {
    if n > 0 {
      AxisStill(p0, inc, dist, n - 1);
    }
  }

  /** The loop invariant of one moving axis: after `n` iterations the
      coordinate has stepped `k` times where n*delta == k*dist + err, and the
      error stays in 1..dist once the loop has started. */
  lemma {:induction false} AxisInvariant(p0: int, delta: nat, inc: int, dist: nat, n: nat) returns (k: int)
    requires 1 <= delta <= dist
    ensures AxisAfter(Axis(p0, 0), delta, inc, dist, n).pos == p0 + inc * k
    ensures n * delta == k * dist + AxisAfter(Axis(p0, 0), delta, inc, dist, n).err
    ensures 0 <= AxisAfter(Axis(p0, 0), delta, inc, dist, n).err <= dist
    ensures n >= 1 ==> AxisAfter(Axis(p0, 0), delta, inc, dist, n).err >= 1
  {
    if n == 0 {
      k := 0;
    } else {
      var k' := AxisInvariant(p0, delta, inc, dist, n - 1);
      var a := AxisAfter(Axis(p0, 0), delta, inc, dist, n - 1);
      assert AxisAfter(Axis(p0, 0), delta, inc, dist, n) == AxisStep(a, delta, inc, dist);
      MulSucc(n - 1, delta);
      if a.err + delta > dist {
        k := k' + 1;
        MulSucc(k', inc);
        MulSucc(k', dist);
      } else {
        k := k';
      }
    }
  }

  /** One more factor adds one more term. */
  lemma MulSucc(a: int, b: int)
    ensures (a + 1) * b == a * b + b && b * (a + 1) == b * a + b
  {
  }

  /** If (k - m) * d lies strictly between -d and d, then k == m. */
  lemma MulBounds(a: int, d: int)
    requires d >= 1
    ensures a >= 1 ==> a * d >= d
    ensures a <= -1 ==> a * d <= -d
  {
    if a >= 1 {
      assert a * d == d + (a - 1) * d;
    } else if a <= -1 {
      assert a * d == -d + (a + 1) * d;
    }
  }

  lemma QuotientUnique(k: int, m: int, d: int)
    requires d >= 1
    requires -d < (k - m) * d < d
    ensures k == m
  {
    MulBounds(k - m, d);
  }

  /** After distance+1 iterations a moving axis has stepped exactly delta times. */
  lemma AxisReachesEnd(p0: int, delta: nat, inc: int, dist: nat)
    requires 1 <= delta <= dist
    ensures AxisAfter(Axis(p0, 0), delta, inc, dist, dist + 1).pos == p0 + inc * delta
  {
    var k := AxisInvariant(p0, delta, inc, dist, dist + 1);
    var e := AxisAfter(Axis(p0, 0), delta, inc, dist, dist + 1).err;
    assert (dist + 1) * delta == dist * delta + delta;
    assert (k - delta) * dist == k * dist - delta * dist;
    QuotientUnique(k, delta, dist);
  }

  /** On the major axis (delta == dist) iteration n >= 1 is exactly n-1 steps
      from the start. */
  lemma AxisMajor(p0: int, inc: int, dist: nat, n: nat)
    requires 1 <= dist && 1 <= n
    ensures AxisAfter(Axis(p0, 0), dist, inc, dist, n).pos == p0 + inc * (n - 1)
  {
    var k := AxisInvariant(p0, dist, inc, dist, n);
    assert (n - k) * dist == n * dist - k * dist;
    QuotientUnique(n - 1, k, dist);
  }

  /** Stepping one iteration moves an axis by 0 or by its increment. */
  lemma AxisMovesByOne(a: Axis, delta: nat, inc: int, dist: nat, n: nat)
    ensures var p, q := AxisAfter(a, delta, inc, dist, n).pos, AxisAfter(a, delta, inc, dist, n + 1).pos;
            q == p || q == p + inc
  {
  }

  /** LCD_DrawLine plots distance+2 points, the first at (x0,y0) and the last
      at (x1,y1); the first point is plotted twice. */
  lemma LineEnds(x0: int, y0: int, x1: int, y1: int)
    ensures |LinePoints(x0, y0, x1, y1)| == Distance(x0, y0, x1, y1) + 2
    ensures LinePoints(x0, y0, x1, y1)[0] == Pt(x0, y0)
    ensures LinePoints(x0, y0, x1, y1)[1] == Pt(x0, y0)
    ensures LinePoints(x0, y0, x1, y1)[Distance(x0, y0, x1, y1) + 1] == Pt(x1, y1)
  {
    var d := Distance(x0, y0, x1, y1);
    var dx, dy := Abs(x1 - x0), Abs(y1 - y0);
    if dx == 0 {
      AxisStill(x0, Sign(x1 - x0), d, d + 1);
    } else {
      AxisReachesEnd(x0, dx, Sign(x1 - x0), d);
    }
    if dy == 0 {
      AxisStill(y0, Sign(y1 - y0), d, d + 1);
    } else {
      AxisReachesEnd(y0, dy, Sign(y1 - y0), d);
    }
  }

  /** Consecutive points of a line differ by at most one on each axis. */
  lemma LineIsConnected(x0: int, y0: int, x1: int, y1: int, t: nat)
    requires t + 1 < |LinePoints(x0, y0, x1, y1)|
    ensures Abs(LinePoints(x0, y0, x1, y1)[t + 1].x - LinePoints(x0, y0, x1, y1)[t].x) <= 1
    ensures Abs(LinePoints(x0, y0, x1, y1)[t + 1].y - LinePoints(x0, y0, x1, y1)[t].y) <= 1
  {
    var d := Distance(x0, y0, x1, y1);
    AxisMovesByOne(Axis(x0, 0), Abs(x1 - x0), Sign(x1 - x0), d, t);
    AxisMovesByOne(Axis(y0, 0), Abs(y1 - y0), Sign(y1 - y0), d, t);
  }

  /** Along the major axis, points 1 .. distance+1 take every coordinate from
      the start to the end exactly once, in order. */
  lemma LineMajorAxis(x0: int, y0: int, x1: int, y1: int, t: nat)
    requires 1 <= t <= Distance(x0, y0, x1, y1) + 1
    ensures Abs(x1 - x0) >= Abs(y1 - y0) ==> LinePoints(x0, y0, x1, y1)[t].x == x0 + Sign(x1 - x0) * (t - 1)
    ensures Abs(y1 - y0) >= Abs(x1 - x0) ==> LinePoints(x0, y0, x1, y1)[t].y == y0 + Sign(y1 - y0) * (t - 1)
  {
    var d := Distance(x0, y0, x1, y1);
    if d == 0 {
      AxisStill(x0, Sign(x1 - x0), d, t);
      AxisStill(y0, Sign(y1 - y0), d, t);
    } else {
      if Abs(x1 - x0) == d {
        AxisMajor(x0, Sign(x1 - x0), d, t);
      }
      if Abs(y1 - y0) == d {
        AxisMajor(y0, Sign(y1 - y0), d, t);
      }
    }
  }

  /** A zero-length line plots its one point twice. */
  lemma LineOfOnePoint(x: int, y: int)
    ensures LinePoints(x, y, x, y) == [Pt(x, y), Pt(x, y)]
  {
    LineEnds(x, y, x, y);
  }

  /*** Circle ***/

  /** The variables of the LCD_Circle loop. */
  datatype CircleState = CircleState(x: int, y: int, d: int)

  function CircleStart(r: int): CircleState {
    CircleState(0, r, 3 - 2 * r)
  }

  /** One update of the decision parameter, shared by both branches. */
  function CircleNext(s: CircleState): CircleState {
    if s.d < 0 then CircleState(s.x + 1, s.y, s.d + 4 * s.x + 6)
    else CircleState(s.x + 1, s.y - 1, s.d + 4 * (s.x - s.y) + 10)
  }

  /** The states the loop body runs in, while x <= y. */
  function CircleSteps(s: CircleState): seq<CircleState>
    decreases s.y - s.x + 1
  {
    if s.x <= s.y then [s] + CircleSteps(CircleNext(s)) else []
  }

  /** The eight points of `_draw_circle_8`, in its order. */
  function Octants(xc: int, yc: int, x: int, y: int): seq<Pt> {
    [Pt(xc + x, yc + y), Pt(xc - x, yc + y), Pt(xc + x, yc - y), Pt(xc - x, yc - y),
     Pt(xc + y, yc + x), Pt(xc - y, yc + x), Pt(xc + y, yc - x), Pt(xc - y, yc - x)]
  }

  /** The points of the outline: the octants of each state's (x, y). */
  function Outline(xc: int, yc: int, steps: seq<CircleState>): seq<Pt> {
    if steps == [] then [] else Octants(xc, yc, steps[0].x, steps[0].y) + Outline(xc, yc, steps[1..])
  }

  /** The inner loop of the filled circle: the octants of (x, yi) for yi = lo .. hi. */
  function Column(xc: int, yc: int, x: int, lo: int, hi: int): seq<Pt>
    decreases hi - lo + 1
  {
    if lo > hi then [] else Column(xc, yc, x, lo, hi - 1) + Octants(xc, yc, x, hi)
  }

  /** The points of the filled circle: for each state, the column from x to y. */
  function Filled(xc: int, yc: int, steps: seq<CircleState>): seq<Pt> {
    if steps == [] then []
    else Column(xc, yc, steps[0].x, steps[0].x, steps[0].y) + Filled(xc, yc, steps[1..])
  }

  function CircleOutline(xc: int, yc: int, r: int): seq<Pt> {
    Outline(xc, yc, CircleSteps(CircleStart(r)))
  }

  function CircleFilled(xc: int, yc: int, r: int): seq<Pt> {
    Filled(xc, yc, CircleSteps(CircleStart(r)))
  }

  /** The sum of the circle errors x^2 + y^2 - r^2 at (x+1, y) and (x+1, y-1). */
  function Decision(x: int, y: int, r: int): int {
    2 * (x + 1) * (x + 1) + y * y + (y - 1) * (y - 1) - 2 * r * r
  }

  /** The two updates of the decision parameter follow the two moves. */
  lemma DecisionStep(s: CircleState, r: int)
    requires s.d == Decision(s.x, s.y, r)
    ensures CircleNext(s).d == Decision(CircleNext(s).x, CircleNext(s).y, r)
  {
    assert (s.x + 2) * (s.x + 2) == (s.x + 1) * (s.x + 1) + 2 * s.x + 3;
    if s.d >= 0 {
      assert (s.y - 2) * (s.y - 2) == s.y * s.y - 4 * s.y + 4;
    }
  }

  /** Every state the loop body runs in has x <= y, and its decision
      parameter is the sum of the circle errors at (x+1, y) and (x+1, y-1). */
  lemma {:induction false} CircleStepsInvariant(s: CircleState, r: int, i: nat)
    requires s.d == Decision(s.x, s.y, r)
    requires i < |CircleSteps(s)|
    ensures CircleSteps(s)[i].x <= CircleSteps(s)[i].y
    ensures CircleSteps(s)[i].d == Decision(CircleSteps(s)[i].x, CircleSteps(s)[i].y, r)
    decreases s.y - s.x + 1
  {
    if i > 0 {
      DecisionStep(s, r);
      CircleStepsInvariant(CircleNext(s), r, i - 1);
    }
  }

  /** The column of a state ends with the octants of (x, hi). */
  lemma ColumnEndsWith(xc: int, yc: int, x: int, lo: int, hi: int, p: Pt)
    requires lo <= hi && p in Octants(xc, yc, x, hi)
    ensures p in Column(xc, yc, x, lo, hi)
  {
  }

  /** Every point the outline plots is also plotted by the filled circle. */
  lemma {:induction false} FilledCoversOutline(xc: int, yc: int, steps: seq<CircleState>, p: Pt)
    requires forall i :: 0 <= i < |steps| ==> steps[i].x <= steps[i].y
    requires p in Outline(xc, yc, steps)
    ensures p in Filled(xc, yc, steps)
  {
    if p in Octants(xc, yc, steps[0].x, steps[0].y) {
      ColumnEndsWith(xc, yc, steps[0].x, steps[0].x, steps[0].y, p);
    } else {
      FilledCoversOutline(xc, yc, steps[1..], p);
    }
  }

  /** LCD_Circle with fill paints every point its outline paints. */
  lemma CircleFillCoversOutline(xc: int, yc: int, r: int, p: Pt)
    requires p in CircleOutline(xc, yc, r)
    ensures p in CircleFilled(xc, yc, r)
  {
    var steps := CircleSteps(CircleStart(r));
    forall i | 0 <= i < |steps|
      ensures steps[i].x <= steps[i].y
    {
      assert CircleStart(r).d == Decision(0, r, r);
      CircleStepsInvariant(CircleStart(r), r, i);
    }
    FilledCoversOutline(xc, yc, steps, p);
  }

  /** Radius 0 plots only the centre (eight times, in both modes); a negative
      radius plots nothing. */
  lemma CircleOfRadiusZero(xc: int, yc: int)
    ensures CircleOutline(xc, yc, 0) == Octants(xc, yc, 0, 0)
    ensures CircleFilled(xc, yc, 0) == Octants(xc, yc, 0, 0)
    ensures forall p :: p in CircleOutline(xc, yc, 0) ==> p == Pt(xc, yc)
  {
    var s := CircleStart(0);
    assert CircleNext(s) == CircleState(1, -1, 13);
    assert CircleSteps(CircleNext(s)) == [];
    assert CircleSteps(s) == [s];
    assert [s][1..] == [];
    assert Outline(xc, yc, [s]) == Octants(xc, yc, 0, 0) + Outline(xc, yc, []);
    assert Filled(xc, yc, [s]) == Column(xc, yc, 0, 0, 0) + Filled(xc, yc, []);
    assert Column(xc, yc, 0, 0, 0) == Column(xc, yc, 0, 0, -1) + Octants(xc, yc, 0, 0);
  }

  lemma CircleOfNegativeRadius(xc: int, yc: int, r: int)
    requires r < 0
    ensures CircleOutline(xc, yc, r) == [] && CircleFilled(xc, yc, r) == []
  {
  }

  /*** Triangle ***/

  /** A vertex given to LCD_DrawTriangle (uint16_t coordinates). */
  datatype Vertex = Vertex(x: u16, y: u16)

  /** The three compare-and-swap steps that put the vertices in y order: the
      result is sorted by y and is one of the six orderings of the input. */
  function SortByY(v0: Vertex, v1: Vertex, v2: Vertex): (q: (Vertex, Vertex, Vertex))
    ensures q.0.y <= q.1.y <= q.2.y
    ensures || q == (v0, v1, v2) || q == (v0, v2, v1) || q == (v1, v0, v2)
            || q == (v1, v2, v0) || q == (v2, v0, v1) || q == (v2, v1, v0)
  {
    var (a, b) := if v0.y > v1.y then (v1, v0) else (v0, v1);
    var (b', c) := if b.y > v2.y then (v2, b) else (b, v2);
    var (a', b'') := if a.y > b'.y then (b', a) else (a, b');
    (a', b'', c)
  }

  /** The inputs for which the fill terminates without dividing by zero: all on
      one row, or the lowest row above 65535 (a uint16_t counter cannot pass it)
      and not two vertices on row 0 above the third (where y1 - 1 wraps). */
  predicate FillTerminates(v0: Vertex, v1: Vertex, v2: Vertex) {
    var (q0, q1, q2) := SortByY(v0, v1, v2);
    q0.y == q2.y || (q2.y < 0xFFFF && !(q0.y == q1.y == 0))
  }

  /** One scanline: LCD_DrawArea(a, y, b, y, color, 1) with a <= b. */
  datatype Span = Span(a: u16, y: u16, b: u16)

  predicate Covers(s: Span, x: int) { s.a <= x <= s.b }

  /** The swap that makes a <= b. */
  function Ordered(a: u16, y: u16, b: u16): Span {
    if a > b then Span(b, y, a) else Span(a, y, b)
  }

  /** The single span of a triangle on one row: a and b start at x0 and are
      widened by x1, then by x2. */
  function FlatSpan(q0: Vertex, q1: Vertex, q2: Vertex): Span {
    var (a, b) := (q0.x, q0.x);
    var (a, b) := if q1.x < a then (q1.x, b) else if q1.x > b then (a, q1.x) else (a, b);
    var (a, b) := if q2.x < a then (q2.x, b) else if q2.x > b then (a, q2.x) else (a, b);
    Span(a, q0.y, b)
  }

  /** The last row of the upper half. */
  function LastUpper(q1: Vertex, q2: Vertex): int {
    if q1.y == q2.y then q1.y else q1.y - 1
  }

  /** What `s += d` accumulates over k rows from 0: k copies of d. */
  function Accumulated(k: nat, d: int): int {
    if k == 0 then 0 else Accumulated(k - 1, d) + d
  }

  lemma {:induction false} AccumulatedIsProduct(k: nat, d: int)
    ensures Accumulated(k, d) == k * d
  {
    if k > 0 {
      AccumulatedIsProduct(k - 1, d);
      assert (k - 1) * d + d == k * d;
    }
  }

  /** `x0 + s / h` in C arithmetic, stored as uint16_t: an edge's crossing
      from its start x0, the accumulated sum s and its height h. */
  function Crossing(x0: int, s: int, h: int): u16
    requires h != 0
  {
    Wrap16(x0 + CDiv(s, h))
  }

  /** Where the edge from `p` to `q` crosses row y: p.x plus the truncated
      quotient of the product accumulated over the rows from p.y, y - p.y
      steps of q.x - p.x, by q.y - p.y, stored as uint16_t. */
  function EdgeX(p: Vertex, q: Vertex, y: int): u16
    requires p.y < q.y && p.y <= y
  {
    Crossing(p.x, Accumulated(y - p.y, q.x - p.x), q.y - p.y)
  }

  /** An edge passes through both of its end points. */
  lemma EdgeEnds(p: Vertex, q: Vertex)
    requires p.y < q.y
    ensures EdgeX(p, q, p.y) == p.x && EdgeX(p, q, q.y) == q.x
  {
    var k, d := q.y - p.y, q.x - p.x;
    AccumulatedIsProduct(k, d);
    CDivExact(d, k);
  }

  /** A span of the upper half (rows y0 .. last): edges 0-1 and 0-2. */
  function UpperSpan(q0: Vertex, q1: Vertex, q2: Vertex, y: u16): Span
    requires q0.y < q1.y && q0.y < q2.y && q0.y <= y
  {
    Ordered(EdgeX(q0, q1, y), y, EdgeX(q0, q2, y))
  }

  /** A span of the lower half (rows last+1 .. y2): edges 1-2 and 0-2. */
  function LowerSpan(q0: Vertex, q1: Vertex, q2: Vertex, y: u16): Span
    requires q0.y <= q1.y < q2.y && q1.y <= y
  {
    Ordered(EdgeX(q1, q2, y), y, EdgeX(q0, q2, y))
  }

  /** The spans the upper scanline loop draws from row y on, up to last; for
      a flat top edge that is none. */
  function UpperFrom(q0: Vertex, q1: Vertex, q2: Vertex, y: int): seq<Span>
    requires q0.y <= q1.y <= q2.y && q0.y < q2.y && q0.y <= y
    decreases LastUpper(q1, q2) - y + 1
  {
    if y > LastUpper(q1, q2) then []
    else [UpperSpan(q0, q1, q2, y)] + UpperFrom(q0, q1, q2, y + 1)
  }

  /** The spans the lower scanline loop draws from row y (after last) on, up
      to y2; for a flat bottom edge that is none. */
  function LowerFrom(q0: Vertex, q1: Vertex, q2: Vertex, y: int): seq<Span>
    requires q0.y <= q1.y <= q2.y && q0.y < q2.y && LastUpper(q1, q2) < y
    decreases q2.y - y + 1
  {
    if y > q2.y then []
    else [LowerSpan(q0, q1, q2, y)] + LowerFrom(q0, q1, q2, y + 1)
  }

  /** The spans of the upper half, for sorted vertices. */
  function UpperSpans(q0: Vertex, q1: Vertex, q2: Vertex): seq<Span>
    requires q0.y <= q1.y <= q2.y && q0.y < q2.y
  {
    UpperFrom(q0, q1, q2, q0.y)
  }

  /** The spans of the lower half, for sorted vertices. */
  function LowerSpans(q0: Vertex, q1: Vertex, q2: Vertex): seq<Span>
    requires q0.y <= q1.y <= q2.y && q0.y < q2.y
  {
    LowerFrom(q0, q1, q2, LastUpper(q1, q2) + 1)
  }

  lemma {:induction false} UpperFromShape(q0: Vertex, q1: Vertex, q2: Vertex, y: int)
    requires q0.y <= q1.y <= q2.y && q0.y < q2.y && q0.y <= y
    ensures |UpperFrom(q0, q1, q2, y)| == if y > LastUpper(q1, q2) then 0 else LastUpper(q1, q2) - y + 1
    ensures forall i :: 0 <= i < |UpperFrom(q0, q1, q2, y)| ==>
              q0.y < q1.y && y + i <= LastUpper(q1, q2) && UpperFrom(q0, q1, q2, y)[i] == UpperSpan(q0, q1, q2, y + i)
    decreases LastUpper(q1, q2) - y + 1
  {
    if y <= LastUpper(q1, q2) {
      UpperFromShape(q0, q1, q2, y + 1);
      var s := UpperFrom(q0, q1, q2, y);
      assert s == [UpperSpan(q0, q1, q2, y)] + UpperFrom(q0, q1, q2, y + 1);
      forall i | 0 < i < |s|
        ensures s[i] == UpperSpan(q0, q1, q2, y + i)
      {
        assert s[i] == UpperFrom(q0, q1, q2, y + 1)[i - 1];
        assert y + 1 + (i - 1) == y + i;
      }
    }
  }

  lemma {:induction false} LowerFromShape(q0: Vertex, q1: Vertex, q2: Vertex, y: int)
    requires q0.y <= q1.y <= q2.y && q0.y < q2.y && LastUpper(q1, q2) < y
    ensures |LowerFrom(q0, q1, q2, y)| == if y > q2.y then 0 else q2.y - y + 1
    ensures forall i :: 0 <= i < |LowerFrom(q0, q1, q2, y)| ==>
              q1.y < q2.y && q1.y <= y + i <= q2.y && LowerFrom(q0, q1, q2, y)[i] == LowerSpan(q0, q1, q2, y + i)
    decreases q2.y - y + 1
  {
    if y <= q2.y {
      LowerFromShape(q0, q1, q2, y + 1);
      var s := LowerFrom(q0, q1, q2, y);
      assert s == [LowerSpan(q0, q1, q2, y)] + LowerFrom(q0, q1, q2, y + 1);
      forall i | 0 < i < |s|
        ensures s[i] == LowerSpan(q0, q1, q2, y + i)
      {
        assert s[i] == LowerFrom(q0, q1, q2, y + 1)[i - 1];
        assert y + 1 + (i - 1) == y + i;
      }
    }
  }

  /** The upper half has one span per row from y0 to last, and the lower
      half one per row from last + 1 to y2. */
  lemma HalvesLength(q0: Vertex, q1: Vertex, q2: Vertex)
    requires q0.y <= q1.y <= q2.y && q0.y < q2.y
    ensures |UpperSpans(q0, q1, q2)| == LastUpper(q1, q2) - q0.y + 1
    ensures |LowerSpans(q0, q1, q2)| == q2.y - LastUpper(q1, q2)
  {
    UpperFromShape(q0, q1, q2, q0.y);
    LowerFromShape(q0, q1, q2, LastUpper(q1, q2) + 1);
  }

  /** Span `i` of the upper half lies on row y0 + i. */
  lemma UpperAt(q0: Vertex, q1: Vertex, q2: Vertex, i: nat)
    requires q0.y <= q1.y <= q2.y && q0.y < q2.y
    requires i < |UpperSpans(q0, q1, q2)|
    ensures q0.y < q1.y && q0.y + i <= LastUpper(q1, q2)
    ensures UpperSpans(q0, q1, q2)[i] == UpperSpan(q0, q1, q2, q0.y + i)
  {
    UpperFromShape(q0, q1, q2, q0.y);
  }

  /** Span `i` of the lower half lies on row y1 + i. */
  lemma LowerAt(q0: Vertex, q1: Vertex, q2: Vertex, i: nat)
    requires q0.y <= q1.y <= q2.y && q0.y < q2.y
    requires i < |LowerSpans(q0, q1, q2)|
    ensures q1.y < q2.y && q1.y + i <= q2.y
    ensures LowerSpans(q0, q1, q2)[i] == LowerSpan(q0, q1, q2, q1.y + i)
  {
    LowerFromShape(q0, q1, q2, LastUpper(q1, q2) + 1);
  }

  /** The spans of vertices already sorted by y. */
  function SortedSpans(q0: Vertex, q1: Vertex, q2: Vertex): seq<Span>
    requires q0.y <= q1.y <= q2.y
  {
    if q0.y == q2.y then [FlatSpan(q0, q1, q2)]
    else UpperSpans(q0, q1, q2) + LowerSpans(q0, q1, q2)
  }

  /** The spans the filled LCD_DrawTriangle draws, in order. */
  function TriangleSpans(v0: Vertex, v1: Vertex, v2: Vertex): seq<Span> {
    var (q0, q1, q2) := SortByY(v0, v1, v2);
    SortedSpans(q0, q1, q2)
  }

  function Min3(a: int, b: int, c: int): int {
    if a <= b && a <= c then a else if b <= c then b else c
  }

  function Max3(a: int, b: int, c: int): int {
    if a >= b && a >= c then a else if b >= c then b else c
  }

  /** The filled triangle draws exactly one span per row from the lowest to
      the highest y, in increasing y, each with a <= b; on a single row it is
      the one span from the least to the greatest x. */
  lemma TriangleScanlines(v0: Vertex, v1: Vertex, v2: Vertex)
    ensures var (q0, q1, q2) := SortByY(v0, v1, v2);
            var spans := TriangleSpans(v0, v1, v2);
            && |spans| == q2.y - q0.y + 1
            && (forall i :: 0 <= i < |spans| ==> spans[i].y == q0.y + i && spans[i].a <= spans[i].b)
            && (q0.y == q2.y ==> spans == [Span(Min3(v0.x, v1.x, v2.x), q0.y, Max3(v0.x, v1.x, v2.x))])
  {
    var (q0, q1, q2) := SortByY(v0, v1, v2);
    var spans := TriangleSpans(v0, v1, v2);
    if q0.y < q2.y {
      var up, low := UpperSpans(q0, q1, q2), LowerSpans(q0, q1, q2);
      assert spans == up + low;
      HalvesLength(q0, q1, q2);
      forall i | 0 <= i < |spans|
        ensures spans[i].y == q0.y + i && spans[i].a <= spans[i].b
      {
        if i < |up| {
          UpperAt(q0, q1, q2, i);
          assert spans[i] == up[i];
        } else {
          LowerAt(q0, q1, q2, i - |up|);
          assert spans[i] == low[i - |up|];
          assert q1.y + (i - |up|) == q0.y + i;
        }
      }
    }
  }

  /** The spans at the rows that hold the vertices, on each half. */
  lemma UpperEnds(q0: Vertex, q1: Vertex, q2: Vertex)
    requires q0.y < q1.y && q0.y < q2.y
    ensures UpperSpan(q0, q1, q2, q0.y) == Span(q0.x, q0.y, q0.x)
    ensures Covers(UpperSpan(q0, q1, q2, q1.y), q1.x)
    ensures q1.y == q2.y ==> Covers(UpperSpan(q0, q1, q2, q2.y), q2.x)
  {
    EdgeEnds(q0, q1);
    EdgeEnds(q0, q2);
  }

  lemma LowerEnds(q0: Vertex, q1: Vertex, q2: Vertex)
    requires q0.y <= q1.y < q2.y
    ensures Covers(LowerSpan(q0, q1, q2, q1.y), q1.x)
    ensures q0.y == q1.y ==> Covers(LowerSpan(q0, q1, q2, q1.y), q0.x)
    ensures LowerSpan(q0, q1, q2, q2.y) == Span(q2.x, q2.y, q2.x)
  {
    EdgeEnds(q1, q2);
    EdgeEnds(q0, q2);
  }

  /** The flat triangle: one span over all three vertices. */
  lemma FlatCoversVertices(q0: Vertex, q1: Vertex, q2: Vertex)
    requires q0.y == q1.y == q2.y
    ensures |SortedSpans(q0, q1, q2)| == 1
    ensures Covers(SortedSpans(q0, q1, q2)[0], q0.x)
    ensures Covers(SortedSpans(q0, q1, q2)[0], q1.x)
    ensures Covers(SortedSpans(q0, q1, q2)[0], q2.x)
  {
  }

  /** A triangle with a flat bottom is all upper half. */
  lemma UpperCoversVertices(q0: Vertex, q1: Vertex, q2: Vertex)
    requires q0.y < q1.y == q2.y
    ensures |SortedSpans(q0, q1, q2)| == q2.y - q0.y + 1
    ensures Covers(SortedSpans(q0, q1, q2)[0], q0.x)
    ensures Covers(SortedSpans(q0, q1, q2)[q1.y - q0.y], q1.x)
    ensures Covers(SortedSpans(q0, q1, q2)[q2.y - q0.y], q2.x)
  {
    var spans, up := SortedSpans(q0, q1, q2), UpperSpans(q0, q1, q2);
    HalvesLength(q0, q1, q2);
    assert spans == up;
    UpperEnds(q0, q1, q2);
    UpperAt(q0, q1, q2, 0);
    UpperAt(q0, q1, q2, q1.y - q0.y);
  }

  /** A triangle with a lower half: vertex 1 starts it and vertex 2 ends it. */
  lemma LowerCoversVertices(q0: Vertex, q1: Vertex, q2: Vertex)
    requires q0.y <= q1.y < q2.y
    ensures |SortedSpans(q0, q1, q2)| == q2.y - q0.y + 1
    ensures Covers(SortedSpans(q0, q1, q2)[0], q0.x)
    ensures Covers(SortedSpans(q0, q1, q2)[q1.y - q0.y], q1.x)
    ensures Covers(SortedSpans(q0, q1, q2)[q2.y - q0.y], q2.x)
  {
    var spans := SortedSpans(q0, q1, q2);
    var up, low := UpperSpans(q0, q1, q2), LowerSpans(q0, q1, q2);
    assert spans == up + low;
    HalvesLength(q0, q1, q2);
    LowerEnds(q0, q1, q2);
    LowerAt(q0, q1, q2, 0);
    LowerAt(q0, q1, q2, q2.y - q1.y);
    assert spans[q1.y - q0.y] == low[0];
    assert spans[q2.y - q0.y] == low[q2.y - q1.y];
    if q0.y < q1.y {
      UpperEnds(q0, q1, q2);
      UpperAt(q0, q1, q2, 0);
      assert spans[0] == up[0];
    }
  }

  /** Each sorted vertex lies on the span of its row. */
  lemma SortedCoversVertices(q0: Vertex, q1: Vertex, q2: Vertex)
    requires q0.y <= q1.y <= q2.y
    ensures |SortedSpans(q0, q1, q2)| == q2.y - q0.y + 1
    ensures Covers(SortedSpans(q0, q1, q2)[0], q0.x)
    ensures Covers(SortedSpans(q0, q1, q2)[q1.y - q0.y], q1.x)
    ensures Covers(SortedSpans(q0, q1, q2)[q2.y - q0.y], q2.x)
  {
    if q0.y == q2.y {
      FlatCoversVertices(q0, q1, q2);
    } else if q1.y == q2.y {
      UpperCoversVertices(q0, q1, q2);
    } else {
      LowerCoversVertices(q0, q1, q2);
    }
  }

  /** `v` lies on the span of its row, in spans that start at row `top`. */
  predicate OnItsRow(spans: seq<Span>, top: int, v: Vertex) {
    0 <= v.y - top < |spans| && Covers(spans[v.y - top], v.x)
  }

  /** Each vertex lies on the span of its own row. */
  lemma TriangleCoversVertices(v0: Vertex, v1: Vertex, v2: Vertex)
    ensures forall v :: v in [v0, v1, v2] ==>
              OnItsRow(TriangleSpans(v0, v1, v2), SortByY(v0, v1, v2).0.y, v)
  {
    var (q0, q1, q2) := SortByY(v0, v1, v2);
    var spans := TriangleSpans(v0, v1, v2);
    assert spans == SortedSpans(q0, q1, q2);
    SortedCoversVertices(q0, q1, q2);
    assert OnItsRow(spans, q0.y, q0) && OnItsRow(spans, q0.y, q1) && OnItsRow(spans, q0.y, q2);
    forall v | v in [v0, v1, v2]
      ensures OnItsRow(spans, q0.y, v)
    {
      assert v == q0 || v == q1 || v == q2;
    }
  }
}
