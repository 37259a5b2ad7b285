/** The drawing primitives of GUI.c: point, rectangle, line, circle and
    triangle. Each method appends to the transcript exactly the events of a
    transcript function, and the lemmas say what those transcripts contain. */
module Gui {
  import opened Bus
  import opened Display
  import opened Geometry

  /*** Transcripts ***/

  /** LCD_DrawPoint: a one-pixel window, then the colour. */
  function PointEvents(dev: LcdDev, x: u16, y: u16, color: u16): seq<Event> {
    Window(dev, x, y, x, y) + [Data16(color)]
  }

  /** A sequence of LCD_DrawPoint calls; each coordinate is converted to the
      uint16_t parameter of LCD_DrawPoint. */
  function PlotAll(dev: LcdDev, pts: seq<Pt>, color: u16): seq<Event> {
    if pts == [] then []
    else PointEvents(dev, Wrap16(pts[0].x), Wrap16(pts[0].y), color) + PlotAll(dev, pts[1..], color)
  }

  /** LCD_DrawLine. */
  function LineEvents(dev: LcdDev, x0: u16, y0: u16, x1: u16, y1: u16, color: u16): seq<Event> {
    PlotAll(dev, LinePoints(x0, y0, x1, y1), color)
  }

  /** The inputs for which the uint16_t counter of LCD_DrawLine reaches its
      bound distance+1 (it cannot when distance+1 is 65535). */
  predicate LineTerminates(x0: u16, y0: u16, x1: u16, y1: u16) {
    Distance(x0, y0, x1, y1) <= 0xFFFD
  }

  /** The four sides of an outlined LCD_DrawArea: top, bottom, left, right. */
  function BorderEvents(dev: LcdDev, x0: u16, y0: u16, x1: u16, y1: u16, color: u16): seq<Event> {
    LineEvents(dev, x0, y0, x1, y0, color) + LineEvents(dev, x0, y1, x1, y1, color)
    + LineEvents(dev, x0, y0, x0, y1, color) + LineEvents(dev, x1, y0, x1, y1, color)
  }

  /** What LCD_DrawArea streams inside its window: for `fill` the uint16_t
      width times the uint16_t height words of `color`, otherwise the sides. */
  function AreaBody(dev: LcdDev, x0: u16, y0: u16, x1: u16, y1: u16, color: u16, fill: int): seq<Event> {
    if fill != 0 then Repeat(Data16(color), Wrap16(x1 - x0 + 1) * Wrap16(y1 - y0 + 1))
    else BorderEvents(dev, x0, y0, x1, y1, color)
  }

  /** LCD_DrawArea: the window of the area, its body, then the full-screen
      window. */
  function AreaEvents(dev: LcdDev, x0: u16, y0: u16, x1: u16, y1: u16, color: u16, fill: int): seq<Event> {
    Window(dev, x0, y0, x1, y1) + AreaBody(dev, x0, y0, x1, y1, color, fill) + FullWindow(dev)
  }

  /** The outline of LCD_DrawArea draws lines as long as the sides. */
  predicate AreaTerminates(x0: u16, y0: u16, x1: u16, y1: u16, fill: int) {
    fill != 0 || (Abs(x1 - x0) <= 0xFFFD && Abs(y1 - y0) <= 0xFFFD)
  }

  /** LCD_DrawFillBox: the area from (x, y) to (x+w-1, y+h-1), as uint16_t. */
  function FillBoxEvents(dev: LcdDev, x: u16, y: u16, w: u16, h: u16, color: u16, fill: int): seq<Event> {
    AreaEvents(dev, x, y, Wrap16(x + w - 1), Wrap16(y + h - 1), color, fill)
  }

  /** LCD_Circle: the points of the outline or of the filled circle. */
  function CircleEvents(dev: LcdDev, xc: int, yc: int, color: u16, r: int, fill: int): seq<Event> {
    PlotAll(dev, if fill != 0 then CircleFilled(xc, yc, r) else CircleOutline(xc, yc, r), color)
  }

  /** One filled scanline: LCD_DrawArea(a, y, b, y, color, 1). */
  function SpanEvents(dev: LcdDev, spans: seq<Span>, color: u16): seq<Event> {
    if spans == [] then []
    else AreaEvents(dev, spans[0].a, spans[0].y, spans[0].b, spans[0].y, color, 1) + SpanEvents(dev, spans[1..], color)
  }

  lemma {:induction false} SpanEventsAppend(dev: LcdDev, a: seq<Span>, b: seq<Span>, color: u16)
    ensures SpanEvents(dev, a + b, color) == SpanEvents(dev, a, color) + SpanEvents(dev, b, color)
  {
    if a == [] {
      assert a + b == b;
    } else {
      assert (a + b)[1..] == a[1..] + b;
      SpanEventsAppend(dev, a[1..], b, color);
      AppendAssoc(AreaEvents(dev, a[0].a, a[0].y, a[0].b, a[0].y, color, 1), SpanEvents(dev, a[1..], color), SpanEvents(dev, b, color));
    }
  }

  lemma SpanEventsFrom(dev: LcdDev, spans: seq<Span>, t: nat, color: u16)
    requires t < |spans|
    ensures SpanEvents(dev, spans[t..], color)
            == AreaEvents(dev, spans[t].a, spans[t].y, spans[t].b, spans[t].y, color, 1) + SpanEvents(dev, spans[t + 1..], color)
  {
    assert spans[t..][1..] == spans[t + 1..];
  }

  /** LCD_DrawTriangle: the scanlines of the sorted triangle, or the three
      edges between the vertices as given. */
  function TriangleEvents(dev: LcdDev, v0: Vertex, v1: Vertex, v2: Vertex, color: u16, fill: int): seq<Event> {
    if fill != 0 then SpanEvents(dev, TriangleSpans(v0, v1, v2), color)
    else LineEvents(dev, v0.x, v0.y, v1.x, v1.y, color) + LineEvents(dev, v1.x, v1.y, v2.x, v2.y, color)
         + LineEvents(dev, v2.x, v2.y, v0.x, v0.y, color)
  }

  predicate TriangleTerminates(v0: Vertex, v1: Vertex, v2: Vertex, fill: int) {
    if fill != 0 then FillTerminates(v0, v1, v2)
    else LineTerminates(v0.x, v0.y, v1.x, v1.y) && LineTerminates(v1.x, v1.y, v2.x, v2.y)
         && LineTerminates(v2.x, v2.y, v0.x, v0.y)
  }

  /*** Lemmas about the transcripts ***/

  lemma {:induction false} PlotAllAppend(dev: LcdDev, a: seq<Pt>, b: seq<Pt>, color: u16)
    ensures PlotAll(dev, a + b, color) == PlotAll(dev, a, color) + PlotAll(dev, b, color)
  {
    if a == [] {
      assert a + b == b;
    } else {
      assert (a + b)[1..] == a[1..] + b;
      PlotAllAppend(dev, a[1..], b, color);
    }
  }

  /** A point writes its colour once and no other pixel. */
  lemma PointPixels(dev: LcdDev, x: u16, y: u16, color: u16)
    ensures Pixels(PointEvents(dev, x, y, color)) == [color]
  {
    WindowRoundTrip(dev, x, y, x, y);
    PixelsAppend(Window(dev, x, y, x, y), [Data16(color)]);
    assert Pixels([Data16(color)]) == Pixels([]) + [color];
  }

  /** Plotting n points streams exactly n pixels, all of `color`. */
  lemma {:induction false} PlotAllPixels(dev: LcdDev, pts: seq<Pt>, color: u16)
    ensures Pixels(PlotAll(dev, pts, color)) == seq(|pts|, _ => color)
  {
    if pts != [] {
      var p := pts[0];
      PointPixels(dev, Wrap16(p.x), Wrap16(p.y), color);
      PixelsAppend(PointEvents(dev, Wrap16(p.x), Wrap16(p.y), color), PlotAll(dev, pts[1..], color));
      PlotAllPixels(dev, pts[1..], color);
    }
  }

  /** The plot of the points from `t` on starts with point `t`. */
  lemma PlotAllFrom(dev: LcdDev, pts: seq<Pt>, color: u16, t: nat)
    requires t < |pts|
    ensures PlotAll(dev, pts[t..], color)
            == PointEvents(dev, Wrap16(pts[t].x), Wrap16(pts[t].y), color) + PlotAll(dev, pts[t + 1..], color)
  {
    assert pts[t..][1..] == pts[t + 1..];
  }

  /** Four LCD_DrawPoint calls at (xc + a, yc + b), (xc - a, yc + b),
      (xc + a, yc - b) and (xc - a, yc - b), in that order. */
  function QuadEvents(dev: LcdDev, xc: int, yc: int, a: int, b: int, color: u16): seq<Event> {
    PointEvents(dev, Wrap16(xc + a), Wrap16(yc + b), color)
    + PointEvents(dev, Wrap16(xc - a), Wrap16(yc + b), color)
    + PointEvents(dev, Wrap16(xc + a), Wrap16(yc - b), color)
    + PointEvents(dev, Wrap16(xc - a), Wrap16(yc - b), color)
  }

  /** The eight LCD_DrawPoint calls of _draw_circle_8, in order: the first four
      reflect (x, y), the last four reflect (y, x). */
  function OctantEvents(dev: LcdDev, xc: int, yc: int, x: int, y: int, color: u16): seq<Event> {
    QuadEvents(dev, xc, yc, x, y, color) + QuadEvents(dev, xc, yc, y, x, color)
  }

  /** Plotting one point and then others. */
  lemma PlotAllCons(dev: LcdDev, p: Pt, rest: seq<Pt>, color: u16)
    ensures PlotAll(dev, [p] + rest, color) == PointEvents(dev, Wrap16(p.x), Wrap16(p.y), color) + PlotAll(dev, rest, color)
  {
    assert ([p] + rest)[1..] == rest;
  }

  /** Plotting four points one after the other. */
  lemma PlotFour(dev: LcdDev, p0: Pt, p1: Pt, p2: Pt, p3: Pt, color: u16)
    ensures PlotAll(dev, [p0, p1, p2, p3], color)
            == PointEvents(dev, Wrap16(p0.x), Wrap16(p0.y), color) + PointEvents(dev, Wrap16(p1.x), Wrap16(p1.y), color)
               + PointEvents(dev, Wrap16(p2.x), Wrap16(p2.y), color) + PointEvents(dev, Wrap16(p3.x), Wrap16(p3.y), color)
  {
    var e0, e1 := PointEvents(dev, Wrap16(p0.x), Wrap16(p0.y), color), PointEvents(dev, Wrap16(p1.x), Wrap16(p1.y), color);
    var e2, e3 := PointEvents(dev, Wrap16(p2.x), Wrap16(p2.y), color), PointEvents(dev, Wrap16(p3.x), Wrap16(p3.y), color);
    PlotAllCons(dev, p3, [], color);
    assert [p3] + [] == [p3];
    PlotAllCons(dev, p2, [p3], color);
    assert [p2] + [p3] == [p2, p3];
    PlotAllCons(dev, p1, [p2, p3], color);
    assert [p1] + [p2, p3] == [p1, p2, p3];
    PlotAllCons(dev, p0, [p1, p2, p3], color);
    assert [p0] + [p1, p2, p3] == [p0, p1, p2, p3];
    assert PlotAll(dev, [p0, p1, p2, p3], color) == e0 + (e1 + (e2 + (e3 + [])));
    assert e3 + [] == e3;
    AppendAssoc(e1, e2, e3);
    AppendAssoc(e0, e1 + e2, e3);
    AppendAssoc(e0, e1, e2);
  }

  /** Four reflections of (a, b) about the centre. */
  lemma QuadPlot(dev: LcdDev, xc: int, yc: int, a: int, b: int, color: u16)
    ensures PlotAll(dev, [Pt(xc + a, yc + b), Pt(xc - a, yc + b), Pt(xc + a, yc - b), Pt(xc - a, yc - b)], color)
            == QuadEvents(dev, xc, yc, a, b, color)
  {
    PlotFour(dev, Pt(xc + a, yc + b), Pt(xc - a, yc + b), Pt(xc + a, yc - b), Pt(xc - a, yc - b), color);
  }

  /** _draw_circle_8 plots exactly the eight octant points. */
  lemma OctantPlot(dev: LcdDev, xc: int, yc: int, x: int, y: int, color: u16)
    ensures PlotAll(dev, Octants(xc, yc, x, y), color) == OctantEvents(dev, xc, yc, x, y, color)
  {
    var q1 := [Pt(xc + x, yc + y), Pt(xc - x, yc + y), Pt(xc + x, yc - y), Pt(xc - x, yc - y)];
    var q2 := [Pt(xc + y, yc + x), Pt(xc - y, yc + x), Pt(xc + y, yc - x), Pt(xc - y, yc - x)];
    assert Octants(xc, yc, x, y) == q1 + q2;
    QuadPlot(dev, xc, yc, x, y, color);
    QuadPlot(dev, xc, yc, y, x, color);
    PlotAllAppend(dev, q1, q2, color);
  }

  /** The plot of the first k+1 points extends the plot of the first k. */
  lemma PlotAllSnoc(dev: LcdDev, pts: seq<Pt>, color: u16, k: nat)
    requires k < |pts|
    ensures PlotAll(dev, pts[..k + 1], color)
            == PlotAll(dev, pts[..k], color) + PointEvents(dev, Wrap16(pts[k].x), Wrap16(pts[k].y), color)
  {
    assert pts[..k + 1] == pts[..k] + [pts[k]];
    PlotAllAppend(dev, pts[..k], [pts[k]], color);
    assert [pts[k]][1..] == [];
  }

  /** Element `i` of a plot is the point-transcript of point `i`. */
  lemma {:induction false} PlotAllAt(dev: LcdDev, pts: seq<Pt>, color: u16, i: nat)
    requires i < |pts|
    ensures |PlotAll(dev, pts, color)| == 12 * |pts|
    ensures PlotAll(dev, pts, color)[12 * i .. 12 * i + 12]
            == PointEvents(dev, Wrap16(pts[i].x), Wrap16(pts[i].y), color)
  {
    PlotAllAppend(dev, pts[..i], pts[i..], color);
    assert pts == pts[..i] + pts[i..];
    PlotAllLength(dev, pts[..i], color);
    PlotAllLength(dev, pts[i..], color);
  }

  lemma {:induction false} PlotAllLength(dev: LcdDev, pts: seq<Pt>, color: u16)
    ensures |PlotAll(dev, pts, color)| == 12 * |pts|
  {
    if pts != [] {
      PlotAllLength(dev, pts[1..], color);
    }
  }

  /** The first and the last point transcripts of a plot. */
  lemma PlotAllEnds(dev: LcdDev, pts: seq<Pt>, color: u16)
    requires |pts| >= 1
    ensures |PlotAll(dev, pts, color)| == 12 * |pts|
    ensures PlotAll(dev, pts, color)[..12] == PointEvents(dev, Wrap16(pts[0].x), Wrap16(pts[0].y), color)
    ensures PlotAll(dev, pts, color)[12 * (|pts| - 1)..]
            == PointEvents(dev, Wrap16(pts[|pts| - 1].x), Wrap16(pts[|pts| - 1].y), color)
  {
    var evs := PlotAll(dev, pts, color);
    PlotAllAt(dev, pts, color, 0);
    PlotAllAt(dev, pts, color, |pts| - 1);
    assert evs[12 * (|pts| - 1)..] == evs[12 * (|pts| - 1) .. 12 * (|pts| - 1) + 12];
  }

  /** LCD_DrawLine streams distance+2 pixels, all of its colour. */
  lemma LinePixels(dev: LcdDev, x0: u16, y0: u16, x1: u16, y1: u16, color: u16)
    ensures Pixels(LineEvents(dev, x0, y0, x1, y1, color)) == seq(Distance(x0, y0, x1, y1) + 2, _ => color)
    ensures |LineEvents(dev, x0, y0, x1, y1, color)| == 12 * (Distance(x0, y0, x1, y1) + 2)
  {
    var pts := LinePoints(x0, y0, x1, y1);
    PlotAllPixels(dev, pts, color);
    PlotAllLength(dev, pts, color);
  }

  /** The first point transcript of LCD_DrawLine addresses (x0, y0) and its
      last addresses (x1, y1). */
  lemma LineTranscriptEnds(dev: LcdDev, x0: u16, y0: u16, x1: u16, y1: u16, color: u16)
    ensures var d := Distance(x0, y0, x1, y1);
            |LineEvents(dev, x0, y0, x1, y1, color)| == 12 * (d + 2)
            && LineEvents(dev, x0, y0, x1, y1, color)[..12] == PointEvents(dev, x0, y0, color)
            && LineEvents(dev, x0, y0, x1, y1, color)[12 * (d + 1) ..] == PointEvents(dev, x1, y1, color)
  {
    var pts := LinePoints(x0, y0, x1, y1);
    var d := Distance(x0, y0, x1, y1);
    var evs := PlotAll(dev, pts, color);
    assert LineEvents(dev, x0, y0, x1, y1, color) == evs;
    LineEnds(x0, y0, x1, y1);
    PlotAllEnds(dev, pts, color);
    var k := |pts| - 1;
    assert k == d + 1 && pts[0] == Pt(x0, y0) && pts[k] == Pt(x1, y1);
    Wrap16OfU16(x0);
    Wrap16OfU16(y0);
    Wrap16OfU16(x1);
    Wrap16OfU16(y1);
    assert evs[..12] == PointEvents(dev, x0, y0, color);
    assert evs[12 * k..] == PointEvents(dev, x1, y1, color);
  }

  /** A transcript between two windows streams the pixels of its middle part. */
  lemma FramedPixels(dev: LcdDev, xs: int, ys: int, xe: int, ye: int, body: seq<Event>)
    ensures Pixels(Window(dev, xs, ys, xe, ye) + body + FullWindow(dev)) == Pixels(body)
    ensures (Window(dev, xs, ys, xe, ye) + body + FullWindow(dev))[..11] == Window(dev, xs, ys, xe, ye)
    ensures var evs := Window(dev, xs, ys, xe, ye) + body + FullWindow(dev);
            evs[|evs| - 11..] == FullWindow(dev)
    ensures var evs := Window(dev, xs, ys, xe, ye) + body + FullWindow(dev);
            |evs| >= 22 && WindowOf(dev, evs[..11]) == Some((Low8(xs), Low8(ys), Low8(xe), Low8(ye)))
  {
    var w := Window(dev, xs, ys, xe, ye);
    WindowRoundTrip(dev, xs, ys, xe, ye);
    WindowRoundTrip(dev, 0, 0, Wrap16(dev.width - 1), Wrap16(dev.height - 1));
    PixelsAppend(w + body, FullWindow(dev));
    PixelsAppend(w, body);
  }

  /** A window, a run of n words of one colour, and the full-screen window
      stream that run. */
  lemma FramedRun(dev: LcdDev, x0: u16, y0: u16, x1: u16, y1: u16, color: u16, n: nat)
    ensures Pixels(Window(dev, x0, y0, x1, y1) + Repeat(Data16(color), n) + FullWindow(dev)) == seq(n, _ => color)
    ensures WindowOf(dev, (Window(dev, x0, y0, x1, y1) + Repeat(Data16(color), n) + FullWindow(dev))[..11])
            == Some((Low8(x0), Low8(y0), Low8(x1), Low8(y1)))
  {
    FramedPixels(dev, x0, y0, x1, y1, Repeat(Data16(color), n));
    WindowRoundTrip(dev, x0, y0, x1, y1);
    PixelsRepeat(color, n);
  }

  /** The filled LCD_DrawArea: its window, the uint16_t width times the
      uint16_t height words of `color`, then the full-screen window. */
  lemma AreaFilledShape(dev: LcdDev, x0: u16, y0: u16, x1: u16, y1: u16, color: u16, fill: int)
    requires fill != 0
    ensures AreaEvents(dev, x0, y0, x1, y1, color, fill)
            == Window(dev, x0, y0, x1, y1) + Repeat(Data16(color), Wrap16(x1 - x0 + 1) * Wrap16(y1 - y0 + 1)) + FullWindow(dev)
    ensures Pixels(AreaEvents(dev, x0, y0, x1, y1, color, fill)) == seq(Wrap16(x1 - x0 + 1) * Wrap16(y1 - y0 + 1), _ => color)
    ensures WindowOf(dev, AreaEvents(dev, x0, y0, x1, y1, color, fill)[..11]) == Some((Low8(x0), Low8(y0), Low8(x1), Low8(y1)))
  {
    FramedRun(dev, x0, y0, x1, y1, color, Wrap16(x1 - x0 + 1) * Wrap16(y1 - y0 + 1));
  }

  /** The filled LCD_DrawArea: its window, then (x1-x0+1)*(y1-y0+1) words of
      `color` for an ordered area, then the full-screen window. An area as wide
      as the whole uint16_t range has a width of 0 and streams nothing. */
  lemma AreaFilled(dev: LcdDev, x0: u16, y0: u16, x1: u16, y1: u16, color: u16, fill: int)
    requires fill != 0
    ensures AreaEvents(dev, x0, y0, x1, y1, color, fill)
            == Window(dev, x0, y0, x1, y1) + Repeat(Data16(color), Wrap16(x1 - x0 + 1) * Wrap16(y1 - y0 + 1)) + FullWindow(dev)
    ensures x0 <= x1 && y0 <= y1 && x1 - x0 < 0xFFFF && y1 - y0 < 0xFFFF ==>
            Pixels(AreaEvents(dev, x0, y0, x1, y1, color, fill)) == seq(Cells(x1 - x0 + 1, y1 - y0 + 1), _ => color)
    ensures x0 == 0 && x1 == 0xFFFF ==> Pixels(AreaEvents(dev, x0, y0, x1, y1, color, fill)) == []
  {
    AreaFilledShape(dev, x0, y0, x1, y1, color, fill);
    if x0 <= x1 && y0 <= y1 && x1 - x0 < 0xFFFF && y1 - y0 < 0xFFFF {
      SameRun(color, Wrap16(x1 - x0 + 1), Wrap16(y1 - y0 + 1), x1 - x0 + 1, y1 - y0 + 1);
    }
    if x0 == 0 && x1 == 0xFFFF {
      SameRun(color, Wrap16(x1 - x0 + 1), Wrap16(y1 - y0 + 1), 0, Wrap16(y1 - y0 + 1));
    }
  }

  /** The number of pixels of a w x h area. */
  function Cells(w: nat, h: nat): nat {
    w * h
  }

  /** Runs whose lengths are products of equal factors are equal. */
  lemma SameRun(color: u16, a: nat, b: nat, c: nat, d: nat)
    requires a == c && b == d
    ensures seq(a * b, _ => color) == seq(c * d, _ => color)
  {
  }

  /** The outlined LCD_DrawArea streams the four lines: 2(|dx|+2) + 2(|dy|+2)
      pixels, all of `color`. */
  lemma AreaOutline(dev: LcdDev, x0: u16, y0: u16, x1: u16, y1: u16, color: u16)
    ensures var p := Pixels(AreaEvents(dev, x0, y0, x1, y1, color, 0));
            |p| == 2 * (Abs(x1 - x0) + 2) + 2 * (Abs(y1 - y0) + 2)
            && forall i :: 0 <= i < |p| ==> p[i] == color
  {
    FramedPixels(dev, x0, y0, x1, y1, BorderEvents(dev, x0, y0, x1, y1, color));
    LinePixels(dev, x0, y0, x1, y0, color);
    LinePixels(dev, x0, y1, x1, y1, color);
    LinePixels(dev, x0, y0, x0, y1, color);
    LinePixels(dev, x1, y0, x1, y1, color);
    assert Distance(x0, y0, x1, y0) == Distance(x0, y1, x1, y1) == Abs(x1 - x0);
    assert Distance(x0, y0, x0, y1) == Distance(x1, y0, x1, y1) == Abs(y1 - y0);
    FourRuns(LineEvents(dev, x0, y0, x1, y0, color), LineEvents(dev, x0, y1, x1, y1, color),
             LineEvents(dev, x0, y0, x0, y1, color), LineEvents(dev, x1, y0, x1, y1, color),
             color, Abs(x1 - x0) + 2, Abs(y1 - y0) + 2);
  }

  /** Four transcripts streaming runs of h, h, v and v pixels of one colour
      stream, together, one run of 2h+2v. */
  lemma FourRuns(a: seq<Event>, b: seq<Event>, c: seq<Event>, d: seq<Event>, color: u16, h: nat, v: nat)
    requires Pixels(a) == seq(h, _ => color) && Pixels(b) == seq(h, _ => color)
    requires Pixels(c) == seq(v, _ => color) && Pixels(d) == seq(v, _ => color)
    ensures Pixels(a + b + c + d) == seq(2 * h + 2 * v, _ => color)
  {
    PixelsAppend(a, b);
    PixelsAppend(a + b, c);
    PixelsAppend(a + b + c, d);
  }

  /** LCD_DrawFillBox: a box of w by h pixels at (x, y) that stays on the
      16-bit plane streams exactly w*h words of `color` into the window from
      (x, y) to (x+w-1, y+h-1). */
  lemma FillBoxPixels(dev: LcdDev, x: u16, y: u16, w: u16, h: u16, color: u16)
    requires 1 <= w && 1 <= h && x + w <= 0x1_0000 && y + h <= 0x1_0000
    ensures FillBoxEvents(dev, x, y, w, h, color, 1)[..11] == Window(dev, x, y, x + w - 1, y + h - 1)
    ensures Pixels(FillBoxEvents(dev, x, y, w, h, color, 1)) == seq(w * h, _ => color)
  {
    var x1: u16, y1: u16 := x + w - 1, y + h - 1;
    assert Wrap16(x + w - 1) == x1 && Wrap16(y + h - 1) == y1;
    assert Wrap16(x1 - x + 1) == w && Wrap16(y1 - y + 1) == h;
    AreaFilledShape(dev, x, y, x1, y1, color, 1);
    assert FillBoxEvents(dev, x, y, w, h, color, 1)
           == Window(dev, x, y, x1, y1) + Repeat(Data16(color), w * h) + FullWindow(dev);
    FramedRun(dev, x, y, x1, y1, color, w * h);
    WindowPrefix(dev, x, y, x1, y1, Repeat(Data16(color), w * h) + FullWindow(dev));
  }

  /** The first eleven events after a window are that window. */
  lemma WindowPrefix(dev: LcdDev, xs: int, ys: int, xe: int, ye: int, rest: seq<Event>)
    ensures (Window(dev, xs, ys, xe, ye) + rest)[..11] == Window(dev, xs, ys, xe, ye)
  {
    WindowRoundTrip(dev, xs, ys, xe, ye);
  }

  /** The circle transcript plots every outline point of the filled circle
      too; radius 0 plots only the centre. */
  lemma CirclePoints(dev: LcdDev, xc: int, yc: int, color: u16, r: int, p: Pt)
    ensures p in CircleOutline(xc, yc, r) ==> p in CircleFilled(xc, yc, r)
    ensures r == 0 ==> CircleEvents(dev, xc, yc, color, r, 0) == CircleEvents(dev, xc, yc, color, r, 1)
                       == PlotAll(dev, seq(8, _ => Pt(xc, yc)), color)
  {
    if p in CircleOutline(xc, yc, r) {
      CircleFillCoversOutline(xc, yc, r, p);
    }
    if r == 0 {
      CircleOfRadiusZero(xc, yc);
      assert Octants(xc, yc, 0, 0) == seq(8, _ => Pt(xc, yc));
    }
  }

  /** A rectangle on the 128x160 screen set up by initialisation: window
      (10,10)-(19,14), 50 red pixels, and the window back to (0,0)-(127,159). */
  lemma RectangleScenario()
    ensures var dev := LcdDev(128, 160, RAMWR, CASET, RASET);
            var evs := AreaEvents(dev, 10, 10, 19, 14, RED, 1);
            && evs[..11] == [Cmd(0x2A), Data8(0), Data8(10), Data8(0), Data8(19),
                             Cmd(0x2B), Data8(0), Data8(10), Data8(0), Data8(14), Cmd(0x2C)]
            && Pixels(evs) == seq(50, _ => RED)
            && evs[|evs| - 11..] == [Cmd(0x2A), Data8(0), Data8(0), Data8(0), Data8(127),
                                     Cmd(0x2B), Data8(0), Data8(0), Data8(0), Data8(159), Cmd(0x2C)]
  {
    var dev := LcdDev(128, 160, RAMWR, CASET, RASET);
    AreaFilled(dev, 10, 10, 19, 14, RED, 1);
    var evs := AreaEvents(dev, 10, 10, 19, 14, RED, 1);
    assert evs == Window(dev, 10, 10, 19, 14) + Repeat(Data16(RED), 50) + FullWindow(dev);
    assert evs[|evs| - 11..] == FullWindow(dev);
  }

  /*** The primitives ***/

  /** LCD_DrawPoint. */
  method DrawPoint(lcd: Lcd, x: u16, y: u16, color: u16)
    modifies lcd`trace
    ensures lcd.trace == old(lcd.trace) + PointEvents(lcd.Dev(), x, y, color)
  {
    lcd.SetCursor(x, y);
    lcd.WrData(color);
  }

  /** The set-up of one axis in LCD_DrawLine: the absolute increment and the
      direction of the step. */
  method AxisDelta(a: u16, b: u16) returns (delta: int, inc: int)
    ensures delta == Abs(b - a) && inc == Sign(b - a)
  {
    delta := b - a;
    if delta > 0 {
      inc := 1;
    } else if delta == 0 {
      inc := 0;
    } else {
      inc := -1;
      delta := -delta;
    }
  }

  /** The per-iteration update of one axis in LCD_DrawLine. */
  method Advance(pos: int, err: int, delta: nat, inc: int, dist: nat) returns (pos': int, err': int)
    ensures Axis(pos', err') == AxisStep(Axis(pos, err), delta, inc, dist)
  {
    pos', err' := pos, err + delta;
    if err' > dist {
      err' := err' - dist;
      pos' := pos' + inc;
    }
  }

  /** LCD_DrawLine: the Bresenham loop over uRow/uCol and xerr/yerr. */
  method DrawLine(lcd: Lcd, x0: u16, y0: u16, x1: u16, y1: u16, color: u16)
    requires LineTerminates(x0, y0, x1, y1)
    modifies lcd`trace
    ensures lcd.trace == old(lcd.trace) + LineEvents(lcd.Dev(), x0, y0, x1, y1, color)
  {
    var xerr, yerr := 0, 0;
    var uRow, uCol := x0 as int, y0 as int;
    var deltaX, incx := AxisDelta(x0, x1);
    var deltaY, incy := AxisDelta(y0, y1);
    var distance := if deltaX > deltaY then deltaX else deltaY;
    assert distance == Distance(x0, y0, x1, y1);

    ghost var dev := lcd.Dev();
    ghost var pts := LinePoints(x0, y0, x1, y1);
    ghost var all := old(lcd.trace) + PlotAll(dev, pts, color);
    var t: u16 := 0;
    while t <= distance + 1
      invariant 0 <= t <= distance + 2
      invariant Axis(uRow, xerr) == AxisAfter(Axis(x0, 0), deltaX, incx, distance, t)
      invariant Axis(uCol, yerr) == AxisAfter(Axis(y0, 0), deltaY, incy, distance, t)
      invariant lcd.Dev() == dev
      invariant all == lcd.trace + PlotAll(dev, pts[t..], color)
      decreases distance + 2 - t
    {
      assert pts[t] == Pt(uRow, uCol);
      ghost var before, rest := lcd.trace, PlotAll(dev, pts[t + 1..], color);
      PlotAllFrom(dev, pts, color, t);
      DrawPoint(lcd, Wrap16(uRow), Wrap16(uCol), color);
      AppendAssoc(before, PointEvents(dev, Wrap16(uRow), Wrap16(uCol), color), rest);

      uRow, xerr := Advance(uRow, xerr, deltaX, incx, distance);
      uCol, yerr := Advance(uCol, yerr, deltaY, incy, distance);
      t := t + 1;
    }
    assert pts[t..] == [];
  }

  /** The outline branch of LCD_DrawArea: top, bottom, left and right. */
  method DrawBorder(lcd: Lcd, x0: u16, y0: u16, x1: u16, y1: u16, color: u16)
    requires AreaTerminates(x0, y0, x1, y1, 0)
    modifies lcd`trace
    ensures lcd.trace == old(lcd.trace) + BorderEvents(lcd.Dev(), x0, y0, x1, y1, color)
  {
    ghost var dev, t0 := lcd.Dev(), lcd.trace;
    ghost var top, bottom := LineEvents(dev, x0, y0, x1, y0, color), LineEvents(dev, x0, y1, x1, y1, color);
    ghost var left, right := LineEvents(dev, x0, y0, x0, y1, color), LineEvents(dev, x1, y0, x1, y1, color);
    DrawLine(lcd, x0, y0, x1, y0, color);
    DrawLine(lcd, x0, y1, x1, y1, color);
    AppendAssoc(t0, top, bottom);
    DrawLine(lcd, x0, y0, x0, y1, color);
    AppendAssoc(t0, top + bottom, left);
    DrawLine(lcd, x1, y0, x1, y1, color);
    AppendAssoc(t0, top + bottom + left, right);
  }

  /** LCD_DrawArea. */
  method DrawArea(lcd: Lcd, x0: u16, y0: u16, x1: u16, y1: u16, color: u16, fill: int)
    requires AreaTerminates(x0, y0, x1, y1, fill)
    modifies lcd`trace
    ensures lcd.trace == old(lcd.trace) + AreaEvents(lcd.Dev(), x0, y0, x1, y1, color, fill)
  {
    var width: u16 := Wrap16(x1 - x0 + 1);
    var height: u16 := Wrap16(y1 - y0 + 1);

    ghost var dev, t0 := lcd.Dev(), lcd.trace;
    ghost var w, body := Window(dev, x0, y0, x1, y1), AreaBody(dev, x0, y0, x1, y1, color, fill);
    lcd.SetWindows(x0, y0, x1, y1);
    ghost var t1 := lcd.trace;
    if fill != 0 {
      lcd.Stream(color, width, height);
    } else {
      DrawBorder(lcd, x0, y0, x1, y1, color);
    }
    assert lcd.trace == t1 + body;
    lcd.SetWindows(0, 0, Wrap16(lcd.width - 1), Wrap16(lcd.height - 1));
    assert lcd.trace == t0 + w + body + FullWindow(dev);
    AppendAssoc(t0, w, body);
    AppendAssoc(t0, w + body, FullWindow(dev));
  }

  /** LCD_DrawFillBox. */
  method DrawFillBox(lcd: Lcd, x: u16, y: u16, w: u16, h: u16, color: u16, fill: int)
    requires AreaTerminates(x, y, Wrap16(x + w - 1), Wrap16(y + h - 1), fill)
    modifies lcd`trace
    ensures lcd.trace == old(lcd.trace) + FillBoxEvents(lcd.Dev(), x, y, w, h, color, fill)
  {
    if fill != 0 {
      DrawArea(lcd, x, y, Wrap16(x + w - 1), Wrap16(y + h - 1), color, 1);
    } else {
      DrawArea(lcd, x, y, Wrap16(x + w - 1), Wrap16(y + h - 1), color, 0);
    }
  }

  /** `_draw_circle_8`: the eight symmetric points of (x, y). */
  method DrawCircle8(lcd: Lcd, xc: int, yc: int, x: int, y: int, color: u16)
    modifies lcd`trace
    ensures lcd.trace == old(lcd.trace) + PlotAll(lcd.Dev(), Octants(xc, yc, x, y), color)
  {
    ghost var t0 := lcd.trace;
    OctantPlot(lcd.Dev(), xc, yc, x, y, color);
    DrawQuad(lcd, xc, yc, x, y, color);
    ghost var t1 := lcd.trace;
    DrawQuad(lcd, xc, yc, y, x, color);
    AppendAssoc(t0, QuadEvents(lcd.Dev(), xc, yc, x, y, color), QuadEvents(lcd.Dev(), xc, yc, y, x, color));
  }

  /** Four of the LCD_DrawPoint calls of _draw_circle_8. */
  method DrawQuad(lcd: Lcd, xc: int, yc: int, a: int, b: int, color: u16)
    modifies lcd`trace
    ensures lcd.trace == old(lcd.trace) + QuadEvents(lcd.Dev(), xc, yc, a, b, color)
  {
    ghost var dev, t0 := lcd.Dev(), lcd.trace;
    ghost var e0, e1 := PointEvents(dev, Wrap16(xc + a), Wrap16(yc + b), color), PointEvents(dev, Wrap16(xc - a), Wrap16(yc + b), color);
    ghost var e2, e3 := PointEvents(dev, Wrap16(xc + a), Wrap16(yc - b), color), PointEvents(dev, Wrap16(xc - a), Wrap16(yc - b), color);
    DrawPoint(lcd, Wrap16(xc + a), Wrap16(yc + b), color);
    DrawPoint(lcd, Wrap16(xc - a), Wrap16(yc + b), color);
    AppendAssoc(t0, e0, e1);
    DrawPoint(lcd, Wrap16(xc + a), Wrap16(yc - b), color);
    AppendAssoc(t0, e0 + e1, e2);
    DrawPoint(lcd, Wrap16(xc - a), Wrap16(yc - b), color);
    AppendAssoc(t0, e0 + e1 + e2, e3);
  }

  /** The inner `for (yi = x; yi <= y; yi++)` loop of the filled LCD_Circle. */
  method DrawColumn(lcd: Lcd, xc: int, yc: int, x: int, lo: int, hi: int, color: u16)
    modifies lcd`trace
    ensures lcd.trace == old(lcd.trace) + PlotAll(lcd.Dev(), Column(xc, yc, x, lo, hi), color)
  {
    ghost var dev, t0 := lcd.Dev(), lcd.trace;
    var yi := lo;
    while yi <= hi
      invariant lo <= yi && (yi <= hi + 1 || yi == lo)
      invariant lcd.Dev() == dev
      invariant lcd.trace == t0 + PlotAll(dev, Column(xc, yc, x, lo, yi - 1), color)
      decreases hi - yi + 1
    {
      ghost var prev, done := Column(xc, yc, x, lo, yi - 1), PlotAll(dev, Column(xc, yc, x, lo, yi - 1), color);
      ghost var oct := PlotAll(dev, Octants(xc, yc, x, yi), color);
      DrawCircle8(lcd, xc, yc, x, yi, color);
      PlotAllAppend(dev, prev, Octants(xc, yc, x, yi), color);
      AppendAssoc(t0, done, oct);
      assert Column(xc, yc, x, lo, yi) == prev + Octants(xc, yc, x, yi);
      yi := yi + 1;
    }
  }

  /** The update of the decision parameter at the end of each LCD_Circle iteration. */
  method CircleUpdate(x: int, y: int, d: int) returns (x': int, y': int, d': int)
    ensures CircleState(x', y', d') == CircleNext(CircleState(x, y, d))
  {
    x', y', d' := x, y, d;
    if d' < 0 {
      d' := d' + 4 * x' + 6;
    } else {
      d' := d' + 4 * (x' - y') + 10;
      y' := y' - 1;
    }
    x' := x' + 1;
  }

  /** LCD_Circle: the midpoint loop, with the inner column loop when filling. */
  method Circle(lcd: Lcd, xc: int, yc: int, color: u16, r: int, fill: int)
    modifies lcd`trace
    ensures lcd.trace == old(lcd.trace) + CircleEvents(lcd.Dev(), xc, yc, color, r, fill)
  {
    var x, y := 0, r;
    var d := 3 - 2 * r;
    ghost var dev := lcd.Dev();
    ghost var all := old(lcd.trace) + CircleEvents(dev, xc, yc, color, r, fill);

    if fill != 0 {
      while x <= y
        invariant lcd.Dev() == dev
        invariant all == lcd.trace + PlotAll(dev, Filled(xc, yc, CircleSteps(CircleState(x, y, d))), color)
        decreases y - x + 1
      {
        ghost var s := CircleState(x, y, d);
        ghost var before, col := lcd.trace, Column(xc, yc, x, x, y);
        ghost var rest := Filled(xc, yc, CircleSteps(CircleNext(s)));
        assert CircleSteps(s) == [s] + CircleSteps(CircleNext(s));
        assert ([s] + CircleSteps(CircleNext(s)))[1..] == CircleSteps(CircleNext(s));
        DrawColumn(lcd, xc, yc, x, x, y, color);
        PlotAllAppend(dev, col, rest, color);
        AppendAssoc(before, PlotAll(dev, col, color), PlotAll(dev, rest, color));
        x, y, d := CircleUpdate(x, y, d);
      }
    } else {
      while x <= y
        invariant lcd.Dev() == dev
        invariant all == lcd.trace + PlotAll(dev, Outline(xc, yc, CircleSteps(CircleState(x, y, d))), color)
        decreases y - x + 1
      {
        ghost var s := CircleState(x, y, d);
        ghost var before := lcd.trace;
        ghost var rest := Outline(xc, yc, CircleSteps(CircleNext(s)));
        assert CircleSteps(s) == [s] + CircleSteps(CircleNext(s));
        assert ([s] + CircleSteps(CircleNext(s)))[1..] == CircleSteps(CircleNext(s));
        DrawCircle8(lcd, xc, yc, x, y, color);
        PlotAllAppend(dev, Octants(xc, yc, x, y), rest, color);
        AppendAssoc(before, PlotAll(dev, Octants(xc, yc, x, y), color), PlotAll(dev, rest, color));
        x, y, d := CircleUpdate(x, y, d);
      }
    }
  }


  /** `_swap`: the two values exchanged. */
  method Swap(a: u16, b: u16) returns (a': u16, b': u16)
    ensures a' == b && b' == a
  {
    var tmp := a;
    a' := b;
    b' := tmp;
  }

  /** The three compare-and-swap steps that order the vertices of
      LCD_DrawTriangle by row. */
  method SortVertices(x0: u16, y0: u16, x1: u16, y1: u16, x2: u16, y2: u16) returns (q0: Vertex, q1: Vertex, q2: Vertex)
    ensures (q0, q1, q2) == SortByY(Vertex(x0, y0), Vertex(x1, y1), Vertex(x2, y2))
  {
    var x0, y0, x1, y1, x2, y2 := x0, y0, x1, y1, x2, y2;
    if y0 > y1 {
      y0, y1 := Swap(y0, y1);
      x0, x1 := Swap(x0, x1);
    }
    if y1 > y2 {
      y2, y1 := Swap(y2, y1);
      x2, x1 := Swap(x2, x1);
    }
    if y0 > y1 {
      y0, y1 := Swap(y0, y1);
      x0, x1 := Swap(x0, x1);
    }
    q0, q1, q2 := Vertex(x0, y0), Vertex(x1, y1), Vertex(x2, y2);
  }

  /** LCD_DrawTriangle. */
  method DrawTriangle(lcd: Lcd, x0: u16, y0: u16, x1: u16, y1: u16, x2: u16, y2: u16, color: u16, fill: int)
    requires TriangleTerminates(Vertex(x0, y0), Vertex(x1, y1), Vertex(x2, y2), fill)
    modifies lcd`trace
    ensures lcd.trace == old(lcd.trace) + TriangleEvents(lcd.Dev(), Vertex(x0, y0), Vertex(x1, y1), Vertex(x2, y2), color, fill)
  {
    if fill != 0 {
      var q0, q1, q2 := SortVertices(x0, y0, x1, y1, x2, y2);
      FillRows(lcd, q0, q1, q2, color);
    } else {
      ghost var t0, dev := lcd.trace, lcd.Dev();
      ghost var e0, e1, e2 := LineEvents(dev, x0, y0, x1, y1, color), LineEvents(dev, x1, y1, x2, y2, color),
                             LineEvents(dev, x2, y2, x0, y0, color);
      assert TriangleEvents(dev, Vertex(x0, y0), Vertex(x1, y1), Vertex(x2, y2), color, fill) == e0 + e1 + e2;
      DrawLine(lcd, x0, y0, x1, y1, color);
      assert lcd.trace == t0 + e0;
      DrawLine(lcd, x1, y1, x2, y2, color);
      assert lcd.trace == t0 + e0 + e1;
      DrawLine(lcd, x2, y2, x0, y0, color);
    }
  }

  /** The fill of LCD_DrawTriangle once the vertices are sorted: the flat
      case, then the upper and lower scanline loops. */
  method FillRows(lcd: Lcd, q0: Vertex, q1: Vertex, q2: Vertex, color: u16)
    requires q0.y <= q1.y <= q2.y
    requires q0.y == q2.y || (q2.y < 0xFFFF && !(q0.y == q1.y == 0))
    modifies lcd`trace
    ensures lcd.trace == old(lcd.trace) + SpanEvents(lcd.Dev(), SortedSpans(q0, q1, q2), color)
  {
    if q0.y == q2.y {
      var a, b := q0.x, q0.x;
      if q1.x < a {
        a := q1.x;
      } else if q1.x > b {
        b := q1.x;
      }
      if q2.x < a {
        a := q2.x;
      } else if q2.x > b {
        b := q2.x;
      }
      DrawArea(lcd, a, q0.y, b, q0.y, color, 1);
      assert SortedSpans(q0, q1, q2) == [Span(a, q0.y, b)];
      return;
    }
    ghost var dev, t0 := lcd.Dev(), lcd.trace;
    ghost var up, low := UpperSpans(q0, q1, q2), LowerSpans(q0, q1, q2);
    var y := UpperRows(lcd, q0, q1, q2, color);
    ghost var t1 := lcd.trace;
    LowerRows(lcd, q0, q1, q2, y, color);
    SpanEventsAppend(dev, up, low, color);
    AppendAssoc(t0, SpanEvents(dev, up, color), SpanEvents(dev, low, color));
  }

  /** The body of both scanline loops: where the edges p-q and r-s cross row
      y, with the accumulated products sa and sb divided by the edges' heights,
      swapped into order; sa and sb advance by the edges' widths. */
  method ScanRow(p: Vertex, q: Vertex, r: Vertex, s: Vertex, y: u16, sa: int, sb: int)
    returns (a: u16, b: u16, sa': int, sb': int)
    requires p.y < q.y && r.y < s.y && p.y <= y && r.y <= y
    requires sa == Accumulated(y - p.y, q.x - p.x) && sb == Accumulated(y - r.y, s.x - r.x)
    ensures Span(a, y, b) == Ordered(EdgeX(p, q, y), y, EdgeX(r, s, y))
    ensures sa' == Accumulated(y + 1 - p.y, q.x - p.x) && sb' == Accumulated(y + 1 - r.y, s.x - r.x)
  {
    a := Crossing(p.x, sa, q.y - p.y);
    b := Crossing(r.x, sb, s.y - r.y);
    sa' := sa + (q.x - p.x);
    sb' := sb + (s.x - r.x);
    if a > b {
      a, b := Swap(a, b);
    }
  }

  /** The LCD_DrawArea call of a scanline loop, which draws the first of the
      spans still to come. */
  method DrawSpan(lcd: Lcd, a: u16, y: u16, b: u16, color: u16, ghost rest: seq<Span>)
    modifies lcd`trace
    ensures old(lcd.trace) + SpanEvents(lcd.Dev(), [Span(a, y, b)] + rest, color)
            == lcd.trace + SpanEvents(lcd.Dev(), rest, color)
  {
    ghost var before := lcd.trace;
    assert ([Span(a, y, b)] + rest)[1..] == rest;
    DrawArea(lcd, a, y, b, y, color, 1);
    AppendAssoc(before, AreaEvents(lcd.Dev(), a, y, b, y, color, 1), SpanEvents(lcd.Dev(), rest, color));
  }

  /** What the upper scanline loop keeps at row y: sa and sb hold the widths
      of the edges 0-1 and 0-2 accumulated over the rows already drawn. */
  ghost predicate UpperLoop(q0: Vertex, q1: Vertex, q2: Vertex, y: int, sa: int, sb: int) {
    q0.y <= q1.y <= q2.y && q0.y < q2.y && q0.y <= y <= LastUpper(q1, q2) + 1
    && sa == Accumulated(y - q0.y, q1.x - q0.x) && sb == Accumulated(y - q0.y, q2.x - q0.x)
  }

  /** One iteration of the upper scanline loop: the span of row y. The
      transcript `all` is the one the loop is to end with. */
  method UpperRow(lcd: Lcd, q0: Vertex, q1: Vertex, q2: Vertex, y: u16, sa: int, sb: int, color: u16,
                  ghost dev: LcdDev, ghost all: seq<Event>)
    returns (y': u16, sa': int, sb': int)
    requires UpperLoop(q0, q1, q2, y, sa, sb) && y <= LastUpper(q1, q2) < 0xFFFF
    requires lcd.Dev() == dev && all == lcd.trace + SpanEvents(dev, UpperFrom(q0, q1, q2, y), color)
    modifies lcd`trace
    ensures y' == y + 1 && UpperLoop(q0, q1, q2, y', sa', sb')
    ensures lcd.Dev() == dev && all == lcd.trace + SpanEvents(dev, UpperFrom(q0, q1, q2, y'), color)
  {
    y' := y + 1;
    var a, b;
    a, b, sa', sb' := ScanRow(q0, q1, q0, q2, y, sa, sb);
    assert UpperLoop(q0, q1, q2, y', sa', sb');
    assert UpperFrom(q0, q1, q2, y) == [Span(a, y, b)] + UpperFrom(q0, q1, q2, y');
    DrawSpan(lcd, a, y, b, color, UpperFrom(q0, q1, q2, y'));
  }

  /** What the lower scanline loop keeps at row y, for the edges 1-2 and 0-2. */
  ghost predicate LowerLoop(q0: Vertex, q1: Vertex, q2: Vertex, y: int, sa: int, sb: int) {
    q0.y <= q1.y <= q2.y && q0.y < q2.y && LastUpper(q1, q2) < y <= q2.y + 1
    && sa == Accumulated(y - q1.y, q2.x - q1.x) && sb == Accumulated(y - q0.y, q2.x - q0.x)
  }

  /** One iteration of the lower scanline loop: the span of row y. */
  method LowerRow(lcd: Lcd, q0: Vertex, q1: Vertex, q2: Vertex, y: u16, sa: int, sb: int, color: u16,
                  ghost dev: LcdDev, ghost all: seq<Event>)
    returns (y': u16, sa': int, sb': int)
    requires LowerLoop(q0, q1, q2, y, sa, sb) && y <= q2.y < 0xFFFF
    requires lcd.Dev() == dev && all == lcd.trace + SpanEvents(dev, LowerFrom(q0, q1, q2, y), color)
    modifies lcd`trace
    ensures y' == y + 1 && LowerLoop(q0, q1, q2, y', sa', sb')
    ensures lcd.Dev() == dev && all == lcd.trace + SpanEvents(dev, LowerFrom(q0, q1, q2, y'), color)
  {
    y' := y + 1;
    var a, b;
    a, b, sa', sb' := ScanRow(q1, q2, q0, q2, y, sa, sb);
    assert LowerLoop(q0, q1, q2, y', sa', sb');
    assert LowerFrom(q0, q1, q2, y) == [Span(a, y, b)] + LowerFrom(q0, q1, q2, y');
    DrawSpan(lcd, a, y, b, color, LowerFrom(q0, q1, q2, y'));
  }

  /** `last = (y1 == y2) ? y1 : y1 - 1` in `uint16_t`: the last row of the
      upper half, which fits when y1 is not 0 or the triangle is flat
      bottomed below row 65535. */
  method LastRow(q0: Vertex, q1: Vertex, q2: Vertex) returns (last: u16)
    requires q0.y <= q1.y <= q2.y && q2.y < 0xFFFF && !(q0.y == q1.y == 0)
    ensures last == LastUpper(q1, q2) < 0xFFFF
  {
    if q1.y == q2.y {
      last := q1.y;
    } else {
      last := Wrap16(q1.y - 1);
      assert Wrap16(q1.y - 1) == q1.y - 1;
    }
  }

  /** The upper scanline loop of LCD_DrawTriangle, rows y0 .. last, between
      the edges 0-1 and 0-2; sa and sb accumulate dx01 and dx02 once per row.
      The row after the loop is returned. */
  method UpperRows(lcd: Lcd, q0: Vertex, q1: Vertex, q2: Vertex, color: u16) returns (y: u16)
    requires q0.y <= q1.y <= q2.y && q0.y < q2.y
    requires q2.y < 0xFFFF && !(q0.y == q1.y == 0)
    modifies lcd`trace
    ensures y == LastUpper(q1, q2) + 1
    ensures lcd.trace == old(lcd.trace) + SpanEvents(lcd.Dev(), UpperSpans(q0, q1, q2), color)
  {
    var last := LastRow(q0, q1, q2);

    ghost var dev := lcd.Dev();
    ghost var all := lcd.trace + SpanEvents(dev, UpperSpans(q0, q1, q2), color);
    var sa: int, sb: int := 0, 0;
    y := q0.y;
    assert UpperLoop(q0, q1, q2, y, sa, sb);
    while y <= last
      invariant UpperLoop(q0, q1, q2, y, sa, sb)
      invariant lcd.Dev() == dev && all == lcd.trace + SpanEvents(dev, UpperFrom(q0, q1, q2, y), color)
      decreases last as int - y
    {
      y, sa, sb := UpperRow(lcd, q0, q1, q2, y, sa, sb, color, dev, all);
    }
    UpperDone(q0, q1, q2, y, dev, color);
  }

  /** Past the last row the upper loop has nothing left to draw. */
  lemma UpperDone(q0: Vertex, q1: Vertex, q2: Vertex, y: int, dev: LcdDev, color: u16)
    requires q0.y <= q1.y <= q2.y && q0.y < q2.y && q0.y <= y && y > LastUpper(q1, q2)
    ensures SpanEvents(dev, UpperFrom(q0, q1, q2, y), color) == []
  {
  }

  /** `sa = dx12 * (y - y1); sb = dx02 * (y - y0);` between the two loops:
      the sums the lower loop would have accumulated had it started at y1
      and y0. */
  method Restart(d1: int, k1: nat, d2: int, k2: nat) returns (sa: int, sb: int)
    ensures sa == Accumulated(k1, d1) && sb == Accumulated(k2, d2)
  {
    sa := d1 * k1;
    sb := d2 * k2;
    AccumulatedIsProduct(k1, d1);
    AccumulatedIsProduct(k2, d2);
  }

  /** The lower scanline loop of LCD_DrawTriangle, rows last + 1 .. y2,
      between the edges 1-2 and 0-2, with sa and sb restarted from the row
      the upper loop stopped at. */
  method LowerRows(lcd: Lcd, q0: Vertex, q1: Vertex, q2: Vertex, y: u16, color: u16)
    requires q0.y <= q1.y <= q2.y && q0.y < q2.y
    requires q2.y < 0xFFFF && y == LastUpper(q1, q2) + 1
    modifies lcd`trace
    ensures lcd.trace == old(lcd.trace) + SpanEvents(lcd.Dev(), LowerSpans(q0, q1, q2), color)
  {
    var x0: int, y0: int, x1: int, y1: int, x2: int, y2: int := q0.x, q0.y, q1.x, q1.y, q2.x, q2.y;
    var dx02, dx12 := x2 - x0, x2 - x1;

    ghost var dev := lcd.Dev();
    ghost var all := lcd.trace + SpanEvents(dev, LowerSpans(q0, q1, q2), color);
    var sa, sb := Restart(dx12, y as int - y1, dx02, y as int - y0);
    var y := y;
    while y <= y2
      invariant LowerLoop(q0, q1, q2, y, sa, sb)
      invariant lcd.Dev() == dev && all == lcd.trace + SpanEvents(dev, LowerFrom(q0, q1, q2, y), color)
      decreases y2 - y as int
    {
      y, sa, sb := LowerRow(lcd, q0, q1, q2, y, sa, sb, color, dev, all);
    }
  }

}
