/** The geometry builder of the bridge: pure functions from point lists to a
    single path figure of the target surface (a `StreamGeometry` opened,
    given one figure, and closed again). The arc builder lives in `Arcs`. */
module Geometries {
  import opened Primitives

  /** `XFillMode`; `Undefined` is an integer cast to the enum that names
      neither member. */
  datatype XFillMode = Alternate | Winding | Undefined(code: int)

  /** The surface's `FillRule`. */
  datatype FillRule = EvenOdd | NonZero

  datatype SweepDirection = Clockwise | CounterClockwise

  /** One call on the geometry context after `BeginFigure`. */
  datatype Segment =
    | LineTo(point: Point)
    | CubicTo(control1: Point, control2: Point, end: Point)
    | ArcTo(end: Point, radii: Size, rotation: real, isLargeArc: bool, direction: SweepDirection)

  /** A figure as the geometry context records it: the start point and the
      `isFilled` flag of `BeginFigure`, the fill rule set on the geometry
      (`None` when it was never set), the segments in call order and the
      `isClosed` flag of `EndFigure`. */
  datatype Figure = Figure(start: Point, filled: bool, fillRule: Option<FillRule>, segments: seq<Segment>, closed: bool)

  datatype Geometry = Stream(figure: Figure) | EllipseGeometry(bounds: Rect)

  function EndPoint(s: Segment): Point {
    match s
    case LineTo(p) => p
    case CubicTo(_, _, e) => e
    case ArcTo(e, _, _, _, _) => e
  }

  /** The on-curve points of a figure: its start and every segment's end. */
  function Vertices(f: Figure): (vs: seq<Point>)
    ensures |vs| == |f.segments| + 1 && vs[0] == f.start
    ensures forall i :: 0 <= i < |f.segments| ==> vs[i + 1] == EndPoint(f.segments[i])
  {
    [f.start] + seq(|f.segments|, i requires 0 <= i < |f.segments| => EndPoint(f.segments[i]))
  }

  /** `GetFillRule`: only `Winding` selects the non-zero rule. */
  function GetFillRule(fm: XFillMode): (r: FillRule)
    ensures r == NonZero <==> fm == Winding
    ensures r == EvenOdd <==> fm != Winding
  {
    match fm
    case Alternate => EvenOdd
    case Winding => NonZero
    case Undefined(_) => EvenOdd
  }

  /** `BeginFigureAt`: a figure is filled, and its fill rule set, exactly
      when a fill mode is supplied. */
  function BeginFigureAt(p: Point, fillMode: Option<XFillMode>): (f: Figure)
    ensures f.start == p && f.segments == [] && !f.closed
    ensures f.filled <==> fillMode.Some?
    ensures f.fillRule.Some? <==> fillMode.Some?
    ensures fillMode.Some? ==> f.fillRule.value == GetFillRule(fillMode.value)
  {
    match fillMode
    case Some(fm) => Figure(p, true, Some(GetFillRule(fm)), [], false)
    case None => Figure(p, false, None, [], false)
  }

  /** `EndFigure` after the segments were added. */
  function EndFigure(f: Figure, segments: seq<Segment>, isClosed: bool): Figure {
    f.(segments := f.segments + segments, closed := isClosed)
  }

  /** `MakeRect`: the surface rectangle spanned by the corners of `rect`. */
  function MakeRect(rect: Rect): (r: Rect)
    ensures r.TopLeft() == rect.TopLeft() && r.BottomRight() == rect.BottomRight()
  {
    RectFromCorners(rect.TopLeft(), rect.BottomRight())
  }

  /** Over the reals the corner round trip loses nothing. */
  lemma MakeRectIsIdentity(rect: Rect)
    ensures MakeRect(rect) == rect
  {
  }

  function MakeEllipse(x: real, y: real, width: real, height: real): (g: Geometry)
    ensures g.EllipseGeometry? && g.bounds == Rect(x, y, width, height)
  {
    EllipseGeometry(Rect(x, y, width, height))
  }

  /** One `LineTo` per point, in order (the loop body of `MakePolyLine`). */
  function LinesTo(pts: seq<Point>): (segs: seq<Segment>)
    ensures |segs| == |pts|
    ensures forall i :: 0 <= i < |pts| ==> segs[i] == LineTo(pts[i])
  {
    if pts == [] then [] else [LineTo(pts[0])] + LinesTo(pts[1..])
  }

  /** `MakePolyLine`: starts at `points[0]` and draws one line to each later
      point in input order; unfilled, closed iff `isClosed`. The source
      indexes `points[0]` unguarded, so its callers must pass a point. */
  function MakePolyLine(points: seq<Point>, isClosed: bool): (g: Geometry)
    requires |points| >= 1
    ensures g.Stream? && g.figure.start == points[0]
    ensures !g.figure.filled && g.figure.fillRule.None?
    ensures g.figure.closed == isClosed
    ensures |g.figure.segments| == |points| - 1
    ensures forall i :: 1 <= i < |points| ==> g.figure.segments[i - 1] == LineTo(points[i])
  {
    var f := BeginFigureAt(points[0], None);
    Stream(EndFigure(f, LinesTo(points[1..]), isClosed))
  }

  /** `MakePolygon`: the same lines as the polyline, but always closed and
      filled with the rule of `fillMode`. */
  function MakePolygon(points: seq<Point>, fillMode: XFillMode): (g: Geometry)
    requires |points| >= 1
    ensures g.Stream? && g.figure.start == points[0]
    ensures g.figure.filled && g.figure.fillRule == Some(GetFillRule(fillMode))
    ensures g.figure.closed
    ensures g.figure.segments == MakePolyLine(points, true).figure.segments
  {
    var f := BeginFigureAt(points[0], Some(fillMode));
    Stream(EndFigure(f, LinesTo(points[1..]), true))
  }

  /** The vertices of a polyline or polygon are exactly its input points. */
  lemma PolyLineVerticesRoundTrip(points: seq<Point>, isClosed: bool, fillMode: XFillMode)
    requires |points| >= 1
    ensures Vertices(MakePolyLine(points, isClosed).figure) == points
    ensures Vertices(MakePolygon(points, fillMode).figure) == points
  {
    var vs := Vertices(MakePolyLine(points, isClosed).figure);
    assert forall i :: 0 <= i < |points| ==> vs[i] == points[i];
    var ws := Vertices(MakePolygon(points, fillMode).figure);
    assert forall i :: 0 <= i < |points| ==> ws[i] == points[i];
  }

  /** `MakeBezier`: one open, unfilled cubic through four control points. */
  function MakeBezier(x1: real, y1: real, x2: real, y2: real, x3: real, y3: real, x4: real, y4: real): (g: Geometry)
    ensures g.Stream? && g.figure.start == Point(x1, y1)
    ensures !g.figure.filled && g.figure.fillRule.None? && !g.figure.closed
    ensures g.figure.segments == [CubicTo(Point(x2, y2), Point(x3, y3), Point(x4, y4))]
  {
    Stream(Figure(Point(x1, y1), false, None, [CubicTo(Point(x2, y2), Point(x3, y3), Point(x4, y4))], false))
  }

  /** The loop of `MakeBeziers`: consecutive triples become cubics; fewer
      than three trailing points are dropped. */
  function CubicsFrom(pts: seq<Point>): (segs: seq<Segment>)
    ensures |segs| == |pts| / 3
    ensures forall j :: 0 <= j < |segs| ==> segs[j] == CubicTo(pts[3 * j], pts[3 * j + 1], pts[3 * j + 2])
    decreases |pts|
  {
    if |pts| < 3 then [] else [CubicTo(pts[0], pts[1], pts[2])] + CubicsFrom(pts[3..])
  }

  /** `MakeBeziers`: from `points[0]`, cubic j uses points 3j+1, 3j+2 and
      3j+3; the figure is open and unfilled. */
  function MakeBeziers(points: seq<Point>): (g: Geometry)
    requires |points| >= 1
    ensures g.Stream? && g.figure.start == points[0]
    ensures !g.figure.filled && g.figure.fillRule.None? && !g.figure.closed
    ensures |g.figure.segments| == (|points| - 1) / 3
    ensures forall j :: 0 <= j < |g.figure.segments| ==>
      g.figure.segments[j] == CubicTo(points[3 * j + 1], points[3 * j + 2], points[3 * j + 3])
  {
    var f := BeginFigureAt(points[0], None);
    Stream(EndFigure(f, CubicsFrom(points[1..]), false))
  }

  /** Trailing points that do not complete a cubic are silently ignored:
      the figure equals the one built from the longest `1 + 3k` prefix, and
      at most two points are left over. */
  lemma BeziersDropRemainder(points: seq<Point>)
    requires |points| >= 1
    ensures var k := |MakeBeziers(points).figure.segments|;
      0 <= |points| - (1 + 3 * k) <= 2 &&
      MakeBeziers(points) == MakeBeziers(points[..1 + 3 * k])
  {
    var k := (|points| - 1) / 3;
    var g, h := MakeBeziers(points), MakeBeziers(points[..1 + 3 * k]);
    assert |h.figure.segments| == k;
    assert forall j :: 0 <= j < k ==> g.figure.segments[j] == h.figure.segments[j];
  }

  /** A four-point chain is the single cubic of `MakeBezier`. */
  lemma BeziersOfFourIsBezier(p: seq<Point>)
    requires |p| == 4
    ensures MakeBeziers(p) == MakeBezier(p[0].x, p[0].y, p[1].x, p[1].y, p[2].x, p[2].y, p[3].x, p[3].y)
  {
    var segs := MakeBeziers(p).figure.segments;
    assert |segs| == 1;
  }

  /** `MakeCurveSegment`: the cubic from `pt1` to `pt2` whose tangents are
      the chords `pt2 - pt0` and `pt3 - pt1` scaled by `tension3`. */
  function MakeCurveSegment(pt0: Point, pt1: Point, pt2: Point, pt3: Point, tension3: real): (s: Segment)
    ensures s.CubicTo? && s.end == pt2
    ensures s.control1.Minus(pt1) == pt2.Minus(pt0).Times(tension3)
    ensures pt2.Minus(s.control2) == pt3.Minus(pt1).Times(tension3)
  {
    CubicTo(
      Point(pt1.x + tension3 * (pt2.x - pt0.x), pt1.y + tension3 * (pt2.y - pt0.y)),
      Point(pt2.x - tension3 * (pt3.x - pt1.x), pt2.y - tension3 * (pt3.y - pt1.y)),
      Point(pt2.x, pt2.y))
  }

  /** With zero tension the controls sit on the segment's own end points. */
  lemma CurveSegmentZeroTension(pt0: Point, pt1: Point, pt2: Point, pt3: Point)
    ensures MakeCurveSegment(pt0, pt1, pt2, pt3, 0.0) == CubicTo(pt1, pt2, pt2)
  {
  }

  /** Walking the four points backwards swaps the two control points: the
      segment construction is symmetric. */
  lemma CurveSegmentReversal(pt0: Point, pt1: Point, pt2: Point, pt3: Point, t: real)
    ensures MakeCurveSegment(pt3, pt2, pt1, pt0, t).control1 == MakeCurveSegment(pt0, pt1, pt2, pt3, t).control2
    ensures MakeCurveSegment(pt3, pt2, pt1, pt0, t).control2 == MakeCurveSegment(pt0, pt1, pt2, pt3, t).control1
  {
  }

  /** Translating the four points translates the whole segment. */
  lemma CurveSegmentTranslation(pt0: Point, pt1: Point, pt2: Point, pt3: Point, t: real, d: Point)
    ensures var s := MakeCurveSegment(pt0, pt1, pt2, pt3, t);
      MakeCurveSegment(pt0.Plus(d), pt1.Plus(d), pt2.Plus(d), pt3.Plus(d), t)
        == CubicTo(s.control1.Plus(d), s.control2.Plus(d), s.end.Plus(d))
  {
  }

  /** The `for (idx = 1; idx + 2 < count; idx++)` loop of `MakeCurve`,
      started at `idx`. */
  function InteriorSegments(points: seq<Point>, tension3: real, idx: nat): (segs: seq<Segment>)
    requires 1 <= idx
    ensures |segs| == if idx + 2 < |points| then |points| - 2 - idx else 0
    ensures forall k :: 0 <= k < |segs| ==>
      segs[k] == MakeCurveSegment(points[idx + k - 1], points[idx + k], points[idx + k + 1], points[idx + k + 2], tension3)
    decreases |points| - idx
  {
    if idx + 2 < |points| then
      [MakeCurveSegment(points[idx - 1], points[idx], points[idx + 1], points[idx + 2], tension3)]
        + InteriorSegments(points, tension3, idx + 1)
    else []
  }

  /** The segments `MakeCurve` emits, case by case on the point count. */
  function CurveSegments(points: seq<Point>, tension3: real, isClosed: bool): (segs: seq<Segment>)
    requires |points| >= 1
    ensures |segs| ==
      if |points| == 1 then 0
      else if |points| == 2 then 1
      else if isClosed then |points| else |points| - 1
  {
    var n := |points|;
    if n == 2 then
      [MakeCurveSegment(points[0], points[0], points[1], points[1], tension3)]
    else if n > 2 then
      [MakeCurveSegment(if isClosed then points[n - 1] else points[0], points[0], points[1], points[2], tension3)]
        + InteriorSegments(points, tension3, 1)
        + [MakeCurveSegment(points[n - 3], points[n - 2], points[n - 1], if isClosed then points[0] else points[n - 1], tension3)]
        + (if isClosed then [MakeCurveSegment(points[n - 2], points[n - 1], points[0], points[1], tension3)] else [])
    else []
  }

  /** `MakeCurve`: a cardinal spline through the points. Two points give
      one segment; more give n-1 segments when open and n when closed;
      segment k ends at point k+1 and the closing one at point 0. */
  function MakeCurve(points: seq<Point>, tension3: real, isClosed: bool, fillMode: Option<XFillMode>): (g: Geometry)
    requires |points| >= 1
    ensures g.Stream? && g.figure.start == points[0]
    ensures g.figure.closed == isClosed
    ensures g.figure.filled <==> fillMode.Some?
    ensures fillMode.Some? ==> g.figure.fillRule == Some(GetFillRule(fillMode.value))
    ensures |g.figure.segments| ==
      if |points| == 1 then 0
      else if |points| == 2 then 1
      else if isClosed then |points| else |points| - 1
    ensures forall k :: 0 <= k < |points| - 1 ==> EndPoint(g.figure.segments[k]) == points[k + 1]
    ensures |points| > 2 && isClosed ==> EndPoint(g.figure.segments[|points| - 1]) == points[0]
  {
    var f := BeginFigureAt(points[0], fillMode);
    Stream(EndFigure(f, CurveSegments(points, tension3, isClosed), isClosed))
  }

  /** The fill mode decides only whether and how the figure is filled; the
      segments are those of the unfilled curve. */
  lemma CurveSegmentsIgnoreFill(points: seq<Point>, tension3: real, isClosed: bool, fillMode: Option<XFillMode>)
    requires |points| >= 1
    ensures MakeCurve(points, tension3, isClosed, fillMode).figure.segments
      == MakeCurve(points, tension3, isClosed, None).figure.segments
  {
  }

  /** Index `i` taken round a ring of `n` points (for `i < 2n`). */
  function Wrap(i: nat, n: nat): (w: nat)
    requires 0 < n && i < 2 * n
    ensures w < n
  {
    if i < n then i else i - n
  }

  /** An independent description of the cardinal spline: segment k runs
      from point k to point k+1 and takes its tangents from the points
      before and after, the indices wrapping round for a closed curve and
      clamped to the ends for an open one. */
  function CardinalSegment(points: seq<Point>, tension3: real, isClosed: bool, k: nat): Segment
    requires 2 <= |points| && k < |points|
  {
    var n := |points|;
    if isClosed then
      MakeCurveSegment(points[Wrap(k + n - 1, n)], points[k], points[Wrap(k + 1, n)], points[Wrap(k + 2, n)], tension3)
    else
      MakeCurveSegment(points[if k == 0 then 0 else k - 1], points[k],
                       points[if k + 1 < n then k + 1 else n - 1], points[if k + 2 < n then k + 2 else n - 1], tension3)
  }

  /** With three or more points `MakeCurve` is exactly the cardinal spline
      above: n wrapped segments when closed, n-1 clamped ones when open. */
  lemma MakeCurveIsCardinalSpline(points: seq<Point>, tension3: real, isClosed: bool, fillMode: Option<XFillMode>)
    requires |points| > 2
    ensures var segs := MakeCurve(points, tension3, isClosed, fillMode).figure.segments;
      |segs| == (if isClosed then |points| else |points| - 1) &&
      forall k :: 0 <= k < |segs| ==> segs[k] == CardinalSegment(points, tension3, isClosed, k)
  {
    assert MakeCurve(points, tension3, isClosed, fillMode).figure.segments == CurveSegments(points, tension3, isClosed);
    CurveSegmentsAreCardinal(points, tension3, isClosed);
  }

  lemma CurveSegmentsAreCardinal(points: seq<Point>, tension3: real, isClosed: bool)
    requires |points| > 2
    ensures var segs := CurveSegments(points, tension3, isClosed);
      |segs| == (if isClosed then |points| else |points| - 1) &&
      forall k :: 0 <= k < |segs| ==> segs[k] == CardinalSegment(points, tension3, isClosed, k)
  {
    var n := |points|;
    var segs := CurveSegments(points, tension3, isClosed);
    var inner := InteriorSegments(points, tension3, 1);
    var first := [MakeCurveSegment(if isClosed then points[n - 1] else points[0], points[0], points[1], points[2], tension3)];
    var last := [MakeCurveSegment(points[n - 3], points[n - 2], points[n - 1], if isClosed then points[0] else points[n - 1], tension3)];
    var closing := if isClosed then [MakeCurveSegment(points[n - 2], points[n - 1], points[0], points[1], tension3)] else [];
    assert segs == first + inner + last + closing;
    forall k | 0 <= k < |segs|
      ensures segs[k] == CardinalSegment(points, tension3, isClosed, k)
    {
      if k == 0 {
        assert segs[k] == first[0];
      } else if k < n - 2 {
        assert segs[k] == inner[k - 1];
      } else if k == n - 2 {
        assert segs[k] == last[0];
      } else {
        assert segs[k] == closing[0];
      }
    }
  }

  /** Two points make one segment with each end point as its own
      neighbour, whether or not the curve is closed. */
  lemma MakeCurveTwoPoints(points: seq<Point>, tension3: real, isClosed: bool, fillMode: Option<XFillMode>)
    requires |points| == 2
    ensures MakeCurve(points, tension3, isClosed, fillMode).figure.segments
      == [MakeCurveSegment(points[0], points[0], points[1], points[1], tension3)]
    ensures MakeCurve(points, tension3, isClosed, fillMode).figure.segments
      == [CardinalSegment(points, tension3, false, 0)]
  {
  }

  /** The neighbours of the end segments: the first one looks back to the
      last point only when closed, the last regular one looks ahead to the
      first point only when closed. */
  lemma MakeCurveEndNeighbours(points: seq<Point>, tension3: real, isClosed: bool, fillMode: Option<XFillMode>)
    requires |points| > 2
    ensures var n := |points|;
      var segs := MakeCurve(points, tension3, isClosed, fillMode).figure.segments;
      segs[0] == MakeCurveSegment(if isClosed then points[n - 1] else points[0], points[0], points[1], points[2], tension3) &&
      segs[n - 2] == MakeCurveSegment(points[n - 3], points[n - 2], points[n - 1], if isClosed then points[0] else points[n - 1], tension3)
  {
    var n := |points|;
    MakeCurveIsCardinalSpline(points, tension3, isClosed, fillMode);
    var segs := MakeCurve(points, tension3, isClosed, fillMode).figure.segments;
    assert segs[0] == CardinalSegment(points, tension3, isClosed, 0);
    assert segs[n - 2] == CardinalSegment(points, tension3, isClosed, n - 2);
  }
}
