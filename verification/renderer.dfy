/** The bridge itself: each renderer call either changes the transform
    state (`Save`, `Restore`, `AddTransform`, `Close`) or is checked
    against its guards and translated into drawing calls on the surface.
    Font metrics, text layout bounds, image decoding and the trigonometry
    of arcs come from outside and are passed in as an `Env`. */
module Renderer {
  import opened Primitives
  import opened Geometries
  import opened Arcs
  import opened Media
  import opened Fonts
  import opened Commands
  import Surface
  import GraphicsState
  import Units

  /** What the bridge obtains from systems outside the model: the
      trigonometry of `MakeArc`, the resolved font's metrics
      (`Fonts.MakeFont`), the layout bounds of a formatted text and the
      decoded bitmap of an image. */
  datatype Env = Env(trig: Trig,
                     fontInfo: XFont -> Surface.FontInfo,
                     textBounds: (string, XFont, Surface.TextAlignment) -> Rect,
                     image: XImage -> Surface.Image)

  /** `GetBrush`: null stays null, anything else is translated. */
  function GetBrush(xbrush: Option<XBrush>): (b: Option<Brush>)
    ensures b.Some? <==> xbrush.Some?
    ensures xbrush.Some? ==> b.value == MakeBrush(xbrush.value)
  {
    match xbrush
    case None => None
    case Some(x) => Some(MakeBrush(x))
  }

  /** `GetPen`: null stays null, anything else is translated. */
  function GetPen(xpen: Option<XPen>): (p: Option<Pen>)
    ensures p.Some? <==> xpen.Some?
    ensures xpen.Some? ==> p.value == MakePen(xpen.value)
  {
    match xpen
    case None => None
    case Some(x) => Some(MakePen(x))
  }

  /** Stroke-only calls: a null pen makes them no-ops. */
  predicate IsStrokeOnly(c: Command) {
    c.DrawLine? || c.DrawLines? || c.DrawBezier? || c.DrawBeziers? || c.DrawCurve? || c.DrawArc?
  }

  /** Shape calls taking a pen and a brush: both null makes them no-ops. */
  predicate IsPaintedShape(c: Command) {
    c.DrawRectangle? || c.DrawRectangles? || c.DrawRoundedRectangle? || c.DrawEllipse?
    || c.DrawPolygon? || c.DrawClosedCurve?
  }

  /** The calls the bridge accepts but does nothing for. */
  predicate IsIgnored(c: Command) {
    c.DrawPie? || c.DrawPath? || c.BeginContainer? || c.EndContainer?
    || c.SetClip? || c.ResetClip? || c.WriteComment?
  }

  /** The fewest points a point-array call draws anything for. */
  function MinPoints(c: Command): nat
    requires c.DrawLines? || c.DrawBeziers? || c.DrawCurve? || c.DrawPolygon? || c.DrawClosedCurve?
  {
    if c.DrawBeziers? then 4 else if c.DrawCurve? || c.DrawClosedCurve? then 2 else 1
  }

  /** Which drawing calls reach the surface: the reference the guards of
      `Emit` are checked against. */
  predicate Accepted(c: Command) {
    && !IsIgnored(c) && !IsStateCommand(c)
    && (IsStrokeOnly(c) ==> c.pen.Some?)
    && (IsPaintedShape(c) ==> c.pen.Some? || c.brush.Some?)
    && ((c.DrawLines? || c.DrawBeziers? || c.DrawCurve? || c.DrawPolygon? || c.DrawClosedCurve?) ==>
          c.points.Some? && |c.points.value| >= MinPoints(c))
    && (c.DrawRectangles? ==> c.rects.Some? && c.rects.value != [])
    && (c.DrawString? ==> c.text.Some? && c.font.Some?)
    && (c.DrawImage? ==> c.image.Some? && c.width > 0.0 && c.height > 0.0)
    && (c.DrawImageRect? ==> c.image.Some?)
  }

  /** `DrawRectangles`: one rectangle per input rectangle, all with the same
      brush and pen. */
  function RectangleCalls(brush: Option<Brush>, pen: Option<Pen>, rects: seq<Rect>): (calls: seq<Surface.Call>)
    ensures |calls| == |rects|
    ensures forall i :: 0 <= i < |rects| ==> calls[i] == Surface.DrawRectangle(brush, pen, rects[i], 0.0, 0.0)
  {
    if rects == [] then []
    else
      MakeRectIsIdentity(rects[0]);
      [Surface.DrawRectangle(brush, pen, MakeRect(rects[0]), 0.0, 0.0)] + RectangleCalls(brush, pen, rects[1..])
  }

  /** The horizontal alignment of `DrawString` and the offset of the text
      origin from the layout rectangle's left edge. */
  function HorizontalPlacement(a: XStringAlignment, width: real): (p: (Surface.TextAlignment, real))
    ensures p.0 == Surface.Right <==> a.Far?
    ensures p.0 == Surface.Center <==> a.Center?
    ensures p.0 == Surface.Left ==> p.1 == 0.0
    ensures p.0 == Surface.Center ==> p.1 == width - p.1
    ensures p.0 == Surface.Right ==> p.1 == width
  {
    match a
    case Near => (Surface.Left, 0.0)
    case Center => (Surface.Center, 0.5 * width)
    case Far => (Surface.Right, width)
    case Undefined(_) => (Surface.Left, 0.0)
  }

  /** The offset of the text origin below the layout rectangle's top. */
  function VerticalOffset(a: XLineAlignment, font: Surface.FontInfo, height: real): (dy: real)
    ensures a.Near? || a.Undefined? ==> dy == 0.0
    ensures a.BaseLine? ==> dy == font.ascent
    ensures a.Center? ==> dy - 0.5 * height == (2.0 / 3.0) * font.ascent
    ensures a.Far? ==> dy - height == font.ascent - font.descent
  {
    match a
    case Near => 0.0
    case Center => (2.0 / 3.0) * font.ascent + 0.5 * height
    case Far => font.ascent - font.descent + height
    case BaseLine => font.ascent
    case Undefined(_) => 0.0
  }

  /** The horizontal offsets place the origin at the left edge, the middle
      or the right edge of the layout rectangle, with the matching text
      alignment; a value naming no alignment behaves as `Near`. */
  lemma HorizontalPlacementSpansLayout(width: real, code: int)
    ensures HorizontalPlacement(XStringAlignment.Near, width) == (Surface.Left, 0.0)
    ensures HorizontalPlacement(XStringAlignment.Far, width) == (Surface.Right, width)
    ensures HorizontalPlacement(XStringAlignment.Center, width).1 ==
      (HorizontalPlacement(XStringAlignment.Near, width).1 + HorizontalPlacement(XStringAlignment.Far, width).1) / 2.0
    ensures HorizontalPlacement(XStringAlignment.Center, width).0 == Surface.Center
    ensures HorizontalPlacement(XStringAlignment.Undefined(code), width) == HorizontalPlacement(XStringAlignment.Near, width)
  {
  }

  /** The vertical offsets: `BaseLine` puts the origin one ascent down,
      `Far` one ascent-minus-descent below the bottom edge, `Center`
      two thirds of an ascent below the middle; a value naming no
      alignment behaves as `Near`. */
  lemma VerticalOffsetsFromMetrics(font: Surface.FontInfo, height: real, code: int)
    ensures VerticalOffset(XLineAlignment.Near, font, height) == 0.0
    ensures VerticalOffset(XLineAlignment.BaseLine, font, height) == font.ascent
    ensures VerticalOffset(XLineAlignment.Far, font, height) - height == font.ascent - font.descent
    ensures VerticalOffset(XLineAlignment.Center, font, height) - 0.5 * height == (2.0 / 3.0) * font.ascent
    ensures VerticalOffset(XLineAlignment.Undefined(code), font, height) == VerticalOffset(XLineAlignment.Near, font, height)
  {
  }

  /** Where `DrawString` puts the text origin. */
  function TextOrigin(layout: Rect, format: XStringFormat, font: Surface.FontInfo): (o: Point)
    ensures format.alignment.Near? && format.lineAlignment.Near? ==> o == layout.TopLeft()
    ensures format.alignment.Near? || format.alignment.Undefined? ==> o.x == layout.x
    ensures format.alignment.Far? ==> o.x == layout.x + layout.width
    ensures format.alignment.Center? ==> o.x - layout.x == layout.x + layout.width - o.x
    ensures format.lineAlignment.Near? || format.lineAlignment.Undefined? ==> o.y == layout.y
    ensures format.lineAlignment.BaseLine? ==> o.y == layout.y + font.ascent
    ensures format.lineAlignment.Center? ==> o.y - (layout.y + 0.5 * layout.height) == (2.0 / 3.0) * font.ascent
    ensures format.lineAlignment.Far? ==> o.y - (layout.y + layout.height) == font.ascent - font.descent
  {
    Point(layout.x + HorizontalPlacement(format.alignment, layout.width).1,
          layout.y + VerticalOffset(format.lineAlignment, font, layout.height))
  }

  /** A strike-through or underline: a horizontal line across the text's
      bounds, `position - ascent` below the origin, drawn with the text's
      brush and the given thickness. */
  function DecorationLine(brush: Option<Brush>, origin: Point, bounds: Rect, ascent: real, position: real, thickness: real): (c: Surface.Call)
    ensures c.DrawLine? && c.pen == SimplePen(brush, thickness)
    ensures c.p1.y == c.p2.y == origin.y + position - ascent
    ensures c.p1.x == origin.x + bounds.x && c.p2.x - c.p1.x == bounds.width
  {
    var l := Point(bounds.x, -ascent + position);
    var r := Point(bounds.x + bounds.width, -ascent + position);
    Surface.DrawLine(SimplePen(brush, thickness), origin.Plus(l), origin.Plus(r))
  }

  /** `DrawString` once text and font are known: the text itself, then a
      strike-through line if the font asks for one, then an underline. */
  function StringCalls(env: Env, text: string, xfont: XFont, xbrush: Option<XBrush>, layout: Rect, format: XStringFormat): (calls: seq<Surface.Call>)
    ensures |calls| == 1 + (if xfont.strikeout then 1 else 0) + (if xfont.underline then 1 else 0)
    ensures calls[0].DrawText? && calls[0].brush == GetBrush(xbrush)
    ensures calls[0].origin == TextOrigin(layout, format, env.fontInfo(xfont))
    ensures calls[0].text.text == text && calls[0].text.alignment == HorizontalPlacement(format.alignment, layout.width).0
    ensures forall i :: 1 <= i < |calls| ==> calls[i].DrawLine?
    ensures xfont.strikeout ==> calls[1].pen.thickness == env.fontInfo(xfont).strikethroughThickness
    ensures xfont.underline ==> calls[|calls| - 1].pen.thickness == env.fontInfo(xfont).underlineThickness
    ensures Surface.AllDrawing(calls)
  {
    var font := env.fontInfo(xfont);
    var alignment := HorizontalPlacement(format.alignment, layout.width).0;
    var ft := Surface.FormattedText(text, alignment, env.textBounds(text, xfont, alignment));
    var brush := GetBrush(xbrush);
    var origin := TextOrigin(layout, format, font);
    var strike :=
      if xfont.strikeout then [DecorationLine(brush, origin, ft.bounds, font.ascent, font.strikethroughPosition, font.strikethroughThickness)]
      else [];
    var under :=
      if xfont.underline then [DecorationLine(brush, origin, ft.bounds, font.ascent, font.underlinePosition, font.underlineThickness)]
      else [];
    [Surface.DrawText(brush, origin, ft)] + strike + under
  }

  /** The guards of the stroke-only calls: a pen, and for the point-array
      calls an array of at least one, four or two points. */
  predicate StrokeGuarded(c: Command)
    requires IsStrokeOnly(c)
  {
    match c
    case DrawLines(pen, points) => points.Some? && |points.value| >= 1 && pen.Some?
    case DrawBeziers(pen, points) => points.Some? && |points.value| >= 4 && pen.Some?
    case DrawCurve(pen, points, _) => points.Some? && |points.value| >= 2 && pen.Some?
    case _ => c.pen.Some?
  }

  /** The one outline a guarded stroke-only call draws: a line, or an
      unfilled geometry with the translated pen. */
  function Outline(env: Env, c: Command): Surface.Call
    requires IsStrokeOnly(c) && StrokeGuarded(c)
  {
    match c
    case DrawLine(pen, x1, y1, x2, y2) => Surface.DrawLine(MakePen(pen.value), Point(x1, y1), Point(x2, y2))
    case DrawLines(pen, points) => Surface.DrawGeometry(None, GetPen(pen), MakePolyLine(points.value, false))
    case DrawBezier(pen, x1, y1, x2, y2, x3, y3, x4, y4) =>
      Surface.DrawGeometry(None, GetPen(pen), MakeBezier(x1, y1, x2, y2, x3, y3, x4, y4))
    case DrawBeziers(pen, points) => Surface.DrawGeometry(None, GetPen(pen), MakeBeziers(points.value))
    case DrawCurve(pen, points, tension) =>
      Surface.DrawGeometry(None, GetPen(pen), MakeCurve(points.value, tension / 3.0, false, None))
    case DrawArc(pen, x, y, width, height, startAngle, sweepAngle) =>
      Surface.DrawGeometry(None, GetPen(pen), MakeArc(env.trig, x, y, width, height, startAngle, sweepAngle))
  }

  /** The stroke-only calls: one outline with the translated pen and no
      brush, unless the pen or the points are missing. */
  function StrokeCalls(env: Env, c: Command): (calls: seq<Surface.Call>)
    requires IsStrokeOnly(c)
    ensures |calls| <= 1
    ensures forall i :: 0 <= i < |calls| ==> calls[i].DrawLine? || (calls[i].DrawGeometry? && calls[i].brush.None?)
    ensures Surface.AllDrawing(calls)
  {
    if StrokeGuarded(c) then [Outline(env, c)] else []
  }

  /** The shapes taking a pen and a brush: nothing when both are null or
      the points or rectangles are missing; otherwise shapes painted with
      the translated brush and pen. */
  function ShapeCalls(c: Command): (calls: seq<Surface.Call>)
    requires IsPaintedShape(c)
    ensures forall i :: 0 <= i < |calls| ==> calls[i].DrawRectangle? || calls[i].DrawGeometry?
    ensures forall i :: 0 <= i < |calls| ==> calls[i].brush == GetBrush(c.brush) && calls[i].strokePen == GetPen(c.pen)
    ensures Surface.AllDrawing(calls)
  {
    match c
    case DrawRectangle(pen, brush, x, y, width, height) =>
      if pen.None? && brush.None? then []
      else [Surface.DrawRectangle(GetBrush(brush), GetPen(pen), Rect(x, y, width, height), 0.0, 0.0)]
    case DrawRectangles(pen, brush, rects) =>
      if rects.None? || |rects.value| < 1 || (pen.None? && brush.None?) then []
      else RectangleCalls(GetBrush(brush), GetPen(pen), rects.value)
    case DrawRoundedRectangle(pen, brush, x, y, width, height, ellipseWidth, ellipseHeight) =>
      if pen.None? && brush.None? then []
      else [Surface.DrawRectangle(GetBrush(brush), GetPen(pen), Rect(x, y, width, height), 0.5 * ellipseWidth, 0.5 * ellipseHeight)]
    case DrawEllipse(pen, brush, x, y, width, height) =>
      if pen.None? && brush.None? then []
      else [Surface.DrawGeometry(GetBrush(brush), GetPen(pen), MakeEllipse(x, y, width, height))]
    case DrawPolygon(pen, brush, points, fillMode) =>
      if points.None? || |points.value| < 1 || (pen.None? && brush.None?) then []
      else [Surface.DrawGeometry(GetBrush(brush), GetPen(pen), MakePolygon(points.value, fillMode))]
    case DrawClosedCurve(pen, brush, points, tension, fillMode) =>
      if points.None? || |points.value| < 2 || (pen.None? && brush.None?) then []
      else [Surface.DrawGeometry(GetBrush(brush), GetPen(pen), MakeCurve(points.value, tension / 3.0, true, Some(fillMode)))]
  }

  /** The image calls: nothing without an image or, for the sized form,
      with a width or height that is not positive. */
  function ImageCalls(env: Env, c: Command): (calls: seq<Surface.Call>)
    requires c.DrawImage? || c.DrawImageRect?
    ensures |calls| <= 1 && forall i :: 0 <= i < |calls| ==> calls[i].DrawImage?
    ensures Surface.AllDrawing(calls)
  {
    match c
    case DrawImage(image, x, y, width, height) =>
      if image.None? || width <= 0.0 || height <= 0.0 then []
      else [Surface.DrawImage(env.image(image.value), None, Rect(x, y, width, height))]
    case DrawImageRect(image, destRect, srcRect, _) =>
      if image.None? then []
      else [Surface.DrawImage(env.image(image.value), Some(MakeRect(srcRect)), MakeRect(destRect))]
  }

  /** The drawing calls one renderer call makes on the surface. State
      calls make none here; `Step` handles them. */
  function Emit(env: Env, c: Command): (calls: seq<Surface.Call>)
    ensures Surface.AllDrawing(calls)
    ensures IsStateCommand(c) || IsIgnored(c) ==> calls == []
  {
    if IsStateCommand(c) || IsIgnored(c) then []
    else if IsStrokeOnly(c) then StrokeCalls(env, c)
    else if IsPaintedShape(c) then ShapeCalls(c)
    else if c.DrawImage? || c.DrawImageRect? then ImageCalls(env, c)
    else if c.DrawString? then
      if c.text.None? || c.font.None? then []
      else StringCalls(env, c.text.value, c.font.value, c.brush, c.layout, c.format)
    else []
  }

  /** The guards of every drawing call, checked against `Accepted`: a call
      reaches the surface exactly when its paint, point count, rectangle
      list, text, font or image size permit. */
  lemma EmitIffAccepted(env: Env, c: Command)
    requires !IsStateCommand(c)
    ensures Emit(env, c) != [] <==> Accepted(c)
  {
    if IsStrokeOnly(c) {
      StrokeCallsIffAccepted(env, c);
    } else if IsPaintedShape(c) {
      ShapeCallsIffAccepted(c);
    }
  }

  /** The stroke-only guards: a pen, and enough points. */
  lemma StrokeCallsIffAccepted(env: Env, c: Command)
    requires IsStrokeOnly(c)
    ensures StrokeCalls(env, c) != [] <==> Accepted(c)
  {
    assert StrokeCalls(env, c) != [] <==> StrokeGuarded(c);
  }

  /** The shape guards: a pen or a brush, and enough points or
      rectangles. */
  lemma ShapeCallsIffAccepted(c: Command)
    requires IsPaintedShape(c)
    ensures ShapeCalls(c) != [] <==> Accepted(c)
  {
  }

  /** A stroke-only call draws a single stroked, unfilled shape with the
      translated pen; the curve builder gets a third of the tension. */
  lemma StrokeCallsDrawOneOutline(env: Env, c: Command)
    requires IsStrokeOnly(c) && Accepted(c)
    ensures |Emit(env, c)| == 1
    ensures c.DrawLine? ==> Emit(env, c)[0] == Surface.DrawLine(MakePen(c.pen.value), Point(c.x1, c.y1), Point(c.x2, c.y2))
    ensures !c.DrawLine? ==>
      (Emit(env, c)[0].DrawGeometry? && Emit(env, c)[0].brush.None? && Emit(env, c)[0].strokePen == Some(MakePen(c.pen.value)))
    ensures c.DrawCurve? ==> Emit(env, c)[0].geometry == MakeCurve(c.points.value, c.tension / 3.0, false, None)
  {
  }

  /** The Bézier, Bézier-chain and arc calls stroke exactly the geometry
      built from their own arguments, in argument order. */
  lemma StrokeCallsDrawTheirGeometry(env: Env, c: Command)
    requires (c.DrawBezier? || c.DrawBeziers? || c.DrawArc?) && Accepted(c)
    ensures c.DrawBezier? ==>
      (Emit(env, c) == [Surface.DrawGeometry(None, Some(MakePen(c.pen.value)), MakeBezier(c.x1, c.y1, c.x2, c.y2, c.x3, c.y3, c.x4, c.y4))])
    ensures c.DrawBeziers? ==>
      (Emit(env, c) == [Surface.DrawGeometry(None, Some(MakePen(c.pen.value)), MakeBeziers(c.points.value))])
    ensures c.DrawArc? ==>
      (Emit(env, c) == [Surface.DrawGeometry(None, Some(MakePen(c.pen.value)),
                           MakeArc(env.trig, c.x, c.y, c.width, c.height, c.startAngle, c.sweepAngle))])
  {
  }

  /** A rectangle draws the rectangle of its own position and size, and an
      ellipse the ellipse inscribed in it, both with the translated brush
      and pen. */
  lemma ShapeCallsDrawTheirGeometry(env: Env, c: Command)
    requires (c.DrawRectangle? || c.DrawEllipse?) && Accepted(c)
    ensures c.DrawRectangle? ==>
      (Emit(env, c) == [Surface.DrawRectangle(GetBrush(c.brush), GetPen(c.pen), Rect(c.x, c.y, c.width, c.height), 0.0, 0.0)])
    ensures c.DrawEllipse? ==>
      (Emit(env, c) == [Surface.DrawGeometry(GetBrush(c.brush), GetPen(c.pen), MakeEllipse(c.x, c.y, c.width, c.height))])
  {
  }

  /** The sized image call draws the whole image into the rectangle of its
      position and size; the source-rectangle form draws the source part of
      the image into the destination rectangle. */
  lemma ImageCallsDrawIntoTheirRects(env: Env, c: Command)
    requires (c.DrawImage? || c.DrawImageRect?) && Accepted(c)
    ensures c.DrawImage? ==>
      (Emit(env, c) == [Surface.DrawImage(env.image(c.image.value), None, Rect(c.x, c.y, c.width, c.height))])
    ensures c.DrawImageRect? ==>
      (Emit(env, c) == [Surface.DrawImage(env.image(c.image.value), Some(c.srcRect), c.destRect)])
  {
    if c.DrawImageRect? {
      MakeRectIsIdentity(c.srcRect);
      MakeRectIsIdentity(c.destRect);
    }
  }

  /** `DrawRectangle` with a pen and no brush strokes one rectangle and
      fills nothing. */
  lemma StrokedRectangleOnly(env: Env, pen: XPen, x: real, y: real, width: real, height: real)
    ensures Emit(env, Command.DrawRectangle(Some(pen), None, x, y, width, height))
      == [Surface.DrawRectangle(None, Some(MakePen(pen)), Rect(x, y, width, height), 0.0, 0.0)]
  {
  }

  /** A polyline or polygon draws through exactly its input points; only
      the polygon is filled and closed. */
  lemma PolyCallsDrawThroughPoints(env: Env, c: Command)
    requires (c.DrawLines? || c.DrawPolygon?) && Accepted(c)
    ensures |Emit(env, c)| == 1 && Emit(env, c)[0].DrawGeometry?
    ensures var g := Emit(env, c)[0].geometry;
      g.Stream? && Vertices(g.figure) == c.points.value && (g.figure.closed <==> c.DrawPolygon?)
      && (g.figure.filled <==> c.DrawPolygon?)
  {
    var pts := c.points.value;
    PolyLineVerticesRoundTrip(pts, false, if c.DrawPolygon? then c.fillMode else Alternate);
  }

  /** A closed curve is filled with the fill rule of its fill mode and is a
      closed cardinal spline with a third of the tension. */
  lemma ClosedCurveIsFilledSpline(env: Env, c: Command)
    requires c.DrawClosedCurve? && Accepted(c)
    ensures |Emit(env, c)| == 1 && Emit(env, c)[0].DrawGeometry?
    ensures Emit(env, c)[0].brush == GetBrush(c.brush) && Emit(env, c)[0].strokePen == GetPen(c.pen)
    ensures var g := Emit(env, c)[0].geometry;
      && g.Stream? && g.figure.closed && g.figure.filled
      && g.figure.fillRule == Some(GetFillRule(c.fillMode))
      && g.figure.segments == MakeCurve(c.points.value, c.tension / 3.0, true, None).figure.segments
  {
    var g := MakeCurve(c.points.value, c.tension / 3.0, true, Some(c.fillMode));
    assert Emit(env, c) == [Surface.DrawGeometry(GetBrush(c.brush), GetPen(c.pen), g)];
    CurveSegmentsIgnoreFill(c.points.value, c.tension / 3.0, true, Some(c.fillMode));
  }

  /** `DrawRectangles` draws each rectangle once, in order, all with one
      brush and one pen; `DrawRoundedRectangle` rounds its corners with
      half the ellipse size. */
  lemma RectangleCallsOnePerRect(env: Env, c: Command)
    requires (c.DrawRectangles? || c.DrawRoundedRectangle?) && Accepted(c)
    ensures c.DrawRectangles? ==>
      && |Emit(env, c)| == |c.rects.value|
      && forall i :: 0 <= i < |c.rects.value| ==>
           Emit(env, c)[i] == Surface.DrawRectangle(GetBrush(c.brush), GetPen(c.pen), c.rects.value[i], 0.0, 0.0)
    ensures c.DrawRoundedRectangle? ==>
      && |Emit(env, c)| == 1
      && Emit(env, c)[0].radiusX * 2.0 == c.ellipseWidth && Emit(env, c)[0].radiusY * 2.0 == c.ellipseHeight
  {
  }

  /** `DrawString` draws the text, then a strike-through and an underline
      when the font asks for them; each line lies `position - ascent` below
      the origin and spans the text's bounds. */
  lemma StringDecorations(env: Env, text: string, xfont: XFont, xbrush: Option<XBrush>, layout: Rect, format: XStringFormat)
    ensures var calls := Emit(env, Command.DrawString(Some(text), Some(xfont), xbrush, layout, format));
      var font := env.fontInfo(xfont);
      var origin := TextOrigin(layout, format, font);
      var bounds := calls[0].text.bounds;
      && calls[0].DrawText? && calls[0].origin == origin
      && (xfont.strikeout ==>
            calls[1].p1.y == calls[1].p2.y == origin.y + font.strikethroughPosition - font.ascent
            && calls[1].p2.x - calls[1].p1.x == bounds.width && calls[1].p1.x == origin.x + bounds.x)
      && (xfont.underline ==>
            var u := calls[|calls| - 1];
            u.p1.y == u.p2.y == origin.y + font.underlinePosition - font.ascent
            && u.p2.x - u.p1.x == bounds.width && u.p1.x == origin.x + bounds.x)
  {
  }

  /** One renderer call: state calls change the session, every other call
      leaves it as it is and emits its drawing calls. */
  function Step(env: Env, s: GraphicsState.Session, c: Command): (r: GraphicsState.Outcome)
    ensures !IsStateCommand(c) ==> r == GraphicsState.Outcome(s, Emit(env, c))
    ensures c.Save? ==> r == GraphicsState.Save(s, c.state)
    ensures c.Restore? ==> r == GraphicsState.Restore(s, c.state)
    ensures c.AddTransform? ==> r == GraphicsState.AddTransform(s, c.transform, c.order)
    ensures c.Close? ==> r == GraphicsState.Close(s)
  {
    match c
    case Save(token) => GraphicsState.Save(s, token)
    case Restore(token) => GraphicsState.Restore(s, token)
    case AddTransform(m, order) => GraphicsState.AddTransform(s, m, order)
    case Close => GraphicsState.Close(s)
    case _ => GraphicsState.Outcome(s, Emit(env, c))
  }

  /** Running a sequence of calls one after the other with some step
      function, the emitted calls concatenated in order. */
  function RunWith(step: (GraphicsState.Session, Command) -> GraphicsState.Outcome,
                   s: GraphicsState.Session, cs: seq<Command>): (r: GraphicsState.Outcome)
    ensures cs == [] ==> r == GraphicsState.Outcome(s, [])
    ensures |cs| == 1 ==> r == step(s, cs[0])
    ensures cs != [] ==> step(s, cs[0]).calls <= r.calls
    decreases |cs|
  {
    if cs == [] then GraphicsState.Outcome(s, [])
    else
      var first := step(s, cs[0]);
      var rest := RunWith(step, first.session, cs[1..]);
      GraphicsState.Outcome(rest.session, first.calls + rest.calls)
  }

  /** Running two sequences one after the other is running their
      concatenation. */
  lemma {:induction false} RunWithAppend(step: (GraphicsState.Session, Command) -> GraphicsState.Outcome,
                                         s: GraphicsState.Session, cs: seq<Command>, ds: seq<Command>)
    ensures var first := RunWith(step, s, cs);
      var second := RunWith(step, first.session, ds);
      RunWith(step, s, cs + ds) == GraphicsState.Outcome(second.session, first.calls + second.calls)
    decreases |cs|
  {
    if cs == [] {
      assert cs + ds == ds;
    } else {
      var f := step(s, cs[0]);
      assert (cs + ds)[0] == cs[0];
      assert (cs + ds)[1..] == cs[1..] + ds;
      RunWithAppend(step, f.session, cs[1..], ds);
      var mid := RunWith(step, f.session, cs[1..]);
      var second := RunWith(step, mid.session, ds);
      assert f.calls + (mid.calls + second.calls) == (f.calls + mid.calls) + second.calls;
    }
  }

  /** The bridge's step function for a given environment. */
  function Stepper(env: Env): (GraphicsState.Session, Command) -> GraphicsState.Outcome {
    (s: GraphicsState.Session, c: Command) => Step(env, s, c)
  }

  /** A sequence of renderer calls run through the bridge. */
  function Run(env: Env, s: GraphicsState.Session, cs: seq<Command>): GraphicsState.Outcome {
    RunWith(Stepper(env), s, cs)
  }

  /** Calls that do not manage state leave the session as it was. */
  lemma {:induction false} DrawingRunKeepsSession(env: Env, s: GraphicsState.Session, cs: seq<Command>)
    requires forall i :: 0 <= i < |cs| ==> !IsStateCommand(cs[i])
    ensures Run(env, s, cs).session == s
    decreases |cs|
  {
    if cs != [] {
      assert Stepper(env)(s, cs[0]).session == s;
      DrawingRunKeepsSession(env, s, cs[1..]);
    }
  }

  /** Every step keeps the scope stack in opening order. */
  lemma StepKeepsValid(env: Env, s: GraphicsState.Session, c: Command)
    requires GraphicsState.Valid(s)
    ensures GraphicsState.Valid(Step(env, s, c).session)
  {
    match c
    case Save(token) => GraphicsState.StateOperationsKeepValid(s, token, CreateScale(1.0, 1.0), Prepend);
    case Restore(token) => GraphicsState.StateOperationsKeepValid(s, token, CreateScale(1.0, 1.0), Prepend);
    case AddTransform(m, order) => GraphicsState.StateOperationsKeepValid(s, 0, m, order);
    case Close => GraphicsState.StateOperationsKeepValid(s, 0, CreateScale(1.0, 1.0), Prepend);
    case _ =>
  }

  /** Any run of calls keeps the scope stack in opening order. */
  lemma {:induction false} RunKeepsValid(env: Env, s: GraphicsState.Session, cs: seq<Command>)
    requires GraphicsState.Valid(s)
    ensures GraphicsState.Valid(Run(env, s, cs).session)
    decreases |cs|
  {
    if cs != [] {
      RunCons(env, s, cs);
      StepKeepsValid(env, s, cs[0]);
      RunKeepsValid(env, Step(env, s, cs[0]).session, cs[1..]);
    }
  }

  /** Running two sequences one after the other through the bridge is
      running their concatenation. */
  lemma RunAppend(env: Env, s: GraphicsState.Session, cs: seq<Command>, ds: seq<Command>)
    ensures var first := Run(env, s, cs);
      var second := Run(env, first.session, ds);
      Run(env, s, cs + ds) == GraphicsState.Outcome(second.session, first.calls + second.calls)
  {
    RunWithAppend(Stepper(env), s, cs, ds);
  }

  /** A run is its first step followed by the run of the rest. */
  lemma RunCons(env: Env, s: GraphicsState.Session, cs: seq<Command>)
    requires cs != []
    ensures var first := Step(env, s, cs[0]);
      var rest := Run(env, first.session, cs[1..]);
      Run(env, s, cs) == GraphicsState.Outcome(rest.session, first.calls + rest.calls)
  {
    assert Stepper(env)(s, cs[0]) == Step(env, s, cs[0]);
  }

  /** Every `Restore` in `cs` names a token in `seen` or one that `cs`
      saved at an earlier position. */
  predicate RestoresOnlySaved(cs: seq<Command>, seen: set<nat>) {
    forall i :: 0 <= i < |cs| && cs[i].Restore? ==>
      cs[i].state in seen || exists j :: 0 <= j < i && cs[j] == Command.Save(cs[i].state)
  }

  /** The tokens saved by `c`. */
  function SavedBy(c: Command): set<nat> {
    if c.Save? then {c.state} else {}
  }

  /** The tokens saved by some call of `cs`. */
  function SavedIn(cs: seq<Command>): set<nat>
    decreases |cs|
  {
    if cs == [] then {} else SavedBy(cs[0]) + SavedIn(cs[1..])
  }

  /** One call inside a `Save(t) … Restore(t)` bracket keeps the bracket
      intact, unless it is `Close`, `Save(t)` or the restore of a token
      not saved inside the bracket. */
  lemma StepKeepsBracket(env: Env, base: seq<nat>, t: nat, seen: set<nat>, s: GraphicsState.Session, c: Command)
    requires GraphicsState.InBracket(base, t, seen, s)
    requires !c.Close? && c != Command.Save(t) && (c.Restore? ==> c.state in seen)
    ensures GraphicsState.InBracket(base, t, seen + SavedBy(c), Step(env, s, c).session)
  {
    if !IsStateCommand(c) {
      assert seen + SavedBy(c) == seen;
    } else if c.Save? {
      GraphicsState.SaveKeepsBracket(base, t, seen, s, c.state);
    } else if c.Restore? {
      assert seen + SavedBy(c) == seen;
      GraphicsState.RestoreKeepsBracket(base, t, seen, s, c.state);
    } else {
      assert seen + SavedBy(c) == seen;
      GraphicsState.AddTransformKeepsBracket(base, t, seen, s, c.transform, c.order);
    }
  }

  /** Dropping the first call moves the tokens it saved into `seen`. */
  lemma RestoresOnlySavedTail(cs: seq<Command>, seen: set<nat>)
    requires cs != [] && RestoresOnlySaved(cs, seen)
    ensures RestoresOnlySaved(cs[1..], seen + SavedBy(cs[0]))
  {
    var tail := cs[1..];
    forall i | 0 <= i < |tail| && tail[i].Restore?
      ensures tail[i].state in seen + SavedBy(cs[0]) || exists j :: 0 <= j < i && tail[j] == Command.Save(tail[i].state)
    {
      assert cs[i + 1] == tail[i];
      if tail[i].state !in seen {
        var j :| 0 <= j < i + 1 && cs[j] == Command.Save(cs[i + 1].state);
        if j > 0 {
          assert tail[j - 1] == cs[j];
        }
      }
    }
  }

  /** A run of calls inside the bracket keeps it intact. */
  lemma {:induction false} RunKeepsBracket(env: Env, base: seq<nat>, t: nat, seen: set<nat>,
                                           s: GraphicsState.Session, cs: seq<Command>)
    requires GraphicsState.InBracket(base, t, seen, s)
    requires forall i :: 0 <= i < |cs| ==> !cs[i].Close? && cs[i] != Command.Save(t)
    requires RestoresOnlySaved(cs, seen)
    ensures GraphicsState.InBracket(base, t, seen + SavedIn(cs), Run(env, s, cs).session)
    decreases |cs|
  {
    if cs == [] {
      assert seen + SavedIn(cs) == seen;
    } else {
      assert cs[0].Restore? ==> cs[0].state in seen;
      StepKeepsBracket(env, base, t, seen, s, cs[0]);
      RestoresOnlySavedTail(cs, seen);
      RunCons(env, s, cs);
      RunKeepsBracket(env, base, t, seen + SavedBy(cs[0]), Step(env, s, cs[0]).session, cs[1..]);
      assert seen + SavedBy(cs[0]) + SavedIn(cs[1..]) == seen + SavedIn(cs);
    }
  }

  /** `Save(t)`, then any calls that neither close the renderer nor save
      `t` again and restore only tokens they saved themselves, then
      `Restore(t)`: the stack is back to what it was before the `Save`, and
      `t` is forgotten. Drawing calls, transforms and nested save/restore
      pairs may all sit inside the bracket. */
  lemma SaveRestoreBracketRun(env: Env, s: GraphicsState.Session, t: nat, cs: seq<Command>)
    requires forall i :: 0 <= i < |cs| ==> !cs[i].Close? && cs[i] != Command.Save(t)
    requires forall i :: 0 <= i < |cs| && cs[i].Restore? ==>
      exists j :: 0 <= j < i && cs[j] == Command.Save(cs[i].state)
    ensures Run(env, s, [Command.Save(t)] + cs + [Command.Restore(t)]).session.stack == s.stack
    ensures t !in Run(env, s, [Command.Save(t)] + cs + [Command.Restore(t)]).session.saved
  {
    var start := Step(env, s, Command.Save(t)).session;
    assert GraphicsState.InBracket(s.stack, t, {}, start);
    assert RestoresOnlySaved(cs, {});
    RunKeepsBracket(env, s.stack, t, {}, start, cs);
    var inner := Run(env, start, cs).session;
    GraphicsState.RestoreClosesBracket(s.stack, t, {} + SavedIn(cs), inner);
    RunCons(env, s, [Command.Save(t)] + cs);
    assert ([Command.Save(t)] + cs)[1..] == cs;
    RunCons(env, inner, [Command.Restore(t)]);
    RunAppend(env, s, [Command.Save(t)] + cs, [Command.Restore(t)]);
  }

  /** A line drawn after an inner `Restore` is drawn under the outer
      transform only: the inner scope was disposed of before the line, and
      the outer one after it. */
  lemma NestedSaveRestoreScenario(env: Env, a: nat, b: nat, pen: XPen, x1: real, y1: real, x2: real, y2: real)
    requires a != b
    ensures var scale := CreateScale(2.0, 2.0);
      var shift := Matrix(1.0, 0.0, 0.0, 1.0, 10.0, 10.0);
      var r := Run(env, GraphicsState.Initial,
        [Command.Save(a), Command.AddTransform(scale, Prepend), Command.Save(b), Command.AddTransform(shift, Append),
         Command.Restore(b), Command.DrawLine(Some(pen), x1, y1, x2, y2), Command.Restore(a)]);
      && r.calls == [Surface.Push(0, Surface.PreTransform, scale), Surface.Push(1, Surface.PostTransform, shift), Surface.Pop(1),
                     Surface.DrawLine(MakePen(pen), Point(x1, y1), Point(x2, y2)), Surface.Pop(0)]
      && r.session.stack == [] && r.session.saved == map[]
  {
    var scale := CreateScale(2.0, 2.0);
    var shift := Matrix(1.0, 0.0, 0.0, 1.0, 10.0, 10.0);
    var opening := [Command.Save(a), Command.AddTransform(scale, Prepend), Command.Save(b), Command.AddTransform(shift, Append)];
    var closing := [Command.Restore(b), Command.DrawLine(Some(pen), x1, y1, x2, y2), Command.Restore(a)];
    ScenarioOpening(env, a, b, scale, shift);
    ScenarioClosing(env, a, b, pen, x1, y1, x2, y2);
    RunAppend(env, GraphicsState.Initial, opening, closing);
    assert opening + closing ==
      [Command.Save(a), Command.AddTransform(scale, Prepend), Command.Save(b), Command.AddTransform(shift, Append),
       Command.Restore(b), Command.DrawLine(Some(pen), x1, y1, x2, y2), Command.Restore(a)];
  }

  /** The first half of the scenario: two saves, each followed by a
      transform, open scopes 0 and 1. */
  lemma ScenarioOpening(env: Env, a: nat, b: nat, scale: Matrix, shift: Matrix)
    requires a != b
    ensures Run(env, GraphicsState.Initial,
                [Command.Save(a), Command.AddTransform(scale, Prepend), Command.Save(b), Command.AddTransform(shift, Append)])
      == GraphicsState.Outcome(GraphicsState.Session([0, 1], map[a := 0, b := 1], 2),
                               [Surface.Push(0, Surface.PreTransform, scale), Surface.Push(1, Surface.PostTransform, shift)])
  {
    var step := Stepper(env);
    var s0 := GraphicsState.Initial;
    var o1 := GraphicsState.Outcome(GraphicsState.Session([], map[a := 0], 0), []);
    var o2 := GraphicsState.Outcome(GraphicsState.Session([0], map[a := 0], 1), [Surface.Push(0, Surface.PreTransform, scale)]);
    var o3 := GraphicsState.Outcome(GraphicsState.Session([0], map[a := 0, b := 1], 1), []);
    var o4 := GraphicsState.Outcome(GraphicsState.Session([0, 1], map[a := 0, b := 1], 2), [Surface.Push(1, Surface.PostTransform, shift)]);
    SaveStep(env, s0, a);
    PushStep(env, o1.session, scale, Prepend);
    SaveStep(env, o2.session, b);
    PushStep(env, o3.session, shift, Append);
    var r4 := GraphicsState.Outcome(o4.session, o4.calls);
    RunOfCons(step, Command.AddTransform(shift, Append), [], o3.session, o4, GraphicsState.Outcome(o4.session, []));
    RunOfCons(step, Command.Save(b), [Command.AddTransform(shift, Append)], o2.session, o3, r4);
    RunOfCons(step, Command.AddTransform(scale, Prepend), [Command.Save(b), Command.AddTransform(shift, Append)], o1.session, o2, r4);
    RunOfCons(step, Command.Save(a), [Command.AddTransform(scale, Prepend), Command.Save(b), Command.AddTransform(shift, Append)], s0, o1,
              GraphicsState.Outcome(o4.session, o2.calls + o4.calls));
  }

  /** The second half: restoring the inner token disposes of scope 1, the
      line is drawn, and restoring the outer token disposes of scope 0. */
  lemma ScenarioClosing(env: Env, a: nat, b: nat, pen: XPen, x1: real, y1: real, x2: real, y2: real)
    requires a != b
    ensures Run(env, GraphicsState.Session([0, 1], map[a := 0, b := 1], 2),
                [Command.Restore(b), Command.DrawLine(Some(pen), x1, y1, x2, y2), Command.Restore(a)])
      == GraphicsState.Outcome(GraphicsState.Session([], map[], 2),
                               [Surface.Pop(1), Surface.DrawLine(MakePen(pen), Point(x1, y1), Point(x2, y2)), Surface.Pop(0)])
  {
    var inner := GraphicsState.Session([0], map[a := 0], 2);
    RestoreInner(env, a, b);
    LineStep(env, inner, pen, x1, y1, x2, y2);
    RestoreOuter(env, a);
    RunOfThree(Stepper(env), GraphicsState.Session([0, 1], map[a := 0, b := 1], 2),
               Command.Restore(b), Command.DrawLine(Some(pen), x1, y1, x2, y2), Command.Restore(a),
               GraphicsState.Outcome(inner, [Surface.Pop(1)]),
               GraphicsState.Outcome(inner, [Surface.DrawLine(MakePen(pen), Point(x1, y1), Point(x2, y2))]),
               GraphicsState.Outcome(GraphicsState.Session([], map[], 2), [Surface.Pop(0)]));
  }

  /** Restoring the inner of two nested saves closes the inner scope only. */
  lemma RestoreInner(env: Env, a: nat, b: nat)
    requires a != b
    ensures Step(env, GraphicsState.Session([0, 1], map[a := 0, b := 1], 2), Command.Restore(b))
      == GraphicsState.Outcome(GraphicsState.Session([0], map[a := 0], 2), [Surface.Pop(1)])
  {
    RestoreStep(env, GraphicsState.Session([0, 1], map[a := 0, b := 1], 2), b);
    assert [0, 1][..1] == [0] && [0, 1][1..] == [1];
    assert map[a := 0, b := 1] - {b} == map[a := 0];
  }

  /** Restoring the outer save closes the remaining scope. */
  lemma RestoreOuter(env: Env, a: nat)
    ensures Step(env, GraphicsState.Session([0], map[a := 0], 2), Command.Restore(a))
      == GraphicsState.Outcome(GraphicsState.Session([], map[], 2), [Surface.Pop(0)])
  {
    RestoreStep(env, GraphicsState.Session([0], map[a := 0], 2), a);
    assert [0][..0] == [] && [0][0..] == [0];
    assert map[a := 0] - {a} == map[];
  }

  /** Three steps run in order, for any step function. */
  lemma RunOfThree(step: (GraphicsState.Session, Command) -> GraphicsState.Outcome, s: GraphicsState.Session,
                   c1: Command, c2: Command, c3: Command,
                   o1: GraphicsState.Outcome, o2: GraphicsState.Outcome, o3: GraphicsState.Outcome)
    requires step(s, c1) == o1 && step(o1.session, c2) == o2 && step(o2.session, c3) == o3
    ensures RunWith(step, s, [c1, c2, c3]) == GraphicsState.Outcome(o3.session, o1.calls + o2.calls + o3.calls)
  {
    RunOfCons(step, c3, [], o2.session, o3, GraphicsState.Outcome(o3.session, []));
    RunOfCons(step, c2, [c3], o1.session, o2, GraphicsState.Outcome(o3.session, o3.calls));
    RunOfCons(step, c1, [c2, c3], s, o1, GraphicsState.Outcome(o3.session, o2.calls + o3.calls));
    assert o1.calls + (o2.calls + o3.calls) == o1.calls + o2.calls + o3.calls;
  }

  /** `Save` through the bridge: the depth is recorded, nothing drawn. */
  lemma SaveStep(env: Env, s: GraphicsState.Session, token: nat)
    ensures Step(env, s, Command.Save(token)) == GraphicsState.Outcome(s.(saved := s.saved[token := |s.stack|]), [])
  {
  }

  /** `DrawLine` with a pen through the bridge draws one line and keeps the
      session. */
  lemma LineStep(env: Env, s: GraphicsState.Session, pen: XPen, x1: real, y1: real, x2: real, y2: real)
    ensures Step(env, s, Command.DrawLine(Some(pen), x1, y1, x2, y2))
      == GraphicsState.Outcome(s, [Surface.DrawLine(MakePen(pen), Point(x1, y1), Point(x2, y2))])
  {
  }

  /** `AddTransform` through the bridge with a named order opens the next
      scope. */
  lemma PushStep(env: Env, s: GraphicsState.Session, m: Matrix, order: XMatrixOrder)
    requires !order.Undefined?
    ensures Step(env, s, Command.AddTransform(m, order)) ==
      GraphicsState.Outcome(GraphicsState.Session(s.stack + [s.nextScope], s.saved, s.nextScope + 1),
                            [Surface.Push(s.nextScope, if order.Prepend? then Surface.PreTransform else Surface.PostTransform, m)])
  {
  }

  /** `Restore` through the bridge of a token recorded below the current
      depth. */
  lemma RestoreStep(env: Env, s: GraphicsState.Session, token: nat)
    requires token in s.saved && s.saved[token] <= |s.stack|
    ensures Step(env, s, Command.Restore(token)) ==
      GraphicsState.Outcome(GraphicsState.Session(s.stack[..s.saved[token]], s.saved - {token}, s.nextScope),
                            GraphicsState.Unwind(s.stack[s.saved[token]..]))
  {
  }

  /** A run of `[c] + cs` is the step of `c` followed by the run of `cs`. */
  lemma RunOfCons(step: (GraphicsState.Session, Command) -> GraphicsState.Outcome, c: Command, cs: seq<Command>,
                  s: GraphicsState.Session, first: GraphicsState.Outcome, rest: GraphicsState.Outcome)
    requires first == step(s, c) && RunWith(step, first.session, cs) == rest
    ensures RunWith(step, s, [c] + cs) == GraphicsState.Outcome(rest.session, first.calls + rest.calls)
  {
    assert ([c] + cs)[0] == c && ([c] + cs)[1..] == cs;
  }

  /** `PageScaleFactor`: the renderer's own copy of the page-unit table. */
  function PageScaleFactor(unit: Units.XGraphicsUnit): (f: real)
    ensures f > 0.0
  {
    match unit
    case Presentation => 1.0
    case Point => 96.0 / 72.0
    case Inch => 96.0
    case Millimeter => 96.0 / 25.4
    case Centimeter => 96.0 / 2.54
    case Undefined(_) => 1.0
  }

  /** The matrix `PushPageTransform` pushes, as a pre-transform. */
  function PageTransform(unit: Units.XGraphicsUnit): (m: Matrix)
    ensures IsUniformScale(m, PageScaleFactor(unit))
  {
    CreateScale(PageScaleFactor(unit), PageScaleFactor(unit))
  }

  /** The two copies of the unit table agree on every unit, so the page
      transform and the unit transform are the same matrix. */
  lemma ScaleTablesAgree(unit: Units.XGraphicsUnit)
    ensures PageScaleFactor(unit) == Units.UnitScale(unit)
    ensures PageTransform(unit) == Units.UnitTransform(unit)
  {
  }
}
