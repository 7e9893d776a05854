/** The drawing model's renderer interface, as data: one `Command` per
    call a document renderer can make on the bridge. Nullable arguments
    are `Option`s; enum arguments carry an `Undefined` case for integer
    values that name no member. */
module Commands {
  import opened Primitives
  import opened Geometries
  import opened Media
  import opened Fonts
  import Units

  datatype XStringAlignment = Near | Center | Far | Undefined(code: int)
  datatype XLineAlignment = Near | Center | Far | BaseLine | Undefined(code: int)
  datatype XMatrixOrder = Prepend | Append | Undefined(code: int)

  /** The layout parts of `XStringFormat` the bridge reads. */
  datatype XStringFormat = XStringFormat(alignment: XStringAlignment, lineAlignment: XLineAlignment)

  /** Opaque objects of the drawing model, known by identity. */
  datatype XImage = XImage(id: nat)
  datatype XGraphicsPath = XGraphicsPath(id: nat)

  /** The renderer calls. `state` is the identity of the `XGraphicsState`
      token a `Save`/`Restore` pair shares; `container` that of an
      `XGraphicsContainer`; `combineMode` the integer value of the clip
      combination mode. */
  datatype Command =
    | DrawLine(pen: Option<XPen>, x1: real, y1: real, x2: real, y2: real)
    | DrawLines(pen: Option<XPen>, points: Option<seq<Point>>)
    | DrawBezier(pen: Option<XPen>, x1: real, y1: real, x2: real, y2: real, x3: real, y3: real, x4: real, y4: real)
    | DrawBeziers(pen: Option<XPen>, points: Option<seq<Point>>)
    | DrawCurve(pen: Option<XPen>, points: Option<seq<Point>>, tension: real)
    | DrawArc(pen: Option<XPen>, x: real, y: real, width: real, height: real, startAngle: real, sweepAngle: real)
    | DrawRectangle(pen: Option<XPen>, brush: Option<XBrush>, x: real, y: real, width: real, height: real)
    | DrawRectangles(pen: Option<XPen>, brush: Option<XBrush>, rects: Option<seq<Rect>>)
    | DrawRoundedRectangle(pen: Option<XPen>, brush: Option<XBrush>, x: real, y: real, width: real, height: real,
                           ellipseWidth: real, ellipseHeight: real)
    | DrawEllipse(pen: Option<XPen>, brush: Option<XBrush>, x: real, y: real, width: real, height: real)
    | DrawPolygon(pen: Option<XPen>, brush: Option<XBrush>, points: Option<seq<Point>>, fillMode: XFillMode)
    | DrawPie(pen: Option<XPen>, brush: Option<XBrush>, x: real, y: real, width: real, height: real, startAngle: real, sweepAngle: real)
    | DrawClosedCurve(pen: Option<XPen>, brush: Option<XBrush>, points: Option<seq<Point>>, tension: real, fillMode: XFillMode)
    | DrawPath(pen: Option<XPen>, brush: Option<XBrush>, path: Option<XGraphicsPath>)
    | DrawString(text: Option<string>, font: Option<XFont>, brush: Option<XBrush>, layout: Rect, format: XStringFormat)
    | DrawImage(image: Option<XImage>, x: real, y: real, width: real, height: real)
    | DrawImageRect(image: Option<XImage>, destRect: Rect, srcRect: Rect, srcUnit: Units.XGraphicsUnit)
    | Save(state: nat)
    | Restore(state: nat)
    | BeginContainer(container: nat, dstRect: Rect, srcRect: Rect, unit: Units.XGraphicsUnit)
    | EndContainer(container: nat)
    | AddTransform(transform: Matrix, order: XMatrixOrder)
    | SetClip(path: Option<XGraphicsPath>, combineMode: int)
    | ResetClip
    | WriteComment(comment: string)
    | Close

  /** The calls that manage the transform stack and the saved states; all
      others are drawing calls or calls the bridge ignores. */
  predicate IsStateCommand(c: Command) {
    c.Save? || c.Restore? || c.AddTransform? || c.Close?
  }
}
