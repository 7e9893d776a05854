/** The drawing surface the bridge writes to, as data: every call the
    renderer makes on the surface's drawing context becomes one `Call`
    value, so a rendering is the sequence of calls it emits. */
module Surface {
  import opened Primitives
  import opened Geometries
  import opened Media

  /** The horizontal alignment a formatted text is laid out with. */
  datatype TextAlignment = Left | Center | Right

  /** The metrics of a resolved font that text placement reads: ascent and
      descent, and the offsets and thicknesses of the underline and
      strike-through lines. The font resolution that produces them lies
      outside the model. */
  datatype FontInfo = FontInfo(ascent: real, descent: real,
                               underlinePosition: real, underlineThickness: real,
                               strikethroughPosition: real, strikethroughThickness: real)

  /** A text laid out for drawing; `bounds` is the box the layout reports. */
  datatype FormattedText = FormattedText(text: string, alignment: TextAlignment, bounds: Rect)

  /** A decoded bitmap, known by identity only. */
  datatype Image = Image(id: nat)

  /** How a pushed transform composes with the current one. */
  datatype ScopeKind = PreTransform | PostTransform

  /** One call on the drawing context. `Push` opens a transform scope that
      the matching `Pop` (the disposal of its pushed state) closes; scopes
      are named by the order in which they were opened. */
  datatype Call =
    | DrawLine(pen: Pen, p1: Point, p2: Point)
    | DrawGeometry(brush: Option<Brush>, strokePen: Option<Pen>, geometry: Geometry)
    | DrawRectangle(brush: Option<Brush>, strokePen: Option<Pen>, rect: Rect, radiusX: real, radiusY: real)
    | DrawText(brush: Option<Brush>, origin: Point, text: FormattedText)
    | DrawImage(image: Image, source: Option<Rect>, dest: Rect)
    | Push(scope: nat, kind: ScopeKind, matrix: Matrix)
    | Pop(scope: nat)

  /** The calls that paint something, as opposed to opening or closing a
      transform scope. */
  predicate IsDrawing(c: Call) {
    !c.Push? && !c.Pop?
  }

  /** Every call of the sequence paints something. */
  predicate AllDrawing(calls: seq<Call>) {
    forall i :: 0 <= i < |calls| ==> IsDrawing(calls[i])
  }
}
