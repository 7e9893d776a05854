/** The paint translator: the drawing model's colours, brushes and pens
    become the surface's brushes and pens. */
module Media {
  import opened Primitives
  import Units

  type byte = x: int | 0 <= x < 256

  /** `XColor`: alpha as a fraction in [0, 1], red/green/blue as bytes. */
  datatype XColor = XColor(a: real, r: byte, g: byte, b: byte)

  /** The surface's `Color`, every channel a byte. */
  datatype Color = Color(a: byte, r: byte, g: byte, b: byte)

  const Red := Color(255, 255, 0, 0)
  const Blue := Color(255, 0, 0, 255)
  const Black := Color(255, 0, 0, 0)

  datatype GradientStop = GradientStop(color: Color, offset: real)

  /** The surface's immutable brushes. */
  datatype Brush =
    | SolidColorBrush(color: Color, opacity: real)
    | LinearGradientBrush(startPoint: Point, endPoint: Point, stops: seq<GradientStop>)
    | RadialGradientBrush(center: Point, stops: seq<GradientStop>)

  /** The drawing model's brushes; `OtherBrush` is any other subclass. The
      gradient parameters are carried but, as in the source, never read. */
  datatype XBrush =
    | XSolidBrush(color: XColor)
    | XLinearGradientBrush(point1: Point, point2: Point, color1: XColor, color2: XColor)
    | XRadialGradientBrush(center1: Point, center2: Point, radius1: real, radius2: real, color1: XColor, color2: XColor)
    | OtherBrush

  datatype XDashStyle = Solid | Dash | Dot | DashDot | DashDotDot | Custom | Undefined(code: int)
  datatype XLineCap = Flat | Round | Square | Undefined(code: int)
  datatype XLineJoin = Miter | Round | Bevel | Undefined(code: int)

  /** The surface's dash styles: one of its four predefined patterns, or
      an explicit pattern with an offset. */
  datatype NamedDash = Dash | Dot | DashDot | DashDotDot
  datatype DashStyle = Named(kind: NamedDash) | Pattern(dashes: seq<real>, offset: real)
  datatype PenLineCap = Flat | Round | Square
  datatype PenLineJoin = Miter | Round | Bevel

  datatype XPen = XPen(color: XColor, brush: Option<XBrush>, width: real, dashStyle: XDashStyle,
                       dashPattern: seq<real>, dashOffset: real, lineCap: XLineCap, lineJoin: XLineJoin)

  /** The surface's immutable pen; the brush may be null. */
  datatype Pen = Pen(brush: Option<Brush>, thickness: real, dashStyle: Option<DashStyle>, lineCap: PenLineCap, lineJoin: PenLineJoin)

  /** `new Pen(brush, thickness)`, every other property at its default. */
  function SimplePen(brush: Option<Brush>, thickness: real): (p: Pen)
    ensures p.brush == brush && p.thickness == thickness
    ensures p.dashStyle.None? && p.lineCap == PenLineCap.Flat && p.lineJoin == PenLineJoin.Miter
  {
    Pen(brush, thickness, None, PenLineCap.Flat, PenLineJoin.Miter)
  }

  /** `MakeSolidBrush`: opaque RGB colour with the drawing model's alpha as
      the brush opacity. */
  function MakeSolidBrush(xcolor: XColor): (b: Brush)
    ensures b.SolidColorBrush? && b.opacity == xcolor.a
    ensures b.color.r == xcolor.r && b.color.g == xcolor.g && b.color.b == xcolor.b && b.color.a == 255
  {
    SolidColorBrush(Color(255, xcolor.r, xcolor.g, xcolor.b), xcolor.a)
  }

  /** The placeholder stops both gradient branches use. */
  const PlaceholderStops := [GradientStop(Red, 0.0), GradientStop(Blue, 1.0)]

  /** `MakeBrush`: solid brushes keep their colour; gradients become fixed
      placeholders; anything else is solid black. */
  function MakeBrush(xbrush: XBrush): (b: Brush)
    ensures xbrush.XSolidBrush? ==> b == MakeSolidBrush(xbrush.color)
    ensures b.SolidColorBrush? <==> xbrush.XSolidBrush? || xbrush.OtherBrush?
    ensures xbrush.XLinearGradientBrush? <==> b.LinearGradientBrush?
    ensures xbrush.XRadialGradientBrush? <==> b.RadialGradientBrush?
    ensures xbrush.OtherBrush? ==> b == SolidColorBrush(Black, 1.0)
  {
    match xbrush
    case XSolidBrush(c) => MakeSolidBrush(c)
    case XLinearGradientBrush(_, _, _, _) => LinearGradientBrush(Point(0.0, 0.0), Point(1.0, 1.0), PlaceholderStops)
    case XRadialGradientBrush(_, _, _, _, _, _) => RadialGradientBrush(Point(0.0, 0.0), PlaceholderStops)
    case OtherBrush => SolidColorBrush(Black, 1.0)
  }

  /** Gradient brushes ignore everything they carry: any two linear (or two
      radial) gradients translate to the same red-to-blue placeholder. */
  lemma GradientsArePlaceholders(b1: XBrush, b2: XBrush)
    requires (b1.XLinearGradientBrush? && b2.XLinearGradientBrush?) || (b1.XRadialGradientBrush? && b2.XRadialGradientBrush?)
    ensures MakeBrush(b1) == MakeBrush(b2)
    ensures b1.XLinearGradientBrush? ==> MakeBrush(b1) == LinearGradientBrush(Point(0.0, 0.0), Point(1.0, 1.0), [GradientStop(Red, 0.0), GradientStop(Blue, 1.0)])
    ensures b1.XRadialGradientBrush? ==> MakeBrush(b1) == RadialGradientBrush(Point(0.0, 0.0), [GradientStop(Red, 0.0), GradientStop(Blue, 1.0)])
  {
  }

  /** The inverse of `MakeSolidBrush` on the colours it produces. */
  function SolidBrushColor(b: Brush): XColor
    requires b.SolidColorBrush?
  {
    XColor(b.opacity, b.color.r, b.color.g, b.color.b)
  }

  /** A solid colour survives the translation unchanged. */
  lemma SolidBrushRoundTrip(c: XColor)
    ensures SolidBrushColor(MakeSolidBrush(c)) == c
    ensures SolidBrushColor(MakeBrush(XSolidBrush(c))) == c
  {
  }

  /** The dash mapping of `MakePen`: no dash for solid and unnamed values,
      the same named pattern for the four named styles, the pen's own
      pattern and offset for `Custom`. */
  function MakeDashStyle(style: XDashStyle, pattern: seq<real>, offset: real): (d: Option<DashStyle>)
    ensures d.None? <==> style.Solid? || style.Undefined?
    ensures style.Custom? <==> d == Some(Pattern(pattern, offset))
  {
    match style
    case Solid => None
    case Dash => Some(Named(NamedDash.Dash))
    case Dot => Some(Named(NamedDash.Dot))
    case DashDot => Some(Named(NamedDash.DashDot))
    case DashDotDot => Some(Named(NamedDash.DashDotDot))
    case Custom => Some(Pattern(pattern, offset))
    case Undefined(_) => None
  }

  /** The drawing model's name for a surface dash pattern. */
  function DashName(kind: NamedDash): XDashStyle {
    match kind
    case Dash => XDashStyle.Dash
    case Dot => XDashStyle.Dot
    case DashDot => XDashStyle.DashDot
    case DashDotDot => XDashStyle.DashDotDot
  }

  /** Named styles map one-to-one onto the surface's named patterns. */
  lemma NamedDashRoundTrip(kind: NamedDash, style: XDashStyle, pattern: seq<real>, offset: real)
    ensures MakeDashStyle(DashName(kind), pattern, offset) == Some(Named(kind))
    ensures var d := MakeDashStyle(style, pattern, offset);
      d.Some? && d.value.Named? ==> DashName(d.value.kind) == style
  {
  }

  function MakeLineCap(cap: XLineCap): (c: PenLineCap)
    ensures cap.Undefined? ==> c == PenLineCap.Flat
  {
    match cap
    case Flat => PenLineCap.Flat
    case Round => PenLineCap.Round
    case Square => PenLineCap.Square
    case Undefined(_) => PenLineCap.Flat
  }

  function MakeLineJoin(join: XLineJoin): (j: PenLineJoin)
    ensures join.Undefined? ==> j == PenLineJoin.Miter
  {
    match join
    case Miter => PenLineJoin.Miter
    case Round => PenLineJoin.Round
    case Bevel => PenLineJoin.Bevel
    case Undefined(_) => PenLineJoin.Miter
  }

  function CapName(c: PenLineCap): XLineCap {
    match c
    case Flat => XLineCap.Flat
    case Round => XLineCap.Round
    case Square => XLineCap.Square
  }

  function JoinName(j: PenLineJoin): XLineJoin {
    match j
    case Miter => XLineJoin.Miter
    case Round => XLineJoin.Round
    case Bevel => XLineJoin.Bevel
  }

  /** Caps and joins translate one-to-one on the named values, with `Flat`
      and `Miter` as the defaults for anything else. */
  lemma CapJoinOneToOne(cap: XLineCap, join: XLineJoin, c: PenLineCap, j: PenLineJoin)
    ensures MakeLineCap(CapName(c)) == c && MakeLineJoin(JoinName(j)) == j
    ensures !cap.Undefined? ==> CapName(MakeLineCap(cap)) == cap
    ensures !join.Undefined? ==> JoinName(MakeLineJoin(join)) == join
  {
  }

  /** Pen widths are in points; the surface strokes in 1/96 inch. */
  const PenWidthScale: real := 96.0 / 72.0

  /** `MakePen`: the pen's own brush if it has one, else a solid brush of its
      colour; width scaled from points; dash, cap and join translated. */
  function MakePen(xpen: XPen): (p: Pen)
    ensures p.brush.Some?
    ensures xpen.brush.None? ==> p.brush.value == MakeSolidBrush(xpen.color)
    ensures xpen.brush.Some? ==> p.brush.value == MakeBrush(xpen.brush.value)
    ensures p.thickness == Units.UnitScale(Units.XGraphicsUnit.Point) * xpen.width
    ensures p.dashStyle == MakeDashStyle(xpen.dashStyle, xpen.dashPattern, xpen.dashOffset)
    ensures p.lineCap == MakeLineCap(xpen.lineCap) && p.lineJoin == MakeLineJoin(xpen.lineJoin)
  {
    var brush := match xpen.brush
      case None => MakeSolidBrush(xpen.color)
      case Some(b) => MakeBrush(b);
    Pen(Some(brush), PenWidthScale * xpen.width, MakeDashStyle(xpen.dashStyle, xpen.dashPattern, xpen.dashOffset),
        MakeLineCap(xpen.lineCap), MakeLineJoin(xpen.lineJoin))
  }

  /** The thickness is linear and monotone in the width and zero for a
      zero width. */
  lemma PenThicknessLinear(p: XPen, q: XPen, k: real)
    ensures MakePen(p.(width := 0.0)).thickness == 0.0
    ensures MakePen(p.(width := k * p.width)).thickness == k * MakePen(p).thickness
    ensures MakePen(p.(width := p.width + q.width)).thickness == MakePen(p).thickness + MakePen(q).thickness
    ensures p.width <= q.width ==> MakePen(p).thickness <= MakePen(q).thickness
  {
  }
}
