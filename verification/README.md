# Avalonia rendering bridge of MigraDocCore, in Dafny

This project models the adapter that lets PdfSharpCore's drawing model
(`XGraphics` and its `IXGraphicsRenderer` interface) paint onto an Avalonia
`DrawingContext`. The adapter is `XGraphicsRendererToDrawingContext` together
with its helpers `Geometries`, `Media`, `Typefaces`/`TypefaceInfo` and the
unit-scale extension `PushXGraphicsUnitTransform`.

Every Avalonia object is represented by a plain value:

- A `StreamGeometry` is a single recorded `Figure`. The figure holds the start
  point, the filled flag, the fill rule, the `LineTo`/`CubicTo`/`ArcTo`
  segments and the closed flag.
- A call on the `DrawingContext` is a `Surface.Call`. A rendering is
  therefore the sequence of calls the bridge emits.
- Transform scopes get a name as they are opened. Disposing of a pushed
  state is logged as a `Pop` call, so the order of disposal can be stated.

The modules follow the source files:

| module | file | what it holds |
|---|---|---|
| `Primitives` | `primitives.dfy` | `Option`, points, rectangles, matrices |
| `Units` | `units.dfy` | the page-unit scale table of `PushXGraphicsUnitTransform` |
| `Geometries` | `geometries.dfy` | fill rule, figures, polyline, polygon, Béziers, cardinal curve |
| `Arcs` | `arcs.dfy` | `MakeArc`: angle normalisation, sweep clamping, arc flags |
| `Media` | `media.dfy` | colours, brushes, pens, dash/cap/join mappings |
| `Fonts` | `fonts.dfy` | trimming, the tag table, `LookupTags`, metrics, typeface resolution |
| `Surface` | `surface.dfy` | the drawing-context calls the bridge makes |
| `Commands` | `commands.dfy` | the `IXGraphicsRenderer` calls, nullable arguments as `Option` |
| `GraphicsState` | `graphics_state.dfy` | the stack of pushed states and the `gstate` token map |
| `Renderer` | `renderer.dfy` | the guards and emitted calls of every draw call, `DrawString` placement, dispatch, runs of calls, `PageScaleFactor` |

Doubles are Dafny `real`s. `Math.Sin`, `Math.Cos` and `Math.PI` are
uninterpreted parameters (`Arcs.Trig`). Parts of the program that live
outside these files enter as parameters of `Renderer.Env`:

- the font metrics that `Fonts.MakeFont` returns;
- the bounds of a formatted text;
- the decoded bitmap of an image.

The glyph-typeface lookup of `FontManager` enters as `Fonts.FontManager`.
An integer cast to an enum that names no member is an `Undefined(code)` case.

In these places the code behaves as follows, and the model follows it:

- The normalised start and end angles of `MakeArc` lie in the closed range
  [0, 360]. An angle of 360 is kept, and -360 becomes 360
  (`Arcs.NormalizeNegativeFullTurn`).
- Strike-through and underline lines sit `position - ascent` below the
  text origin.
- `Prepend` and `Append` push different scopes: a pre-transform and a
  post-transform.
- `Restore` of a token whose recorded depth is not below the current depth
  is not a full no-op. It pops nothing but still forgets the token.
- `Close` disposes of every scope but leaves the token map as it is.
- Empty text is drawn. Only null text or a null font is skipped.
- The tag table is in source order, so "Black" precedes "Black Italic".
  Order makes no difference, because no suffix ends another and any name
  ending in a row's suffix selects that row (`Fonts.EveryTagReachable`).

## Model

| member | source | states |
|---|---|---|
| Units.UnitScale | src/MigraDocCore.Rendering.Avalonia/Rendering/XGraphicsAvaloniaExtensions.cs:19-28 | every unit's factor is positive, and an unnamed unit scales by 1 |
| Units.UnitTransform | src/MigraDocCore.Rendering.Avalonia/Rendering/XGraphicsAvaloniaExtensions.cs:29 | the pushed matrix is a uniform positive scale by the unit's factor |
| Units.UnitScaleRelations | src/MigraDocCore.Rendering.Avalonia/Rendering/XGraphicsAvaloniaExtensions.cs:22-27 | centimetre = 10 × millimetre, inch = 72 × point = 2.54 × centimetre, presentation = 1 |
| Units.UnitScaleOrdering | src/MigraDocCore.Rendering.Avalonia/Rendering/XGraphicsAvaloniaExtensions.cs:22-27 | presentation < point < millimetre < centimetre < inch |
| Geometries.GetFillRule | src/MigraDocCore.Rendering.Avalonia/Rendering/Geometries.cs:8-16 | non-zero exactly for Winding; even-odd for Alternate and any other value |
| Geometries.BeginFigureAt | src/MigraDocCore.Rendering.Avalonia/Rendering/Geometries.cs:18-27 | the figure is filled, and has a fill rule, exactly when a fill mode is given; the rule is that mode's |
| Geometries.MakeRect | src/MigraDocCore.Rendering.Avalonia/Rendering/Geometries.cs:30-31 | the result has the same two corners as the input |
| Geometries.MakeRectIsIdentity | src/MigraDocCore.Rendering.Avalonia/Rendering/Geometries.cs:30-31 | converting through the corners gives back the same rectangle |
| Geometries.MakeEllipse | src/MigraDocCore.Rendering.Avalonia/Rendering/Geometries.cs:34-37 | an ellipse geometry bounded by (x, y, width, height) |
| Geometries.MakePolyLine | src/MigraDocCore.Rendering.Avalonia/Rendering/Geometries.cs:39-51 | starts at points[0]; one LineTo per later point in input order (n-1 segments); unfilled, no fill rule; closed iff isClosed |
| Geometries.MakePolygon | src/MigraDocCore.Rendering.Avalonia/Rendering/Geometries.cs:53-65 | the polyline's segments, always closed and filled with the fill mode's rule |
| Geometries.LinesTo | src/MigraDocCore.Rendering.Avalonia/Rendering/Geometries.cs:44-62 | one straight segment per given point, in the given order, the k-th ending at the k-th point |
| Geometries.PolyLineVerticesRoundTrip | src/MigraDocCore.Rendering.Avalonia/Rendering/Geometries.cs:39-65 | the on-curve vertices of a polyline and of a polygon are exactly the input points |
| Geometries.MakeBezier | src/MigraDocCore.Rendering.Avalonia/Rendering/Geometries.cs:67-75 | one open, unfilled cubic from (x1,y1) through the three given points |
| Geometries.CubicsFrom | src/MigraDocCore.Rendering.Avalonia/Rendering/Geometries.cs:82-88 | ⌊n/3⌋ cubics; cubic j takes points 3j, 3j+1 and 3j+2 |
| Geometries.MakeBeziers | src/MigraDocCore.Rendering.Avalonia/Rendering/Geometries.cs:77-91 | starts at points[0]; ⌊(n-1)/3⌋ cubics, cubic j using points 3j+1, 3j+2, 3j+3; open and unfilled |
| Geometries.BeziersDropRemainder | src/MigraDocCore.Rendering.Avalonia/Rendering/Geometries.cs:82 | at most two trailing points are ignored; the figure equals the one built from the longest 1+3k prefix |
| Geometries.BeziersOfFourIsBezier | src/MigraDocCore.Rendering.Avalonia/Rendering/Geometries.cs:67-91 | four chained points give exactly the single cubic of MakeBezier |
| Geometries.MakeCurveSegment | src/MigraDocCore.Rendering.Avalonia/Rendering/Geometries.cs:94-101 | ends at pt2; control1 - pt1 = t3·(pt2 - pt0); pt2 - control2 = t3·(pt3 - pt1) |
| Geometries.CurveSegmentZeroTension | src/MigraDocCore.Rendering.Avalonia/Rendering/Geometries.cs:94-101 | with zero tension the controls are pt1 and pt2 |
| Geometries.CurveSegmentReversal | src/MigraDocCore.Rendering.Avalonia/Rendering/Geometries.cs:94-101 | reversing the four points swaps the two control points |
| Geometries.CurveSegmentTranslation | src/MigraDocCore.Rendering.Avalonia/Rendering/Geometries.cs:94-101 | translating the four points translates the segment |
| Geometries.InteriorSegments | src/MigraDocCore.Rendering.Avalonia/Rendering/Geometries.cs:115-116 | the interior loop emits n-2-idx segments, the k-th from points idx+k-1 … idx+k+2 |
| Geometries.CurveSegments | src/MigraDocCore.Rendering.Avalonia/Rendering/Geometries.cs:108-120 | no segment for one point, one for two, and otherwise n when closed and n-1 when open |
| Geometries.MakeCurve | src/MigraDocCore.Rendering.Avalonia/Rendering/Geometries.cs:103-124 | starts at points[0]; 0, 1, n-1 (open) or n (closed) segments; segment k ends at points[k+1], the closing one at points[0]; closed iff isClosed; filled with the mode's rule iff a mode is given |
| Geometries.MakeCurveIsCardinalSpline | src/MigraDocCore.Rendering.Avalonia/Rendering/Geometries.cs:112-120 | for n > 2, segment k is the cardinal segment of points k-1 … k+2, indices wrapping when closed and clamped to the ends when open |
| Geometries.CurveSegmentsAreCardinal | src/MigraDocCore.Rendering.Avalonia/Rendering/Geometries.cs:112-120 | the same equality for the segment list itself |
| Geometries.MakeCurveTwoPoints | src/MigraDocCore.Rendering.Avalonia/Rendering/Geometries.cs:110-111 | two points give one segment built from (p0, p0, p1, p1), open or closed |
| Geometries.MakeCurveEndNeighbours | src/MigraDocCore.Rendering.Avalonia/Rendering/Geometries.cs:114-117 | the first segment looks back to points[n-1] only when closed; the last regular one looks ahead to points[0] only when closed |
| Geometries.CurveSegmentsIgnoreFill | src/MigraDocCore.Rendering.Avalonia/Rendering/Geometries.cs:103-124 | the fill mode only fills the figure: the segments are those of the unfilled curve |
| Arcs.NormalizeAngle | src/MigraDocCore.Rendering.Avalonia/Rendering/Geometries.cs:129-133 | the result lies in [0, 360], differs from the input by whole turns, and equals the input when that is already in [0, 360] |
| Arcs.NormalizeAngleIdempotent | src/MigraDocCore.Rendering.Avalonia/Rendering/Geometries.cs:129-133 | normalising twice is normalising once |
| Arcs.NormalizeNegativeFullTurn | src/MigraDocCore.Rendering.Avalonia/Rendering/Geometries.cs:130-133 | -360 and -720 become 360, while 720 becomes 0 |
| Arcs.ClampSweep | src/MigraDocCore.Rendering.Avalonia/Rendering/Geometries.cs:135-136 | magnitude at most 360, sign kept, unchanged within ±360, exactly ±360 beyond |
| Arcs.ComputeArcAngles | src/MigraDocCore.Rendering.Avalonia/Rendering/Geometries.cs:129-147 | both angles in [0, 360]; the end is the normalised raw start plus the clamped sweep; the start is 0 iff it normalised to 0 or to 360 with a positive end |
| Arcs.AnglesFromNormalised | src/MigraDocCore.Rendering.Avalonia/Rendering/Geometries.cs:137-147 | both angles in [0, 360], the end the normalised start plus sweep, the sweep kept, and a start of 0 exactly when the normalised start is 0, or is 360 with a positive end |
| Arcs.StartToFullTurnUnreachable | src/MigraDocCore.Rendering.Avalonia/Rendering/Geometries.cs:144-145 | the correction to 360 can never fire, since the end angle is already non-negative |
| Arcs.ArcCentre | src/MigraDocCore.Rendering.Avalonia/Rendering/Geometries.cs:150-155 | the centre is the midpoint of the rectangle's corners |
| Arcs.EllipsePointOnEllipse | src/MigraDocCore.Rendering.Avalonia/Rendering/Geometries.cs:189-195 | a start or end point lies on the ellipse of the arc's centre and half-extents whenever sine and cosine satisfy sin² + cos² = 1 |
| Arcs.ArcFrom | src/MigraDocCore.Rendering.Avalonia/Rendering/Geometries.cs:194-205 | one open unfilled arc with the half-extents as radii, large iff the sweep covers 180 degrees, clockwise iff it is positive, from the point at the start angle to the point at the end angle |
| Arcs.MakeArc | src/MigraDocCore.Rendering.Avalonia/Rendering/Geometries.cs:194-205 | one open unfilled figure with one arc; radii (w/2, h/2); large iff the clamped sweep is at least 180; clockwise iff sweep > 0; start and end at the ellipse points of the computed angles |
| Arcs.FullTurnArcs | src/MigraDocCore.Rendering.Avalonia/Rendering/Geometries.cs:197-198 | sweeps of 360 and -360 are both large arcs and differ in direction |
| Arcs.SweepSaturates | src/MigraDocCore.Rendering.Avalonia/Rendering/Geometries.cs:135-136 | any sweep beyond a full turn draws the full-turn arc |
| Arcs.ZeroSweepArc | src/MigraDocCore.Rendering.Avalonia/Rendering/Geometries.cs:144-198 | a zero sweep is small and counter-clockwise, and starts where it ends unless the start was reset from 360 to 0 |
| Media.MakeSolidBrush | src/MigraDocCore.Rendering.Avalonia/Rendering/Media.cs:9-13 | red, green and blue carried through, colour opaque, the alpha as the brush opacity |
| Media.MakeBrush | src/MigraDocCore.Rendering.Avalonia/Rendering/Media.cs:15-40 | a solid brush is MakeSolidBrush of its colour; the gradient kinds map to the same kinds; any other brush is opaque black |
| Media.GradientsArePlaceholders | src/MigraDocCore.Rendering.Avalonia/Rendering/Media.cs:22-35 | every linear (radial) gradient becomes the same fixed red-to-blue placeholder |
| Media.SolidBrushRoundTrip | src/MigraDocCore.Rendering.Avalonia/Rendering/Media.cs:9-20 | the colour is recovered from the brush unchanged |
| Media.MakeDashStyle | src/MigraDocCore.Rendering.Avalonia/Rendering/Media.cs:44-54 | no dash exactly for Solid and unnamed values; Custom exactly gives the pen's pattern and offset |
| Media.NamedDashRoundTrip | src/MigraDocCore.Rendering.Avalonia/Rendering/Media.cs:47-51 | the four named styles map one-to-one onto the surface's named patterns |
| Media.MakeLineCap | src/MigraDocCore.Rendering.Avalonia/Rendering/Media.cs:56-63 | an unnamed cap becomes Flat |
| Media.MakeLineJoin | src/MigraDocCore.Rendering.Avalonia/Rendering/Media.cs:65-72 | an unnamed join becomes Miter |
| Media.CapJoinOneToOne | src/MigraDocCore.Rendering.Avalonia/Rendering/Media.cs:56-72 | caps and joins translate one-to-one on the named values |
| Media.MakePen | src/MigraDocCore.Rendering.Avalonia/Rendering/Media.cs:42-81 | the brush is the pen's own, or a solid brush of its colour; thickness is the point scale times the width; dash, cap and join translated |
| Media.PenThicknessLinear | src/MigraDocCore.Rendering.Avalonia/Rendering/Media.cs:79 | thickness is 0 for width 0, linear and monotone in the width |
| Media.SimplePen | src/MigraDocCore.Rendering.Avalonia/Rendering/XGraphicsRendererToDrawingContext.cs:196-208 | the decoration pen carries the given brush and thickness and otherwise the surface defaults: solid, flat caps, miter joins |
| Fonts.TrimStart | src/MigraDocCore.Rendering.Avalonia/Rendering/Fonts.cs:44 | a suffix of the input, cut after white space only, not starting with white space |
| Fonts.TrimEnd | src/MigraDocCore.Rendering.Avalonia/Rendering/Fonts.cs:44 | a prefix of the input, cut before white space only, not ending with white space |
| Fonts.Trim | src/MigraDocCore.Rendering.Avalonia/Rendering/Fonts.cs:44 | an infix of the input with only white space removed at either end, and no white space left at either end |
| Fonts.TrimOfTrimmed | src/MigraDocCore.Rendering.Avalonia/Rendering/Fonts.cs:44-50 | a trimmed string is its own trim, so trimming is idempotent |
| Fonts.TrimOfPadded | src/MigraDocCore.Rendering.Avalonia/Rendering/Fonts.cs:44 | white space around a trimmed string is exactly what trimming removes |
| Fonts.TagWeightsNamed | src/MigraDocCore.Rendering.Avalonia/Rendering/Fonts.cs:27-39 | the table has ten rows and every row names a weight |
| Fonts.TagStylesItalic | src/MigraDocCore.Rendering.Avalonia/Rendering/Fonts.cs:27-39 | a row names a style exactly when its suffix ends in " Italic", and that style is italic |
| Fonts.FirstTagFrom | src/MigraDocCore.Rendering.Avalonia/Rendering/Fonts.cs:47-48 | a row it returns lies at or after the starting row and its suffix ends the name |
| Fonts.FirstTagFromIsFirst | src/MigraDocCore.Rendering.Avalonia/Rendering/Fonts.cs:47-48 | no row before the returned one matches, and none is returned exactly when no row matches |
| Fonts.FirstTagFromFinds | src/MigraDocCore.Rendering.Avalonia/Rendering/Fonts.cs:47-48 | a matching row preceded only by rows that do not match is the one returned |
| Fonts.FirstTag | src/MigraDocCore.Rendering.Avalonia/Rendering/Fonts.cs:27-48 | a row found ends the name, no earlier row does, and none is found exactly when no row of the table ends the name |
| Fonts.ResolveTrimmed | src/MigraDocCore.Rendering.Avalonia/Rendering/Fonts.cs:45-53 | the family is trimmed and no longer than the name |
| Fonts.LookupTags | src/MigraDocCore.Rendering.Avalonia/Rendering/Fonts.cs:42-54 | the family has no white space at either end and is no longer than the given name |
| Fonts.ItalicFlagNeverLost | src/MigraDocCore.Rendering.Avalonia/Rendering/Fonts.cs:46-51 | the style is italic iff the Italic flag is set or the matched row is an "… Italic" row |
| Fonts.WeightSource | src/MigraDocCore.Rendering.Avalonia/Rendering/Fonts.cs:45-53 | with no match the weight is Bold iff the Bold flag is set; with a match the Bold flag does not affect the weight |
| Fonts.TagSuffixesIndependent | src/MigraDocCore.Rendering.Avalonia/Rendering/Fonts.cs:27-39 | no row's suffix ends another row's suffix |
| Fonts.EveryTagReachable | src/MigraDocCore.Rendering.Avalonia/Rendering/Fonts.cs:27-48 | any name ending in row i's suffix selects row i; table order hides no row |
| Fonts.FamilyWithTag | src/MigraDocCore.Rendering.Avalonia/Rendering/Fonts.cs:47-51 | "family tag" resolves to the family, the row's weight, and the row's style or else the Italic flag |
| Fonts.PaddedFamilyWithTag | src/MigraDocCore.Rendering.Avalonia/Rendering/Fonts.cs:44-51 | the same with white space around the name |
| Fonts.LookupTagsIgnoresPadding | src/MigraDocCore.Rendering.Avalonia/Rendering/Fonts.cs:44 | only the trimmed family name affects the result |
| Fonts.LookupUntagged | src/MigraDocCore.Rendering.Avalonia/Rendering/Fonts.cs:45-53 | a trimmed name that no row matches is kept whole; the flags alone decide weight and style |
| Fonts.UntaggedWhenNoRowMatches | src/MigraDocCore.Rendering.Avalonia/Rendering/Fonts.cs:45-53 | a trimmed name that no row's suffix ends keeps its whole text as family, with the weight and style of its bold and italic flags |
| Fonts.BoldItalicExample | src/MigraDocCore.Rendering.Avalonia/Rendering/Fonts.cs:27-52 | "Arial Bold Italic" gives ("Arial", Bold, Italic) |
| Fonts.UntaggedExample | src/MigraDocCore.Rendering.Avalonia/Rendering/Fonts.cs:45-53 | "Arial" with the Bold flag gives ("Arial", Bold, Normal) |
| Fonts.PaddedExample | src/MigraDocCore.Rendering.Avalonia/Rendering/Fonts.cs:44-52 | "  Arial Semibold Italic " gives ("Arial", SemiBold, Italic) |
| Fonts.BareItalicIsNoTag | src/MigraDocCore.Rendering.Avalonia/Rendering/Fonts.cs:27-53 | "Arial Italic" keeps its whole name and is italic only by the flag |
| Fonts.GetAscent | src/MigraDocCore.Rendering.Avalonia/Rendering/Fonts.cs:21 | the raw ascent at the design em height, 0 at em height 0 |
| Fonts.GetDescent | src/MigraDocCore.Rendering.Avalonia/Rendering/Fonts.cs:22 | the raw descent at the design em height, 0 at em height 0 |
| Fonts.MetricsLinear | src/MigraDocCore.Rendering.Avalonia/Rendering/Fonts.cs:21-22 | both metrics are linear in the em height |
| Fonts.AsWrittenFallbackNeverUsed | src/MigraDocCore.Rendering.Avalonia/Rendering/Fonts.cs:63-77 | as written, a missing requested typeface always fails, whatever the default family offers |
| Fonts.GetTypefaceInfoAsWritten | src/MigraDocCore.Rendering.Avalonia/Rendering/Fonts.cs:56-79 | as written, the lookup succeeds exactly when the requested typeface exists, and then returns that typeface |
| Fonts.GetTypefaceInfo | src/MigraDocCore.Rendering.Avalonia/Rendering/Fonts.cs:56-79 | the requested typeface if the system has it, else the default family with the same style and weight, else failure; style and weight always come from LookupTags |
| Fonts.FallbackCounterexample | src/MigraDocCore.Rendering.Avalonia/Rendering/Fonts.cs:69-70 | "Arial" on a system with only a default family: the code as written fails, the corrected code falls back |
| GraphicsState.Unwind | src/MigraDocCore.Rendering.Avalonia/Rendering/XGraphicsRendererToDrawingContext.cs:18-21 | one disposal per scope, topmost first |
| GraphicsState.MinDepth | src/MigraDocCore.Rendering.Avalonia/Rendering/XGraphicsRendererToDrawingContext.cs:239-240 | the depth the stack is popped to is no greater than either the current or the recorded depth, and is one of them |
| GraphicsState.PopWhileAbove | src/MigraDocCore.Rendering.Avalonia/Rendering/XGraphicsRendererToDrawingContext.cs:239-240 | keeps the bottom min(depth, target) scopes and disposes of the rest from the top down |
| GraphicsState.Save | src/MigraDocCore.Rendering.Avalonia/Rendering/XGraphicsRendererToDrawingContext.cs:229-232 | records the current depth under the token, overwriting it; other tokens, the stack and the calls unchanged |
| GraphicsState.Restore | src/MigraDocCore.Rendering.Avalonia/Rendering/XGraphicsRendererToDrawingContext.cs:234-242 | an unknown token changes nothing; a known one is forgotten and the stack cut to min(depth, recorded) with the cut scopes disposed topmost first |
| GraphicsState.AddTransform | src/MigraDocCore.Rendering.Avalonia/Rendering/XGraphicsRendererToDrawingContext.cs:254-267 | Prepend and Append push one new pre- or post-transform scope with the matrix; any other order changes nothing |
| GraphicsState.Close | src/MigraDocCore.Rendering.Avalonia/Rendering/XGraphicsRendererToDrawingContext.cs:16-22 | the stack ends empty, every scope disposed topmost first, nothing else changed |
| GraphicsState.StateOperationsKeepValid | src/MigraDocCore.Rendering.Avalonia/Rendering/XGraphicsRendererToDrawingContext.cs:229-267 | every state operation keeps the stack in opening order |
| GraphicsState.UnwindIsLastInFirstOut | src/MigraDocCore.Rendering.Avalonia/Rendering/XGraphicsRendererToDrawingContext.cs:234-242 | of two scopes disposed by one Close or Restore, the later-opened one goes first |
| GraphicsState.RestoreTwiceIsOnce | src/MigraDocCore.Rendering.Avalonia/Rendering/XGraphicsRendererToDrawingContext.cs:236-238 | restoring a token a second time changes nothing |
| GraphicsState.RestoreAboveDepthPopsNothing | src/MigraDocCore.Rendering.Avalonia/Rendering/XGraphicsRendererToDrawingContext.cs:236-240 | a recorded depth at or above the current one pops nothing; the token is still forgotten |
| GraphicsState.RestoreAfterClose | src/MigraDocCore.Rendering.Avalonia/Rendering/XGraphicsRendererToDrawingContext.cs:16-22 | after Close no restore pops anything |
| GraphicsState.PushAll | src/MigraDocCore.Rendering.Avalonia/Rendering/XGraphicsRendererToDrawingContext.cs:254-267 | a run of transforms keeps the old stack as a prefix and emits one push per new scope, in stack order |
| GraphicsState.SaveRestoreBracket | src/MigraDocCore.Rendering.Avalonia/Rendering/XGraphicsRendererToDrawingContext.cs:229-267 | Save, transforms, Restore of that token: the stack is as before and exactly the new scopes are disposed, the last first |
| GraphicsState.RestoreOuterDiscardsInner | src/MigraDocCore.Rendering.Avalonia/Rendering/XGraphicsRendererToDrawingContext.cs:229-242 | restoring an outer token also disposes of the inner scopes; the inner token stays and later pops nothing |
| GraphicsState.SaveKeepsBracket | src/MigraDocCore.Rendering.Avalonia/Rendering/XGraphicsRendererToDrawingContext.cs:229-232 | a nested Save keeps an open bracket: the stack below it and the outer record are untouched |
| GraphicsState.RestoreKeepsBracket | src/MigraDocCore.Rendering.Avalonia/Rendering/XGraphicsRendererToDrawingContext.cs:234-242 | restoring a state saved inside a bracket never pops below the bracket's depth |
| GraphicsState.AddTransformKeepsBracket | src/MigraDocCore.Rendering.Avalonia/Rendering/XGraphicsRendererToDrawingContext.cs:254-267 | a transform inside a bracket only pushes above its depth |
| GraphicsState.RestoreClosesBracket | src/MigraDocCore.Rendering.Avalonia/Rendering/XGraphicsRendererToDrawingContext.cs:234-242 | restoring the bracket's own state returns the stack exactly to the depth it was saved at and forgets the record |
| Renderer.GetBrush | src/MigraDocCore.Rendering.Avalonia/Rendering/XGraphicsRendererToDrawingContext.cs:292-298 | null stays null; anything else is MakeBrush of it |
| Renderer.GetPen | src/MigraDocCore.Rendering.Avalonia/Rendering/XGraphicsRendererToDrawingContext.cs:300-306 | null stays null; anything else is MakePen of it |
| Renderer.RectangleCalls | src/MigraDocCore.Rendering.Avalonia/Rendering/XGraphicsRendererToDrawingContext.cs:100-101 | one rectangle per input rectangle, in order, with the same brush and pen |
| Renderer.HorizontalPlacementSpansLayout | src/MigraDocCore.Rendering.Avalonia/Rendering/XGraphicsRendererToDrawingContext.cs:171-178 | Near at the left edge, Far at the right edge, Center midway; unnamed alignments behave as Near |
| Renderer.HorizontalPlacement | src/MigraDocCore.Rendering.Avalonia/Rendering/XGraphicsRendererToDrawingContext.cs:171-178 | right alignment exactly for Far, centred exactly for Center; the origin sits at the left edge, midway, or the right edge to match |
| Renderer.VerticalOffsetsFromMetrics | src/MigraDocCore.Rendering.Avalonia/Rendering/XGraphicsRendererToDrawingContext.cs:180-188 | Near 0, BaseLine one ascent, Far ascent - descent below the bottom, Center ⅔ ascent below the middle; unnamed behave as Near |
| Renderer.VerticalOffset | src/MigraDocCore.Rendering.Avalonia/Rendering/XGraphicsRendererToDrawingContext.cs:180-188 | Near and unnamed at the top, BaseLine one ascent down, Center two-thirds of an ascent below the middle, Far ascent - descent below the bottom |
| Renderer.TextOrigin | src/MigraDocCore.Rendering.Avalonia/Rendering/XGraphicsRendererToDrawingContext.cs:171-193 | Near/Near puts the origin at the layout's top-left corner; Far puts it on the right edge, Center midway; BaseLine puts it one ascent below the top edge, Center line alignment two-thirds of an ascent below the middle, and Far line alignment ascent - descent below the bottom edge |
| Renderer.DecorationLine | src/MigraDocCore.Rendering.Avalonia/Rendering/XGraphicsRendererToDrawingContext.cs:196-208 | a horizontal line at position - ascent below the origin spanning the text bounds, with the text's brush |
| Renderer.StringCalls | src/MigraDocCore.Rendering.Avalonia/Rendering/XGraphicsRendererToDrawingContext.cs:169-208 | the text, then a strike-through and then an underline line when the font asks for them, with their metric thicknesses |
| Renderer.StrokeCalls | src/MigraDocCore.Rendering.Avalonia/Rendering/XGraphicsRendererToDrawingContext.cs:24-81 | at most one line or unfilled geometry |
| Renderer.ShapeCalls | src/MigraDocCore.Rendering.Avalonia/Rendering/XGraphicsRendererToDrawingContext.cs:83-154 | rectangles or geometries, all with the translated brush and pen |
| Renderer.ImageCalls | src/MigraDocCore.Rendering.Avalonia/Rendering/XGraphicsRendererToDrawingContext.cs:211-227 | at most one image call |
| Renderer.Emit | src/MigraDocCore.Rendering.Avalonia/Rendering/XGraphicsRendererToDrawingContext.cs:24-282 | only drawing calls; nothing for state calls and for the unimplemented ones (pie, path, containers, clip, comment) |
| Renderer.EmitIffAccepted | src/MigraDocCore.Rendering.Avalonia/Rendering/XGraphicsRendererToDrawingContext.cs:24-227 | a call draws something exactly when its pen/brush, point count (1, 4, 2, 1, 2), rectangle list, text, font or image size permit |
| Renderer.StrokeCallsIffAccepted | src/MigraDocCore.Rendering.Avalonia/Rendering/XGraphicsRendererToDrawingContext.cs:24-81 | a line, polyline, Bézier, curve or arc call draws exactly when it has a pen and, for point arrays, enough points |
| Renderer.ShapeCallsIffAccepted | src/MigraDocCore.Rendering.Avalonia/Rendering/XGraphicsRendererToDrawingContext.cs:83-154 | a rectangle, ellipse, polygon or closed-curve call draws exactly when it has a pen or a brush and enough points or rectangles |
| Renderer.StrokeCallsDrawOneOutline | src/MigraDocCore.Rendering.Avalonia/Rendering/XGraphicsRendererToDrawingContext.cs:24-81 | an accepted stroke-only call draws one unfilled outline with the translated pen; a curve gets a third of the tension |
| Renderer.StrokedRectangleOnly | src/MigraDocCore.Rendering.Avalonia/Rendering/XGraphicsRendererToDrawingContext.cs:83-91 | a pen without a brush strokes one rectangle and fills nothing |
| Renderer.StrokeCallsDrawTheirGeometry | src/MigraDocCore.Rendering.Avalonia/Rendering/XGraphicsRendererToDrawingContext.cs:43-81 | Bézier, Bézier-chain and arc calls stroke, unfilled, exactly the geometry built from their own arguments |
| Renderer.ShapeCallsDrawTheirGeometry | src/MigraDocCore.Rendering.Avalonia/Rendering/XGraphicsRendererToDrawingContext.cs:83-128 | a rectangle draws its own position and size with square corners, an ellipse the ellipse inscribed there, both with the translated brush and pen |
| Renderer.ImageCallsDrawIntoTheirRects | src/MigraDocCore.Rendering.Avalonia/Rendering/XGraphicsRendererToDrawingContext.cs:211-227 | a sized image fills the rectangle of its position and size from the whole image; the other form draws the source rectangle into the destination rectangle |
| Renderer.PolyCallsDrawThroughPoints | src/MigraDocCore.Rendering.Avalonia/Rendering/XGraphicsRendererToDrawingContext.cs:33-135 | a polyline or polygon passes through exactly its points; only the polygon is closed and filled |
| Renderer.ClosedCurveIsFilledSpline | src/MigraDocCore.Rendering.Avalonia/Rendering/XGraphicsRendererToDrawingContext.cs:145-154 | a closed curve is a closed spline with a third of the tension, filled with its fill mode's rule |
| Renderer.RectangleCallsOnePerRect | src/MigraDocCore.Rendering.Avalonia/Rendering/XGraphicsRendererToDrawingContext.cs:93-113 | one rectangle per input rectangle with one brush and pen; rounded corners have half the ellipse size |
| Renderer.StringDecorations | src/MigraDocCore.Rendering.Avalonia/Rendering/XGraphicsRendererToDrawingContext.cs:164-209 | the decoration lines lie position - ascent below the origin and span the text's bounds |
| Renderer.Step | src/MigraDocCore.Rendering.Avalonia/Rendering/XGraphicsRendererToDrawingContext.cs:16-282 | state calls act on the session; every other call keeps it and emits its drawing calls |
| Renderer.RunWithAppend | src/MigraDocCore.Rendering.Avalonia/Rendering/XGraphicsRendererToDrawingContext.cs:9-13 | running two sequences one after the other is running their concatenation |
| Renderer.RunWith | src/MigraDocCore.Rendering.Avalonia/Rendering/XGraphicsRendererToDrawingContext.cs:9-13 | an empty run emits nothing and keeps the session, a single call is one step, and a run emits its first call's output first |
| Renderer.DrawingRunKeepsSession | src/MigraDocCore.Rendering.Avalonia/Rendering/XGraphicsRendererToDrawingContext.cs:24-282 | drawing and ignored calls never touch the stack or the token map |
| Renderer.StepKeepsValid | src/MigraDocCore.Rendering.Avalonia/Rendering/XGraphicsRendererToDrawingContext.cs:229-267 | each call keeps the stack in opening order |
| Renderer.RunKeepsValid | src/MigraDocCore.Rendering.Avalonia/Rendering/XGraphicsRendererToDrawingContext.cs:12-13 | any run of calls keeps the stack in opening order |
| Renderer.StepKeepsBracket | src/MigraDocCore.Rendering.Avalonia/Rendering/XGraphicsRendererToDrawingContext.cs:229-267 | any one call other than Close, or a Save of the bracket's state, keeps an open bracket, adding the state it saves |
| Renderer.RunKeepsBracket | src/MigraDocCore.Rendering.Avalonia/Rendering/XGraphicsRendererToDrawingContext.cs:229-267 | a whole sequence of such calls keeps the bracket, adding every state it saves |
| Renderer.SaveRestoreBracketRun | src/MigraDocCore.Rendering.Avalonia/Rendering/XGraphicsRendererToDrawingContext.cs:229-267 | Save(t), then any drawing calls, transforms and nested Save/Restore pairs, then Restore(t): the stack is exactly as before and t is forgotten |
| Renderer.NestedSaveRestoreScenario | src/MigraDocCore.Rendering.Avalonia/Rendering/XGraphicsRendererToDrawingContext.cs:229-267 | Save a, scale, Save b, shift, Restore b, DrawLine, Restore a: the shift scope is disposed before the line, the scale scope after it, and the session ends empty |
| Renderer.PageScaleFactor | src/MigraDocCore.Rendering.Avalonia/Rendering/XGraphicsRendererToDrawingContext.cs:319-330 | every factor is positive |
| Renderer.PageTransform | src/MigraDocCore.Rendering.Avalonia/Rendering/XGraphicsRendererToDrawingContext.cs:342-346 | the page transform is a uniform scale by the page factor |
| Renderer.ScaleTablesAgree | src/MigraDocCore.Rendering.Avalonia/Rendering/XGraphicsRendererToDrawingContext.cs:319-330 | the factor equals the extension's factor for every unit, so both push the same matrix |

## Left out

- Avalonia itself: `DrawingContext`, `StreamGeometry`, pens, brushes, `FormattedText` and `Bitmap` are represented as values. Nothing is claimed about what Avalonia paints for them.
- `Fonts.MakeFont` and text layout: `FontInfo` (ascent, descent, decoration positions and thicknesses) and the formatted text's bounds are inputs in `Renderer.Env`. `Fonts.MakeFont` is not part of this model.
- Arcs.MakeArc: sine, cosine and pi are uninterpreted. The live code hands degree values to `Math.Sin`/`Math.Cos`, and its elliptic angle correction is commented out. Nothing is claimed about where the anchor points fall on the ellipse, only which angles they are computed from.
- `Media.MakeImage` and the disposal of decoded bitmaps (`using var image`) are I/O. The bitmap is an input (`Renderer.Env.image`). The bitmap interpolation mode of the source-rectangle `DrawImage` is not modelled.
- The `srcUnit` argument of the source-rectangle `DrawImage` is carried but, as in the source, never read.
- Fonts.GetTypefaceInfo: `FontManager.Current` and `TryGetGlyphTypeface` are a parameter (`Fonts.FontManager`). The thrown "No glyph typeface found" exception is the `NoGlyphTypeface` result.
- Fonts.GetAscent: `DesignEmHeight` is taken to be positive (`DesignUnits`). A zero value would divide by zero in floating point.
- Geometries.MakePolyLine: like `MakePolygon`, `MakeBeziers` and `MakeCurve`, it requires at least one point. The source reads `points[0]` unguarded; every caller's guard ensures a point is there.
- IEEE-754 rounding: doubles are reals, so the exact comparisons in `MakeArc` are real comparisons and the 96/72 and 96/25.4 factors are exact.
- String semantics: `Trim` uses `char.IsWhiteSpace` over UTF-16 code units, and `EndsWith` is an ordinal suffix test. Culture-sensitive comparison is not modelled.
- The `XGraphicsState`, `XGraphicsContainer` and `XGraphicsPath` objects are known by identity only (a `nat`). The clip combination mode is its integer value.
- `PushXGraphicsUnitTransform` pushes its matrix with `PushTransform`, and `PushPageTransform` with `PushPreTransform`. Only the matrices are modelled; neither push is part of a session's stack.
- `CreateXGraphicsRenderer` (XGraphicsAvaloniaExtensions.cs:12-15) calls a two-argument constructor that the renderer file does not have. The renderer is modelled as that file defines it, and `FromDrawingContext` is not modelled.
- The preview controls, the sample application and the document model belong to other parts of the repository.

## Findings

| source | as written | input that shows it | evidently intended | confidence | as-written member | corrected member |
|---|---|---|---|---|---|---|
| src/MigraDocCore.Rendering.Avalonia/Rendering/Fonts.cs:69-70 | the fallback branch builds `fallbackTypeface` in the default family but asks the font manager for the original `typeface` again | the family "Arial" on a font system that has only its default family: the second query fails again and the lookup throws | query the default family's typeface, and return it when the font system has it | high, not executed | Fonts.GetTypefaceInfoAsWritten (shown by Fonts.AsWrittenFallbackNeverUsed and Fonts.FallbackCounterexample) | Fonts.GetTypefaceInfo |
