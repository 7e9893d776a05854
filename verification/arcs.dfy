/** `Geometries.MakeArc`: the arc of the ellipse inscribed in a rectangle,
    from a start angle over a sweep, both in degrees. The angle arithmetic
    and the arc flags are modelled exactly; sine, cosine and pi are opaque
    parameters, so nothing is claimed about where the anchors fall on the
    ellipse. */
module Arcs {
  import opened Primitives
  import opened Geometries

  /** The trigonometry the arc builder calls (`Math.Sin`, `Math.Cos`,
      `Math.PI`), left uninterpreted. */
  datatype Trig = Trig(sin: real -> real, cos: real -> real, pi: real)

  /** The angles `MakeArc` settles on: normalised start and end, and the
      clamped sweep. */
  datatype ArcAngles = ArcAngles(start: real, end: real, sweep: real)

  /** `d` is a whole number of full turns. */
  predicate IsWholeTurns(d: real) {
    (d / 360.0).Floor as real == d / 360.0
  }

  /** Floor bounds and the floor of a whole number. */
  lemma FloorFacts(x: real, k: int)
    ensures x.Floor as real <= x < x.Floor as real + 1.0
    ensures (k as real).Floor == k
  {
  }

  /** The normalisation applied to both angles: a negative angle gets one
      more full turn than its magnitude holds, an angle above 360 loses its
      whole turns, anything in [0, 360] is kept. */
  function NormalizeAngle(a: real): (r: real)
    ensures 0.0 <= r <= 360.0
    ensures 0.0 <= a <= 360.0 ==> r == a
    ensures IsWholeTurns(r - a)
    ensures a < 0.0 ==> r > 0.0
    ensures a > 360.0 ==> r < 360.0
  {
    if a < 0.0 then
      var k := (Abs(a) / 360.0).Floor;
      FloorFacts(Abs(a) / 360.0, 1 + k);
      assert (a + (1.0 + k as real) * 360.0 - a) / 360.0 == (1 + k) as real;
      a + (1.0 + k as real) * 360.0
    else if a > 360.0 then
      var k := (a / 360.0).Floor;
      FloorFacts(a / 360.0, -k);
      assert (a - k as real * 360.0 - a) / 360.0 == (-k) as real;
      a - k as real * 360.0
    else
      FloorFacts(0.0, 0);
      a
  }

  /** Normalising twice is normalising once. */
  lemma NormalizeAngleIdempotent(a: real)
    ensures NormalizeAngle(NormalizeAngle(a)) == NormalizeAngle(a)
  {
  }

  /** A negative whole turn lands on 360, not on 0: the range is the closed
      interval [0, 360]. */
  lemma NormalizeNegativeFullTurn()
    ensures NormalizeAngle(-360.0) == 360.0
    ensures NormalizeAngle(-720.0) == 360.0
    ensures NormalizeAngle(720.0) == 0.0
  {
    assert (Abs(-360.0) / 360.0).Floor == 1;
    assert (Abs(-720.0) / 360.0).Floor == 2;
    assert (720.0 / 360.0).Floor == 2;
  }

  /** The sweep clamp: a sweep of magnitude 360 or more becomes a full turn
      with its sign kept. */
  function ClampSweep(s: real): (r: real)
    ensures Abs(r) <= 360.0
    ensures r > 0.0 <==> s > 0.0
    ensures r < 0.0 <==> s < 0.0
    ensures Abs(s) <= 360.0 ==> r == s
    ensures Abs(s) >= 360.0 ==> Abs(r) == 360.0
  {
    if Abs(s) >= 360.0 then Sign(s) as real * 360.0 else s
  }

  /** The angle computation of `MakeArc`: start and end are normalised, the
      end from the raw start plus the clamped sweep, and a start of 360
      with a positive end is reset to 0. */
  function ComputeArcAngles(startAngle: real, sweepAngle: real): (r: ArcAngles)
    ensures 0.0 <= r.start <= 360.0 && 0.0 <= r.end <= 360.0
    ensures r.sweep == ClampSweep(sweepAngle)
    ensures r.end == NormalizeAngle(startAngle + r.sweep)
    ensures IsWholeTurns(r.end - (startAngle + r.sweep))
    ensures r.start == 0.0 <==> NormalizeAngle(startAngle) == 0.0 || (NormalizeAngle(startAngle) == 360.0 && r.end > 0.0)
    ensures r.start != 0.0 ==> r.start == NormalizeAngle(startAngle)
  {
    AnglesFrom(startAngle, ClampSweep(sweepAngle))
  }

  /** The angles for an already clamped sweep. */
  function AnglesFrom(startAngle: real, sweep: real): ArcAngles {
    var alpha := NormalizeAngle(startAngle);
    var beta := NormalizeAngle(startAngle + sweep);
    var alpha' :=
      if alpha == 0.0 && beta < 0.0 then 360.0
      else if alpha == 360.0 && beta > 0.0 then 0.0
      else alpha;
    ArcAngles(alpha', beta, sweep)
  }

  /** For any sweep, both angles lie in [0, 360], the end is the
      normalised start plus sweep, and the start is the normalised start
      except that a full turn becomes 0 when the end is positive. */
  lemma AnglesFromNormalised(startAngle: real, sweep: real)
    ensures var r := AnglesFrom(startAngle, sweep);
      && 0.0 <= r.start <= 360.0 && 0.0 <= r.end <= 360.0
      && r.sweep == sweep
      && r.end == NormalizeAngle(startAngle + sweep)
      && (r.start == 0.0 <==> NormalizeAngle(startAngle) == 0.0 || (NormalizeAngle(startAngle) == 360.0 && r.end > 0.0))
      && (r.start != 0.0 ==> r.start == NormalizeAngle(startAngle))
  {
  }

  /** The correction `α == 0 && β < 0 ⇒ α := 360` can never fire, since the
      end angle is already normalised into [0, 360]. */
  lemma StartToFullTurnUnreachable(startAngle: real, sweepAngle: real)
    ensures !(NormalizeAngle(startAngle) == 0.0 && NormalizeAngle(startAngle + ClampSweep(sweepAngle)) < 0.0)
    ensures ComputeArcAngles(startAngle, sweepAngle).start <= NormalizeAngle(startAngle)
  {
  }

  /** The centre of the ellipse inscribed in `(x, y, width, height)`. */
  function ArcCentre(x: real, y: real, width: real, height: real): (c: Point)
    ensures c == Rect(x, y, width, height).TopLeft().Plus(Rect(x, y, width, height).BottomRight()).Times(0.5)
  {
    Point(x + 0.5 * width, y + 0.5 * height)
  }

  /** The point at `angle` on the ellipse of the given centre and radii, as
      `MakeArc` computes it (the angle is handed to sine and cosine as is). */
  function EllipsePoint(trig: Trig, centre: Point, radii: Size, angle: real): Point {
    Point(centre.x + radii.width * trig.cos(angle), centre.y + radii.height * trig.sin(angle))
  }

  /** Whenever sine and cosine agree at `angle` (sin² + cos² = 1), the point
      lies on the ellipse of the given centre and radii:
      (dx/rx)² + (dy/ry)² = 1, written without division. */
  lemma {:induction false} EllipsePointOnEllipse(trig: Trig, centre: Point, radii: Size, angle: real)
    requires trig.sin(angle) * trig.sin(angle) + trig.cos(angle) * trig.cos(angle) == 1.0
    ensures var p := EllipsePoint(trig, centre, radii, angle);
      var dx := p.x - centre.x;
      var dy := p.y - centre.y;
      dx * dx * (radii.height * radii.height) + dy * dy * (radii.width * radii.width)
        == (radii.width * radii.width) * (radii.height * radii.height)
  {
    var c, s := trig.cos(angle), trig.sin(angle);
    var w, h := radii.width, radii.height;
    var p := EllipsePoint(trig, centre, radii, angle);
    assert p.x - centre.x == w * c;
    assert p.y - centre.y == h * s;
    calc {
      (w * c) * (w * c) * (h * h) + (h * s) * (h * s) * (w * w);
      (w * w) * (h * h) * (c * c + s * s);
      (w * w) * (h * h);
    }
  }

  /** `MakeArc`: one open, unfilled figure holding a single arc with the
      half-width and half-height as radii; large iff the clamped sweep
      covers at least 180 degrees, clockwise iff the sweep is positive. */
  function MakeArc(trig: Trig, x: real, y: real, width: real, height: real, startAngle: real, sweepAngle: real): (g: Geometry)
    ensures g.Stream? && !g.figure.filled && g.figure.fillRule.None? && !g.figure.closed
    ensures |g.figure.segments| == 1 && g.figure.segments[0].ArcTo?
    ensures var arc := g.figure.segments[0];
      && arc.radii == Size(width / 2.0, height / 2.0)
      && (arc.isLargeArc <==> Abs(ClampSweep(sweepAngle)) >= 180.0)
      && (arc.direction == Clockwise <==> sweepAngle > 0.0)
      && arc.rotation == ClampSweep(sweepAngle) / 180.0 * trig.pi
    ensures var angles := ComputeArcAngles(startAngle, sweepAngle);
      var radii := Size(0.5 * width, 0.5 * height);
      && g.figure.start == EllipsePoint(trig, ArcCentre(x, y, width, height), radii, angles.start)
      && EndPoint(g.figure.segments[0]) == EllipsePoint(trig, ArcCentre(x, y, width, height), radii, angles.end)
  {
    var angles := ComputeArcAngles(startAngle, sweepAngle);
    assert angles.sweep == ClampSweep(sweepAngle);
    ArcFrom(trig, x, y, width, height, angles)
  }

  /** The arc figure for computed angles. */
  function ArcFrom(trig: Trig, x: real, y: real, width: real, height: real, angles: ArcAngles): (g: Geometry)
    ensures g.Stream? && !g.figure.filled && g.figure.fillRule.None? && !g.figure.closed
    ensures |g.figure.segments| == 1 && g.figure.segments[0].ArcTo?
    ensures var arc := g.figure.segments[0];
      && arc.radii == Size(width / 2.0, height / 2.0)
      && (arc.isLargeArc <==> Abs(angles.sweep) >= 180.0)
      && (arc.direction == Clockwise <==> angles.sweep > 0.0)
      && arc.rotation == angles.sweep / 180.0 * trig.pi
    ensures var radii := Size(0.5 * width, 0.5 * height);
      && g.figure.start == EllipsePoint(trig, ArcCentre(x, y, width, height), radii, angles.start)
      && EndPoint(g.figure.segments[0]) == EllipsePoint(trig, ArcCentre(x, y, width, height), radii, angles.end)
  {
    var radii := Size(0.5 * width, 0.5 * height);
    var centre := ArcCentre(x, y, width, height);
    var startPoint := EllipsePoint(trig, centre, radii, angles.start);
    var destPoint := EllipsePoint(trig, centre, radii, angles.end);
    var isLargeArc := Abs(angles.sweep) >= 180.0;
    var direction := if angles.sweep > 0.0 then Clockwise else CounterClockwise;
    Stream(Figure(startPoint, false, None, [ArcTo(destPoint, radii, angles.sweep / 180.0 * trig.pi, isLargeArc, direction)], false))
  }

  /** A full turn either way is a large arc; the two differ only in
      direction. */
  lemma FullTurnArcs(trig: Trig, x: real, y: real, width: real, height: real, startAngle: real)
    ensures var cw := MakeArc(trig, x, y, width, height, startAngle, 360.0).figure.segments[0];
      var ccw := MakeArc(trig, x, y, width, height, startAngle, -360.0).figure.segments[0];
      cw.isLargeArc && ccw.isLargeArc && cw.direction == Clockwise && ccw.direction == CounterClockwise
  {
  }

  /** Sweeps beyond a full turn draw the same arc as a full turn. */
  lemma SweepSaturates(trig: Trig, x: real, y: real, width: real, height: real, startAngle: real, sweepAngle: real)
    ensures sweepAngle >= 360.0 ==>
      MakeArc(trig, x, y, width, height, startAngle, sweepAngle) == MakeArc(trig, x, y, width, height, startAngle, 360.0)
    ensures sweepAngle <= -360.0 ==>
      MakeArc(trig, x, y, width, height, startAngle, sweepAngle) == MakeArc(trig, x, y, width, height, startAngle, -360.0)
  {
    if sweepAngle >= 360.0 {
      assert ClampSweep(sweepAngle) == 360.0 == ClampSweep(360.0);
      ArcOfClampedSweep(trig, x, y, width, height, startAngle, sweepAngle, 360.0);
    } else if sweepAngle <= -360.0 {
      assert ClampSweep(sweepAngle) == -360.0 == ClampSweep(-360.0);
      ArcOfClampedSweep(trig, x, y, width, height, startAngle, sweepAngle, -360.0);
    }
  }

  /** The arc depends on the sweep only through its clamped value. */
  lemma ArcOfClampedSweep(trig: Trig, x: real, y: real, width: real, height: real, startAngle: real, s1: real, s2: real)
    requires ClampSweep(s1) == ClampSweep(s2)
    ensures MakeArc(trig, x, y, width, height, startAngle, s1) == MakeArc(trig, x, y, width, height, startAngle, s2)
  {
    assert ComputeArcAngles(startAngle, s1) == AnglesFrom(startAngle, ClampSweep(s1));
    assert ComputeArcAngles(startAngle, s2) == AnglesFrom(startAngle, ClampSweep(s2));
  }

  /** A zero sweep counts as counter-clockwise and small, and starts and
      ends at the same angle unless the start was reset from 360 to 0. */
  lemma ZeroSweepArc(trig: Trig, x: real, y: real, width: real, height: real, startAngle: real)
    ensures var arc := MakeArc(trig, x, y, width, height, startAngle, 0.0).figure.segments[0];
      arc.direction == CounterClockwise && !arc.isLargeArc
    ensures var angles := ComputeArcAngles(startAngle, 0.0);
      angles.end == NormalizeAngle(startAngle) &&
      (angles.start == angles.end || (angles.start == 0.0 && angles.end == 360.0))
  {
  }
}
