/** Value types shared by both sides of the bridge: the drawing model's
    points, rectangles and matrices (XPoint, XRect, XMatrix) and the target
    surface's (Point, Rect, Matrix) carry the same coordinates as reals, so
    one definition serves both. */
module Primitives {

  /** A nullable reference of the source (`XPen?`, `XFillMode?`, …). */
  datatype Option<+T> = None | Some(value: T) {
    function GetOr(default: T): T {
      match this
      case Some(v) => v
      case None => default
    }
  }

  datatype Point = Point(x: real, y: real) {
    function Plus(o: Point): Point { Point(x + o.x, y + o.y) }
    function Minus(o: Point): Point { Point(x - o.x, y - o.y) }
    function Times(k: real): Point { Point(k * x, k * y) }
  }

  datatype Size = Size(width: real, height: real)

  /** A rectangle given by its top-left corner and its extent. */
  datatype Rect = Rect(x: real, y: real, width: real, height: real) {
    function TopLeft(): Point { Point(x, y) }
    function BottomRight(): Point { Point(x + width, y + height) }
  }

  /** Avalonia's `Rect(Point topLeft, Point bottomRight)` constructor. */
  function RectFromCorners(topLeft: Point, bottomRight: Point): (r: Rect)
    ensures r.TopLeft() == topLeft && r.BottomRight() == bottomRight
  {
    Rect(topLeft.x, topLeft.y, bottomRight.x - topLeft.x, bottomRight.y - topLeft.y)
  }

  /** An affine 2x3 matrix (M11, M12, M21, M22, OffsetX, OffsetY). */
  datatype Matrix = Matrix(m11: real, m12: real, m21: real, m22: real, offsetX: real, offsetY: real)

  /** `Matrix.CreateScale(sx, sy)`. */
  function CreateScale(sx: real, sy: real): Matrix {
    Matrix(sx, 0.0, 0.0, sy, 0.0, 0.0)
  }

  predicate IsUniformScale(m: Matrix, factor: real) {
    m == CreateScale(factor, factor)
  }

  function Abs(r: real): real { if r < 0.0 then -r else r }

  /** `Math.Sign` of a double. */
  function Sign(r: real): int { if r > 0.0 then 1 else if r < 0.0 then -1 else 0 }
}
