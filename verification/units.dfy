/** The page-unit scale table of `PushXGraphicsUnitTransform`: a page unit
    of the drawing model becomes a uniform scale to the surface's 1/96 inch
    device-independent pixel. */
module Units {
  import opened Primitives

  /** `XGraphicsUnit`; `Undefined` stands for any integer cast to the enum
      that names none of its members. */
  datatype XGraphicsUnit = Point | Inch | Millimeter | Centimeter | Presentation | Undefined(code: int)

  /** The scale factor chosen by the extension's `switch` expression. */
  function UnitScale(unit: XGraphicsUnit): (s: real)
    ensures s > 0.0
    ensures unit.Undefined? ==> s == 1.0
  {
    match unit
    case Presentation => 1.0
    case Point => 96.0 / 72.0
    case Inch => 96.0
    case Millimeter => 96.0 / 25.4
    case Centimeter => 96.0 / 2.54
    case Undefined(_) => 1.0
  }

  /** The matrix `PushXGraphicsUnitTransform` pushes. */
  function UnitTransform(unit: XGraphicsUnit): (m: Matrix)
    ensures IsUniformScale(m, UnitScale(unit))
    ensures m.m11 == m.m22 > 0.0
  {
    CreateScale(UnitScale(unit), UnitScale(unit))
  }

  /** The factors agree with the physical definitions: a centimetre is ten
      millimetres, an inch is 72 points and 96 pixels, a presentation unit is
      one pixel. */
  lemma UnitScaleRelations()
    ensures UnitScale(Centimeter) == 10.0 * UnitScale(Millimeter)
    ensures UnitScale(Inch) == 72.0 * UnitScale(XGraphicsUnit.Point)
    ensures UnitScale(Inch) == 2.54 * UnitScale(Centimeter)
    ensures UnitScale(Presentation) == 1.0
  {
  }

  /** Ordering of the named units by size. */
  lemma UnitScaleOrdering()
    ensures UnitScale(Presentation) < UnitScale(XGraphicsUnit.Point) < UnitScale(Millimeter)
    ensures UnitScale(Millimeter) < UnitScale(Centimeter) < UnitScale(Inch)
  {
  }
}
