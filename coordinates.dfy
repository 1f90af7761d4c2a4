/** An immutable pair of matrix coordinates: `x` indexes sequence A, `y` indexes sequence B. */
module Coordinates {

  datatype TwoDimensionalCoordinates = TwoDimensionalCoordinates(x: int, y: int)

  /** Componentwise difference `a - b`: the vector that carries `b` onto `a`. */
  function Subtract(a: TwoDimensionalCoordinates, b: TwoDimensionalCoordinates): (d: TwoDimensionalCoordinates)
    ensures b.x + d.x == a.x && b.y + d.y == a.y
  {
    TwoDimensionalCoordinates(a.x - b.x, a.y - b.y)
  }
}
