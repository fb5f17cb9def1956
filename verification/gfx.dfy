/**
 The argument shapes of the three graphics-library calls whose coordinates the
 sketch computes: `setCursor(x, y)`, `drawLine(x0, y0, x1, y1)` and
 `fillCircle(x0, y0, r)`. Each of them takes `int16_t` parameters.
 */
module Gfx {
  import opened CInts

  /** A pixel position in the rotated logical frame of the display. */
  datatype Point = Point(x: int16, y: int16)

  /** The end points of a `drawLine` call. */
  datatype Segment = Segment(from: Point, to: Point)

  /** The centre and radius of a `fillCircle` call. */
  datatype Circle = Circle(center: Point, radius: int16)
}
