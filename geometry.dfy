/**
 * Positions and boxes in frame pixel space, shared by the ball tracker,
 * the player tracker and the action predictor. Coordinates are reals:
 * the trackers only add, subtract and halve them.
 */
module Geometry {
  /** A position (x, y) in frame pixel space. */
  datatype Point = Point(x: real, y: real)

  /** A detector box in xyxy form: top-left (x1, y1), bottom-right (x2, y2). */
  datatype BBox = BBox(x1: real, y1: real, x2: real, y2: real)

  /** The midpoint of a box, as every tracker computes its `center`. */
  function Center(b: BBox): (c: Point)
    ensures c.x - b.x1 == b.x2 - c.x && c.y - b.y1 == b.y2 - c.y
    ensures b.x1 <= b.x2 ==> b.x1 <= c.x <= b.x2
    ensures b.y1 <= b.y2 ==> b.y1 <= c.y <= b.y2
  {
    Point((b.x1 + b.x2) / 2.0, (b.y1 + b.y2) / 2.0)
  }

  /** Python's `int()` applied to a float: truncation toward zero. */
  function Trunc(r: real): (t: int)
    ensures 0.0 <= r ==> 0 <= t && t as real <= r < t as real + 1.0
    ensures r < 0.0 ==> t <= 0 && t as real - 1.0 < r <= t as real
  {
    if r >= 0.0 then r.Floor else -((-r).Floor)
  }
}
