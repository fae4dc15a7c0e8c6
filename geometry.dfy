/**
 * Two-dimensional vectors. The engine stores each coordinate as a 64-bit float;
 * the model uses exact reals, so rounding is not represented.
 */
module Geometry {

  datatype Vec2 = Vec2(x: real, y: real) {

    function Add(other: Vec2): Vec2 {
      Vec2(x + other.x, y + other.y)
    }

    function Sub(other: Vec2): Vec2 {
      Vec2(x - other.x, y - other.y)
    }
  }

  /** The default vector, the origin. */
  const Zero := Vec2(0.0, 0.0)

}
