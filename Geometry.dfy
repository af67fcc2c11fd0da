/** The playfield's fixed dimensions and the immutable two-dimensional vector
    that positions and velocities are made of. Coordinates are exact reals:
    every constant of the game is an integer or 1.5, so no rounding is modelled. */
module Geometry {

  /** Width and height of the window, in pixels. */
  const WIDTH: int := 650
  const HEIGHT: int := 650

  /** The vertical coordinate of the ground; y grows downwards. */
  const GroundY: real := 540.0

  /** Downward acceleration added on every airborne tick. */
  const Gravity: Vec2 := Vec2(0.0, 2.0)

  /** A value-semantics vector; every operation builds a new vector. */
  datatype Vec2 = Vec2(x: real, y: real) {

    function Plus(other: Vec2): Vec2 {
      Vec2(x + other.x, y + other.y)
    }
  }
}
