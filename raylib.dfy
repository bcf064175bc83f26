/**
 * The few raylib types and constants the programs share: `Vector2` with its
 * operators, `Color` and the constants `PI` and `DEG2RAD`. Floating values
 * are modelled as `real`.
 */
module Raylib {

  /** `Vector2`. */
  datatype Vec = Vec(x: real, y: real)

  function Add(a: Vec, b: Vec): Vec {
    Vec(a.x + b.x, a.y + b.y)
  }

  function Sub(a: Vec, b: Vec): Vec {
    Vec(a.x - b.x, a.y - b.y)
  }

  function Scale(a: Vec, k: real): Vec {
    Vec(a.x * k, a.y * k)
  }

  /** The squared `Vector2Length`; the square root is monotone, so comparing these compares lengths. */
  function LengthSq(a: Vec): real {
    a.x * a.x + a.y * a.y
  }

  /** A `uint8_t` colour channel. */
  type Byte = x: int | 0 <= x < 256

  datatype Color = Color(r: Byte, g: Byte, b: Byte, a: Byte)

  /** raylib's `GREEN`. */
  const GREEN: Color := Color(0, 228, 48, 255)

  /** raylib's `PI` and `DEG2RAD`. */
  const PI: real := 3.14159265358979323846
  const DEG2RAD: real := PI / 180.0
}
