/** Colours as the ambilight handles them: three integer channels, red, green
    and blue. Every colour the program produces stays within 0..255. */
module Colors {

  datatype Color = Color(r: int, g: int, b: int)

  /** The three channels, in the order numpy stores them in a pixel. */
  datatype Channel = Red | Green | Blue

  function Get(c: Color, k: Channel): int {
    match k
    case Red => c.r
    case Green => c.g
    case Blue => c.b
  }

  /** An 8-bit channel value. */
  predicate IsByte(v: int) {
    0 <= v <= 255
  }

  predicate InGamut(c: Color) {
    IsByte(c.r) && IsByte(c.g) && IsByte(c.b)
  }

  /** The colour the control loop starts from (ambilight.py:157). */
  const BLACK := Color(0, 0, 0)
}
