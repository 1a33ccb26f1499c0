/** The annotation record of the editor (`TextBoxState`) and the machine types it uses. */
module TextBoxes {

  /** Bounds of a Kotlin `Int`. */
  const INT_MIN: int := -0x8000_0000
  const INT_MAX: int := 0x7FFF_FFFF

  /** A Kotlin `Int`: 32-bit two's complement. */
  type Int32 = x: int | -0x8000_0000 <= x <= 0x7FFF_FFFF

  /** A packed 32-bit ARGB colour, as `Color.toArgb()` yields it (read as unsigned). */
  type Argb = x: int | 0 <= x < 0x1_0000_0000

  /** `Color.White`. */
  const WHITE: Argb := 0xFFFF_FFFF

  /** One text annotation. `x` and `y` are on-screen positions in pixels as the layout
      measures them (top-left origin),
      `fontSize` is the value of the `sp` unit, `scale` the per-box pinch factor. */
  datatype TextBox = TextBox(
    id: Int32,
    text: string,
    x: real,
    y: real,
    fontSize: real,
    color: Argb,
    scale: real
  )
}
