/** Value types shared by every part of the dashboard model. */
module Values {

  datatype Option<+T> = None | Some(value: T)

  /** One byte received from the serial link. */
  type Byte = b: int | 0 <= b < 0x100

  /** An unsigned 32-bit word, as read little-endian from four payload bytes. */
  type Uint32 = w: int | 0 <= w < 0x1_0000_0000

  /**
   * A JavaScript value stored in the chart arrays: `null`/`undefined`, `NaN`,
   * one of the two infinities, or a finite number (modelled as a real, not as
   * an IEEE double).
   */
  datatype Sample = Null | NaN | Inf(negative: bool) | Num(x: real)

  /** A value of JavaScript type number: never `null`. */
  type Number = v: Sample | !v.Null? witness NaN

  /** `typeof v === 'number' && isFinite(v)` */
  predicate IsFinite(v: Sample) {
    v.Num?
  }

  /** The float32 reading of a little-endian word (`DataView.getFloat32(0, true)`) is
      passed into the model as a function of this type; its bit layout is not modelled. */
  type Float32Reader = Uint32 -> Number
}
