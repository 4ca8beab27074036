/** Numeric conversions the renderers perform. */
module Casts {

  /**
   * Rust's `x as u8` on a float: truncation toward zero, saturating at 0
   * below and 255 above.
   */
  function SaturatingU8(x: real): (b: nat)
    ensures b <= 255
    ensures x < 1.0 ==> b == 0
    ensures x >= 255.0 ==> b == 255
    ensures 0.0 <= x < 256.0 ==> b as real <= x < b as real + 1.0
  {
    if x < 0.0 then 0 else if x.Floor > 255 then 255 else x.Floor
  }

  /** A larger float never converts to a smaller byte. */
  lemma SaturatingU8Monotone(a: real, b: real)
    requires a <= b
    ensures SaturatingU8(a) <= SaturatingU8(b)
  {
  }
}
