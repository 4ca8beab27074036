/**
 * `intensity_color` (src/util.rs lines 4-16, also nested inside the
 * drawing closure of src/main.rs lines 141-153): an ordered threshold
 * classifier from a compressed magnitude to a terminal colour.
 */
module Util {

  datatype Color = Blue | Cyan | Green | Yellow | Red

  /** Position of a colour on the scale from quiet (Blue) to loud (Red). */
  function Rank(c: Color): nat
  {
    match c
    case Blue => 0
    case Cyan => 1
    case Green => 2
    case Yellow => 3
    case Red => 4
  }

  /** The colour boundaries, in increasing order. */
  const THRESHOLDS: seq<real> := [0.3, 0.4, 0.6, 0.8]

  /** How many of the thresholds `val` has reached. */
  function Reached(thresholds: seq<real>, val: real): nat
    decreases |thresholds|
  {
    if |thresholds| == 0 then 0
    else (if thresholds[0] <= val then 1 else 0) + Reached(thresholds[1..], val)
  }

  /** The first colour whose upper threshold `val` stays below, else Red. */
  function IntensityColor(val: real): (c: Color)
    ensures Rank(c) == Reached(THRESHOLDS, val)
  {
    if val < 0.3 then Blue
    else if val < 0.4 then Cyan
    else if val < 0.6 then Green
    else if val < 0.8 then Yellow
    else Red
  }

  /** Every band, as a half-open interval, in both directions. */
  lemma IntensityColorBands(val: real)
    ensures IntensityColor(val) == Blue <==> val < 0.3
    ensures IntensityColor(val) == Cyan <==> 0.3 <= val < 0.4
    ensures IntensityColor(val) == Green <==> 0.4 <= val < 0.6
    ensures IntensityColor(val) == Yellow <==> 0.6 <= val < 0.8
    ensures IntensityColor(val) == Red <==> 0.8 <= val
  {
  }

  lemma {:induction false} ReachedMonotone(thresholds: seq<real>, a: real, b: real)
    requires a <= b
    ensures Reached(thresholds, a) <= Reached(thresholds, b)
    decreases |thresholds|
  {
    if |thresholds| > 0 {
      ReachedMonotone(thresholds[1..], a, b);
    }
  }

  /** A louder value never gets a quieter colour. */
  lemma IntensityColorMonotone(a: real, b: real)
    requires a <= b
    ensures Rank(IntensityColor(a)) <= Rank(IntensityColor(b))
  {
    ReachedMonotone(THRESHOLDS, a, b);
  }
}
