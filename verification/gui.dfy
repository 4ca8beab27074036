/**
 * The index arithmetic of the GUI renderer, `SpectrogramApp::update`
 * (src/ui/gui.rs lines 26-55): one pixel per (frame, bin row), the newest
 * frame on the right. Display row 0 carries the highest frequency and is
 * painted at the bottom image row, so high frequencies end up at the
 * bottom. The bin index of
 * each row comes from `powf` and `round` and is a parameter. The image is
 * modelled as rows, `image[y][x]` being egui's pixel `(x, y)`.
 */
module Gui {
  import opened Options
  import Casts

  /** An opaque 8-bit colour, `Color32::from_rgb(r, g, b)`. */
  datatype Rgb = Rgb(r: nat, g: nat, b: nat)

  const BLACK: Rgb := Rgb(0, 0, 0)

  /** `x = width - 1 - x`: the horizontal mirror of column `x`. */
  function Flip(n: nat, x: nat): (y: nat)
    requires x < n
    ensures y < n
    ensures x + y == n - 1
  {
    n - 1 - x
  }

  /** Mirroring twice is the identity, so mirroring is a bijection of 0 .. n-1. */
  lemma FlipBijective(n: nat, x: nat, x': nat)
    requires x < n && x' < n
    ensures Flip(n, Flip(n, x)) == x
    ensures Flip(n, x) == Flip(n, x') ==> x == x'
  {
  }

  /** `v.clamp(0.0, 2.0)`. */
  function ClampIntensity(v: real): (c: real)
    ensures 0.0 <= c <= 2.0
    ensures 0.0 <= v <= 2.0 ==> c == v
    ensures v < 0.0 ==> c == 0.0
    ensures v > 2.0 ==> c == 2.0
  {
    if v < 0.0 then 0.0 else if v > 2.0 then 2.0 else v
  }

  /**
   * The guarded lookup: the clamped value of bin `fftIndex` of this frame,
   * or 0.0 (black) when that frame has no such bin.
   */
  function Sample(column: seq<real>, fftIndex: nat): (val: real)
    ensures 0.0 <= val <= 2.0
    ensures fftIndex >= |column| ==> val == 0.0
    ensures fftIndex < |column| && 0.0 <= column[fftIndex] <= 2.0 ==> val == column[fftIndex]
    ensures fftIndex < |column| ==> val == ClampIntensity(column[fftIndex])
  {
    if fftIndex < |column| then ClampIntensity(column[fftIndex]) else 0.0
  }

  /**
   * `let intensity = ((val / 2.0) * 255.0) as u8; from_rgb(intensity, intensity / 2, 0)`:
   * a red-to-orange ramp with green at half the red and no blue.
   */
  function PixelColor(val: real): (c: Rgb)
    ensures c.r <= 255 && c.g <= c.r && c.b == 0
    ensures c.g == c.r / 2
    ensures 0.0 <= val <= 2.0 ==> c.r as real <= val / 2.0 * 255.0 < c.r as real + 1.0
    ensures val <= 0.0 ==> c == BLACK
    ensures val >= 2.0 ==> c == Rgb(255, 127, 0)
  {
    var intensity := Casts.SaturatingU8((val / 2.0) * 255.0);
    Rgb(intensity, intensity / 2, 0)
  }

  /** A louder value never gives a darker pixel. */
  lemma PixelColorMonotone(a: real, b: real)
    requires a <= b
    ensures PixelColor(a).r <= PixelColor(b).r
    ensures PixelColor(a).g <= PixelColor(b).g
  {
    Casts.SaturatingU8Monotone((a / 2.0) * 255.0, (b / 2.0) * 255.0);
  }

  /** The colour the GUI gives pixel (x, y) of a snapshot `spec`. */
  function Target(spec: seq<seq<real>>, fftIndexOf: nat -> nat, x: nat, y: nat): Rgb
    requires 0 < |spec| && x < |spec| && y < |spec[0]|
  {
    var column := spec[Flip(|spec|, x)];
    PixelColor(Sample(column, fftIndexOf(Flip(|spec[0]|, y))))
  }

  /** `vec![Color32::BLACK; width * height]`, as `height` rows of `width` pixels. */
  function Blank(width: nat, height: nat): (image: seq<seq<Rgb>>)
    ensures |image| == height
    ensures forall y :: 0 <= y < height ==> |image[y]| == width
    ensures forall y, x :: 0 <= y < height && 0 <= x < |image[y]| ==> image[y][x] == BLACK
  {
    seq(height, _ => seq(width, _ => BLACK))
  }

  /**
   * The body of `update` up to the texture upload: None is the panic of
   * `spec[0]` on an empty snapshot. Otherwise the image is `spec.len()`
   * wide and `spec[0].len()` high, column x shows frame `width - 1 - x`
   * and row y shows the bin of display row `height - 1 - y`; every pixel
   * is written, once, by the nested loops.
   */
  method Paint(spec: seq<seq<real>>, fftIndexOf: nat -> nat) returns (image: Option<seq<seq<Rgb>>>)
    ensures image.None? <==> |spec| == 0
    ensures image.Some? ==> |image.value| == |spec[0]|
    ensures image.Some? ==> forall y :: 0 <= y < |spec[0]| ==> |image.value[y]| == |spec|
    ensures image.Some? ==> forall y, x :: 0 <= y < |spec[0]| && 0 <= x < |spec| ==>
      image.value[y][x] == Target(spec, fftIndexOf, x, y)
  {
    if |spec| == 0 {
      return None;
    }
    var width := |spec|;
    var height := |spec[0]|;
    var pixels := Blank(width, height);
    var x := 0;
    while x < width
      invariant x <= width
      invariant |pixels| == height
      invariant forall y :: 0 <= y < height ==> |pixels[y]| == width
      invariant forall y, x' :: 0 <= y < height && 0 <= x' < width ==>
        pixels[y][x'] == (if x' < x then Target(spec, fftIndexOf, x', y) else BLACK)
    {
      var revX := width - 1 - x;
      var y := 0;
      while y < height
        invariant y <= height
        invariant |pixels| == height
        invariant forall y' :: 0 <= y' < height ==> |pixels[y']| == width
        invariant forall y', x' :: 0 <= y' < height && 0 <= x' < width ==>
          pixels[y'][x'] ==
            (if x' < x || (x' == x && y' >= height - y) then Target(spec, fftIndexOf, x', y') else BLACK)
      {
        var val := Sample(spec[revX], fftIndexOf(y));
        var row := height - 1 - y;
        pixels := pixels[row := pixels[row][x := PixelColor(val)]];
        y := y + 1;
      }
      x := x + 1;
    }
    return Some(pixels);
  }
}
