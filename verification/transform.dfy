/**
 * The spectral transform step of the FFT worker (src/fft_worker.rs lines
 * 17-26, src/main.rs lines 82-90). The FFT itself, the complex norm, the
 * division by FFT_SIZE and log10 come from floating-point library code and
 * are represented by a `Spectrum`: the FFT_SIZE values log10(|X_k| / FFT_SIZE)
 * the in-place transform yields. What is modelled is the slicing to the first
 * half and the log-compression clamp.
 */
module Transform {
  import opened Constants

  /** The per-bin log10 magnitudes of one in-place FFT of a window: FFT_SIZE of them. */
  type Spectrum = s: seq<real> | |s| == FFT_SIZE witness Zeros(FFT_SIZE)

  /** `n` zero values (`vec![0.0; n]`). */
  function Zeros(n: nat): (z: seq<real>)
    ensures |z| == n
    ensures forall k :: 0 <= k < n ==> z[k] == 0.0
  {
    seq(n, _ => 0.0)
  }

  /** The display compression `l.max(-2.0) + 2.0`. */
  function Compress(l: real): (v: real)
    ensures v >= 0.0
    ensures v == 0.0 <==> l <= -2.0
    ensures l >= -2.0 ==> v - 2.0 == l
  {
    (if l < -2.0 then -2.0 else l) + 2.0
  }

  /** Compression never reorders two magnitudes. */
  lemma CompressMonotone(a: real, b: real)
    requires a <= b
    ensures Compress(a) <= Compress(b)
  {
  }

  /**
   * `input[..FFT_SIZE / 2].iter().map(compress).collect()`: one spectral
   * frame, bin k being the compressed magnitude of FFT output k.
   */
  function Frame(spectrum: Spectrum): (f: seq<real>)
    ensures |f| == BINS
    ensures forall k :: 0 <= k < BINS ==> f[k] == Compress(spectrum[k])
    ensures forall k :: 0 <= k < BINS ==> f[k] >= 0.0
  {
    seq(BINS, k requires 0 <= k < BINS => Compress(spectrum[k]))
  }

  /** The upper half of the transform output never reaches the frame. */
  lemma FrameIgnoresUpperHalf(s1: Spectrum, s2: Spectrum)
    requires s1[..BINS] == s2[..BINS]
    ensures Frame(s1) == Frame(s2)
  {
  }

  /**
   * Silence floor: when every kept bin is at or below 10^-2 of full scale the
   * frame is all zeros, the same value the history is pre-filled with.
   */
  lemma SilenceFloor(spectrum: Spectrum)
    requires forall k :: 0 <= k < BINS ==> spectrum[k] <= -2.0
    ensures Frame(spectrum) == Zeros(BINS)
  {
  }
}
