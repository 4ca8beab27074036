/** Compile-time configuration of the spectrogram (src/main.rs lines 37-38). */
module Constants {

  /** Number of samples in one analysis window (one FFT). */
  const FFT_SIZE: nat := 512

  /** Number of spectral frames kept in the rolling history. */
  const SPEC_WIDTH: nat := 200

  /** Number of bins in one spectral frame: the positive-frequency half. */
  const BINS: nat := FFT_SIZE / 2

  function Min(a: int, b: int): int
  {
    if a <= b then a else b
  }
}
