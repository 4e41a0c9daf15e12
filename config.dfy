/** Fixed tunables of the pitch-detection loop and a small Option type. */
module Config {

  /** Number of samples in one analysis window (and FFT length). */
  const WINDOW_SIZE: nat := 4096

  /** Number of oldest samples discarded after each analysis cycle. */
  const HOP_SIZE: nat := 512

  /** RMS level above which a frame is analysed for a note. */
  const THRESHOLD: real := 0.05

  /** A single-precision audio sample, modelled as a real number. */
  type Sample = real

  datatype Option<T> = None | Some(value: T)

  /** The zero- or one-element sequence holding the value of an Option. */
  function ToSeq<T>(o: Option<T>): seq<T>
  {
    match o
    case None => []
    case Some(v) => [v]
  }

  function Min(a: int, b: int): int {
    if a <= b then a else b
  }
}
