/**
 * Preparing one analysis frame: the windowed samples are written element by
 * element into the complex FFT input buffer, and the RMS level is taken from
 * their real parts.
 */
module Frame {
  import opened Config

  datatype Complex = Complex(re: real, im: real)

  /**
   * The numeric primitives the loop relies on but this model does not
   * define: square root, the forward FFT of length WINDOW_SIZE, the complex
   * norm, and the rounded note number `(12 * log2(f / 440) + 69).round() as i32`.
   */
  datatype Numerics = Numerics(
    sqrt: real -> real,
    fft: seq<Complex> -> seq<Complex>,
    norm: Complex -> real,
    noteNumber: real -> int)

  /** Sample `i` times window coefficient `i` as a real-valued complex number, for as long as both last. */
  function Windowed(samples: seq<Sample>, window: seq<real>): (w: seq<Complex>)
    ensures |w| == Min(|samples|, |window|)
    ensures forall i :: 0 <= i < |w| ==> w[i] == Complex(samples[i] * window[i], 0.0)
  {
    seq(Min(|samples|, |window|), i requires 0 <= i < Min(|samples|, |window|) =>
      Complex(samples[i] * window[i], 0.0))
  }

  /**
   * Overwrite the front of the FFT input with the windowed samples (the
   * `zip`/`enumerate` loop); entries past the shorter input are untouched.
   */
  method LoadFrame(dst: array<Complex>, samples: seq<Sample>, window: seq<real>)
    requires Min(|samples|, |window|) <= dst.Length
    modifies dst
    ensures dst[..] == Windowed(samples, window) + old(dst[..])[Min(|samples|, |window|)..]
  {
    var m := Min(|samples|, |window|);
    var i := 0;
    while i < m
      invariant 0 <= i <= m
      invariant forall k :: 0 <= k < i ==> dst[k] == Complex(samples[k] * window[k], 0.0)
      invariant forall k :: i <= k < dst.Length ==> dst[k] == old(dst[k])
    {
      dst[i] := Complex(samples[i] * window[i], 0.0);
      i := i + 1;
    }
    assert dst[..] == dst[..m] + dst[m..];
    assert dst[..m] == Windowed(samples, window);
  }

  /** Sum of the squared real parts. */
  function SumSquares(frame: seq<Complex>): (s: real)
    ensures s >= 0.0
  {
    if frame == [] then 0.0
    else frame[0].re * frame[0].re + SumSquares(frame[1..])
  }

  /**
   * `sqrt(sum(re * re) / WINDOW_SIZE)`: the level compared against THRESHOLD.
   * A frame whose real parts are all zero has the level sqrt(0).
   */
  function FrameRms(numerics: Numerics, frame: seq<Complex>): (rms: real)
    ensures (forall i :: 0 <= i < |frame| ==> frame[i].re == 0.0) ==> rms == numerics.sqrt(0.0)
  {
    var meanSquare := SumSquares(frame) / (WINDOW_SIZE as real);
    assert (forall i :: 0 <= i < |frame| ==> frame[i].re == 0.0) ==> meanSquare == 0.0 by {
      if forall i :: 0 <= i < |frame| ==> frame[i].re == 0.0 {
        SumSquaresOfSilence(frame);
      }
    }
    numerics.sqrt(meanSquare)
  }

  /** The magnitude of every spectrum entry. */
  function Magnitudes(numerics: Numerics, spectrum: seq<Complex>): seq<real>
  {
    seq(|spectrum|, i requires 0 <= i < |spectrum| => numerics.norm(spectrum[i]))
  }

  /** A frame whose real parts are all zero has a zero sum of squares. */
  lemma {:induction false} SumSquaresOfSilence(frame: seq<Complex>)
    requires forall i :: 0 <= i < |frame| ==> frame[i].re == 0.0
    ensures SumSquares(frame) == 0.0
  {
    if frame != [] {
      SumSquaresOfSilence(frame[1..]);
    }
  }

  /** A silent window (all samples zero) has energy zero, whatever the window coefficients. */
  lemma SilentFrameHasZeroEnergy(samples: seq<Sample>, window: seq<real>)
    requires forall i :: 0 <= i < |samples| ==> samples[i] == 0.0
    ensures SumSquares(Windowed(samples, window)) == 0.0
  {
    SumSquaresOfSilence(Windowed(samples, window));
  }
}
