/**
 * From the rounded integer note number to what the report shows: the
 * pitch-class index (`rem_euclid(12)`), the octave (`n / 12 - 1` with Rust's
 * truncating integer division) and the name from the fixed table.
 */
module NoteMapping {

  /** The twelve pitch-class names, starting at C. */
  const NOTE_NAMES: seq<string> := ["C", "C#", "D", "D#", "E", "F", "F#", "G", "G#", "A", "A#", "B"]

  /** `n.rem_euclid(12)`: the non-negative remainder, also for negative `n`. */
  function NoteIndex(n: int): (k: nat)
    ensures k < |NOTE_NAMES|
    ensures (n - k) % 12 == 0
  {
    n % 12
  }

  /** Rust's `n / 12` on integers: the quotient rounded toward zero. */
  function TruncDiv12(n: int): (q: int)
    ensures n >= 0 ==> 0 <= n - 12 * q < 12
    ensures n < 0 ==> -12 < n - 12 * q <= 0
  {
    if n >= 0 then n / 12 else -((-n) / 12)
  }

  /** `n / 12 - 1`, so that note 60 is in octave 4. */
  function Octave(n: int): (o: int)
    ensures n >= 0 ==> 12 * (o + 1) <= n < 12 * (o + 1) + 12
    ensures n < 0 ==> 12 * (o + 1) - 12 < n <= 12 * (o + 1)
  {
    TruncDiv12(n) - 1
  }

  /** The name shown for note number `n`. */
  function NoteName(n: int): (name: string)
    ensures name in NOTE_NAMES
    ensures name != "--"
  {
    NOTE_NAMES[NoteIndex(n)]
  }

  /** The pitch class is the one index in [0, 12) that differs from `n` by a multiple of 12. */
  lemma NoteIndexUnique(n: int, q: int, k: int)
    requires 0 <= k < 12 && n == 12 * q + k
    ensures NoteIndex(n) == k
  {
  }

  /** Transposing by whole octaves leaves the pitch class unchanged. */
  lemma NoteIndexPeriodic(n: int, m: int)
    ensures NoteIndex(n + 12 * m) == NoteIndex(n)
  {
    NoteIndexUnique(n + 12 * m, (n - NoteIndex(n)) / 12 + m, NoteIndex(n));
  }

  /** Every multiple of 12 is a C, whatever its sign. */
  lemma MultipleOfTwelveIsC(q: int)
    ensures NoteIndex(12 * q) == 0
    ensures NoteName(12 * q) == "C"
  {
    NoteIndexUnique(12 * q, q, 0);
  }

  /**
   * Octave and pitch class recompose the note number for n >= 0; for a
   * negative `n` that is not a multiple of 12 the truncating division puts
   * the octave one higher than the floor convention would.
   */
  lemma OctaveRecomposes(n: int)
    ensures n >= 0 || NoteIndex(n) == 0 ==> (Octave(n) + 1) * 12 + NoteIndex(n) == n
    ensures n < 0 && NoteIndex(n) != 0 ==> (Octave(n) + 1) * 12 + NoteIndex(n) == n + 12
  {
    var o := Octave(n);
    var k := NoteIndex(n);
    if n >= 0 {
      NoteIndexUnique(n, o + 1, n - 12 * (o + 1));
    } else if n - 12 * (o + 1) == 0 {
      NoteIndexUnique(n, o + 1, 0);
    } else {
      NoteIndexUnique(n, o, n - 12 * o);
    }
  }

  /** Reference points of the mapping: C4, A4, A5 and the first note below zero. */
  lemma NoteExamples()
    ensures NoteName(60) == "C" && Octave(60) == 4
    ensures NoteName(69) == "A" && Octave(69) == 4
    ensures NoteName(81) == "A" && Octave(81) == 5
    ensures NoteName(-1) == "B" && Octave(-1) == -1
  {
  }
}
