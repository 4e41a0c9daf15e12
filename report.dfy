/**
 * What one analysis cycle sends to the display: a note message for a loud
 * frame whose peak bin has a positive frequency, nothing for a loud frame
 * whose peak lands on bin 0, and the "--" placeholder for a quiet frame.
 */
module Report {
  import opened Config
  import opened PeakSearch
  import opened NoteMapping

  /** The message sent over the display channel. */
  datatype AudioMessage = AudioMessage(note: string, octave: int, freq: real, amplitude: real)

  /** What a cycle tries to send, and whether the loop breaks afterwards. */
  datatype Decision = Decision(message: Option<AudioMessage>, stop: bool)

  /** The placeholder message for a frame at or below THRESHOLD. */
  function Placeholder(rms: real): (m: AudioMessage)
    ensures m.note == "--" && m.note !in NOTE_NAMES
    ensures m.octave == 0 && m.freq == 0.0 && m.amplitude == rms
  {
    AudioMessage("--", 0, 0.0, rms)
  }

  /** The note message for note number `n` heard at frequency `freq` with level `rms`. */
  function NoteMessage(n: int, freq: real, rms: real): (m: AudioMessage)
    ensures m.note in NOTE_NAMES && m.note == NOTE_NAMES[NoteIndex(n)]
    ensures (m.octave + 1) * 12 + NoteIndex(n) == (if n >= 0 || NoteIndex(n) == 0 then n else n + 12)
    ensures m.freq == freq && m.amplitude == rms
  {
    OctaveRecomposes(n);
    AudioMessage(NoteName(n), Octave(n), freq, rms)
  }

  /** `bin * sample_rate / WINDOW_SIZE`: the centre frequency of an FFT bin in Hz. */
  function BinFrequency(bin: nat, sampleRate: nat): (f: real)
    ensures f >= 0.0
    ensures f > 0.0 <==> bin > 0 && sampleRate > 0
    ensures f * (WINDOW_SIZE as real) == (bin * sampleRate) as real
  {
    (bin * sampleRate) as real / (WINDOW_SIZE as real)
  }

  /**
   * The report chosen for one cycle. `noteNumber` stands for the rounded
   * MIDI-style note number of a frequency and `receiverAlive` for whether
   * the display still listens (a send fails otherwise).
   */
  function CycleDecision(rms: real, mags: seq<real>, sampleRate: nat,
                         noteNumber: real -> int, receiverAlive: bool): (d: Decision)
    ensures rms <= THRESHOLD ==> d == Decision(Some(Placeholder(rms)), false)
    ensures rms > THRESHOLD ==> (d.message.Some? <==> PeakBin(mags) > 0 && sampleRate > 0)
    ensures rms > THRESHOLD && d.message.Some? ==>
      var f := BinFrequency(PeakBin(mags), sampleRate);
      d.message.value == NoteMessage(noteNumber(f), f, rms) && f > 0.0
    ensures d.message.Some? ==> d.message.value.amplitude == rms
    ensures d.stop <==> rms > THRESHOLD && d.message.Some? && !receiverAlive
  {
    if rms > THRESHOLD then
      var freq := BinFrequency(PeakBin(mags), sampleRate);
      if freq > 0.0 then
        Decision(Some(NoteMessage(noteNumber(freq), freq, rms)), !receiverAlive)
      else
        Decision(None, false)
    else
      Decision(Some(Placeholder(rms)), false)
  }

  /**
   * There is no lower frequency floor: a loud frame with at least two
   * spectrum bins always yields a note message, even when the peak is bin 1.
   */
  lemma LoudFrameAlwaysNamesANote(rms: real, mags: seq<real>, sampleRate: nat,
                                  noteNumber: real -> int, receiverAlive: bool)
    requires rms > THRESHOLD && |mags| >= 2 && sampleRate > 0
    ensures var d := CycleDecision(rms, mags, sampleRate, noteNumber, receiverAlive);
      d.message.Some? && d.message.value.note in NOTE_NAMES
  {
    assert SearchEnd(mags) >= 2;
  }

  /** A quiet frame is told apart from a note by its name, and never stops the loop. */
  lemma QuietFrameIsDistinguishable(rms: real, mags: seq<real>, sampleRate: nat,
                                    noteNumber: real -> int, receiverAlive: bool)
    requires rms <= THRESHOLD
    ensures var d := CycleDecision(rms, mags, sampleRate, noteNumber, receiverAlive);
      !d.stop && d.message.Some? && d.message.value.note == "--" && d.message.value.freq == 0.0
  {
  }
}
