/**
 * The processing loop: drain the pending samples into the window, wait for
 * one more sample while the window is short, otherwise analyse the window,
 * send a report and hop forward; a failed send of a note message ends the loop.
 */
module AudioLoop {
  import opened Config
  import opened SampleWindow
  import opened Frame
  import opened Report
  import opened NoteMapping

  /** The fixed inputs of the loop: Hann coefficients, sample rate and numeric primitives. */
  datatype Setup = Setup(window: seq<real>, sampleRate: nat, numerics: Numerics)

  /** How one pass of the loop ended: `continue` while filling, or after an analysis. */
  datatype Step = Filling | Analysed(decision: Decision)

  datatype PassResult = PassResult(step: Step, samples: seq<Sample>)

  /**
   * What the loop sees in one pass: the samples already queued in the
   * channel, what a blocking receive would yield (None once the channel is
   * closed), and whether the display still accepts messages.
   */
  datatype Event = Event(pending: seq<Sample>, next: Option<Sample>, receiverAlive: bool)

  /**
   * The result of running passes until the events run out or the loop
   * breaks: the window, every message handed to `send` (delivered or not),
   * and whether the loop broke.
   */
  datatype Outcome = Outcome(samples: seq<Sample>, attempted: seq<AudioMessage>, stopped: bool)

  /**
   * One pass of the loop body on the window contents `samples`: it analyses
   * exactly when the drained window is full, and a pass that analyses and
   * goes on leaves WINDOW_SIZE - HOP_SIZE samples.
   */
  function Pass(setup: Setup, samples: seq<Sample>, e: Event): (r: PassResult)
  {
    var drained := Latest(samples + e.pending, WINDOW_SIZE);
    if |drained| < WINDOW_SIZE then
      PassResult(Filling, drained + ToSeq(e.next))
    else
      var frame := Windowed(drained, setup.window);
      var d := CycleDecision(FrameRms(setup.numerics, frame),
                             Magnitudes(setup.numerics, setup.numerics.fft(frame)),
                             setup.sampleRate, setup.numerics.noteNumber, e.receiverAlive);
      PassResult(Analysed(d), if d.stop then drained else drained[HOP_SIZE..])
  }

  /** The message a pass hands to `send`, if any. */
  function Attempted(step: Step): seq<AudioMessage> {
    if step.Analysed? then ToSeq(step.decision.message) else []
  }

  /**
   * Passes over `events` in order, stopping at the first pass that breaks.
   * Each pass hands at most one message to `send`, and a run that breaks
   * does so right after a note message.
   */
  function Run(setup: Setup, samples: seq<Sample>, events: seq<Event>): (r: Outcome)
    ensures |r.attempted| <= |events|
    ensures r.stopped ==> r.attempted != [] && r.attempted[|r.attempted| - 1].note in NOTE_NAMES
    decreases |events|
  {
    if events == [] then Outcome(samples, [], false)
    else
      var p := Pass(setup, samples, events[0]);
      if p.step.Analysed? && p.step.decision.stop then Outcome(p.samples, Attempted(p.step), true)
      else
        After(Attempted(p.step), Run(setup, p.samples, events[1..]))
  }

  /** Run takes one pass and then continues from the state that pass leaves, unless it broke. */
  lemma RunUnfold(setup: Setup, samples: seq<Sample>, events: seq<Event>, p: PassResult)
    requires events != [] && p == Pass(setup, samples, events[0])
    ensures p.step.Analysed? && p.step.decision.stop ==>
      Run(setup, samples, events) == Outcome(p.samples, Attempted(p.step), true)
    ensures !(p.step.Analysed? && p.step.decision.stop) ==>
      Run(setup, samples, events) == After(Attempted(p.step), Run(setup, p.samples, events[1..]))
  {
  }

  /** The loop invariant of RunEvents carried across one pass. */
  lemma RunAdvances(setup: Setup, start: seq<Sample>, events: seq<Event>, i: nat,
                    attempted: seq<AudioMessage>, samples: seq<Sample>, p: PassResult)
    requires i < |events|
    requires Run(setup, start, events) == After(attempted, Run(setup, samples, events[i..]))
    requires p == Pass(setup, samples, events[i])
    ensures p.step.Analysed? && p.step.decision.stop ==>
      Run(setup, start, events) == Outcome(p.samples, attempted + Attempted(p.step), true)
    ensures !(p.step.Analysed? && p.step.decision.stop) ==>
      Run(setup, start, events) == After(attempted + Attempted(p.step), Run(setup, p.samples, events[i + 1..]))
  {
    var suffix := events[i..];
    assert suffix[0] == events[i] && suffix[1..] == events[i + 1..];
    RunUnfold(setup, samples, suffix, p);
    if !(p.step.Analysed? && p.step.decision.stop) {
      var o := Run(setup, p.samples, events[i + 1..]);
      assert Run(setup, samples, suffix) == After(Attempted(p.step), o);
      assert attempted + (Attempted(p.step) + o.attempted) == (attempted + Attempted(p.step)) + o.attempted;
    }
  }

  /** An outcome preceded by messages already attempted. */
  function After(earlier: seq<AudioMessage>, o: Outcome): Outcome
  {
    Outcome(o.samples, earlier + o.attempted, o.stopped)
  }

  /** A pass never leaves more than WINDOW_SIZE samples in the window. */
  lemma PassKeepsWindowBound(setup: Setup, samples: seq<Sample>, e: Event)
    requires |samples| <= WINDOW_SIZE
    ensures |Pass(setup, samples, e).samples| <= WINDOW_SIZE
  {
  }

  /**
   * Analysis happens exactly when the drained window is full; otherwise the
   * pass adds at most one sample to the drained window and analyses nothing.
   */
  lemma PassAnalysesOnlyFullWindow(setup: Setup, samples: seq<Sample>, e: Event)
    ensures var drained := Latest(samples + e.pending, WINDOW_SIZE);
      var p := Pass(setup, samples, e);
      && (p.step.Analysed? <==> |drained| == WINDOW_SIZE)
      && (p.step.Filling? ==> |p.samples| <= |drained| + 1 && p.samples[..|drained|] == drained)
  {
  }

  /**
   * A pass that analyses and goes on leaves the newest WINDOW_SIZE - HOP_SIZE
   * samples of the analysed window, in arrival order; one that breaks leaves
   * the analysed window as it was.
   */
  lemma PassHopsExactly(setup: Setup, samples: seq<Sample>, e: Event)
    ensures var drained := Latest(samples + e.pending, WINDOW_SIZE);
      var p := Pass(setup, samples, e);
      && (p.step.Analysed? && !p.step.decision.stop ==>
            |p.samples| == WINDOW_SIZE - HOP_SIZE && p.samples == Latest(drained, WINDOW_SIZE - HOP_SIZE))
      && (p.step.Analysed? && p.step.decision.stop ==> p.samples == drained)
  {
    var drained := Latest(samples + e.pending, WINDOW_SIZE);
    if |drained| == WINDOW_SIZE {
      HopKeepsOverlap(drained);
    }
  }

  /** Any number of passes keeps the window within WINDOW_SIZE. */
  lemma {:induction false} RunKeepsWindowBound(setup: Setup, samples: seq<Sample>, events: seq<Event>)
    requires |samples| <= WINDOW_SIZE
    ensures |Run(setup, samples, events).samples| <= WINDOW_SIZE
    decreases |events|
  {
    if events != [] {
      PassKeepsWindowBound(setup, samples, events[0]);
      RunKeepsWindowBound(setup, Pass(setup, samples, events[0]).samples, events[1..]);
    }
  }

  /** The window before pass `i`, had none of the earlier passes broken. */
  function WindowBefore(setup: Setup, samples: seq<Sample>, events: seq<Event>, i: nat): seq<Sample>
    requires i <= |events|
    decreases i
  {
    if i == 0 then samples
    else WindowBefore(setup, Pass(setup, samples, events[0]).samples, events[1..], i - 1)
  }

  /** Pass `i` is one that breaks the loop, when reached. */
  ghost predicate BreaksAt(setup: Setup, samples: seq<Sample>, events: seq<Event>, i: nat) {
    && i < |events|
    && var p := Pass(setup, WindowBefore(setup, samples, events, i), events[i]);
       p.step.Analysed? && p.step.decision.stop
  }

  /**
   * A run breaks exactly at the first pass that breaks: that pass met a
   * display that is gone, no earlier pass breaks, and the final window is
   * the one that pass leaves.
   */
  lemma {:induction false} RunStopsOnlyWhenReceiverGone(setup: Setup, samples: seq<Sample>, events: seq<Event>)
    ensures Run(setup, samples, events).stopped ==>
      exists i :: 0 <= i < |events| && BreaksAt(setup, samples, events, i)
        && !events[i].receiverAlive
        && (forall j :: 0 <= j < i ==> !BreaksAt(setup, samples, events, j))
        && Run(setup, samples, events).samples == Pass(setup, WindowBefore(setup, samples, events, i), events[i]).samples
    ensures (exists i :: 0 <= i < |events| && BreaksAt(setup, samples, events, i)) ==>
      Run(setup, samples, events).stopped
    decreases |events|
  {
    if events != [] {
      var p := Pass(setup, samples, events[0]);
      var rest := events[1..];
      assert WindowBefore(setup, samples, events, 0) == samples;
      if p.step.Analysed? && p.step.decision.stop {
        assert BreaksAt(setup, samples, events, 0);
      } else {
        RunStopsOnlyWhenReceiverGone(setup, p.samples, rest);
        forall j | 0 <= j < |rest|
          ensures WindowBefore(setup, samples, events, j + 1) == WindowBefore(setup, p.samples, rest, j)
          ensures events[j + 1] == rest[j]
          ensures BreaksAt(setup, samples, events, j + 1) == BreaksAt(setup, p.samples, rest, j)
        {
        }
        assert !BreaksAt(setup, samples, events, 0);
        if Run(setup, samples, events).stopped {
          var j :| 0 <= j < |rest| && BreaksAt(setup, p.samples, rest, j)
            && !rest[j].receiverAlive
            && (forall k :: 0 <= k < j ==> !BreaksAt(setup, p.samples, rest, k))
            && Run(setup, p.samples, rest).samples == Pass(setup, WindowBefore(setup, p.samples, rest, j), rest[j]).samples;
          assert BreaksAt(setup, samples, events, j + 1);
          forall k | 0 <= k < j + 1 ensures !BreaksAt(setup, samples, events, k) {
            if k > 0 {
              assert !BreaksAt(setup, p.samples, rest, k - 1);
            }
          }
        }
        if exists i :: 0 <= i < |events| && BreaksAt(setup, samples, events, i) {
          var i :| 0 <= i < |events| && BreaksAt(setup, samples, events, i);
          assert i > 0 && BreaksAt(setup, p.samples, rest, i - 1);
        }
      }
    }
  }

  /** The samples a pass takes in: the pending batch, and the received sample while still filling. */
  function Taken(e: Event, step: Step): seq<Sample> {
    e.pending + (if step.Filling? then ToSeq(e.next) else [])
  }

  /** Every sample the passes of a run take in, in arrival order. */
  function Arrivals(setup: Setup, samples: seq<Sample>, events: seq<Event>): seq<Sample>
    decreases |events|
  {
    if events == [] then []
    else
      var p := Pass(setup, samples, events[0]);
      if p.step.Analysed? && p.step.decision.stop then Taken(events[0], p.step)
      else Taken(events[0], p.step) + Arrivals(setup, p.samples, events[1..])
  }

  /** Arrivals takes in what one pass took in and then what the rest of the run takes in, unless that pass broke. */
  lemma ArrivalsUnfold(setup: Setup, samples: seq<Sample>, events: seq<Event>, p: PassResult)
    requires events != [] && p == Pass(setup, samples, events[0])
    ensures p.step.Analysed? && p.step.decision.stop ==> Arrivals(setup, samples, events) == Taken(events[0], p.step)
    ensures !(p.step.Analysed? && p.step.decision.stop) ==>
      Arrivals(setup, samples, events) == Taken(events[0], p.step) + Arrivals(setup, p.samples, events[1..])
  {
  }

  /** `a` is a trailing part of `b`. */
  ghost predicate IsSuffix(a: seq<Sample>, b: seq<Sample>) {
    |a| <= |b| && b[|b| - |a|..] == a
  }

  lemma SuffixTransitive(a: seq<Sample>, b: seq<Sample>, c: seq<Sample>)
    requires IsSuffix(a, b) && IsSuffix(b, c)
    ensures IsSuffix(a, c)
  {
    assert c[|c| - |a|..] == c[|c| - |b|..][|b| - |a|..];
  }

  lemma SuffixAppend(a: seq<Sample>, b: seq<Sample>, t: seq<Sample>)
    requires IsSuffix(a, b)
    ensures IsSuffix(a + t, b + t)
  {
    assert (b + t)[|b + t| - |a + t|..] == b[|b| - |a|..] + t;
  }

  /** Chaining a window kept from one pass with the window kept by the rest of the run. */
  lemma SuffixChain(start: seq<Sample>, taken: seq<Sample>, mid: seq<Sample>, more: seq<Sample>, final: seq<Sample>)
    requires IsSuffix(mid, start + taken) && IsSuffix(final, mid + more)
    ensures IsSuffix(final, start + (taken + more))
  {
    SuffixAppend(mid, start + taken, more);
    assert start + taken + more == start + (taken + more);
    SuffixTransitive(final, mid + more, start + (taken + more));
  }

  /** One pass leaves a window that is a trailing part of the old window followed by what it took in. */
  lemma PassKeepsSuffix(setup: Setup, samples: seq<Sample>, e: Event)
    ensures var p := Pass(setup, samples, e);
      IsSuffix(p.samples, samples + Taken(e, p.step))
  {
    var all := samples + e.pending;
    var drained := Latest(all, WINDOW_SIZE);
    LatestIsSuffix(all, WINDOW_SIZE);
    assert IsSuffix(drained, all);
    var p := Pass(setup, samples, e);
    if p.step.Filling? {
      SuffixAppend(drained, all, ToSeq(e.next));
      assert all + ToSeq(e.next) == samples + Taken(e, p.step);
    } else {
      assert all == samples + Taken(e, p.step);
      if !p.step.decision.stop {
        assert IsSuffix(drained[HOP_SIZE..], drained);
        SuffixTransitive(drained[HOP_SIZE..], drained, all);
      }
    }
  }

  /**
   * After any number of passes the window is a trailing part of the
   * starting window followed by every sample taken in, in arrival order.
   */
  lemma {:induction false} RunKeepsSuffix(setup: Setup, samples: seq<Sample>, events: seq<Event>)
    ensures IsSuffix(Run(setup, samples, events).samples, samples + Arrivals(setup, samples, events))
    decreases |events|
  {
    if events == [] {
      assert samples + [] == samples;
    } else {
      var p := Pass(setup, samples, events[0]);
      PassKeepsSuffix(setup, samples, events[0]);
      ArrivalsUnfold(setup, samples, events, p);
      RunUnfold(setup, samples, events, p);
      if !(p.step.Analysed? && p.step.decision.stop) {
        RunKeepsSuffix(setup, p.samples, events[1..]);
        SuffixChain(samples, Taken(events[0], p.step), p.samples,
                    Arrivals(setup, p.samples, events[1..]), Run(setup, samples, events).samples);
      }
    }
  }

  /**
   * A full window of silence is reported as the "--" placeholder with level
   * 0 and the loop goes on, provided the square root of 0 is 0.
   */
  lemma SilentWindowSendsPlaceholder(setup: Setup, samples: seq<Sample>, e: Event)
    requires setup.numerics.sqrt(0.0) == 0.0
    requires |Latest(samples + e.pending, WINDOW_SIZE)| == WINDOW_SIZE
    requires forall i :: 0 <= i < WINDOW_SIZE ==> Latest(samples + e.pending, WINDOW_SIZE)[i] == 0.0
    ensures Pass(setup, samples, e).step == Analysed(Decision(Some(Placeholder(0.0)), false))
  {
    SilentFrameHasZeroEnergy(Latest(samples + e.pending, WINDOW_SIZE), setup.window);
  }

  /** The state of `run_audio_loop` once the capture stream is running. */
  class Loop {
    const setup: Setup
    const ring: RingBuffer
    const fftInput: array<Complex>

    ghost predicate Valid()
      reads this, ring
    {
      && ring.Valid()
      && fftInput.Length == WINDOW_SIZE
      && |setup.window| == WINDOW_SIZE
    }

    /** An empty window and a zeroed FFT input of WINDOW_SIZE entries. */
    constructor (window: seq<real>, sampleRate: nat, numerics: Numerics)
      requires |window| == WINDOW_SIZE
      ensures Valid() && fresh(ring) && fresh(fftInput)
      ensures setup == Setup(window, sampleRate, numerics)
      ensures ring.samples == [] && fftInput[..] == seq(WINDOW_SIZE, _ => Complex(0.0, 0.0))
    {
      setup := Setup(window, sampleRate, numerics);
      ring := new RingBuffer();
      fftInput := new Complex[WINDOW_SIZE](_ => Complex(0.0, 0.0));
    }

    /** One pass of the loop body; the result says whether the loop continues. */
    method Iterate(e: Event) returns (step: Step)
      requires Valid()
      modifies ring, fftInput
      ensures Valid()
      ensures PassResult(step, ring.samples) == Pass(setup, old(ring.samples), e)
      ensures step.Analysed? ==>
        fftInput[..] == Windowed(Latest(old(ring.samples) + e.pending, WINDOW_SIZE), setup.window)
      ensures step.Filling? ==> fftInput[..] == old(fftInput[..])
    {
      ring.Drain(e.pending);
      var full := ring.TopUp(e.next);
      if !full {
        return Filling;
      }
      LoadFrame(fftInput, ring.samples, setup.window);
      assert old(fftInput[..])[WINDOW_SIZE..] == [];
      var frame := fftInput[..];
      assert frame == Windowed(ring.samples, setup.window);
      var rms := FrameRms(setup.numerics, frame);
      var mags := Magnitudes(setup.numerics, setup.numerics.fft(frame));
      var d := CycleDecision(rms, mags, setup.sampleRate, setup.numerics.noteNumber, e.receiverAlive);
      if d.stop {
        return Analysed(d);
      }
      ring.Hop();
      return Analysed(d);
    }

    /** The outer `loop`, over a finite prefix of the events it would see. */
    method RunEvents(events: seq<Event>) returns (attempted: seq<AudioMessage>, stopped: bool)
      requires Valid()
      modifies ring, fftInput
      ensures Valid()
      ensures Outcome(ring.samples, attempted, stopped) == Run(setup, old(ring.samples), events)
    {
      attempted := [];
      var i := 0;
      while i < |events|
        invariant 0 <= i <= |events|
        invariant Valid()
        invariant Run(setup, old(ring.samples), events) == After(attempted, Run(setup, ring.samples, events[i..]))
      {
        ghost var before := ring.samples;
        var step := Iterate(events[i]);
        RunAdvances(setup, old(ring.samples), events, i, attempted, before, PassResult(step, ring.samples));
        if step.Analysed? && step.decision.stop {
          return attempted + Attempted(step), true;
        }
        attempted := attempted + Attempted(step);
        i := i + 1;
      }
      assert events[i..] == [];
      return attempted, false;
    }
  }
}
