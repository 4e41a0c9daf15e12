# perfect-pitch: a Dafny model of the tuner's processing loop

The tuner's audio thread (`run_audio_loop`) keeps a sliding window of the
most recent microphone samples. Once the window holds `WINDOW_SIZE` (4096)
samples, it applies a Hann window and measures the RMS level. If the level
is above `THRESHOLD` (0.05), it transforms the frame with an FFT, takes the
loudest bin among `1 .. WINDOW_SIZE/2 - 1` and converts the bin to a
frequency. That frequency becomes a rounded note number, and the note
number becomes a note name and an octave. A quiet frame sends a `"--"`
placeholder. A loud frame sends a note message when its frequency is
positive and nothing otherwise. If the display has gone away, the failed
send of a note message breaks the loop at once. Every other cycle ends by
dropping the `HOP_SIZE` (512) oldest samples.

This project models the integer and data-structure logic of that loop:

- `config.dfy` (`Config`): the constants `WINDOW_SIZE`, `HOP_SIZE` and `THRESHOLD`.
- `sample_window.dfy` (`SampleWindow`): the window as a class `RingBuffer`
  over a `seq` of samples. Its methods model `push_back` and `pop_front`,
  the non-blocking drain loop, the single blocking top-up while the window
  is filling, and the hop loop. `Latest` is the specification of the drain:
  the newest `WINDOW_SIZE` samples of the old window followed by the batch.
- `frame.dfy` (`Frame`): the element-by-element loop that fills the FFT input
  with windowed samples (`LoadFrame`, an array method). It also holds the
  sum of squares behind the RMS and the magnitude spectrum.
- `peak_search.dfy` (`PeakSearch`): the `take/enumerate/skip/max_by` chain,
  modelled as the left fold that `max_by` performs. When several bins share
  the maximum, the last one wins.
- `note_mapping.dfy` (`NoteMapping`): `rem_euclid(12)`, the truncating
  `n / 12 - 1`, and the twelve-name table.
- `report.dfy` (`Report`): the per-cycle choice among a note message, no
  message (a loud frame whose frequency is not positive), and the `"--"`
  placeholder. A failed send of a note message stops the loop. A failed
  send of the placeholder is ignored.
- `audio_loop.dfy` (`AudioLoop`): one pass of the outer `loop` (`Pass`, and
  `Loop.Iterate` on the class state). `Run` and `Loop.RunEvents` model a run
  over a finite sequence of passes. Across any run the window stays within
  `WINDOW_SIZE` and is a trailing part of every sample taken in, in arrival
  order, and the loop breaks exactly at the first pass whose note message
  meets a closed display.

Samples, magnitudes and levels are `real`. The square root, the FFT, the
complex norm and the float note number `(12 * log2(f / 440) + 69).round() as i32`
are opaque functions passed in as the `Numerics` datatype. The Hann
coefficients and the sample rate are inputs (`Setup`).

The code does less than a textbook tuner, and the model follows the code:

- there is no parabolic sub-bin interpolation;
- there is no 20 Hz floor; the only guard is a positive frequency;
- no cents deviation is computed;
- on equal magnitudes the last bin wins, not the first;
- the octave uses truncating division, not flooring, so note -1 is B in
  octave -1, not octave -2 (`NoteMapping.NoteExamples`, `NoteMapping.OctaveRecomposes`);
- the RMS gate is measured on the windowed samples;
- a quiet frame's placeholder carries the measured RMS, not zero.

## Model

| member | source | states |
|---|---|---|
| `SampleWindow.Latest` | perfect-pitch/src/main.rs:147-152 | the drained window holds at most `n` elements and is the whole stream when that stream is shorter |
| `SampleWindow.LatestIsSuffix` | perfect-pitch/src/main.rs:147-152 | the kept samples are the stream minus its oldest part, in arrival order (FIFO eviction) |
| `SampleWindow.RingBuffer.constructor` | perfect-pitch/src/main.rs:137 | the window starts empty |
| `SampleWindow.RingBuffer.PushBack` | perfect-pitch/src/main.rs:148 | appends one sample at the back |
| `SampleWindow.RingBuffer.PopFront` | perfect-pitch/src/main.rs:150 | removes the oldest sample; does nothing on an empty window |
| `SampleWindow.RingBuffer.Drain` | perfect-pitch/src/main.rs:147-152 | after draining a batch, the window is exactly the newest `min(len, WINDOW_SIZE)` samples of old window followed by the batch, and never exceeds `WINDOW_SIZE` |
| `SampleWindow.RingBuffer.TopUp` | perfect-pitch/src/main.rs:154-159 | reports full exactly when the window holds `WINDOW_SIZE` samples; otherwise appends the received sample (if any) and reports not full |
| `SampleWindow.RingBuffer.Hop` | perfect-pitch/src/main.rs:208-211 | a full window loses exactly its `HOP_SIZE` oldest samples; a shorter one is unchanged |
| `SampleWindow.HopKeepsOverlap` | perfect-pitch/src/main.rs:208-211 | after the hop, `WINDOW_SIZE - HOP_SIZE` samples remain: the newest of the analysed frame, in order |
| `Frame.Windowed` | perfect-pitch/src/main.rs:161-163 | entry `i` is sample `i` times coefficient `i` with zero imaginary part, for the length of the shorter input |
| `Frame.LoadFrame` | perfect-pitch/src/main.rs:161-163 | the FFT input starts with the windowed samples; the entries after them are unchanged |
| `Frame.SumSquares` | perfect-pitch/src/main.rs:165-166 | the sum of squared real parts is non-negative |
| `Frame.SumSquaresOfSilence` | perfect-pitch/src/main.rs:165-166 | a frame of zero real parts has a zero sum of squares |
| `Frame.SilentFrameHasZeroEnergy` | perfect-pitch/src/main.rs:161-166 | an all-zero window gives zero energy whatever the Hann coefficients |
| `Frame.FrameRms` | perfect-pitch/src/main.rs:165-166 | computes the square root of the mean square of the real parts; ensures that a frame whose real parts are all zero has the level sqrt(0) |
| `PeakSearch.SearchEnd` | perfect-pitch/src/main.rs:173 | the search stops at `WINDOW_SIZE / 2` or at the end of the spectrum |
| `PeakSearch.MaxByFrom` | perfect-pitch/src/main.rs:176 | the `max_by` fold, in which a later element replaces the accumulator unless strictly smaller, returns the last maximum of the range |
| `PeakSearch.PeakBin` | perfect-pitch/src/main.rs:171-177 | with at least one searched bin, the result lies in `1 .. end`, no searched bin is larger, and every later bin is strictly smaller; otherwise it is 0 |
| `PeakSearch.PeakBinIsUnique` | perfect-pitch/src/main.rs:171-177 | any index that is the last maximum of bins `1 .. end` equals `PeakBin` |
| `PeakSearch.PeakBinLastWins` | perfect-pitch/src/main.rs:176 | of two equal maxima the earlier one is never chosen |
| `PeakSearch.PeakBinSkipsDc` | perfect-pitch/src/main.rs:175-177 | bin 0 is chosen exactly when the spectrum has at most one entry (the `unwrap_or` fallback) |
| `PeakSearch.PeakBinExample` | perfect-pitch/src/main.rs:171-177 | on magnitudes 9, 5, 5, 1 the chosen bin is 2 |
| `NoteMapping.NoteIndex` | perfect-pitch/src/main.rs:184 | the pitch class is in `[0, 11]` and differs from `n` by a multiple of 12, negative `n` included |
| `NoteMapping.TruncDiv12` | perfect-pitch/src/main.rs:185 | the quotient rounds toward zero: the remainder has the sign of `n` and magnitude below 12 |
| `NoteMapping.Octave` | perfect-pitch/src/main.rs:185 | `12 * (octave + 1)` is the multiple of 12 at or below `n` for `n >= 0`, and at or above `n` for `n < 0` |
| `NoteMapping.NoteName` | perfect-pitch/src/main.rs:144 | the name is one of the twelve table entries, never the placeholder `"--"` |
| `NoteMapping.NoteIndexUnique` | perfect-pitch/src/main.rs:184 | the Euclidean remainder is the only value in `[0, 12)` congruent to `n` |
| `NoteMapping.NoteIndexPeriodic` | perfect-pitch/src/main.rs:184 | transposing by whole octaves keeps the pitch class |
| `NoteMapping.MultipleOfTwelveIsC` | perfect-pitch/src/main.rs:184 | every multiple of 12 maps to index 0, "C" |
| `NoteMapping.OctaveRecomposes` | perfect-pitch/src/main.rs:183-185 | `(octave + 1) * 12 + index == n` for `n >= 0` or multiples of 12; for other negative `n` it is `n + 12` (truncation) |
| `NoteMapping.NoteExamples` | perfect-pitch/src/main.rs:182-185 | 60 is C4, 69 is A4, 81 is A5, and -1 is B in octave -1 |
| `Report.Placeholder` | perfect-pitch/src/main.rs:200-205 | the quiet message has note `"--"`, which is not a pitch name, octave 0, frequency 0 and the measured RMS |
| `Report.NoteMessage` | perfect-pitch/src/main.rs:187-193 | the loud message carries the table name, an octave consistent with the pitch class, the bin frequency and the RMS |
| `Report.BinFrequency` | perfect-pitch/src/main.rs:179 | the frequency times `WINDOW_SIZE` is `bin * sample_rate`; it is positive exactly when both are positive |
| `Report.CycleDecision` | perfect-pitch/src/main.rs:168-206 | at or below the threshold: the placeholder is sent and the loop never stops. Above it: a note message exactly when the peak bin and the sample rate are positive. The loop stops exactly when that note message cannot be delivered |
| `Report.LoudFrameAlwaysNamesANote` | perfect-pitch/src/main.rs:179-181 | with a positive sample rate and two or more bins, a loud frame always yields a named note (no frequency floor) |
| `Report.QuietFrameIsDistinguishable` | perfect-pitch/src/main.rs:199-205 | a quiet frame sends the `"--"` message at frequency 0 and does not stop the loop |
| `AudioLoop.Pass` | perfect-pitch/src/main.rs:146-213 | one pass of the loop body; its properties are carried by `PassKeepsWindowBound`, `PassAnalysesOnlyFullWindow`, `PassHopsExactly`, `PassKeepsSuffix` and `SilentWindowSendsPlaceholder` |
| `AudioLoop.Run` | perfect-pitch/src/main.rs:146-214 | computes the passes in order up to the first break; ensures that a run hands at most as many messages to `send` as it has events, and that a run that breaks does so right after a note message; further properties are in `RunKeepsWindowBound`, `RunKeepsSuffix` and `RunStopsOnlyWhenReceiverGone` |
| `AudioLoop.RunUnfold` | perfect-pitch/src/main.rs:146-214 | a run is one pass followed by the rest of the run, unless that pass broke |
| `AudioLoop.RunAdvances` | perfect-pitch/src/main.rs:146-214 | the run's outcome is carried across one more pass |
| `AudioLoop.PassKeepsWindowBound` | perfect-pitch/src/main.rs:147-159 | a pass never leaves more than `WINDOW_SIZE` samples |
| `AudioLoop.PassAnalysesOnlyFullWindow` | perfect-pitch/src/main.rs:154-159 | analysis happens exactly when the drained window is full; otherwise at most one sample is appended and nothing else changes |
| `AudioLoop.PassHopsExactly` | perfect-pitch/src/main.rs:195-211 | a cycle that continues leaves the newest `WINDOW_SIZE - HOP_SIZE` samples of the analysed window; one that breaks leaves the window as analysed |
| `AudioLoop.RunKeepsWindowBound` | perfect-pitch/src/main.rs:146-214 | any number of passes keeps the window within `WINDOW_SIZE` |
| `AudioLoop.RunStopsOnlyWhenReceiverGone` | perfect-pitch/src/main.rs:187-197 | a run breaks exactly when some pass breaks. It breaks at the first such pass, whose display receiver is gone, and the final window is the one that pass leaves |
| `AudioLoop.ArrivalsUnfold` | perfect-pitch/src/main.rs:147-159 | the samples a run takes in are those of its first pass followed by those of the rest, unless that pass broke |
| `AudioLoop.PassKeepsSuffix` | perfect-pitch/src/main.rs:147-159 | after one pass the window is a trailing part of the old window followed by the batch and any received sample |
| `AudioLoop.RunKeepsSuffix` | perfect-pitch/src/main.rs:146-214 | after any number of passes the window is a trailing part of the starting window followed by every sample taken in, in arrival order |
| `AudioLoop.SilentWindowSendsPlaceholder` | perfect-pitch/src/main.rs:165-168 | when sqrt(0) is 0, a full window of silence sends the `"--"` placeholder with level 0 and the loop goes on |
| `AudioLoop.Loop.constructor` | perfect-pitch/src/main.rs:135-144 | an empty window and a zeroed FFT input of `WINDOW_SIZE` entries |
| `AudioLoop.Loop.Iterate` | perfect-pitch/src/main.rs:146-213 | one pass on the class state has the result and new window that `Pass` specifies. After an analysis the FFT input holds the windowed frame; a filling pass leaves it unchanged |
| `AudioLoop.Loop.RunEvents` | perfect-pitch/src/main.rs:146-214 | running passes until the events end or the loop breaks gives the window, messages handed to `send` and stop flag that `Run` specifies |

## Left out

- Audio capture through `cpal`, and the callback that forwards samples into a channel (main.rs:115-133). Device I/O is replaced by the `pending` batch and the `next` sample of each `Event`.
- The `mpsc` channels, `thread::spawn` and the 5 ms `thread::sleep` (main.rs:24-30, 120, 212). These are concurrency and timing. Each pass receives the channel contents as a sequence, and the sleep has no observable effect on the state.
- The display side, `TunerApp` and `eframe`/`egui` (main.rs:32-112), including the amplitude decay and the progress clamp. It is UI only.
- The FFT (`rustfft`), the complex norm, `sqrt`, `cos` for the Hann coefficients, and `log2`/`round`/`as i32` for the note number. These are floating-point numerics, taken as the opaque functions of `Numerics` and the `window` input.
- Single-precision rounding: every float is an exact `real`. The bin frequency, the RMS and the windowed samples are therefore exact.
- The panic of `partial_cmp(...).unwrap()` on a NaN magnitude (main.rs:176). Reals have no NaN.
- `fft.process` overwrites the FFT input with the spectrum in place. The model computes the spectrum as a value and leaves the windowed frame in the array. Nothing reads the array again before the next frame overwrites it.
- The outer `loop` never ends unless a send fails. `Loop.RunEvents` covers any finite prefix of its passes.
- The closing of the display channel. Each `Event` carries its own `receiverAlive` flag, so a run may present a closed display in one pass and an open one later, which an `mpsc` receiver never does. Only the first failed note send matters, because it ends the run.
- Whether a message reached the display. `Outcome.attempted` lists every message handed to `send`, including the note message whose failed send breaks the loop and placeholders sent to a closed display.
- Samples that the capture callback drops on a send error: the events are the samples that did reach the channel.
