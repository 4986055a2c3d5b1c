# ESP32 MAX98357A tone engine — a Dafny model

The firmware plays "Twinkle, Twinkle, Little Star" on a MAX98357A I2S
amplifier. Its engine is `play_note` and `play_melody` in `main/main.c`:

- `play_note(frequency, duration_ms)` computes `samples_per_cycle =
  SAMPLE_RATE / frequency` (44100 Hz sample rate). It fills a stack buffer
  with one cycle of a sine wave of amplitude 3000. Each sample is stored
  twice, in the left slot and then the right slot. It then computes `loops =
  (duration_ms * SAMPLE_RATE) / (samples_per_cycle * 1000)` and hands the
  whole buffer to `i2s_write` `loops` times.
- `play_melody` plays the 14 notes of the `melody` table in order. It calls
  `vTaskDelay` for 100 ms after each note.

The model is functional. The effects of the engine are a trace of `Event`s:
`Write(samples, bytes)` for each `i2s_write` and `Delay(ms)` for each
`vTaskDelay`. C's truncating `/`, the truncating float-to-`int16_t`
conversion, the `int16_t` sample type and the 32-bit `int` overflow bound
are written out in module `CInt`. `sinf` is a parameter `sin: real -> real`.
The model assumes only two facts about it (`Waveform.SineAxioms`): its
magnitude is at most 1, and it is 0 at phase 0.

Modules, leaves first:

- `CInt` (`c_int.dfy`): `int16`, `CDiv`, `TruncateTowardZero`, the 32-bit bounds.
- `Stereo` (`stereo.dfy`): the interleaved left/right layout and its inverse.
- `Waveform` (`waveform.dfy`): cycle length, sample values, the cycle buffer and the fill loop.
- `Tone` (`tone.dfy`): loop count, the trace of one note, `play_note`.
- `Melody` (`melody.dfy`): the note table, the trace of a melody, `play_melody`.

## Behaviour at the edges

- `play_note` has no error results. A frequency of 0 or less divides by
  zero or gives a negative array size. A frequency above 44100 gives an
  empty cycle and then divides by zero. The model makes these cases
  preconditions (`Waveform.ValidFrequency`).
- Any frequency from 22051 to 44100 Hz gives a one-sample cycle, and the
  model accepts it as the code does.
- Writes have no timeout and no partial-write check. Each write is one
  trace event.
- `play_melody` also pauses after the last note.

## Model

| member | source | states |
|---|---|---|
| CInt.CDiv | main/main.c:92 | C's `/` rounds toward zero: for a non-negative dividend the quotient is the largest `q` with `q*b <= a`; for a negative dividend it is the smallest `q` with `a <= q*b`, never positive |
| CInt.TruncateTowardZero | main/main.c:87 | the `(int16_t)` conversion drops the fraction toward zero: the result never has the opposite sign of the input (a value of magnitude below one becomes 0) and is less than one unit smaller in magnitude |
| Stereo.Interleave | main/main.c:88-89 | the stereo layout puts left sample `i` at slot `2*i` and right sample `i` at slot `2*i+1`, in a buffer twice the channel length |
| Stereo.ChannelOfInterleave | main/main.c:88-89 | reading either channel back out of an interleaved buffer returns that channel unchanged |
| Stereo.InterleaveOfChannels | main/main.c:83-90 | every even-length buffer is the interleaving of its two channels, so the layout loses nothing |
| Stereo.DualMonoIffDuplicated | main/main.c:86-90 | a buffer has identical left and right slots exactly when it is one channel duplicated into both |
| Waveform.SamplesPerCycle | main/main.c:82 | for a frequency in 1..44100, `samples_per_cycle` is between 1 and 44100 and is the largest `n` with `n * frequency <= 44100` |
| Waveform.Sample | main/main.c:81-87 | under the sine axioms every sample lies in [-3000, 3000], inside the `int16_t` range; sample 0 is 0; truncation never increases the magnitude of `3000 * sin(phase)` and loses less than one unit; the sample never has the opposite sign of `3000 * sin(phase)`, and a value of magnitude below one becomes 0 |
| Waveform.Phase | main/main.c:87 | the argument passed to `sinf`, `2*M_PI*i/samples_per_cycle`: it is non-negative, zero exactly for sample 0, and below one full turn `2*M_PI` for every sample of the cycle |
| Waveform.Wave | main/main.c:86-87 | the per-channel samples of one cycle: `samples_per_cycle` of them, each within ±3000, the first one 0 |
| Waveform.CycleBuffer | main/main.c:83-90 | the cycle buffer has exactly `2 * samples_per_cycle` entries; the left and right channels are both the one-cycle wave; every entry is within ±3000; the first pair is 0 |
| Waveform.SynthesizeCycle | main/main.c:83-90 | the fill loop writes every slot, starting from any prior buffer contents, and yields the cycle buffer regardless of those contents |
| Tone.LoopCount | main/main.c:92 | for a non-negative duration, `loops` whole cycles fit in the duration and one more would not (`loops*spc*1000 <= duration_ms*44100 < (loops+1)*spc*1000`); it is positive exactly when the duration holds at least one cycle; a negative duration gives no positive count |
| Tone.NoteTrace | main/main.c:92-96 | the write trace of one note: one `Write` of the cycle buffer, with `4*spc` bytes, per loop iteration; for a non-negative duration the writes fill the duration to within one cycle without exceeding it; a negative duration writes nothing |
| Tone.NoteTraceShape | main/main.c:92-96 | one note issues only writes; every write passes the same dual-mono buffer of `2*spc` samples and `4*spc` bytes starting with 0; their number fills the duration to within one cycle without exceeding it; a negative duration writes nothing |
| Tone.PlayNote | main/main.c:80-97 | `play_note` fills the buffer once and then writes it `loops` times unmodified, giving exactly the note's trace |
| Tone.MiddleCExample | main/main.c:62 | 261 Hz for 500 ms gives `samples_per_cycle = 168` and 131 writes |
| Tone.ShortNoteIsSilent | main/main.c:92-96 | a note writes nothing exactly when its duration is shorter than one cycle |
| Melody.MelodyTrace | main/main.c:100-105 | the trace of `play_melody` over a note list: each note's trace followed by one 100 ms `Delay`, in list order; it holds at least one event per note and ends with the pause after the last note |
| Melody.NoteTraceCounts | main/main.c:94-96 | a note's trace holds no pauses and one write per loop iteration |
| Melody.MelodyTraceAppend | main/main.c:101-104 | playing two lists of notes one after the other gives the trace of their concatenation: notes play in table order |
| Melody.NoteSegment | main/main.c:101-104 | note `k`'s writes start exactly where the trace of the notes before it ends, and are followed by exactly one 100 ms pause |
| Melody.MelodyTraceCounts | main/main.c:100-105 | a melody's trace has one pause per note, every pause is 100 ms, and its writes are the sum of the notes' write counts |
| Melody.PlayMelody | main/main.c:100-105 | `play_melody` plays each note with `play_note` and then pauses, in table order, producing exactly the melody trace (each note's writes followed by one 100 ms pause) |
| Melody.TwinkleFitsInt32 | main/main.c:61-77 | the table has `melody_length = 14` notes; all are playable; no duration exceeds 1000 ms, so `duration_ms * SAMPLE_RATE` is at most 44,100,000 and fits a 32-bit `int` |
| Melody.TwinkleNoteWrites | main/main.c:62-75 | the write count of each distinct (frequency, duration) pair of the table |
| Melody.TotalLoopsIsSum | main/main.c:101-102 | helper: the total over the notes equals the sum of any list matching the per-note write counts position by position; used to compute the table's total |
| Melody.TwinkleLoops | main/main.c:61-76 | the table's notes issue 2721 writes in all |
| Melody.TwinkleTrace | main/main.c:100-105 | playing the table makes 14 pauses and 2721 writes |
| Melody.TwoNoteExample | main/main.c:100-105 | a two-note melody (440 Hz for 500 ms, 392 Hz for 1000 ms) gives 220 writes, a pause, 393 writes and a pause |

## Left out

- `i2s_init` (main/main.c:25-52): peripheral, pin and DMA configuration over a driver library whose source is not part of this model.
- `app_main` and its `printf` (main/main.c:107-115): program entry and logging.
- The stack footprint of `sine_wave` (4 × samples_per_cycle bytes) is not modelled; low frequencies exhaust the task stack.
- The blocking, DMA and `portMAX_DELAY` behaviour of `i2s_write`, and its `bytes_written` result, which the code ignores. Each call is one `Write` event.
- Real timing of `vTaskDelay(pdMS_TO_TICKS(100))`: only the requested 100 ms is recorded, as a `Delay` event.
- Floating-point arithmetic: the phase `2 * M_PI * i / samples_per_cycle` is computed over the reals, and `sinf` is an arbitrary function with only the two sine axioms. Rounding of the double phase, its conversion to `float`, and the float product `amplitude * sinf(...)` are not modelled.
- Waveform.Sample: does not pin down the sample values beyond the bound, the zero at phase 0 and the truncation relation, because the values of `sinf` are not modelled.
- Calls with an invalid frequency, or with a duration whose product with 44100 overflows `int`, are excluded by preconditions. In C these are undefined behaviour, not defined results.
- The contents of the stack buffer before it is filled are unconstrained: `Waveform.SynthesizeCycle` takes them as a parameter, and `Tone.PlayNote` picks any buffer of the right length.
