/** Playback of one note (the second half of `play_note`): how many times the
    cycle buffer is replayed, and the trace of I2S writes that results. */
module Tone {
  import opened CInt
  import opened Stereo
  import opened Waveform

  /** An observable effect of the engine: an `i2s_write` of a buffer with the
      byte count passed to it, or a `vTaskDelay` of the given milliseconds. */
  datatype Event = Write(samples: seq<int16>, bytes: nat) | Delay(ms: nat)

  /** Bytes per stored sample, `sizeof(int16_t)`. */
  const BytesPerSample: nat := 2

  /** `sizeof` of an `int16_t` buffer of the given contents. */
  function ByteSize(buf: seq<int16>): nat {
    BytesPerSample * |buf|
  }

  /** The arguments `play_note` is defined for: a valid frequency, and a
      duration whose product with the sample rate does not overflow `int`. */
  predicate ValidNote(frequency: int, durationMs: int) {
    ValidFrequency(frequency) && FitsInt32(durationMs * SampleRate)
  }

  /** `loops`: the number of whole cycles that fit in the requested duration.
      For a non-negative duration the cycles played last no longer than
      requested and fall short by less than one cycle; a negative duration
      gives no positive count. */
  function LoopCount(spc: int, durationMs: int): (loops: int)
    requires spc >= 1
    ensures 0 <= durationMs ==> 0 <= loops && loops * (spc * 1000) <= durationMs * SampleRate < (loops + 1) * (spc * 1000)
    ensures durationMs < 0 ==> loops <= 0
    ensures loops > 0 <==> durationMs * SampleRate >= spc * 1000
  {
    var q := CDiv(durationMs * SampleRate, spc * 1000);
    MulAtLeast(q, spc * 1000);
    q
  }

  lemma MulAtLeast(q: int, b: int)
    requires 0 <= b
    ensures 1 <= q ==> b <= q * b
  {
  }

  /** How many times the `for (i = 0; i < loops; i++)` body runs. */
  function Iterations(loops: int): nat {
    if loops > 0 then loops else 0
  }

  /** The writes `play_note(frequency, durationMs)` issues, as a trace: one
      `Write` of the cycle buffer per loop iteration, as many as whole cycles
      fit in the duration. */
  function NoteTrace(sin: real -> real, frequency: int, durationMs: int): (t: seq<Event>)
    requires SineAxioms(sin) && ValidNote(frequency, durationMs)
    ensures 0 <= durationMs ==>
      |t| * (SamplesPerCycle(frequency) * 1000) <= durationMs * SampleRate < (|t| + 1) * (SamplesPerCycle(frequency) * 1000)
    ensures durationMs < 0 ==> t == []
  {
    var spc := SamplesPerCycle(frequency);
    var buf := CycleBuffer(sin, spc);
    seq(Iterations(LoopCount(spc, durationMs)), _ => Write(buf, ByteSize(buf)))
  }

  /** What a note's trace consists of: only writes, all of the same
      unmodified dual-mono cycle buffer of `2 * samples_per_cycle` samples
      (`4 * samples_per_cycle` bytes) that starts with a zero sample, as many
      as fit in the duration without exceeding it. */
  lemma NoteTraceShape(sin: real -> real, frequency: int, durationMs: int)
    requires SineAxioms(sin) && ValidNote(frequency, durationMs)
    ensures var t := NoteTrace(sin, frequency, durationMs);
            var spc := SamplesPerCycle(frequency);
            && (forall k :: 0 <= k < |t| ==>
                  && t[k].Write?
                  && t[k] == t[0]
                  && |t[k].samples| == 2 * spc
                  && t[k].bytes == 4 * spc
                  && DualMono(t[k].samples)
                  && t[k].samples[0] == 0)
            && (0 <= durationMs ==> |t| * (spc * 1000) <= durationMs * SampleRate < (|t| + 1) * (spc * 1000))
            && (durationMs < 0 ==> t == [])
  {
  }

  /** `play_note`: fills the cycle buffer once, then writes it `loops` times,
      unmodified. The buffer's initial contents are left unconstrained. */
  method PlayNote(sin: real -> real, frequency: int, durationMs: int) returns (trace: seq<Event>)
    requires SineAxioms(sin) && ValidNote(frequency, durationMs)
    ensures trace == NoteTrace(sin, frequency, durationMs)
  {
    var spc := SamplesPerCycle(frequency);
    assert |seq(2 * spc, _ => 0 as int16)| == 2 * spc;
    var stale: seq<int16> :| |stale| == 2 * spc;
    var sineWave := SynthesizeCycle(sin, frequency, stale);
    var loops := LoopCount(spc, durationMs);
    trace := [];
    var i := 0;
    while i < loops
      invariant 0 <= i <= Iterations(loops)
      invariant trace == seq(i, _ => Write(sineWave, ByteSize(sineWave)))
    {
      trace := trace + [Write(sineWave, ByteSize(sineWave))];
      i := i + 1;
    }
  }

  /** The example of a middle C: 261 Hz for 500 ms gives a 168-sample cycle
      replayed 131 times. */
  lemma MiddleCExample(sin: real -> real)
    requires SineAxioms(sin)
    ensures SamplesPerCycle(261) == 168
    ensures LoopCount(168, 500) == 131
    ensures |NoteTrace(sin, 261, 500)| == 131
  {
  }

  /** A note shorter than one cycle writes nothing; one at least a cycle long
      writes at least once. */
  lemma ShortNoteIsSilent(sin: real -> real, frequency: int, durationMs: int)
    requires SineAxioms(sin) && ValidNote(frequency, durationMs)
    ensures NoteTrace(sin, frequency, durationMs) == [] <==> durationMs * SampleRate < SamplesPerCycle(frequency) * 1000
  {
  }
}
