/** Synthesis of one cycle of a note's sine wave (the first half of
    `play_note`): the cycle length in samples, the sample values, and the
    stereo buffer the samples are written into. */
module Waveform {
  import opened CInt
  import opened Stereo

  /** Output sample rate in Hz, `SAMPLE_RATE`. */
  const SampleRate: int := 44100
  /** Peak sample value, the `amplitude` constant of `play_note`. */
  const Amplitude: int := 3000
  /** `M_PI`, as the real constant the phase is computed from. */
  const Pi: real := 3.14159265358979323846

  /** What the model assumes of the C library's `sinf`: it is bounded by one
      in magnitude and vanishes at phase zero. Nothing else is known of it. */
  ghost predicate SineAxioms(sin: real -> real) {
    sin(0.0) == 0.0 && forall x: real :: -1.0 <= sin(x) <= 1.0
  }

  /** The frequencies for which `play_note`'s arithmetic is defined: a
      non-positive one divides by zero or sizes the buffer negatively, and one
      above the sample rate gives an empty cycle and then divides by zero. */
  predicate ValidFrequency(frequency: int) {
    0 < frequency <= SampleRate
  }

  /** `samples_per_cycle`: the whole number of samples that fit in one period
      of the tone (the fraction of a sample is dropped). */
  function SamplesPerCycle(frequency: int): (spc: int)
    requires ValidFrequency(frequency)
    ensures 1 <= spc <= SampleRate
    ensures spc * frequency <= SampleRate < (spc + 1) * frequency
  {
    CDiv(SampleRate, frequency)
  }

  /** The phase `2 * M_PI * i / samples_per_cycle` of sample `i`. */
  function Phase(i: nat, spc: nat): (phase: real)
    requires spc > 0
    ensures 0.0 <= phase
    ensures i == 0 <==> phase == 0.0
    ensures i < spc ==> phase < 2.0 * Pi
  {
    2.0 * Pi * (i as real) / (spc as real)
  }

  function Abs(x: real): real {
    if x < 0.0 then -x else x
  }

  /** Sample `i` of the cycle: the amplitude-scaled sine of its phase,
      converted to `int16_t` by truncation. */
  function Sample(sin: real -> real, spc: nat, i: nat): (v: int16)
    requires SineAxioms(sin) && spc > 0
    ensures -Amplitude <= v as int <= Amplitude
    ensures i == 0 ==> v == 0
    ensures Abs(v as real) <= Abs(Amplitude as real * sin(Phase(i, spc))) < Abs(v as real) + 1.0
    ensures (v < 0) ==> Amplitude as real * sin(Phase(i, spc)) < 0.0
    ensures (v > 0) ==> Amplitude as real * sin(Phase(i, spc)) > 0.0
  {
    var x := Amplitude as real * sin(Phase(i, spc));
    TruncateTowardZero(x) as int16
  }

  /** The samples of one cycle, one channel: `spc` samples, each within the
      amplitude, starting at zero. */
  function Wave(sin: real -> real, spc: nat): (w: seq<int16>)
    requires SineAxioms(sin) && spc > 0
    ensures |w| == spc
    ensures w[0] == 0
    ensures forall i :: 0 <= i < |w| ==> -Amplitude <= w[i] as int <= Amplitude
  {
    seq(spc, i requires 0 <= i < spc => Sample(sin, spc, i))
  }

  /** `sine_wave`: one cycle with every sample duplicated into the left and
      the right channel. */
  function CycleBuffer(sin: real -> real, spc: nat): (buf: seq<int16>)
    requires SineAxioms(sin) && spc > 0
    ensures |buf| == 2 * spc
    ensures DualMono(buf)
    ensures Channel(buf, 0) == Channel(buf, 1) == Wave(sin, spc)
    ensures forall k :: 0 <= k < |buf| ==> -Amplitude <= buf[k] as int <= Amplitude
    ensures buf[0] == buf[1] == 0
  {
    var w := Wave(sin, spc);
    ChannelOfInterleave(w, w);
    var buf := Interleave(w, w);
    assert forall k :: 0 <= k < |buf| ==> buf[k] == w[k / 2] by {
      forall k | 0 <= k < |buf|
        ensures buf[k] == w[k / 2]
      {
        var j := k / 2;
        if k % 2 == 0 { assert k == 2 * j; } else { assert k == 2 * j + 1; }
      }
    }
    buf
  }

  /** The fill loop of `play_note`: starting from the buffer's indeterminate
      contents `stale`, writes both channel slots of each sample in turn. Every
      slot ends up written, so the result does not depend on `stale`. */
  method SynthesizeCycle(sin: real -> real, frequency: int, stale: seq<int16>) returns (buf: seq<int16>)
    requires SineAxioms(sin) && ValidFrequency(frequency)
    requires |stale| == 2 * SamplesPerCycle(frequency)
    ensures buf == CycleBuffer(sin, SamplesPerCycle(frequency))
  {
    var spc := CDiv(SampleRate, frequency);
    buf := stale;
    var i := 0;
    while i < spc
      invariant 0 <= i <= spc
      invariant |buf| == 2 * spc
      invariant forall k :: 0 <= k < i ==> buf[2 * k] == Sample(sin, spc, k) && buf[2 * k + 1] == Sample(sin, spc, k)
    {
      var v := Sample(sin, spc, i);
      buf := buf[2 * i := v][2 * i + 1 := v];
      i := i + 1;
    }
    var expected := CycleBuffer(sin, spc);
    forall k | 0 <= k < |buf|
      ensures buf[k] == expected[k]
    {
      var j := k / 2;
      assert Channel(expected, 0)[j] == Channel(expected, 1)[j] == Sample(sin, spc, j);
      if k % 2 == 0 { assert k == 2 * j; } else { assert k == 2 * j + 1; }
    }
  }
}
