/** The melody table and `play_melody`: every note of the table is played in
    order, each followed by a fixed 100 ms pause. */
module Melody {
  import opened CInt
  import opened Waveform
  import opened Tone

  /** `note_t`: a tone's frequency in Hz and its duration in milliseconds. */
  datatype Note = Note(frequency: int, durationMs: int)

  /** The pause after each note, `vTaskDelay(pdMS_TO_TICKS(100))`. */
  const GapMs: nat := 100

  /** `melody`: "Twinkle, Twinkle, Little Star". */
  const Twinkle: seq<Note> := [
    Note(261, 500), Note(261, 500), Note(392, 500), Note(392, 500),
    Note(440, 500), Note(440, 500), Note(392, 1000),
    Note(349, 500), Note(349, 500), Note(329, 500), Note(329, 500),
    Note(294, 500), Note(294, 500), Note(261, 1000)
  ]

  /** `melody_length`, the table's element count. */
  const MelodyLength: int := |Twinkle|

  /** A note `play_note` is defined for. */
  predicate Playable(n: Note) {
    ValidNote(n.frequency, n.durationMs)
  }

  predicate AllPlayable(notes: seq<Note>) {
    forall k :: 0 <= k < |notes| ==> Playable(notes[k])
  }

  /** The trace of playing `notes` in order, each note followed by the gap:
      it holds at least one event per note and, when there is a note, ends with
      the pause after the last one. */
  function MelodyTrace(sin: real -> real, notes: seq<Note>): (t: seq<Event>)
    requires SineAxioms(sin) && AllPlayable(notes)
    ensures |notes| <= |t|
    ensures |notes| > 0 ==> t[|t| - 1] == Delay(GapMs)
    decreases |notes|
  {
    if |notes| == 0 then []
    else NoteTrace(sin, notes[0].frequency, notes[0].durationMs) + [Delay(GapMs)] + MelodyTrace(sin, notes[1..])
  }

  /** Number of pauses in a trace. */
  function DelayCount(t: seq<Event>): nat
    decreases |t|
  {
    if |t| == 0 then 0 else (if t[0].Delay? then 1 else 0) + DelayCount(t[1..])
  }

  /** Number of buffer writes in a trace. */
  function WriteCount(t: seq<Event>): nat
    decreases |t|
  {
    if |t| == 0 then 0 else (if t[0].Write? then 1 else 0) + WriteCount(t[1..])
  }

  /** The number of writes `play_note(frequency, durationMs)` issues. */
  function NoteWrites(frequency: int, durationMs: int): nat
    requires ValidNote(frequency, durationMs)
  {
    Iterations(LoopCount(SamplesPerCycle(frequency), durationMs))
  }

  /** The number of writes each note contributes, summed over the notes. */
  function TotalLoops(notes: seq<Note>): nat
    requires AllPlayable(notes)
    decreases |notes|
  {
    if |notes| == 0 then 0
    else NoteWrites(notes[0].frequency, notes[0].durationMs) + TotalLoops(notes[1..])
  }

  lemma {:induction false} CountsAppend(a: seq<Event>, b: seq<Event>)
    ensures DelayCount(a + b) == DelayCount(a) + DelayCount(b)
    ensures WriteCount(a + b) == WriteCount(a) + WriteCount(b)
    decreases |a|
  {
    if |a| == 0 {
      assert a + b == b;
    } else {
      CountsAppend(a[1..], b);
      assert (a + b)[1..] == a[1..] + b;
    }
  }

  /** A note's own trace holds no pauses and one write per loop iteration. */
  lemma {:induction false} NoteTraceCounts(sin: real -> real, frequency: int, durationMs: int)
    requires SineAxioms(sin) && ValidNote(frequency, durationMs)
    ensures DelayCount(NoteTrace(sin, frequency, durationMs)) == 0
    ensures WriteCount(NoteTrace(sin, frequency, durationMs)) == NoteWrites(frequency, durationMs)
  {
    var t := NoteTrace(sin, frequency, durationMs);
    var i := |t|;
    while i > 0
      invariant 0 <= i <= |t|
      invariant DelayCount(t[i..]) == 0 && WriteCount(t[i..]) == |t| - i
    {
      i := i - 1;
      assert t[i..][1..] == t[i + 1..];
    }
    assert t[0..] == t;
  }

  /** Playing `a` and then `b` gives the same trace as playing `a + b`: the
      trace follows the table order note by note. */
  lemma {:induction false} MelodyTraceAppend(sin: real -> real, a: seq<Note>, b: seq<Note>)
    requires SineAxioms(sin) && AllPlayable(a) && AllPlayable(b)
    ensures AllPlayable(a + b)
    ensures MelodyTrace(sin, a + b) == MelodyTrace(sin, a) + MelodyTrace(sin, b)
    decreases |a|
  {
    AllPlayableAppend(a, b);
    if |a| == 0 {
      assert a + b == b;
    } else {
      assert (a + b)[1..] == a[1..] + b;
      MelodyTraceAppend(sin, a[1..], b);
    }
  }

  lemma AllPlayableAppend(a: seq<Note>, b: seq<Note>)
    requires AllPlayable(a) && AllPlayable(b)
    ensures AllPlayable(a + b)
  {
  }

  /** Note `k` of the melody is played exactly where the notes before it
      (with their pauses) end, and is followed by exactly one 100 ms pause. */
  lemma NoteSegment(sin: real -> real, notes: seq<Note>, k: nat)
    requires SineAxioms(sin) && AllPlayable(notes) && k < |notes|
    ensures var t := MelodyTrace(sin, notes);
            var start := |MelodyTrace(sin, notes[..k])|;
            var nt := NoteTrace(sin, notes[k].frequency, notes[k].durationMs);
            && start + |nt| < |t|
            && t[start..start + |nt|] == nt
            && t[start + |nt|] == Delay(GapMs)
  {
    var rest := notes[k..];
    assert notes == notes[..k] + rest;
    MelodyTraceAppend(sin, notes[..k], rest);
    assert rest[0] == notes[k];
  }

  /** The melody's trace has one pause per note, every pause is 100 ms, and
      its writes are exactly the writes of the notes. */
  lemma {:induction false} MelodyTraceCounts(sin: real -> real, notes: seq<Note>)
    requires SineAxioms(sin) && AllPlayable(notes)
    ensures DelayCount(MelodyTrace(sin, notes)) == |notes|
    ensures WriteCount(MelodyTrace(sin, notes)) == TotalLoops(notes)
    ensures forall e :: e in MelodyTrace(sin, notes) && e.Delay? ==> e.ms == GapMs
    decreases |notes|
  {
    if |notes| > 0 {
      var n := notes[0];
      var nt := NoteTrace(sin, n.frequency, n.durationMs);
      var rest := MelodyTrace(sin, notes[1..]);
      MelodyTraceCounts(sin, notes[1..]);
      NoteTraceCounts(sin, n.frequency, n.durationMs);
      CountsAppend(nt, [Delay(GapMs)]);
      CountsAppend(nt + [Delay(GapMs)], rest);
      assert DelayCount([Delay(GapMs)]) == 1 by {
        assert [Delay(GapMs)][1..] == [];
      }
      assert WriteCount([Delay(GapMs)]) == 0 by {
        assert [Delay(GapMs)][1..] == [];
      }
    }
  }

  /** `play_melody`: plays each note of `notes` in table order and pauses
      after each one, including the last. */
  method PlayMelody(sin: real -> real, notes: seq<Note>) returns (trace: seq<Event>)
    requires SineAxioms(sin) && AllPlayable(notes)
    ensures trace == MelodyTrace(sin, notes)
  {
    trace := [];
    var i := 0;
    while i < |notes|
      invariant 0 <= i <= |notes|
      invariant trace == MelodyTrace(sin, notes[..i])
    {
      var n := notes[i];
      var nt := PlayNote(sin, n.frequency, n.durationMs);
      MelodyTraceAppend(sin, notes[..i], [n]);
      assert notes[..i] + [n] == notes[..i + 1];
      assert MelodyTrace(sin, [n]) == nt + [Delay(GapMs)];
      trace := trace + nt + [Delay(GapMs)];
      i := i + 1;
    }
    assert notes[..i] == notes;
  }

  /** Every note of the table is playable: the frequencies are valid and no
      duration exceeds 1000 ms, so `duration_ms * SAMPLE_RATE` stays at most
      44,100,000 and cannot overflow a 32-bit `int`. */
  lemma TwinkleFitsInt32()
    ensures MelodyLength == 14
    ensures AllPlayable(Twinkle)
    ensures forall k :: 0 <= k < |Twinkle| ==>
      0 < Twinkle[k].durationMs <= 1000 && Twinkle[k].durationMs * SampleRate <= 44_100_000 <= Int32Max
  {
  }

  /** Playing the table makes 14 pauses and 2721 buffer writes. */
  lemma TwinkleTrace(sin: real -> real)
    requires SineAxioms(sin)
    ensures AllPlayable(Twinkle)
    ensures DelayCount(MelodyTrace(sin, Twinkle)) == 14
    ensures WriteCount(MelodyTrace(sin, Twinkle)) == 2721
  {
    TwinkleFitsInt32();
    MelodyTraceCounts(sin, Twinkle);
    TwinkleLoops();
  }

  /** The write count of each distinct note of the table. */
  lemma TwinkleNoteWrites()
    ensures NoteWrites(261, 500) == 131
    ensures NoteWrites(392, 500) == 196
    ensures NoteWrites(440, 500) == 220
    ensures NoteWrites(392, 1000) == 393
    ensures NoteWrites(349, 500) == 175
    ensures NoteWrites(329, 500) == 164
    ensures NoteWrites(294, 500) == 147
    ensures NoteWrites(261, 1000) == 262
  {
  }

  /** Write counts of the table's notes, in table order. */
  const TwinkleWrites: seq<nat> := [131, 131, 196, 196, 220, 220, 393, 175, 175, 164, 164, 147, 147, 262]

  function Sum(xs: seq<nat>): nat
    decreases |xs|
  {
    if |xs| == 0 then 0 else xs[0] + Sum(xs[1..])
  }

  /** The total write count is the sum of any list that agrees with the
      notes' write counts position by position. */
  lemma {:induction false} TotalLoopsIsSum(notes: seq<Note>, writes: seq<nat>)
    requires AllPlayable(notes) && |writes| == |notes|
    requires forall k :: 0 <= k < |notes| ==> NoteWrites(notes[k].frequency, notes[k].durationMs) == writes[k]
    ensures TotalLoops(notes) == Sum(writes)
    decreases |notes|
  {
    if |notes| > 0 {
      TotalLoopsIsSum(notes[1..], writes[1..]);
    }
  }

  /** The per-note write counts of the table add up to 2721. */
  lemma TwinkleWritesSum()
    ensures Sum(TwinkleWrites) == 2721
  {
  }

  /** Note `k` of the table issues `TwinkleWrites[k]` writes. */
  lemma TwinklePerNote()
    ensures AllPlayable(Twinkle)
    ensures forall k :: 0 <= k < |Twinkle| ==> NoteWrites(Twinkle[k].frequency, Twinkle[k].durationMs) == TwinkleWrites[k]
  {
    TwinkleFitsInt32();
    TwinkleNoteWrites();
  }

  /** Summing the per-note write counts of the table gives 2721 writes. */
  lemma TwinkleLoops()
    ensures AllPlayable(Twinkle)
    ensures TotalLoops(Twinkle) == 2721
  {
    TwinklePerNote();
    TotalLoopsIsSum(Twinkle, TwinkleWrites);
    TwinkleWritesSum();
  }

  /** A two-note melody, 440 Hz for 500 ms then 392 Hz for 1000 ms: 220
      writes, a pause, 393 writes, a pause. */
  lemma TwoNoteExample(sin: real -> real)
    requires SineAxioms(sin)
    ensures AllPlayable([Note(440, 500), Note(392, 1000)])
    ensures var t := MelodyTrace(sin, [Note(440, 500), Note(392, 1000)]);
            && |t| == 220 + 1 + 393 + 1
            && t[220] == Delay(GapMs) && t[614] == Delay(GapMs)
            && DelayCount(t) == 2
  {
    var notes := [Note(440, 500), Note(392, 1000)];
    assert notes[1..] == [Note(392, 1000)];
    MelodyTraceCounts(sin, notes);
  }
}
