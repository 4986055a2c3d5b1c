/** The interleaved stereo layout of the I2S buffer: slot `2*i` carries the
    left channel's sample `i` and slot `2*i+1` the right channel's. */
module Stereo {
  import opened CInt

  /** Interleaves two channels of equal length into one frame buffer. */
  function Interleave(left: seq<int16>, right: seq<int16>): (buf: seq<int16>)
    requires |left| == |right|
    ensures |buf| == 2 * |left|
    ensures forall i :: 0 <= i < |left| ==> buf[2 * i] == left[i] && buf[2 * i + 1] == right[i]
    decreases |left|
  {
    if |left| == 0 then []
    else
      var rest := Interleave(left[1..], right[1..]);
      assert forall i :: 1 <= i < |left| ==> rest[2 * (i - 1)] == left[i] && rest[2 * (i - 1) + 1] == right[i];
      [left[0], right[0]] + rest
  }

  /** One channel of a frame buffer: parity 0 is the left channel, parity 1
      the right. */
  function Channel(buf: seq<int16>, parity: nat): (ch: seq<int16>)
    requires |buf| % 2 == 0 && parity < 2
    ensures |ch| == |buf| / 2
    ensures forall i :: 0 <= i < |ch| ==> ch[i] == buf[2 * i + parity]
  {
    seq(|buf| / 2, i requires 0 <= i < |buf| / 2 => buf[2 * i + parity])
  }

  /** Taking a channel back out of an interleaved buffer returns it unchanged. */
  lemma ChannelOfInterleave(left: seq<int16>, right: seq<int16>)
    requires |left| == |right|
    ensures Channel(Interleave(left, right), 0) == left
    ensures Channel(Interleave(left, right), 1) == right
  {
  }

  /** Conversely, every even-length buffer is the interleaving of its two
      channels, so the layout loses nothing. */
  lemma InterleaveOfChannels(buf: seq<int16>)
    requires |buf| % 2 == 0
    ensures Interleave(Channel(buf, 0), Channel(buf, 1)) == buf
  {
    var r := Interleave(Channel(buf, 0), Channel(buf, 1));
    forall k | 0 <= k < |buf|
      ensures r[k] == buf[k]
    {
      var j := k / 2;
      assert j < |buf| / 2;
      if k % 2 == 0 {
        assert k == 2 * j && r[2 * j] == Channel(buf, 0)[j];
      } else {
        assert k == 2 * j + 1 && r[2 * j + 1] == Channel(buf, 1)[j];
      }
    }
  }

  /** A buffer whose two channels are the same signal: every left slot equals
      the right slot that follows it. */
  predicate DualMono(buf: seq<int16>) {
    |buf| % 2 == 0 && forall i :: 0 <= i < |buf| / 2 ==> buf[2 * i] == buf[2 * i + 1]
  }

  /** Duplicating one signal into both channels gives a dual-mono buffer, and
      a dual-mono buffer is always such a duplication. */
  lemma DualMonoIffDuplicated(buf: seq<int16>)
    ensures DualMono(buf) <==> (|buf| % 2 == 0 && buf == Interleave(Channel(buf, 0), Channel(buf, 0)))
  {
    if |buf| % 2 == 0 {
      InterleaveOfChannels(buf);
      if buf == Interleave(Channel(buf, 0), Channel(buf, 0)) {
        assert DualMono(buf);
      }
      if DualMono(buf) {
        assert Channel(buf, 0) == Channel(buf, 1);
      }
    }
  }
}
