/** What a failed write leaves behind the frames it did not count, and when a later batch lands in its place. */
module Leftovers {
  import opened Bytes
  import opened Rf64
  import opened Storage
  import opened CrashSafety
  import R = Recorder

  /** Channel c's part file after a batch `b` that was written behind the frames `a` and the bytes `left`,
      which an earlier, failed write of that channel had come to. */
  function Retried(l: R.Layout, a: seq<Frame>, left: seq<byte>, b: seq<Frame>, c: nat): seq<byte>
    requires c < |l.channels|
  {
    R.PartContent(l, a, c) + left + TrackBytes(b, c)
  }

  /** The recorder counts the frames of both, and finds channel c's samples of them in their place. */
  predicate InStep(l: R.Layout, a: seq<Frame>, left: seq<byte>, b: seq<Frame>, c: nat)
    requires c < |l.channels|
  {
    Carries(Retried(l, a, left, b, c), a + b, c, |a| + |b|)
  }

  /** A batch is in step on a channel if and only if the bytes left behind continue to the batch itself. */
  lemma InStepIff(l: R.Layout, a: seq<Frame>, left: seq<byte>, b: seq<Frame>, c: nat)
    requires c < |l.channels|
    ensures InStep(l, a, left, b, c) <==> TrackBytes(b, c) <= left + TrackBytes(b, c)
  {
    hide TrackBytes, R.PartHeader;
    var audio, more, mid := TrackBytes(a, c), TrackBytes(b, c), AUDIO_OFFSET + BYTES_PER_SAMPLE * |a|;
    var end := mid + BYTES_PER_SAMPLE * |b|;
    var content := Retried(l, a, left, b, c);
    assert (a + b)[..|a| + |b|] == a + b;
    TrackBytesConcat(a, b, c);
    assert content == R.PartHeader(l, c) + audio + (left + more);
    assert content[AUDIO_OFFSET..end] == audio + (left + more)[..|more|];
    assert (audio + (left + more)[..|more|])[|audio|..] == (left + more)[..|more|];
    assert (audio + more)[|audio|..] == more;
  }

  /** Every later batch is in step on a channel if and only if the failed write left nothing on it. */
  lemma AlwaysInStepIff(l: R.Layout, a: seq<Frame>, left: seq<byte>, c: nat)
    requires c < |l.channels|
    ensures (forall b: seq<Frame> :: InStep(l, a, left, b, c)) <==> left == []
  {
    if left == [] {
      forall b: seq<Frame>
        ensures InStep(l, a, left, b, c)
      {
        InStepIff(l, a, left, b, c);
        assert left + TrackBytes(b, c) == TrackBytes(b, c);
      }
    } else {
      var other := Sample(if left[0] == 0 then 1 else 0, 0, 0, 0);
      var b: seq<Frame> := [seq(c + 1, _ => other)];
      hide TrackBytes, InStep;
      StartsWith(b, c, other);
      InStepIff(l, a, left, b, c);
      assert (left + TrackBytes(b, c))[0] == left[0];
    }
  }

  lemma StartsWith(b: seq<Frame>, c: nat, s: Sample)
    requires b != [] && c < |b[0]| && b[0][c] == s
    ensures |TrackBytes(b, c)| >= 4 && TrackBytes(b, c)[..4] == [s.b0, s.b1, s.b2, s.b3]
  {
    TrackBytesConcat([b[0]], b[1..], c);
    assert b == [b[0]] + b[1..];
    assert Track([b[0]], c) == [s];
    assert SampleBytes([s]) == SampleBytes([]) + [s.b0, s.b1, s.b2, s.b3];
  }

  /** A write that came to the first sample of channel 0 and not to channel 1 puts a retry with the same two
      frames out of step with each other: channel 0 repeats its first sample, channel 1 does not. */
  lemma OutOfStep(l: R.Layout, a: seq<Frame>)
    requires |l.channels| == 2
    ensures var b: seq<Frame> := [[Sample(1, 0, 0, 0), SILENCE], [Sample(2, 0, 0, 0), SILENCE]];
      !InStep(l, a, TrackBytes(b[..1], 0), b, 0) && InStep(l, a, [], b, 1)
  {
    hide TrackBytes, InStep;
    var b: seq<Frame> := [[Sample(1, 0, 0, 0), SILENCE], [Sample(2, 0, 0, 0), SILENCE]];
    var left, more := TrackBytes(b[..1], 0), TrackBytes(b, 0);
    InStepIff(l, a, left, b, 0);
    StartsWith(b[1..], 0, Sample(2, 0, 0, 0));
    TrackBytesConcat(b[..1], b[1..], 0);
    assert b == b[..1] + b[1..];
    StartsWith(b, 0, Sample(1, 0, 0, 0));
    assert more[4] == 2 && (left + more)[4] == 1;
    AlwaysInStepIff(l, a, [], 1);
  }
}
