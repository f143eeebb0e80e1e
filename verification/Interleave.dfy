/** Interleaved samples and the frames they carry. */
module Interleave {
  import opened Bytes
  import opened Division
  import opened Rf64
  import opened Storage
  import opened CrashSafety

  /** chunks_exact: the whole frames of an interleaved buffer. */
  function Frames(samples: seq<Sample>, channels: nat): (frames: seq<Frame>)
    requires channels > 0
    ensures forall frame <- frames :: |frame| == channels
    decreases |samples|
  {
    if |samples| < channels then [] else [samples[..channels]] + Frames(samples[channels..], channels)
  }

  lemma {:induction false} FrameCount(samples: seq<Sample>, channels: nat)
    requires channels > 0
    ensures |Frames(samples, channels)| == |samples| / channels
    decreases |samples|
  {
    if |samples| < channels {
      QuotientOfRemainder(|samples|, channels, 0, |samples|);
    } else {
      FrameCount(samples[channels..], channels);
      var rest := |samples| - channels;
      assert |samples| == (rest / channels + 1) * channels + rest % channels;
      QuotientOfRemainder(|samples|, channels, rest / channels + 1, rest % channels);
    }
  }

  /** Frame f, channel c is interleaved sample f * channels + c. */
  lemma {:induction false} FrameAt(samples: seq<Sample>, channels: nat, f: nat, c: nat)
    requires c < channels && f < |Frames(samples, channels)|
    ensures f * channels + c < |samples| && Frames(samples, channels)[f][c] == samples[f * channels + c]
    decreases f
  {
    if f == 0 {
    } else {
      FrameAt(samples[channels..], channels, f - 1, c);
      assert f * channels + c == (f - 1) * channels + c + channels;
    }
  }

  /** Cutting a stream at whole frames cuts its list of frames. */
  lemma {:induction false} FramesConcat(a: seq<Sample>, b: seq<Sample>, channels: nat)
    requires channels > 0 && |a| % channels == 0
    ensures Frames(a + b, channels) == Frames(a, channels) + Frames(b, channels)
    decreases |a|
  {
    if a == [] {
      assert a + b == b;
    } else {
      assert |a| >= channels by {
        if |a| < channels {
          QuotientOfRemainder(|a|, channels, 0, |a|);
        }
      }
      var rest := a[channels..];
      var q := |a| / channels;
      assert |a| == q * channels;
      assert |rest| == (q - 1) * channels + 0;
      QuotientOfRemainder(|rest|, channels, q - 1, 0);
      FramesConcat(rest, b, channels);
      assert (a + b)[..channels] == a[..channels];
      assert (a + b)[channels..] == rest + b;
    }
  }

  /** The interleaved buffer of a list of frames. */
  function Interleaved(frames: seq<Frame>): (samples: seq<Sample>) {
    if frames == [] then [] else Interleaved(frames[..|frames| - 1]) + frames[|frames| - 1]
  }

  lemma OneFrameOf(frame: Frame)
    requires frame != []
    ensures Frames(frame, |frame|) == [frame]
  {
    assert frame[..|frame|] == frame;
    assert Frames(frame[|frame|..], |frame|) == [];
  }

  lemma NoFrames(channels: nat)
    requires channels > 0
    ensures Interleaved([]) == [] && Frames([], channels) == []
  {
  }

  lemma InterleavedSnoc(frames: seq<Frame>, frame: Frame)
    ensures Interleaved(frames + [frame]) == Interleaved(frames) + frame
  {
    assert (frames + [frame])[..|frames|] == frames;
  }

  /** Cutting the interleaved buffer gives the frames back. */
  lemma {:induction false} FramesOfInterleaved(frames: seq<Frame>, channels: nat)
    requires channels > 0 && forall frame <- frames :: |frame| == channels
    ensures |Interleaved(frames)| == |frames| * channels
    ensures Frames(Interleaved(frames), channels) == frames
  {
    hide Frames, Interleaved;
    NoFrames(channels);
    if frames != [] {
      var n := |frames| - 1;
      var init, last := frames[..n], frames[n];
      assert init + [last] == frames && last in frames;
      FramesOfInterleaved(init, channels);
      InterleavedSnoc(init, last);
      assert (n + 1) * channels == n * channels + channels;
      Multiple(channels, n);
      FramesConcat(Interleaved(init), last, channels);
      OneFrameOf(last);
    }
  }

  function Silence(frames: nat, channels: nat): seq<Frame> {
    seq(frames, _ => seq(channels, _ => SILENCE))
  }

  lemma {:induction false} FramesOfSilence(frames: nat, channels: nat)
    requires channels > 0
    ensures Frames(seq(frames * channels, _ => SILENCE), channels) == Silence(frames, channels)
    decreases frames
  {
    var zeros := seq(frames * channels, _ => SILENCE);
    if frames > 0 {
      assert frames * channels == (frames - 1) * channels + channels;
      assert zeros[..channels] == seq(channels, _ => SILENCE);
      assert zeros[channels..] == seq((frames - 1) * channels, _ => SILENCE);
      FramesOfSilence(frames - 1, channels);
      assert Silence(frames, channels) == [seq(channels, _ => SILENCE)] + Silence(frames - 1, channels);
    }
  }

  /** The bytes written to one channel's file for an interleaved buffer. */
  method TrackOf(samples: seq<Sample>, channels: nat, channel: nat) returns (bytes: seq<byte>)
    requires channel < channels
    ensures bytes == TrackBytes(Frames(samples, channels), channel)
  {
    hide TrackBytes;
    bytes := [];
    var rest := samples;
    ghost var done: seq<Frame> := [];
    assert bytes == TrackBytes(done, channel);
    while |rest| >= channels
      invariant done + Frames(rest, channels) == Frames(samples, channels)
      invariant bytes == TrackBytes(done, channel)
      decreases |rest|
    {
      var s := rest[channel];
      ghost var frame := rest[..channels];
      OneFrame(done, frame, channel);
      bytes := bytes + [s.b0, s.b1, s.b2, s.b3];
      done := done + [frame];
      rest := rest[channels..];
    }
    assert done + [] == done;
  }

  lemma OneFrame(done: seq<Frame>, frame: Frame, c: nat)
    requires c < |frame|
    ensures var s := frame[c]; TrackBytes(done + [frame], c) == TrackBytes(done, c) + [s.b0, s.b1, s.b2, s.b3]
  {
    TrackBytesConcat(done, [frame], c);
    SampleBytesOfOne(frame[c]);
    assert Track([frame], c) == [frame[c]];
  }

  lemma SampleBytesOfOne(s: Sample)
    ensures SampleBytes([s]) == [s.b0, s.b1, s.b2, s.b3]
  {
    assert SampleBytes([s][..0]) == [];
  }

  /** De-interleaving: what channel c's file holds is every channels-th sample, from sample c on. */
  lemma TrackIsDeinterleaved(samples: seq<Sample>, channels: nat, c: nat, f: nat)
    requires c < channels && f < |samples| / channels
    ensures |Track(Frames(samples, channels), c)| == |samples| / channels
    ensures f * channels + c < |samples| && Track(Frames(samples, channels), c)[f] == samples[f * channels + c]
  {
    FrameCount(samples, channels);
    FrameAt(samples, channels, f, c);
    assert Frames(samples, channels)[f] in Frames(samples, channels);
  }
}
