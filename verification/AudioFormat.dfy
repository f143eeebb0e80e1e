/** The audio files byte by byte, and what validation sees of them. */
module AudioFormat {
  import opened Bytes
  import opened Wrappers
  import opened Rf64
  import opened Session
  import opened Storage
  import opened CrashSafety
  import R = Recorder
  import Recovery

  // ---- the bytes ----

  function Zero(count: nat): seq<byte> {
    seq(count, _ => 0)
  }

  /** A text in a field of fixed width. */
  function Field(text: seq<byte>, width: nat): (f: seq<byte>)
    ensures CutOrPadded(f, text, width)
  {
    seq(width, k => if 0 <= k < |text| then text[k] else 0)
  }

  /** The first 690 bytes: RF64, ds64 with the three sizes, bext, fmt, and the head of data. */
  function HeaderBytes(sizes: seq<byte>, sampleRate: u32, id: Identity): seq<byte> {
    [0x52, 0x46, 0x36, 0x34] + [0xFF, 0xFF, 0xFF, 0xFF] + [0x57, 0x41, 0x56, 0x45]
    + ([0x64, 0x73, 0x36, 0x34] + [28, 0, 0, 0])
    + sizes
    + ([0, 0, 0, 0]
       + ([0x62, 0x65, 0x78, 0x74] + [0x5A, 2, 0, 0]
          + (Field(id.description, 256) + Field([0x49, 0x63, 0x65, 0x70, 0x6F, 0x64], 32) + Field(id.session, 32)
             + Field(id.date, 10) + Field(id.time, 8) + Zero(8) + [2, 0] + Zero(64) + Zero(10) + Zero(180)))
       + ([0x66, 0x6D, 0x74, 0x20] + [16, 0, 0, 0]
          + ([3, 0] + [1, 0] + LE(sampleRate, 4) + LE(sampleRate * 4 % 0x1_0000_0000, 4) + [4, 0] + [32, 0]))
       + [0x64, 0x61, 0x74, 0x61] + [0xFF, 0xFF, 0xFF, 0xFF])
  }

  /** The sizes of a file of `count` samples: of all but its first eight bytes, of the audio, and the count. */
  function SizeBytes(count: nat): seq<byte> {
    LE(690 + 4 * count - 8, 8) + LE(4 * count, 8) + LE(count, 8)
  }

  lemma FixedIsField(text: seq<byte>, width: nat)
    ensures Fixed(text, width) == Field(text, width)
  {
  }

  lemma Numbers()
    ensures LE(2, 2) == [2, 0] && LE(3, 2) == [3, 0] && LE(1, 2) == [1, 0] && LE(4, 2) == [4, 0] && LE(32, 2) == [32, 0]
    ensures LE(0, 4) == [0, 0, 0, 0] && LE(28, 4) == [28, 0, 0, 0] && LE(16, 4) == [16, 0, 0, 0]
    ensures LE(602, 4) == [0x5A, 2, 0, 0] && LE(UNKNOWN_SIZE, 4) == [0xFF, 0xFF, 0xFF, 0xFF] && LE(0, 8) == Zero(8)
  {
    hide LE;
    LittleEndian(0);
    LittleEndian(1);
    LittleEndian(2);
    LittleEndian(3);
    LittleEndian(4);
    LittleEndian(16);
    LittleEndian(28);
    LittleEndian(32);
    LittleEndian(602);
    LittleEndian(UNKNOWN_SIZE);
    LittleEndian(0xFFFF);
  }

  lemma Icepod()
    ensures ICEPOD == [0x49, 0x63, 0x65, 0x70, 0x6F, 0x64]
  {
  }

  lemma BextBytes(id: Identity)
    ensures BextBody(id)
         == Field(id.description, 256) + Field([0x49, 0x63, 0x65, 0x70, 0x6F, 0x64], 32) + Field(id.session, 32)
            + Field(id.date, 10) + Field(id.time, 8) + Zero(8) + [2, 0] + Zero(64) + Zero(10) + Zero(180)
  {
    hide Fixed, Field, LE;
    Numbers();
    Icepod();
    FixedIsField(id.description, 256);
    FixedIsField(ICEPOD, 32);
    FixedIsField(id.session, 32);
    FixedIsField(id.date, 10);
    FixedIsField(id.time, 8);
  }

  lemma MiddleBytes(sampleRate: u32, id: Identity, sizes: seq<byte>)
    ensures Preamble() + sizes + Middle(sampleRate, id) == HeaderBytes(sizes, sampleRate, id)
  {
    hide LE, BextBody, Field;
    Numbers();
    BextBytes(id);
  }

  /** A part file begins with these bytes, its sizes all zero. */
  lemma HeaderIs(sampleRate: u32, id: Identity)
    ensures Header(sampleRate, id) == HeaderBytes(Zero(24), sampleRate, id)
  {
    hide LE, HeaderBytes, Middle, Preamble;
    Numbers();
    assert Sizes(0, 0, 0) == Zero(24);
    MiddleBytes(sampleRate, id, Zero(24));
  }

  /** A finished file is these bytes with its sizes, and the samples. */
  lemma FinishedIs(sampleRate: u32, id: Identity, samples: seq<Sample>)
    ensures Finished(sampleRate, id, samples)
         == HeaderBytes(SizeBytes(|samples|), sampleRate, id) + SampleBytes(samples)
  {
    hide LE, HeaderBytes, Middle, Preamble, Finished, SampleBytes;
    FinishedParts(sampleRate, id, samples);
    MiddleBytes(sampleRate, id, SizeBytes(|samples|));
  }

  /** The four bytes of sample f, in order. */
  lemma {:induction false} SampleAt(samples: seq<Sample>, f: nat)
    requires f < |samples|
    ensures SampleBytes(samples)[4 * f..4 * f + 4]
         == [samples[f].b0, samples[f].b1, samples[f].b2, samples[f].b3]
  {
    var n := |samples| - 1;
    var init := samples[..n];
    if f < n {
      SampleAt(init, f);
      assert SampleBytes(samples)[4 * f..4 * f + 4] == SampleBytes(init)[4 * f..4 * f + 4];
    }
  }

  // ---- the files of a take ----

  /** What the header of a file says of its take. */
  lemma StampReads(texts: Texts, title: seq<byte>, device: seq<byte>)
    ensures var id := Stamp(texts, title, device);
      && id.description == Ascii("Icepod session ") + texts.session + Ascii("; take ") + texts.take
                           + Ascii("; channel ") + title + Ascii("; device ") + device
      && id.session == texts.session && id.date == texts.date && id.time == texts.time
  {
  }

  /** The file has this header, and behind it sample for sample channel c of the frames. */
  predicate Describes(file: seq<byte>, header: seq<byte>, frames: seq<Frame>, c: nat) {
    && |file| == |header| + 4 * |frames| && file[..|header|] == header
    && forall f :: 0 <= f < |frames| && c < |frames[f]| ==>
         var s := frames[f][c];
         file[|header| + 4 * f..|header| + 4 * f + 4] == [s.b0, s.b1, s.b2, s.b3]
  }

  lemma DescribesTrack(header: seq<byte>, frames: seq<Frame>, c: nat)
    ensures Describes(header + SampleBytes(Track(frames, c)), header, frames, c)
  {
    hide SampleBytes;
    var audio := SampleBytes(Track(frames, c));
    forall f | 0 <= f < |frames| && c < |frames[f]|
      ensures (header + audio)[|header| + 4 * f..|header| + 4 * f + 4]
           == [frames[f][c].b0, frames[f][c].b1, frames[f][c].b2, frames[f][c].b3]
    {
      SampleAt(Track(frames, c), f);
      assert (header + audio)[|header| + 4 * f..|header| + 4 * f + 4] == audio[4 * f..4 * f + 4];
    }
  }

  /** The file that a take publishes for channel c, and the part file it comes from. */
  lemma PublishedFile(m: Manifest, device: seq<byte>, frames: seq<Frame>, c: nat)
    requires c < |m.channels|
    ensures var labels := Stamp(m.texts, m.channels[c].title, device);
      && Describes(R.PartContent(R.LayoutOf(m, device), frames, c),
                   HeaderBytes(Zero(24), m.sampleRate, labels), frames, c)
      && Describes(R.FinishedPart(R.LayoutOf(m, device), frames, c),
                   HeaderBytes(SizeBytes(|frames|), m.sampleRate, labels), frames, c)
  {
    hide Finished, Header, HeaderBytes, Describes, SampleBytes;
    var labels := Stamp(m.texts, m.channels[c].title, device);
    HeaderIs(m.sampleRate, labels);
    FinishedIs(m.sampleRate, labels, Track(frames, c));
    DescribesTrack(HeaderBytes(Zero(24), m.sampleRate, labels), frames, c);
    DescribesTrack(HeaderBytes(SizeBytes(|frames|), m.sampleRate, labels), frames, c);
  }

  /** The file that recovery makes of a part file that carries the first n frames: the device it names is
      the word "recovered". */
  lemma RecoveredFileIs(m: Manifest, part: seq<byte>, frames: seq<Frame>, n: nat, c: nat)
    requires c < |m.channels| && Carries(part, frames, c, n)
    ensures Describes(Recovery.RecoveredFile(m, c, part, n),
                      HeaderBytes(SizeBytes(n), m.sampleRate, Stamp(m.texts, m.channels[c].title, Ascii("recovered"))),
                      frames[..n], c)
  {
    hide Finished, HeaderBytes, Describes, SampleBytes;
    var labels := Stamp(m.texts, m.channels[c].title, Ascii("recovered"));
    SamplesRoundTrip(Track(frames[..n], c));
    FinishedIs(m.sampleRate, labels, Track(frames[..n], c));
    DescribesTrack(HeaderBytes(SizeBytes(n), m.sampleRate, labels), frames[..n], c);
  }

  // ---- validation ----

  lemma NumberIff(s: seq<byte>, n: nat)
    requires |s| == 8 && n < U64_SPAN
    ensures FromLE(s) == n <==> s == LE(n, 8)
  {
    ToFromLE(s);
    FixedWidthRoundTrip(n);
  }

  /** The 28 bytes that validation looks at. */
  predicate Marked(file: seq<byte>, frames: nat) {
    && |file| >= 48
    && file[..4] == [0x52, 0x46, 0x36, 0x34] && file[8..12] == [0x57, 0x41, 0x56, 0x45]
    && file[12..16] == [0x64, 0x73, 0x36, 0x34]
    && file[28..36] == LE(4 * frames, 8) && file[36..44] == LE(frames, 8)
  }

  /** Validation accepts exactly the files of the right length with the right marks and sizes, and a nonzero
      rate; of a damaged file it sees the damage exactly if one of these 28 bytes or the length is affected. */
  lemma ValidationSees(file: seq<byte>, sampleRate: u32, frames: nat)
    requires Describable(frames)
    ensures Validate(file, sampleRate, frames) == Ok(())
            <==> |file| == 690 + 4 * frames && Marked(file, frames) && sampleRate != 0
    ensures Validate(file, sampleRate, frames) == Err(LengthMismatch) <==> |file| != 690 + 4 * frames
    ensures Validate(file, sampleRate, frames) != Err(UnexpectedEnd)
  {
    hide FromLE, LE;
    if |file| >= 48 {
      NumberIff(file[28..36], 4 * frames);
      NumberIff(file[36..44], frames);
    }
  }

  /** A file that was finished and then damaged, its length kept. */
  lemma DamageIsSeenIff(sampleRate: u32, id: Identity, samples: seq<Sample>, file: seq<byte>)
    requires Describable(|samples|) && sampleRate != 0 && |file| == |Finished(sampleRate, id, samples)|
    ensures var f := Finished(sampleRate, id, samples);
      && |f| >= 690
      && (Validate(file, sampleRate, |samples|) == Ok(())
          <==> file[..4] == f[..4] && file[8..16] == f[8..16] && file[28..44] == f[28..44])
  {
    hide FromLE, LE, Finished, Validate;
    var f := Finished(sampleRate, id, samples);
    FinishedFields(sampleRate, id, samples);
    FinishedIsValid(sampleRate, id, samples);
    ValidationSees(f, sampleRate, |samples|);
    ValidationSees(file, sampleRate, |samples|);
    assert f[8..16] == f[8..12] + f[12..16] && file[8..16] == file[8..12] + file[12..16];
    assert f[28..44] == f[28..36] + f[36..44] && file[28..44] == file[28..36] + file[36..44];
    assert f[8..16][..4] == f[8..12] && f[8..16][4..] == f[12..16];
    assert file[8..16][..4] == file[8..12] && file[8..16][4..] == file[12..16];
    assert f[28..44][..8] == f[28..36] && f[28..44][8..] == f[36..44];
    assert file[28..44][..8] == file[28..36] && file[28..44][8..] == file[36..44];
  }
}
