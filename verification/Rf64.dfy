/** The audio files: the RF64 header written in advance, the sizes filled in at the end, the check made
    before a file is published, and an independent reader that walks the chunks. */
module Rf64 {
  import opened Bytes
  import opened Wrappers

  const AUDIO_OFFSET := 690
  const BYTES_PER_SAMPLE := 4
  const SIZES_OFFSET := 20
  const UNKNOWN_SIZE: u32 := 0xFFFF_FFFF

  const RF64: seq<byte> := [0x52, 0x46, 0x36, 0x34]
  const WAVE: seq<byte> := [0x57, 0x41, 0x56, 0x45]
  const DS64: seq<byte> := [0x64, 0x73, 0x36, 0x34]
  const BEXT: seq<byte> := [0x62, 0x65, 0x78, 0x74]
  const FMT: seq<byte> := [0x66, 0x6D, 0x74, 0x20]
  const DATA: seq<byte> := [0x64, 0x61, 0x74, 0x61]
  const ICEPOD: seq<byte> := Ascii("Icepod")

  /** A 32-bit float sample, kept as its four little-endian bytes. */
  datatype Sample = Sample(b0: byte, b1: byte, b2: byte, b3: byte)

  const SILENCE := Sample(0, 0, 0, 0)

  function SampleBytes(samples: seq<Sample>): (b: seq<byte>)
    ensures |b| == BYTES_PER_SAMPLE * |samples|
  {
    if samples == [] then []
    else
      var last := samples[|samples| - 1];
      SampleBytes(samples[..|samples| - 1]) + [last.b0, last.b1, last.b2, last.b3]
  }

  /** The complete samples of a byte string; an incomplete last one is dropped. */
  function ReadSamples(b: seq<byte>): (samples: seq<Sample>) {
    if |b| < 4 then [] else [Sample(b[0], b[1], b[2], b[3])] + ReadSamples(b[4..])
  }

  /** The text fields of the bext chunk. The header keeps as much of each as its field holds. */
  datatype Identity = Identity(description: seq<byte>, session: seq<byte>, date: seq<byte>, time: seq<byte>)

  function Zeros(n: nat): (b: seq<byte>)
    ensures |b| == n
  {
    seq(n, _ => 0)
  }

  /** write_fixed: cut or zero-padded to `length`. */
  function Fixed(value: seq<byte>, length: nat): (b: seq<byte>)
    ensures |b| == length
  {
    var used := if |value| < length then |value| else length;
    value[..used] + Zeros(length - used)
  }

  function Preamble(): (b: seq<byte>)
    ensures |b| == SIZES_OFFSET
  {
    RF64 + LE(UNKNOWN_SIZE, 4) + WAVE + (DS64 + LE(28, 4))
  }

  /** The 64-bit RIFF size, data size and sample count of ds64; u64 arithmetic keeps the low eight bytes. */
  function Sizes(riff: nat, data: nat, count: nat): (b: seq<byte>)
    ensures |b| == 24
  {
    LE(riff, 8) + LE(data, 8) + LE(count, 8)
  }

  function BextBody(id: Identity): (b: seq<byte>)
    ensures |b| == 602
  {
    Fixed(id.description, 256) + Fixed(ICEPOD, 32) + Fixed(id.session, 32) + Fixed(id.date, 10) + Fixed(id.time, 8)
    + LE(0, 8) + LE(2, 2) + Zeros(64) + Zeros(10) + Zeros(180)
  }

  /** The byte rate is a wrapping u32 product. */
  function FmtBody(sampleRate: u32): (b: seq<byte>)
    ensures |b| == 16
  {
    LE(3, 2) + LE(1, 2) + LE(sampleRate, 4) + LE(sampleRate * 4 % U32_SPAN, 4) + LE(4, 2) + LE(32, 2)
  }

  function ChunkBytes(id: seq<byte>, size: u32, body: seq<byte>): (b: seq<byte>)
    ensures |b| == |id| + 4 + |body|
  {
    id + LE(size, 4) + body
  }

  /** Everything between the ds64 sizes and the audio. */
  function Middle(sampleRate: u32, id: Identity): (b: seq<byte>)
    ensures |b| == AUDIO_OFFSET - SIZES_OFFSET - 24
  {
    LE(0, 4) + ChunkBytes(BEXT, 602, BextBody(id)) + ChunkBytes(FMT, 16, FmtBody(sampleRate))
    + DATA + LE(UNKNOWN_SIZE, 4)
  }

  /** write_rf64_header: the audio starts at byte 690 whatever the texts. */
  function Header(sampleRate: u32, id: Identity): (b: seq<byte>)
    ensures |b| == AUDIO_OFFSET
  {
    Preamble() + Sizes(0, 0, 0) + Middle(sampleRate, id)
  }

  /** finalize_rf64: the three sizes overwritten in place. */
  function Finalized(file: seq<byte>, frames: nat): (b: seq<byte>)
    requires |file| >= AUDIO_OFFSET
    ensures |b| == |file| && b[AUDIO_OFFSET..] == file[AUDIO_OFFSET..]
  {
    var size := frames * BYTES_PER_SAMPLE;
    var b := file[..SIZES_OFFSET] + Sizes(AUDIO_OFFSET + size - 8, size, frames) + file[SIZES_OFFSET + 24..];
    assert forall i :: AUDIO_OFFSET <= i < |file| ==> b[i] == file[i];
    b
  }

  datatype ValidationError = LengthMismatch | UnexpectedEnd | InvalidHeader | InvalidSizes

  /** validate_rf64. */
  function Validate(file: seq<byte>, sampleRate: u32, frames: nat): Result<(), ValidationError> {
    var size := frames * BYTES_PER_SAMPLE;
    if |file| != (AUDIO_OFFSET + size) % U64_SPAN then Err(LengthMismatch)
    else if |file| < 48 then Err(UnexpectedEnd)
    else if file[..4] != RF64 || file[8..12] != WAVE || file[12..16] != DS64 then Err(InvalidHeader)
    else if FromLE(file[28..36]) != size % U64_SPAN || FromLE(file[36..44]) != frames % U64_SPAN || sampleRate == 0 then
      Err(InvalidSizes)
    else Ok(())
  }

  // ---- an independent reader ----

  datatype Chunk = Chunk(id: seq<byte>, body: seq<byte>)

  /** The chunks of a RIFF-style body; a data chunk of unknown size takes its size from ds64. */
  function Walk(bytes: seq<byte>, dataSize: nat): Option<seq<Chunk>>
    decreases |bytes|
  {
    if bytes == [] then Some([])
    else if |bytes| < 8 then None
    else
      var stated := FromLE(bytes[4..8]);
      var size := if bytes[..4] == DATA && stated == UNKNOWN_SIZE then dataSize else stated;
      var end := 8 + size + size % 2;
      if end > |bytes| then None
      else
        Prepend(Chunk(bytes[..4], bytes[8..8 + size]), Walk(bytes[end..], dataSize))
  }

  function Prepend(chunk: Chunk, rest: Option<seq<Chunk>>): Option<seq<Chunk>> {
    match rest
    case None => None
    case Some(more) => Some([chunk] + more)
  }

  /** The texts and numbers of the bext chunk, each text as long as its field. */
  datatype Broadcast = Broadcast(
    description: seq<byte>,
    originator: seq<byte>,
    reference: seq<byte>,
    date: seq<byte>,
    time: seq<byte>,
    timeReference: nat,
    version: nat)

  datatype WaveContent = WaveContent(
    sampleRate: nat,
    byteRate: nat,
    blockAlign: nat,
    format: nat,
    channels: nat,
    bits: nat,
    broadcast: Broadcast,
    samples: seq<Sample>)

  /** Reads a broadcast wave RF64 file: EBU Tech 3306 for ds64, EBU Tech 3285 section 2.3 for bext. */
  function ReadWave(file: seq<byte>): Option<WaveContent> {
    if |file| < 48 || file[..4] != RF64 || FromLE(file[4..8]) != UNKNOWN_SIZE || file[8..12] != WAVE
       || file[12..16] != DS64
    then None
    else if FromLE(file[20..28]) != |file| - 8 then None
    else
      match Walk(file[12..], FromLE(file[28..36]))
      case None => None
      case Some(chunks) => ContentOf(chunks, FromLE(file[36..44]))
  }

  function BroadcastOf(bext: seq<byte>): Broadcast
    requires |bext| == 602
  {
    Broadcast(bext[..256], bext[256..288], bext[288..320], bext[320..330], bext[330..338],
              FromLE(bext[338..346]), FromLE(bext[346..348]))
  }

  /** The content of the four chunks, if they hold `count` samples, and if a frame is as long, and a second as
      many bytes, as the other numbers say. */
  function ContentOf(chunks: seq<Chunk>, count: nat): Option<WaveContent> {
    if |chunks| != 4 || chunks[0].id != DS64 || |chunks[0].body| != 28
       || chunks[1].id != BEXT || |chunks[1].body| != 602
       || chunks[2].id != FMT || |chunks[2].body| != 16 || chunks[3].id != DATA then None
    else
      var fmt := chunks[2].body;
      var format, channels, rate := FromLE(fmt[0..2]), FromLE(fmt[2..4]), FromLE(fmt[4..8]);
      var byteRate, blockAlign, bits := FromLE(fmt[8..12]), FromLE(fmt[12..14]), FromLE(fmt[14..16]);
      var samples := ReadSamples(chunks[3].body);
      if |samples| != count || blockAlign * 8 != channels * bits || byteRate != rate * blockAlign % U32_SPAN then None
      else
        Some(WaveContent(rate, byteRate, blockAlign, format, channels, bits, BroadcastOf(chunks[1].body), samples))
  }

  // ---- the reader undoes the writer ----

  lemma {:induction false} ReadSamplesAppend(b: seq<byte>, s: Sample)
    requires |b| % 4 == 0
    ensures ReadSamples(b + [s.b0, s.b1, s.b2, s.b3]) == ReadSamples(b) + [s]
    decreases |b|
  {
    var whole := b + [s.b0, s.b1, s.b2, s.b3];
    if b == [] {
      assert ReadSamples(whole[4..]) == [];
    } else {
      assert whole[4..] == b[4..] + [s.b0, s.b1, s.b2, s.b3];
      ReadSamplesAppend(b[4..], s);
    }
  }

  lemma {:induction false} SamplesRoundTrip(samples: seq<Sample>)
    ensures ReadSamples(SampleBytes(samples)) == samples
  {
    if samples != [] {
      var n := |samples| - 1;
      SamplesRoundTrip(samples[..n]);
      ReadSamplesAppend(SampleBytes(samples[..n]), samples[n]);
    }
  }

  lemma WalkChunk(id: seq<byte>, size: u32, body: seq<byte>, rest: seq<byte>, dataSize: nat)
    requires |id| == 4 && |body| % 2 == 0
    requires if id == DATA && size == UNKNOWN_SIZE then dataSize == |body| else size == |body|
    ensures Walk(ChunkBytes(id, size, body) + rest, dataSize) == Prepend(Chunk(id, body), Walk(rest, dataSize))
  {
    hide FromLE, LE;
    var bytes := ChunkBytes(id, size, body) + rest;
    assert bytes[..4] == id;
    assert bytes[4..8] == LE(size, 4);
    assert bytes[8..8 + |body|] == body;
    assert bytes[8 + |body|..] == rest;
    FixedWidthRoundTrip(size);
  }

  /** A finished file: header with its final sizes, then the samples. */
  function Finished(sampleRate: u32, id: Identity, samples: seq<Sample>): seq<byte> {
    Finalized(Header(sampleRate, id) + SampleBytes(samples), |samples|)
  }

  function FinalSizes(count: nat): (b: seq<byte>)
    ensures |b| == 24
  {
    Sizes(AUDIO_OFFSET + count * BYTES_PER_SAMPLE - 8, count * BYTES_PER_SAMPLE, count)
  }

  lemma Replaced(a: seq<byte>, b: seq<byte>, c: seq<byte>, d: seq<byte>, b': seq<byte>)
    ensures var file := a + b + c + d; file[..|a|] + b' + file[|a| + |b|..] == a + b' + c + d
  {
  }

  lemma FinishedParts(sampleRate: u32, id: Identity, samples: seq<Sample>)
    ensures Finished(sampleRate, id, samples)
         == Preamble() + FinalSizes(|samples|) + Middle(sampleRate, id) + SampleBytes(samples)
  {
    hide Preamble, Sizes, Middle, SampleBytes;
    Replaced(Preamble(), Sizes(0, 0, 0), Middle(sampleRate, id), SampleBytes(samples), FinalSizes(|samples|));
  }

  lemma PreambleFields(rest: seq<byte>)
    ensures var f := Preamble() + rest;
      f[..4] == RF64 && FromLE(f[4..8]) == UNKNOWN_SIZE && f[8..12] == WAVE && f[12..16] == DS64
      && f[12..20] == DS64 + LE(28, 4)
  {
    hide FromLE, LE;
    var f := Preamble() + rest;
    assert f[..4] == RF64;
    assert f[4..8] == LE(UNKNOWN_SIZE, 4);
    assert f[8..12] == WAVE;
    assert f[12..16] == DS64;
    assert f[16..20] == LE(28, 4);
    FixedWidthRoundTrip(UNKNOWN_SIZE);
  }

  lemma SizesFields(riff: nat, data: nat, count: nat, before: seq<byte>, rest: seq<byte>)
    requires riff < U64_SPAN && data < U64_SPAN && count < U64_SPAN && |before| == SIZES_OFFSET
    ensures var f := before + Sizes(riff, data, count) + rest;
      FromLE(f[20..28]) == riff && FromLE(f[28..36]) == data && FromLE(f[36..44]) == count
  {
    hide FromLE, LE;
    var f := before + Sizes(riff, data, count) + rest;
    assert f[20..28] == LE(riff, 8);
    assert f[28..36] == LE(data, 8);
    assert f[36..44] == LE(count, 8);
    FixedWidthRoundTrip(riff);
    FixedWidthRoundTrip(data);
    FixedWidthRoundTrip(count);
  }

  /** The sizes of any file that a 64-bit size field can describe. */
  predicate Describable(count: nat) {
    AUDIO_OFFSET + count * BYTES_PER_SAMPLE < U64_SPAN
  }

  /** The fixed fields of a finished file, and its sizes. */
  lemma FinishedFields(sampleRate: u32, id: Identity, samples: seq<Sample>)
    requires Describable(|samples|)
    ensures var f := Finished(sampleRate, id, samples);
      && |f| == AUDIO_OFFSET + |samples| * BYTES_PER_SAMPLE
      && f[..4] == RF64 && FromLE(f[4..8]) == UNKNOWN_SIZE && f[8..12] == WAVE && f[12..16] == DS64
      && FromLE(f[20..28]) == |f| - 8 && FromLE(f[28..36]) == |samples| * BYTES_PER_SAMPLE
      && FromLE(f[36..44]) == |samples|
  {
    hide FromLE, LE, Preamble, Sizes, Middle, SampleBytes, Finished;
    var n := |samples|;
    FinishedParts(sampleRate, id, samples);
    var rest := Middle(sampleRate, id) + SampleBytes(samples);
    var file := Finished(sampleRate, id, samples);
    assert file == Preamble() + (FinalSizes(n) + rest);
    assert file == Preamble() + FinalSizes(n) + rest;
    PreambleFields(FinalSizes(n) + rest);
    SizesFields(AUDIO_OFFSET + n * BYTES_PER_SAMPLE - 8, n * BYTES_PER_SAMPLE, n, Preamble(), rest);
  }

  /** A finished file passes validation for every identity, nonzero rate and sample list. */
  lemma FinishedIsValid(sampleRate: u32, id: Identity, samples: seq<Sample>)
    requires Describable(|samples|) && sampleRate != 0
    ensures Validate(Finished(sampleRate, id, samples), sampleRate, |samples|) == Ok(())
  {
    hide FromLE, Finished;
    FinishedFields(sampleRate, id, samples);
  }

  lemma FmtFields(sampleRate: u32)
    ensures var f := FmtBody(sampleRate);
      && FromLE(f[0..2]) == 3 && FromLE(f[2..4]) == 1 && FromLE(f[4..8]) == sampleRate
      && FromLE(f[8..12]) == sampleRate * 4 % U32_SPAN && FromLE(f[12..14]) == 4 && FromLE(f[14..16]) == 32
  {
    hide FromLE, LE;
    var f := FmtBody(sampleRate);
    assert f[0..2] == LE(3, 2) && f[2..4] == LE(1, 2) && f[4..8] == LE(sampleRate, 4);
    assert f[8..12] == LE(sampleRate * 4 % U32_SPAN, 4);
    assert f[12..14] == LE(4, 2);
    var front := LE(3, 2) + LE(1, 2) + LE(sampleRate, 4) + LE(sampleRate * 4 % U32_SPAN, 4) + LE(4, 2);
    assert f == front + LE(32, 2) && |front| == 14;
    assert f[14..16] == f[14..] == LE(32, 2);
    FixedWidthRoundTrip(3);
    FixedWidthRoundTrip(1);
    FixedWidthRoundTrip(4);
    FixedWidthRoundTrip(32);
    FixedWidthRoundTrip(sampleRate);
    FixedWidthRoundTrip(sampleRate * 4 % U32_SPAN);
  }

  /** The field holds the text, cut to its width or filled up with zeros. */
  predicate CutOrPadded(field: seq<byte>, text: seq<byte>, width: nat) {
    |field| == width && forall k :: 0 <= k < width ==> field[k] == if k < |text| then text[k] else 0
  }

  /** What the reader finds of the texts of a take. */
  predicate Identifies(b: Broadcast, id: Identity) {
    && CutOrPadded(b.description, id.description, 256) && CutOrPadded(b.originator, Ascii("Icepod"), 32)
    && CutOrPadded(b.reference, id.session, 32)
    && CutOrPadded(b.date, id.date, 10) && CutOrPadded(b.time, id.time, 8)
    && b.timeReference == 0 && b.version == 2
  }

  lemma FixedHolds(value: seq<byte>, length: nat)
    ensures CutOrPadded(Fixed(value, length), value, length)
  {
  }

  lemma BextFields(id: Identity)
    ensures Identifies(BroadcastOf(BextBody(id)), id)
  {
    hide FromLE, LE, Fixed, CutOrPadded;
    var b := BextBody(id);
    assert b[..256] == Fixed(id.description, 256) && b[256..288] == Fixed(ICEPOD, 32);
    assert b[288..320] == Fixed(id.session, 32);
    assert b[320..330] == Fixed(id.date, 10) && b[330..338] == Fixed(id.time, 8);
    assert b[338..346] == LE(0, 8) && b[346..348] == LE(2, 2);
    FixedWidthRoundTrip(0);
    FixedWidthRoundTrip(2);
    FixedHolds(id.description, 256);
    FixedHolds(ICEPOD, 32);
    FixedHolds(id.session, 32);
    FixedHolds(id.date, 10);
    FixedHolds(id.time, 8);
  }

  lemma WalkFour(i: seq<byte>, a: seq<byte>, j: seq<byte>, b: seq<byte>, k: seq<byte>, c: seq<byte>, audio: seq<byte>)
    requires |i| == |j| == |k| == 4 && i != DATA && j != DATA && k != DATA
    requires |a| < UNKNOWN_SIZE && |b| < UNKNOWN_SIZE && |c| < UNKNOWN_SIZE
    requires |a| % 2 == 0 && |b| % 2 == 0 && |c| % 2 == 0 && |audio| % 2 == 0
    ensures Walk(ChunkBytes(i, |a|, a) + (ChunkBytes(j, |b|, b)
                 + (ChunkBytes(k, |c|, c) + (ChunkBytes(DATA, UNKNOWN_SIZE, audio) + []))), |audio|)
         == Some([Chunk(i, a), Chunk(j, b), Chunk(k, c), Chunk(DATA, audio)])
  {
    hide Walk, ChunkBytes;
    var fourth := ChunkBytes(DATA, UNKNOWN_SIZE, audio) + [];
    var third := ChunkBytes(k, |c|, c) + fourth;
    var second := ChunkBytes(j, |b|, b) + third;
    var last: seq<Chunk> := [Chunk(DATA, audio)];
    var lastTwo: seq<Chunk> := [Chunk(k, c), Chunk(DATA, audio)];
    var lastThree: seq<Chunk> := [Chunk(j, b), Chunk(k, c), Chunk(DATA, audio)];
    assert last + [] == last && [Chunk(k, c)] + last == lastTwo && [Chunk(j, b)] + lastTwo == lastThree;
    assert [Chunk(i, a)] + lastThree == [Chunk(i, a), Chunk(j, b), Chunk(k, c), Chunk(DATA, audio)];
    WalkEnd(|audio|);
    WalkChunk(DATA, UNKNOWN_SIZE, audio, [], |audio|);
    WalkChunk(k, |c|, c, fourth, |audio|);
    WalkChunk(j, |b|, b, third, |audio|);
    WalkChunk(i, |a|, a, second, |audio|);
  }

  lemma WalkEnd(dataSize: nat)
    ensures Walk([], dataSize) == Some([])
  {
  }

  lemma Regrouped(riff: seq<byte>, ds64: seq<byte>, sizes: seq<byte>, table: seq<byte>, bext: seq<byte>, fmt: seq<byte>,
                  data: seq<byte>, unknown: seq<byte>, audio: seq<byte>)
    ensures ((riff + ds64) + sizes + (table + bext + fmt + data + unknown) + audio)[|riff|..]
         == (ds64 + (sizes + table)) + (bext + (fmt + ((data + unknown + audio) + [])))
  {
  }

  lemma FinishedChunks(sampleRate: u32, id: Identity, samples: seq<Sample>)
    ensures Finished(sampleRate, id, samples)[12..]
         == ChunkBytes(DS64, 28, FinalSizes(|samples|) + LE(0, 4))
            + (ChunkBytes(BEXT, 602, BextBody(id))
               + (ChunkBytes(FMT, 16, FmtBody(sampleRate))
                  + (ChunkBytes(DATA, UNKNOWN_SIZE, SampleBytes(samples)) + [])))
  {
    hide FromLE, LE, Sizes, BextBody, FmtBody, SampleBytes, Finished, FinalSizes;
    FinishedParts(sampleRate, id, samples);
    Regrouped(RF64 + LE(UNKNOWN_SIZE, 4) + WAVE, DS64 + LE(28, 4), FinalSizes(|samples|), LE(0, 4),
              ChunkBytes(BEXT, 602, BextBody(id)), ChunkBytes(FMT, 16, FmtBody(sampleRate)), DATA, LE(UNKNOWN_SIZE, 4),
              SampleBytes(samples));
  }

  /** The four chunks of a finished file. */
  function FourChunks(sampleRate: u32, id: Identity, samples: seq<Sample>): seq<Chunk> {
    [Chunk(DS64, FinalSizes(|samples|) + LE(0, 4)), Chunk(BEXT, BextBody(id)), Chunk(FMT, FmtBody(sampleRate)),
     Chunk(DATA, SampleBytes(samples))]
  }

  lemma ChunkIds()
    ensures |DS64| == |BEXT| == |FMT| == 4 && DS64 != DATA && BEXT != DATA && FMT != DATA
  {
    assert DS64[1] != DATA[1] && BEXT[0] != DATA[0] && FMT[0] != DATA[0];
  }

  lemma EvenSamples(samples: seq<Sample>)
    ensures |SampleBytes(samples)| == |samples| * BYTES_PER_SAMPLE && |SampleBytes(samples)| % 2 == 0
  {
    hide SampleBytes;
  }

  lemma FinishedWalk(sampleRate: u32, id: Identity, samples: seq<Sample>)
    ensures Walk(Finished(sampleRate, id, samples)[12..], |samples| * BYTES_PER_SAMPLE)
         == Some(FourChunks(sampleRate, id, samples))
  {
    hide FromLE, LE, Sizes, SampleBytes, Finished, Walk, BextBody, FmtBody, FinalSizes, ChunkBytes;
    FinishedChunks(sampleRate, id, samples);
    ChunkIds();
    EvenSamples(samples);
    var sizes, bext, fmt := FinalSizes(|samples|) + LE(0, 4), BextBody(id), FmtBody(sampleRate);
    assert |sizes| == 28;
    assert |bext| == 602 && |fmt| == 16;
    WalkFour(DS64, sizes, BEXT, bext, FMT, fmt, SampleBytes(samples));
  }

  lemma FourChunksContent(sampleRate: u32, id: Identity, samples: seq<Sample>)
    ensures ContentOf(FourChunks(sampleRate, id, samples), |samples|)
         == Some(WaveContent(sampleRate, sampleRate * 4 % U32_SPAN, 4, 3, 1, 32, BroadcastOf(BextBody(id)), samples))
  {
    hide FromLE, LE, Sizes, SampleBytes, ReadSamples, BextBody, FmtBody, BroadcastOf;
    SamplesRoundTrip(samples);
    FmtFields(sampleRate);
  }

  /** Reading a finished file gives back its rate, four bytes to a frame, the texts and exactly the samples. */
  lemma ReadsBack(sampleRate: u32, id: Identity, samples: seq<Sample>)
    requires Describable(|samples|)
    ensures var w := ReadWave(Finished(sampleRate, id, samples));
      && w.Some?
      && w.value.sampleRate == sampleRate && w.value.byteRate == sampleRate * 4 % U32_SPAN && w.value.blockAlign == 4
      && w.value.format == 3 && w.value.channels == 1 && w.value.bits == 32
      && Identifies(w.value.broadcast, id) && w.value.samples == samples
  {
    hide FromLE, Finished, Walk, FourChunks, ContentOf, BroadcastOf, Identifies;
    FinishedFields(sampleRate, id, samples);
    FinishedWalk(sampleRate, id, samples);
    FourChunksContent(sampleRate, id, samples);
    BextFields(id);
  }

  /** The stated byte rate is right exactly for sample rates below 2^30: above, the product wraps. */
  lemma ByteRateExact(sampleRate: u32)
    ensures FromLE(FmtBody(sampleRate)[8..12]) == 4 * sampleRate <==> sampleRate < 0x4000_0000
  {
    hide FmtBody, FromLE;
    FmtFields(sampleRate);
  }
}
