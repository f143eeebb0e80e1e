/** The journal byte by byte: which bytes stand for which record, told in numbers, without the encoder and
    the decoder. */
module WireFormat {
  import opened Bytes
  import opened Crc32
  import opened Postcard
  import opened JournalFormat
  import opened Wrappers
  import opened Session
  import R = Recorder

  // ---- numbers ----

  /** n without its `count` low groups of seven bits. */
  function WithoutGroups(n: nat, count: nat): nat {
    if count == 0 then n else WithoutGroups(n / 0x80, count - 1)
  }

  /** Byte i of a varint is the i-th group of seven bits; the top bit says that more follow, and the last
      group is the first that leaves nothing. */
  lemma {:induction false} VarintGroups(n: nat, i: nat)
    requires i < |Varint(n)|
    ensures Varint(n)[i] == WithoutGroups(n, i) % 0x80 + if i + 1 < |Varint(n)| then 0x80 else 0
    ensures i + 1 == |Varint(n)| <==> WithoutGroups(n, i) < 0x80
  {
    if n >= 0x80 && i > 0 {
      VarintGroups(n / 0x80, i - 1);
    }
  }

  /** A stored checksum has its least significant byte first. */
  lemma ChecksumOrder(h: bv32)
    ensures var s := ChecksumBytes(h);
      && Word(s[0]) == h & 0xFF && Word(s[1]) == (h >> 8) & 0xFF
      && Word(s[2]) == (h >> 16) & 0xFF && Word(s[3]) == (h >> 24) & 0xFF
  {
    LowByteWord(h);
    LowByteWord(h >> 8);
    LowByteWord(h >> 16);
    LowByteWord(h >> 24);
  }

  // ---- records ----

  /** A record on disk: the word ICEPODJ and a zero, version 1, the session, the sequence number, the record
      code, the length of the payload, the payload, and the checksum of all this. */
  function RecordBytes(session: Uuid, sequence: u64, code: byte, payload: seq<byte>): seq<byte> {
    var body := [0x49, 0x43, 0x45, 0x50, 0x4F, 0x44, 0x4A, 0] + [1, 0] + session + LE(sequence, 8) + [code, 0]
                + LE(|payload|, 4) + payload;
    body + ChecksumBytes(Hash(body))
  }

  /** `kind` is what this code and this payload say: the writer writes these bytes for it, and the reader
      reads it from them, whatever follows. */
  ghost predicate Stands(session: Uuid, sequence: u64, code: byte, payload: seq<byte>, kind: Kind) {
    |payload| <= 0x10_0000 ==>
      && Fits(kind) && EncodeRecord(Record(session, sequence, kind)) == RecordBytes(session, sequence, code, payload)
      && forall tail :: ParseOne(RecordBytes(session, sequence, code, payload) + tail, None)
                     == Some(Parsed(Record(session, sequence, kind), 44 + |payload|))
  }

  lemma StandsFor(session: Uuid, sequence: u64, kind: Kind, code: byte, first: byte, fields: seq<byte>)
    requires Code(kind) == code == first + 1 && first < 0x80 && Fields(kind) == fields
    ensures Stands(session, sequence, code, [first] + fields, kind)
  {
    hide Code, Fields, Hash, ChecksumBytes, ParseOne, LE;
    var payload := [first] + fields;
    assert Varint(first) == [first] && Encode(kind) == payload;
    if |payload| <= 0x10_0000 {
      hide Encode;
      var r := Record(session, sequence, kind);
      ShortNumbers(code);
      ShortNumbers(1);
      assert Body(r) == [0x49, 0x43, 0x45, 0x50, 0x4F, 0x44, 0x4A, 0] + [1, 0] + session + LE(sequence, 8) + [code, 0]
                        + LE(|payload|, 4) + payload;
      forall tail
        ensures ParseOne(RecordBytes(session, sequence, code, payload) + tail, None)
             == Some(Parsed(r, 44 + |payload|))
      {
        WrittenIsParsed(r, tail, None);
      }
    }
  }

  /** A payload has at most 2^20 bytes, for the writer and for the reader. */
  lemma LargestPayload(kind: Kind, bytes: seq<byte>, previous: Option<Record>)
    ensures Fits(kind) <==> |Encode(kind)| <= 0x10_0000
    ensures |bytes| >= 40 && FromLE(bytes[36..40]) > 0x10_0000 ==> ParseOne(bytes, previous) == None
  {
    hide Encode, FromLE, Hash, Decode;
  }

  lemma ShortNumbers(n: byte)
    ensures LE(n, 2) == [n, 0]
  {
    LittleEndian(n);
  }

  /** The records of creation say nothing but their kind. */
  lemma OpeningRecords(s: Uuid, q: u64)
    ensures Stands(s, q, 1, [0], SessionCreated)
    ensures Stands(s, q, 2, [1], DeviceConfigured)
    ensures Stands(s, q, 3, [2], TakeArmed)
    ensures Stands(s, q, 4, [3], SegmentStarted)
  {
    hide Stands, Varint, Encode;
    StandsFor(s, q, SessionCreated, 1, 0, []);
    StandsFor(s, q, DeviceConfigured, 2, 1, []);
    StandsFor(s, q, TakeArmed, 3, 2, []);
    StandsFor(s, q, SegmentStarted, 4, 3, []);
    assert forall b: byte :: [b] + [] == [b];
  }

  /** So do these of finalization and recovery. */
  lemma ClosingRecords(s: Uuid, q: u64)
    ensures Stands(s, q, 18, [17], StopRequested)
    ensures Stands(s, q, 20, [19], FinalizationStarted)
    ensures Stands(s, q, 21, [20], FinalizationCompleted)
    ensures Stands(s, q, 22, [21], RecoveryStarted)
  {
    hide Stands, Varint, Encode;
    StandsFor(s, q, StopRequested, 18, 17, []);
    StandsFor(s, q, FinalizationStarted, 20, 19, []);
    StandsFor(s, q, FinalizationCompleted, 21, 20, []);
    StandsFor(s, q, RecoveryStarted, 22, 21, []);
    assert forall b: byte :: [b] + [] == [b];
  }

  /** The records that count frames. */
  lemma FrameRecords(s: Uuid, q: u64, n: u64)
    ensures Stands(s, q, 5, [4] + Varint(n), FramesWritten(n))
    ensures Stands(s, q, 6, [5] + Varint(n), FramesCommitted(n))
    ensures Stands(s, q, 19, [18] + Varint(n), SegmentStopped(n))
    ensures Stands(s, q, 23, [22] + Varint(n), RecoveryCompleted(n))
  {
    hide Stands, Varint, Encode;
    StandsFor(s, q, FramesWritten(n), 5, 4, Varint(n));
    StandsFor(s, q, FramesCommitted(n), 6, 5, Varint(n));
    StandsFor(s, q, SegmentStopped(n), 19, 18, Varint(n));
    StandsFor(s, q, RecoveryCompleted(n), 23, 22, Varint(n));
  }

  /** The records of what happens at a frame, and the two that count free bytes. */
  lemma EventRecords(s: Uuid, q: u64, n: u64)
    ensures Stands(s, q, 8, [7] + Varint(n), PauseStarted(n))
    ensures Stands(s, q, 9, [8] + Varint(n), PauseEnded(n))
    ensures Stands(s, q, 10, [9] + Varint(n), XrunObserved(n))
    ensures Stands(s, q, 14, [13] + Varint(n), Kind.InputDeviceLost(n))
    ensures Stands(s, q, 15, [14] + Varint(n), Kind.MonitorDeviceLost(n))
    ensures Stands(s, q, 16, [15] + Varint(n), Kind.DiskWarning(n))
    ensures Stands(s, q, 17, [16] + Varint(n), Kind.DiskCritical(n))
  {
    hide Stands, Varint, Encode;
    StandsFor(s, q, PauseStarted(n), 8, 7, Varint(n));
    StandsFor(s, q, PauseEnded(n), 9, 8, Varint(n));
    StandsFor(s, q, XrunObserved(n), 10, 9, Varint(n));
    StandsFor(s, q, Kind.InputDeviceLost(n), 14, 13, Varint(n));
    StandsFor(s, q, Kind.MonitorDeviceLost(n), 15, 14, Varint(n));
    StandsFor(s, q, Kind.DiskWarning(n), 16, 15, Varint(n));
    StandsFor(s, q, Kind.DiskCritical(n), 17, 16, Varint(n));
  }

  /** The records with several fields, in the order of these: an identity is 16 bytes behind their number, a
      text its bytes behind theirs, a count that may be missing a 0, or a 1 and the count. */
  lemma WideRecords(s: Uuid, q: u64, id: Uuid, frame: u64, frames: u64, note: Text)
    ensures Stands(s, q, 7, [6] + (([16] + id) + (Varint(frame) + (Varint(|note|) + note))),
                   MarkerAdded(id, frame, note))
    ensures Stands(s, q, 11, [10] + (Varint(frame) + [0]), Kind.QueueOverflow(frame, None))
    ensures Stands(s, q, 11, [10] + (Varint(frame) + ([1] + Varint(frames))), Kind.QueueOverflow(frame, Some(frames)))
    ensures Stands(s, q, 12, [11] + (Varint(frame) + [0]), Kind.TimestampDiscontinuity(frame, None))
    ensures Stands(s, q, 12, [11] + (Varint(frame) + ([1] + Varint(frames))),
                   Kind.TimestampDiscontinuity(frame, Some(frames)))
    ensures Stands(s, q, 13, [12] + (Varint(frame) + Varint(frames)), Kind.GapInserted(frame, frames))
    ensures Stands(s, q, 24, [23] + (Varint(|note|) + note), SessionFaulted(note))
  {
    hide Stands, Varint, Encode;
    assert Varint(16) == [16] by { Sixteen(); }
    StandsFor(s, q, MarkerAdded(id, frame, note), 7, 6, ([16] + id) + (Varint(frame) + (Varint(|note|) + note)));
    StandsFor(s, q, Kind.QueueOverflow(frame, None), 11, 10, Varint(frame) + [0]);
    StandsFor(s, q, Kind.QueueOverflow(frame, Some(frames)), 11, 10, Varint(frame) + ([1] + Varint(frames)));
    StandsFor(s, q, Kind.TimestampDiscontinuity(frame, None), 12, 11, Varint(frame) + [0]);
    StandsFor(s, q, Kind.TimestampDiscontinuity(frame, Some(frames)), 12, 11, Varint(frame) + ([1] + Varint(frames)));
    StandsFor(s, q, Kind.GapInserted(frame, frames), 13, 12, Varint(frame) + Varint(frames));
    StandsFor(s, q, SessionFaulted(note), 24, 23, Varint(|note|) + note);
  }

  lemma Sixteen()
    ensures Varint(16) == [16]
  {
  }

  // ---- incidents ----

  function Noted(kind: IncidentKind, frame: u64, missing: Option<u64>): Kind {
    R.Recorder.IncidentRecord(kind, frame, missing)
  }

  /** What the journal says of each incident; `any` is what only the manifest keeps. */
  lemma IncidentRecords(s: Uuid, q: u64, frame: u64, missing: u64, any: Option<u64>)
    ensures Stands(s, q, 10, [9] + Varint(frame), Noted(BackendXrun, frame, any))
    ensures Stands(s, q, 11, [10] + (Varint(frame) + [0]), Noted(IncidentKind.QueueOverflow, frame, None))
    ensures Stands(s, q, 11, [10] + (Varint(frame) + ([1] + Varint(missing))),
                   Noted(IncidentKind.QueueOverflow, frame, Some(missing)))
    ensures Stands(s, q, 12, [11] + (Varint(frame) + [0]), Noted(IncidentKind.TimestampDiscontinuity, frame, None))
    ensures Stands(s, q, 12, [11] + (Varint(frame) + ([1] + Varint(missing))),
                   Noted(IncidentKind.TimestampDiscontinuity, frame, Some(missing)))
    ensures Stands(s, q, 12, [11] + (Varint(frame) + [0]), Noted(UnknownDiscontinuity, frame, None))
    ensures Stands(s, q, 12, [11] + (Varint(frame) + ([1] + Varint(missing))),
                   Noted(UnknownDiscontinuity, frame, Some(missing)))
    ensures Stands(s, q, 13, [12] + (Varint(frame) + Varint(missing)),
                   Noted(IncidentKind.GapInserted, frame, Some(missing)))
    ensures Stands(s, q, 13, [12] + (Varint(frame) + [0]), Noted(IncidentKind.GapInserted, frame, None))
    ensures Stands(s, q, 14, [13] + Varint(frame), Noted(IncidentKind.InputDeviceLost, frame, any))
    ensures Stands(s, q, 15, [14] + Varint(frame), Noted(IncidentKind.MonitorDeviceLost, frame, any))
    ensures Stands(s, q, 16, [15, 0], Noted(IncidentKind.DiskWarning, frame, any))
    ensures Stands(s, q, 17, [16, 0], Noted(IncidentKind.DiskCritical, frame, any))
    ensures Stands(s, q, 17, [16, 0], Noted(WriterFailure, frame, any))
  {
    hide Stands, Varint;
    assert Varint(0) == [0] by { Zero(); }
    EventRecords(s, q, frame);
    EventRecords(s, q, 0);
    WideRecords(s, q, seq(16, _ => 0), frame, missing, []);
    WideRecords(s, q, seq(16, _ => 0), frame, 0, []);
    assert [15] + [0] == [15, 0] && [16] + [0] == [16, 0];
  }

  lemma Zero()
    ensures Varint(0) == [0]
  {
  }
}
