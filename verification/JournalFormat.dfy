/** The bytes of the journal: what append writes, what parse_valid reads, and why the one recovers the
    other after truncation, foreign tails and short corruptions. */
module JournalFormat {
  import opened Bytes
  import opened Crc32
  import opened Postcard
  import opened Wrappers

  const MAGIC: seq<byte> := [0x49, 0x43, 0x45, 0x50, 0x4F, 0x44, 0x4A, 0x00]
  const VERSION := 1
  const HEADER_LEN := 40
  const MAX_RECORD_SIZE := 0x10_0000

  datatype Record = Record(sessionId: Uuid, sequence: u64, kind: Kind)

  /** The u64 successor, wrapping. */
  function Next(sequence: u64): u64 {
    (sequence + 1) % U64_SPAN
  }

  function Header(session: Uuid, sequence: u64, code: u16, payloadLen: u32): (h: seq<byte>)
    ensures |h| == HEADER_LEN
  {
    MAGIC + LE(VERSION, 2) + session + LE(sequence, 8) + LE(code, 2) + LE(payloadLen, 4)
  }

  predicate Fits(kind: Kind) {
    |Encode(kind)| <= MAX_RECORD_SIZE
  }

  /** The part of a record that its checksum covers. */
  function Body(r: Record): (b: seq<byte>)
    requires Fits(r.kind)
    ensures |b| == HEADER_LEN + |Encode(r.kind)|
  {
    Header(r.sessionId, r.sequence, Code(r.kind), |Encode(r.kind)|) + Encode(r.kind)
  }

  /** The bytes that one append writes. */
  function EncodeRecord(r: Record): (b: seq<byte>)
    requires Fits(r.kind)
    ensures |b| == HEADER_LEN + |Encode(r.kind)| + 4
  {
    Body(r) + ChecksumBytes(Hash(Body(r)))
  }

  lemma FitsIfShort(k: Kind)
    requires |Encode(k)| <= 31
    ensures Fits(k)
  {
  }

  predicate AllFit(kinds: seq<Kind>) {
    forall k <- kinds :: Fits(k)
  }

  /** The records of a session that journals `kinds` from sequence number `start` on. */
  function Records(session: Uuid, start: u64, kinds: seq<Kind>): (rs: seq<Record>)
    ensures |rs| == |kinds|
    decreases |kinds|
  {
    if kinds == [] then [] else [Record(session, start, kinds[0])] + Records(session, Next(start), kinds[1..])
  }

  function Log(session: Uuid, start: u64, kinds: seq<Kind>): seq<byte>
    requires AllFit(kinds)
    decreases |kinds|
  {
    if kinds == [] then [] else EncodeRecord(Record(session, start, kinds[0])) + Log(session, Next(start), kinds[1..])
  }

  /** The sequence number `count` appends after `start`. */
  function Later(start: u64, count: nat): u64 {
    (start + count) % U64_SPAN
  }

  // ---- parsing ----

  predicate Follows(previous: Record, r: Record) {
    previous.sessionId == r.sessionId && Next(previous.sequence) == r.sequence
  }

  datatype Parsed = Parsed(record: Record, length: nat)

  /** The record at the front of `bytes`, and its length; None where parse_valid stops. */
  function ParseOne(bytes: seq<byte>, previous: Option<Record>): (r: Option<Parsed>)
    ensures r.Some? ==> HEADER_LEN + 4 <= r.value.length <= |bytes|
  {
    if |bytes| < HEADER_LEN + 4 then None
    else if bytes[..8] != MAGIC || FromLE(bytes[8..10]) != VERSION then None
    else
      Spans();
      var payloadLen := FromLE(bytes[36..40]);
      if payloadLen > MAX_RECORD_SIZE || HEADER_LEN + payloadLen + 4 > |bytes| then None
      else
        var body := bytes[..HEADER_LEN + payloadLen];
        if Hash(body) != Checksum(bytes[|body|..|body| + 4]) then None
        else
          match Decode(body[HEADER_LEN..])
          case None => None
          case Some(kind) =>
            var record := Record(bytes[10..26], FromLE(bytes[26..34]), kind);
            if Code(kind) != FromLE(bytes[34..36]) then None
            else if previous.Some? && !Follows(previous.value, record) then None
            else Some(Parsed(record, |body| + 4))
  }

  function ParseFrom(bytes: seq<byte>, previous: Option<Record>): seq<Record>
    decreases |bytes|
  {
    match ParseOne(bytes, previous)
    case None => []
    case Some(p) => [p.record] + ParseFrom(bytes[p.length..], Some(p.record))
  }

  function ParseValid(bytes: seq<byte>): seq<Record> {
    ParseFrom(bytes, None)
  }

  lemma ShortIsRejected(bytes: seq<byte>, previous: Option<Record>)
    requires |bytes| < HEADER_LEN + 4
    ensures ParseOne(bytes, previous) == None
  {
  }

  /** parse_valid as its loop runs it. */
  method ParseLoop(bytes: seq<byte>) returns (records: seq<Record>)
    ensures records == ParseValid(bytes)
  {
    hide ParseOne;
    records := [];
    var offset := 0;
    var previous: Option<Record> := None;
    assert bytes[0..] == bytes;
    while |bytes| - offset >= HEADER_LEN + 4
      invariant 0 <= offset <= |bytes|
      invariant ParseValid(bytes) == records + ParseFrom(bytes[offset..], previous)
      invariant previous == if records == [] then None else Some(records[|records| - 1])
    {
      var step := ParseOne(bytes[offset..], previous);
      if step.None? {
        break;
      }
      ghost var rest := bytes[offset..];
      records := records + [step.value.record];
      previous := Some(step.value.record);
      offset := offset + step.value.length;
      assert rest[step.value.length..] == bytes[offset..];
    }
    if |bytes[offset..]| < HEADER_LEN + 4 {
      ShortIsRejected(bytes[offset..], previous);
    }
  }

  // ---- one record ----

  lemma HeaderFields(session: Uuid, sequence: u64, code: u16, payloadLen: u32, tail: seq<byte>)
    ensures var b := Header(session, sequence, code, payloadLen) + tail;
      && b[..8] == MAGIC && FromLE(b[8..10]) == VERSION && b[10..26] == session && FromLE(b[26..34]) == sequence
      && FromLE(b[34..36]) == code && FromLE(b[36..40]) == payloadLen
  {
    var h := Header(session, sequence, code, payloadLen);
    var b := h + tail;
    assert b[..8] == MAGIC;
    assert b[8..10] == LE(VERSION, 2);
    assert b[10..26] == session;
    assert b[26..34] == LE(sequence, 8);
    assert b[34..36] == LE(code, 2);
    assert b[36..40] == LE(payloadLen, 4);
    FixedWidthRoundTrip(VERSION);
    FixedWidthRoundTrip(sequence);
    FixedWidthRoundTrip(code);
    FixedWidthRoundTrip(payloadLen);
  }

  predicate Continues(previous: Option<Record>, r: Record) {
    previous.Some? ==> Follows(previous.value, r)
  }

  /** What append wrote is read back, whatever follows it in the file. */
  lemma WrittenIsParsed(r: Record, tail: seq<byte>, previous: Option<Record>)
    requires Fits(r.kind) && Continues(previous, r)
    ensures ParseOne(EncodeRecord(r) + tail, previous) == Some(Parsed(r, |EncodeRecord(r)|))
  {
    hide Hash, Checksum, ChecksumBytes, Encode, Decode, FromLE, Header, Code, Follows;
    var bytes := EncodeRecord(r) + tail;
    var payload := Encode(r.kind);
    var crc := ChecksumBytes(Hash(Body(r)));
    HeaderFields(r.sessionId, r.sequence, Code(r.kind), |payload|, payload + crc + tail);
    assert bytes == Header(r.sessionId, r.sequence, Code(r.kind), |payload|) + (payload + crc + tail);
    assert bytes[..HEADER_LEN + |payload|] == Body(r);
    assert bytes[|Body(r)|..|Body(r)| + 4] == crc;
    assert Body(r)[HEADER_LEN..] == payload;
    ChecksumRoundTrip(Hash(Body(r)));
    CodecRoundTrip(r.kind, []);
    assert payload + [] == payload;
  }

  /** A record that continues nothing is not read. */
  lemma WrittenIsRejected(r: Record, tail: seq<byte>, previous: Record)
    requires Fits(r.kind) && !Follows(previous, r)
    ensures ParseOne(EncodeRecord(r) + tail, Some(previous)) == None
  {
    hide Hash, Checksum, EncodeRecord, Decode, FromLE, Code, Follows;
    WrittenIsParsed(r, tail, None);
  }

  /** Parsing a record looks at that record's bytes only. */
  lemma ParseIsLocal(bytes: seq<byte>, other: seq<byte>, previous: Option<Record>)
    requires ParseOne(bytes, previous).Some?
    requires var n := ParseOne(bytes, previous).value.length; n <= |other| && bytes[..n] == other[..n]
    ensures ParseOne(other, previous) == ParseOne(bytes, previous)
  {
    hide Hash, Checksum, Decode, FromLE, Code, Follows;
    var n := ParseOne(bytes, previous).value.length;
    var front := bytes[..n];
    assert bytes[..8] == front[..8] == other[..8];
    assert bytes[8..10] == front[8..10] == other[8..10];
    assert bytes[10..26] == front[10..26] == other[10..26];
    assert bytes[26..34] == front[26..34] == other[26..34];
    assert bytes[34..36] == front[34..36] == other[34..36];
    assert bytes[36..40] == front[36..40] == other[36..40];
    assert bytes[..n - 4] == front[..n - 4] == other[..n - 4];
    assert bytes[n - 4..n] == front[n - 4..n] == other[n - 4..n];
  }

  /** An incomplete record is not read. */
  lemma TornIsRejected(r: Record, cut: nat, previous: Option<Record>)
    requires Fits(r.kind) && cut < |EncodeRecord(r)|
    ensures ParseOne(EncodeRecord(r)[..cut], previous) == None
  {
    hide Hash, Checksum, ChecksumBytes, Encode, Decode, FromLE, Header, Code, Follows;
    var bytes := EncodeRecord(r)[..cut];
    var payload := Encode(r.kind);
    if cut >= HEADER_LEN + 4 {
      var tail := bytes[HEADER_LEN..];
      assert bytes == Header(r.sessionId, r.sequence, Code(r.kind), |payload|) + tail;
      HeaderFields(r.sessionId, r.sequence, Code(r.kind), |payload|, tail);
    }
  }
}
