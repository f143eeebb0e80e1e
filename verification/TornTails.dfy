/** What becomes of records appended behind a torn one: opening a journal leaves the torn tail in place, and
    the reader then stops at it. */
module TornTails {
  import opened Bytes
  import opened Crc32
  import opened Wrappers
  import opened Postcard
  import opened JournalFormat
  import opened JournalLaws
  import opened Recovery

  const SMALL_SEQUENCE := 0x1_0000_0000_0000

  // ---- what a header torn in one of its fields reads as ----

  lemma {:induction false} HighBytesAreZero(n: nat, width: nat, low: nat, i: nat)
    requires low <= i < width && n < Span(low)
    ensures LE(n, width)[i] == 0
  {
    if low > 0 {
      HighBytesAreZero(n / 0x100, width - 1, low - 1, i - 1);
    } else if i > 0 {
      HighBytesAreZero(0, width - 1, 0, i - 1);
    }
  }

  lemma SmallSequence(n: nat)
    requires n < SMALL_SEQUENCE
    ensures LE(n, 8)[6] == 0 && LE(n, 8)[7] == 0
  {
    Spans();
    assert Span(6) == 0x1_0000 * Span(4);
    HighBytesAreZero(n, 8, 6, 6);
    HighBytesAreZero(n, 8, 6, 7);
  }

  lemma TwoBytes(s: seq<byte>)
    requires |s| == 2
    ensures FromLE(s) == s[0] as int + 0x100 * (s[1] as int)
  {
    assert s[1..][1..] == [];
  }

  lemma FourBytes(s: seq<byte>)
    requires |s| == 4
    ensures FromLE(s) >= 0x100_0000 * (s[3] as int)
  {
    var a, b, c := s[1..], s[1..][1..], s[1..][1..][1..];
    assert FromLE(s) == s[0] as int + 0x100 * FromLE(a);
    assert FromLE(a) == s[1] as int + 0x100 * FromLE(b);
    assert FromLE(b) == s[2] as int + 0x100 * FromLE(c);
    assert FromLE(c) == s[3] as int + 0x100 * FromLE(c[1..]);
  }

  lemma WrongMagic(bytes: seq<byte>, previous: Option<Record>)
    requires |bytes| >= 8 && bytes[..8] != MAGIC
    ensures ParseOne(bytes, previous) == None
  {
  }

  lemma WrongVersion(bytes: seq<byte>, previous: Option<Record>)
    requires |bytes| >= 10 && bytes[8] as int + 0x100 * (bytes[9] as int) != VERSION
    ensures ParseOne(bytes, previous) == None
  {
    hide Hash, Checksum, Decode;
    TwoBytes(bytes[8..10]);
  }

  lemma WrongSession(bytes: seq<byte>, previous: Record, at: nat)
    requires |bytes| >= 26 && at < 16 && bytes[10 + at] != previous.sessionId[at]
    ensures ParseOne(bytes, Some(previous)) == None
  {
    hide Hash, Checksum, Decode, FromLE;
    if |bytes| >= HEADER_LEN {
      assert bytes[10..26][at] == bytes[10 + at];
    }
  }

  lemma WrongSequence(bytes: seq<byte>, previous: Record)
    requires |bytes| >= 34 && Next(previous.sequence) < SMALL_SEQUENCE && (bytes[32] != 0 || bytes[33] != 0)
    ensures ParseOne(bytes, Some(previous)) == None
  {
    hide Hash, Checksum, Decode, FromLE, LE;
    var s := bytes[26..34];
    ToFromLE(s);
    SmallSequence(Next(previous.sequence));
    assert s[6] == bytes[32] && s[7] == bytes[33];
  }

  lemma WrongCode(bytes: seq<byte>, previous: Option<Record>)
    requires |bytes| >= 36 && bytes[35] > 0
    ensures ParseOne(bytes, previous) == None
  {
    hide Hash, Checksum, Decode, FromLE;
    TwoBytes(bytes[34..36]);
  }

  lemma WrongLength(bytes: seq<byte>, previous: Option<Record>)
    requires |bytes| >= 40 && bytes[39] > 0
    ensures ParseOne(bytes, previous) == None
  {
    hide Hash, Checksum, Decode, FromLE;
    FourBytes(bytes[36..40]);
  }

  // ---- a torn record and what follows it ----

  /** What a journal holds behind its last complete record once `rest` was appended behind a torn one. */
  function Behind(r: Record, c: nat, rest: seq<byte>): seq<byte>
    requires Fits(r.kind) && c <= |EncodeRecord(r)|
  {
    EncodeRecord(r)[..c] + rest
  }

  /** The bytes that complete the torn record happen to carry its checksum. */
  predicate Collides(r: Record, c: nat, rest: seq<byte>)
    requires Fits(r.kind) && c <= |EncodeRecord(r)|
  {
    var n, bytes := |EncodeRecord(r)|, Behind(r, c, rest);
    |bytes| >= n && Hash(bytes[..n - 4]) == Checksum(bytes[n - 4..n])
  }

  /** The torn record cannot be taken for a complete one. Torn in the magic, the version, the code, the
      length or the checksum it never can; torn in the session identity only if that has the first magic
      byte where it is torn; in the sequence number only if that is enormous; and in the payload only if
      checksums collide, about which nothing can be said beyond four altered bytes. */
  predicate Recognizable(r: Record, c: nat, rest: seq<byte>)
    requires Fits(r.kind) && c <= |EncodeRecord(r)|
  {
    && (10 <= c < 26 ==> r.sessionId[c - 10] != MAGIC[0])
    && (26 <= c < 34 ==> r.sequence < SMALL_SEQUENCE)
    && (HEADER_LEN <= c < |EncodeRecord(r)| - 4 ==> !Collides(r, c, rest))
  }

  lemma HeaderAt(r: Record)
    requires Fits(r.kind)
    ensures var b := EncodeRecord(r);
      b[..8] == MAGIC && b[8] == 1 && b[10..26] == r.sessionId && FromLE(b[36..40]) == |b| - HEADER_LEN - 4
  {
    hide Hash, ChecksumBytes, Encode, FromLE, Code, Checksum;
    CleanRecord(r);
    assert EncodeRecord(r)[8..10] == LE(VERSION, 2);
  }

  /** Where one record is torn the next one begins, with its magic. */
  lemma NextBegins(r: Record, c: nat, next: Record, tail: seq<byte>, k: nat)
    requires Fits(r.kind) && Fits(next.kind) && c <= |EncodeRecord(r)| && k < 8
    ensures |Behind(r, c, EncodeRecord(next) + tail)| >= c + HEADER_LEN
    ensures Behind(r, c, EncodeRecord(next) + tail)[c + k] == MAGIC[k]
  {
    hide EncodeRecord;
    HeaderAt(next);
    assert EncodeRecord(next)[k] == EncodeRecord(next)[..8][k];
  }

  lemma TornInMagic(r: Record, c: nat, next: Record, tail: seq<byte>, previous: Option<Record>)
    requires Fits(r.kind) && Fits(next.kind) && 0 < c < 8
    ensures ParseOne(Behind(r, c, EncodeRecord(next) + tail), previous) == None
  {
    hide EncodeRecord, ParseOne, Behind;
    var bytes := Behind(r, c, EncodeRecord(next) + tail);
    NextBegins(r, c, next, tail, 0);
    assert bytes[..8][c] == MAGIC[0] != MAGIC[c];
    WrongMagic(bytes, previous);
  }

  lemma TornInVersion(r: Record, c: nat, next: Record, tail: seq<byte>, previous: Option<Record>)
    requires Fits(r.kind) && Fits(next.kind) && 8 <= c < 10
    ensures ParseOne(Behind(r, c, EncodeRecord(next) + tail), previous) == None
  {
    hide EncodeRecord, ParseOne, Behind;
    var bytes := Behind(r, c, EncodeRecord(next) + tail);
    NextBegins(r, c, next, tail, 0);
    NextBegins(r, c, next, tail, 1);
    WrongVersion(bytes, previous);
  }

  lemma TornInSession(r: Record, c: nat, next: Record, tail: seq<byte>, previous: Record)
    requires Fits(r.kind) && Fits(next.kind) && 10 <= c < 26
    requires previous.sessionId == r.sessionId && r.sessionId[c - 10] != MAGIC[0]
    ensures ParseOne(Behind(r, c, EncodeRecord(next) + tail), Some(previous)) == None
  {
    hide EncodeRecord, ParseOne, Behind;
    NextBegins(r, c, next, tail, 0);
    WrongSession(Behind(r, c, EncodeRecord(next) + tail), previous, c - 10);
  }

  lemma TornInSequence(r: Record, c: nat, next: Record, tail: seq<byte>, previous: Record)
    requires Fits(r.kind) && Fits(next.kind) && 26 <= c < 34
    requires Next(previous.sequence) < SMALL_SEQUENCE
    ensures ParseOne(Behind(r, c, EncodeRecord(next) + tail), Some(previous)) == None
  {
    hide EncodeRecord, ParseOne, Behind;
    if c == 26 {
      NextBegins(r, c, next, tail, 6);
    } else {
      NextBegins(r, c, next, tail, 33 - c);
    }
    WrongSequence(Behind(r, c, EncodeRecord(next) + tail), previous);
  }

  lemma TornInCodeOrLength(r: Record, c: nat, next: Record, tail: seq<byte>, previous: Option<Record>)
    requires Fits(r.kind) && Fits(next.kind) && 34 <= c < HEADER_LEN
    ensures ParseOne(Behind(r, c, EncodeRecord(next) + tail), previous) == None
  {
    hide EncodeRecord, ParseOne, Behind;
    var bytes := Behind(r, c, EncodeRecord(next) + tail);
    if c < 36 {
      NextBegins(r, c, next, tail, 35 - c);
      WrongCode(bytes, previous);
    } else {
      NextBegins(r, c, next, tail, 39 - c);
      WrongLength(bytes, previous);
    }
  }

  /** A record torn inside its header, with another behind it, is not read. */
  lemma TornHeaderIsRejected(r: Record, c: nat, next: Record, tail: seq<byte>, previous: Record)
    requires Fits(r.kind) && Fits(next.kind) && Follows(previous, r) && 0 < c < HEADER_LEN
    requires Recognizable(r, c, EncodeRecord(next) + tail)
    ensures ParseOne(Behind(r, c, EncodeRecord(next) + tail), Some(previous)) == None
  {
    hide EncodeRecord, ParseOne, Behind, Collides;
    if c < 8 {
      TornInMagic(r, c, next, tail, Some(previous));
    } else if c < 10 {
      TornInVersion(r, c, next, tail, Some(previous));
    } else if c < 26 {
      TornInSession(r, c, next, tail, previous);
    } else if c < 34 {
      TornInSequence(r, c, next, tail, previous);
    } else {
      TornInCodeOrLength(r, c, next, tail, Some(previous));
    }
  }

  // ---- torn behind the header ----

  /** Torn inside its payload, a record is not read unless checksums collide. */
  lemma TornPayloadIsRejected(r: Record, c: nat, rest: seq<byte>, previous: Option<Record>)
    requires Fits(r.kind) && HEADER_LEN <= c < |EncodeRecord(r)| - 4 && !Collides(r, c, rest)
    ensures ParseOne(Behind(r, c, rest), previous) == None
  {
    hide EncodeRecord, ParseOne, Hash, Checksum, FromLE;
    var bytes, n := Behind(r, c, rest), |EncodeRecord(r)|;
    HeaderAt(r);
    assert bytes[36..40] == EncodeRecord(r)[36..40];
    if |bytes| >= n {
      ChecksumMismatch(bytes, previous, n);
    } else {
      TooShort(bytes, previous, n);
    }
  }

  lemma TooShort(bytes: seq<byte>, previous: Option<Record>, n: nat)
    requires |bytes| < n && |bytes| >= HEADER_LEN && FromLE(bytes[36..40]) == n - HEADER_LEN - 4
    ensures ParseOne(bytes, previous) == None
  {
    hide Hash, Checksum, Decode, FromLE;
  }

  /** Torn inside its checksum, a record is read only if what follows completes it by chance; what follows
      is not read then either. */
  lemma TornChecksumHides(r: Record, c: nat, next: Record, tail: seq<byte>, previous: Record)
    requires Fits(r.kind) && Fits(next.kind) && Follows(previous, r)
    requires |EncodeRecord(r)| - 4 <= c < |EncodeRecord(r)|
    ensures var records := ParseFrom(Behind(r, c, EncodeRecord(next) + tail), Some(previous));
      records == [] || records == [r]
  {
    hide EncodeRecord, ParseOne, ParseFrom, Follows;
    var whole, follows, n := EncodeRecord(r), EncodeRecord(next), |EncodeRecord(r)|;
    var bytes := Behind(r, c, follows + tail);
    var k := n - c;
    var mixed := whole[..c] + follows[..k];
    var rest := follows[k..] + tail;
    assert bytes == mixed + rest;
    if mixed == whole {
      WrittenIsParsed(r, rest, Some(previous));
      assert bytes[n..] == rest;
      HeaderAt(next);
      assert rest[..8][0] == follows[..8][k] == MAGIC[k];
      WrongMagic(rest, Some(r));
      RejectedEnds(rest, Some(r));
      ReadsOne(bytes, Some(previous), r, n);
    } else {
      assert mixed[..n - 4] == whole[..n - 4];
      ChecksumDamageIsRejected(r, mixed, rest, Some(previous));
      RejectedEnds(bytes, Some(previous));
    }
  }

  lemma ReadsOne(bytes: seq<byte>, previous: Option<Record>, r: Record, n: nat)
    requires n <= |bytes| && ParseOne(bytes, previous) == Some(Parsed(r, n)) && ParseFrom(bytes[n..], Some(r)) == []
    ensures ParseFrom(bytes, previous) == [r]
  {
    hide ParseOne;
  }

  /** Nothing appended behind a torn record is read. */
  lemma TornRecordHides(r: Record, c: nat, next: Record, tail: seq<byte>, previous: Record)
    requires Fits(r.kind) && Fits(next.kind) && Follows(previous, r) && 0 < c < |EncodeRecord(r)|
    requires Recognizable(r, c, EncodeRecord(next) + tail)
    ensures var records := ParseFrom(Behind(r, c, EncodeRecord(next) + tail), Some(previous));
      records == [] || records == [r]
  {
    hide EncodeRecord, ParseOne, ParseFrom, Behind, Collides, Follows;
    if c < HEADER_LEN {
      TornHeaderIsRejected(r, c, next, tail, previous);
      RejectedEnds(Behind(r, c, EncodeRecord(next) + tail), Some(previous));
    } else if c < |EncodeRecord(r)| - 4 {
      TornPayloadIsRejected(r, c, EncodeRecord(next) + tail, Some(previous));
      RejectedEnds(Behind(r, c, EncodeRecord(next) + tail), Some(previous));
    } else {
      TornChecksumHides(r, c, next, tail, previous);
    }
  }

  // ---- reopened journals ----

  /** A journal of complete records and one that is torn after c bytes. */
  function TornLog(session: Uuid, kinds: seq<Kind>, k: Kind, c: nat): seq<byte>
    requires AllFit(kinds) && Fits(k) && c <= |EncodeRecord(Record(session, Later(0, |kinds|), k))|
  {
    Log(session, 0, kinds) + EncodeRecord(Record(session, Later(0, |kinds|), k))[..c]
  }

  /** Opening such a journal sees the complete records and continues with the torn one's sequence number. */
  lemma TornLogIsParsed(session: Uuid, kinds: seq<Kind>, k: Kind, c: nat)
    requires AllFit(kinds) && Fits(k) && c < |EncodeRecord(Record(session, Later(0, |kinds|), k))|
    ensures ParseValid(TornLog(session, kinds, k, c)) == Records(session, 0, kinds)
    ensures NextAfter(Records(session, 0, kinds)) == Later(0, |kinds|)
  {
    hide EncodeRecord, ParseOne, ParseFrom, Log, Records, AllFit, Fits, Later, Next;
    var r := Record(session, Later(0, |kinds|), k);
    var records := Records(session, 0, kinds);
    LogParsesFrom(session, 0, kinds, EncodeRecord(r)[..c], None);
    TornIsRejected(r, c, LastOf(None, records));
    RejectedEnds(EncodeRecord(r)[..c], LastOf(None, records));
    LaterSteps(0, 0);
    if kinds != [] {
      RecordAt(session, 0, kinds, |kinds| - 1);
      LaterSteps(0, |kinds| - 1);
    }
  }

  lemma FollowsLast(session: Uuid, kinds: seq<Kind>, k: Kind)
    requires kinds != []
    ensures Follows(Records(session, 0, kinds)[|kinds| - 1], Record(session, Later(0, |kinds|), k))
  {
    hide Records;
    RecordAt(session, 0, kinds, |kinds| - 1);
    LaterSteps(0, |kinds| - 1);
  }

  /** Behind a torn record nothing that is appended is read. */
  lemma AppendedBehindTorn(session: Uuid, kinds: seq<Kind>, k: Kind, c: nat, after: seq<Kind>)
    requires AllFit(kinds) && kinds != [] && Fits(k) && AllFit(after) && after != []
    requires 0 < c < |EncodeRecord(Record(session, Later(0, |kinds|), k))|
    requires Recognizable(Record(session, Later(0, |kinds|), k), c, Log(session, Later(0, |kinds|), after))
    ensures var records := ParseValid(TornLog(session, kinds, k, c) + Log(session, Later(0, |kinds|), after));
      records == Records(session, 0, kinds) || records == Records(session, 0, kinds + [k])
  {
    hide EncodeRecord, ParseOne, ParseFrom, Log, Records, AllFit, Fits, Later, Next, Follows, Recognizable;
    var start := Later(0, |kinds|);
    var r, records := Record(session, start, k), Records(session, 0, kinds);
    FirstLogged(session, start, after);
    var next, tail := Record(session, start, after[0]), Log(session, Next(start), after[1..]);
    var rest := EncodeRecord(r)[..c] + (EncodeRecord(next) + tail);
    assert TornLog(session, kinds, k, c) + Log(session, start, after) == Log(session, 0, kinds) + rest;
    LogParsesFrom(session, 0, kinds, rest, None);
    FollowsLast(session, kinds, k);
    TornRecordHides(r, c, next, tail, records[|kinds| - 1]);
    LogSnoc(session, 0, kinds, k);
    assert records + [] == records;
  }

  /** Records appended after reopening are read exactly if the journal had no torn tail. */
  lemma ReopenedReadableIff(session: Uuid, kinds: seq<Kind>, k: Kind, c: nat, after: seq<Kind>)
    requires AllFit(kinds) && kinds != [] && Fits(k) && AllFit(after) && after != [] && after != [k]
    requires c < |EncodeRecord(Record(session, Later(0, |kinds|), k))|
    requires Recognizable(Record(session, Later(0, |kinds|), k), c, Log(session, Later(0, |kinds|), after))
    ensures var torn := TornLog(session, kinds, k, c);
      var next := NextAfter(ParseValid(torn));
      && next == Later(0, |kinds|)
      && (ParseValid(torn + Log(session, next, after)) == Records(session, 0, kinds + after) <==> c == 0)
  {
    hide EncodeRecord, ParseValid, Log, Records, AllFit, Fits, Later, Recognizable;
    TornLogIsParsed(session, kinds, k, c);
    if c == 0 {
      ReopenedLog(session, kinds, after);
      assert TornLog(session, kinds, k, 0) == Log(session, 0, kinds);
    } else {
      AppendedBehindTorn(session, kinds, k, c, after);
      if |after| == 1 {
        assert after == [after[0]];
        RecordAt(session, 0, kinds + after, |kinds|);
        RecordAt(session, 0, kinds + [k], |kinds|);
      }
    }
  }

  /** A recovery behind a torn record leaves no trace that a reader of the journal finds; without a torn
      record both of its records are read. */
  lemma RecoveryReadIff(session: Uuid, kinds: seq<Kind>, k: Kind, c: nat, n: u64)
    requires AllFit(kinds) && kinds != [] && Fits(k) && Fits(RecoveryStarted) && Fits(RecoveryCompleted(n))
    requires c < |EncodeRecord(Record(session, Later(0, |kinds|), k))|
    requires AllFit([RecoveryStarted, RecoveryCompleted(n)])
    requires Recognizable(Record(session, Later(0, |kinds|), k), c,
                          Log(session, Later(0, |kinds|), [RecoveryStarted, RecoveryCompleted(n)]))
    ensures var both := [RecoveryStarted, RecoveryCompleted(n)];
      var records := ParseValid(Epilogue(TornLog(session, kinds, k, c), session, n));
      && (records == Records(session, 0, kinds + both) <==> c == 0)
      && (c > 0 ==> records == Records(session, 0, kinds) || records == Records(session, 0, kinds + [k]))
  {
    hide EncodeRecord, ParseValid, Log, Records, AllFit, Fits, Later, Next, Recognizable;
    var both := [RecoveryStarted, RecoveryCompleted(n)];
    var torn, start := TornLog(session, kinds, k, c), Later(0, |kinds|);
    TornLogIsParsed(session, kinds, k, c);
    ReopenedReadableIff(session, kinds, k, c, both);
    FirstLogged(session, start, both);
    assert both[1..] == [RecoveryCompleted(n)];
    FirstLogged(session, Next(start), both[1..]);
    assert both[1..][1..] == [];
    NothingLogged(session, Next(Next(start)));
    assert Epilogue(torn, session, n) == torn + Log(session, start, both);
    if c > 0 {
      AppendedBehindTorn(session, kinds, k, c, both);
    }
  }
}
