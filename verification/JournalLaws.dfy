/** What a reader learns from a whole journal file: round trip, truncation, corruption, soundness on
    arbitrary bytes. */
module JournalLaws {
  import opened Bytes
  import opened Crc32
  import opened Postcard
  import opened Wrappers
  import opened JournalFormat

  // ---- logs are built record by record ----

  lemma WrapStep(n: nat)
    ensures (n % U64_SPAN + 1) % U64_SPAN == (n + 1) % U64_SPAN
    ensures (n + U64_SPAN) % U64_SPAN == n % U64_SPAN
  {
  }

  lemma LaterSteps(start: u64, count: nat)
    ensures Later(Next(start), count) == Later(start, count + 1)
    ensures Next(Later(start, count)) == Later(start, count + 1)
    ensures Later(start, 0) == start
  {
    WrapStep(start + count);
    WrapStep(count);
    assert start + 1 < U64_SPAN || start + 1 == U64_SPAN;
  }

  lemma NothingLogged(session: Uuid, start: u64)
    ensures Log(session, start, []) == [] && Records(session, start, []) == []
  {
  }

  lemma FirstLogged(session: Uuid, start: u64, kinds: seq<Kind>)
    requires AllFit(kinds) && kinds != []
    ensures AllFit(kinds[1..]) && Fits(kinds[0])
    ensures Log(session, start, kinds)
         == EncodeRecord(Record(session, start, kinds[0])) + Log(session, Next(start), kinds[1..])
    ensures Records(session, start, kinds)
         == [Record(session, start, kinds[0])] + Records(session, Next(start), kinds[1..])
  {
    hide EncodeRecord, Next, Fits;
  }

  lemma AllFitBoth(a: seq<Kind>, b: seq<Kind>)
    requires AllFit(a) && AllFit(b)
    ensures AllFit(a + b)
  {
    hide Fits;
  }

  lemma AllFitPart(kinds: seq<Kind>, m: nat)
    requires AllFit(kinds) && m <= |kinds|
    ensures AllFit(kinds[..m])
  {
    hide Fits;
  }

  lemma {:induction false} LogConcat(session: Uuid, start: u64, a: seq<Kind>, b: seq<Kind>)
    requires AllFit(a) && AllFit(b)
    ensures AllFit(a + b)
    ensures Log(session, start, a + b) == Log(session, start, a) + Log(session, Later(start, |a|), b)
    ensures Records(session, start, a + b) == Records(session, start, a) + Records(session, Later(start, |a|), b)
    decreases |a|
  {
    hide EncodeRecord, Next, Later, Log, Records, AllFit;
    LaterSteps(start, 0);
    AllFitBoth(a, b);
    if a == [] {
      assert a + b == b;
      NothingLogged(session, start);
    } else {
      FirstLogged(session, start, a);
      FirstLogged(session, start, a + b);
      LogConcat(session, Next(start), a[1..], b);
      LaterSteps(start, |a| - 1);
      assert (a + b)[1..] == a[1..] + b;
    }
  }

  lemma LogSnoc(session: Uuid, start: u64, kinds: seq<Kind>, k: Kind)
    requires AllFit(kinds) && Fits(k)
    ensures AllFit(kinds + [k])
    ensures Log(session, start, kinds + [k])
         == Log(session, start, kinds) + EncodeRecord(Record(session, Later(start, |kinds|), k))
    ensures Records(session, start, kinds + [k])
         == Records(session, start, kinds) + [Record(session, Later(start, |kinds|), k)]
  {
    LogConcat(session, start, kinds, [k]);
    var last := Later(start, |kinds|);
    assert Log(session, last, [k]) == EncodeRecord(Record(session, last, k)) + Log(session, Next(last), [k][1..]);
    assert Records(session, last, [k]) == [Record(session, last, k)] + Records(session, Next(last), [k][1..]);
  }

  lemma {:induction false} RecordAt(session: Uuid, start: u64, kinds: seq<Kind>, i: nat)
    requires i < |kinds|
    ensures Records(session, start, kinds)[i] == Record(session, Later(start, i), kinds[i])
    decreases |kinds|
  {
    LaterSteps(start, 0);
    if i > 0 {
      RecordAt(session, Next(start), kinds[1..], i - 1);
      LaterSteps(start, i - 1);
    }
  }

  // ---- append, then parse ----

  predicate Precedes(previous: Option<Record>, session: Uuid, start: u64) {
    previous.Some? ==> previous.value.sessionId == session && Next(previous.value.sequence) == start
  }

  function LastOf(previous: Option<Record>, records: seq<Record>): Option<Record> {
    if records == [] then previous else Some(records[|records| - 1])
  }

  lemma {:induction false} LogParsesFrom(session: Uuid, start: u64, kinds: seq<Kind>, tail: seq<byte>,
                                         previous: Option<Record>)
    requires AllFit(kinds) && Precedes(previous, session, start)
    ensures var records := Records(session, start, kinds);
      ParseFrom(Log(session, start, kinds) + tail, previous) == records + ParseFrom(tail, LastOf(previous, records))
    decreases |kinds|
  {
    hide EncodeRecord, ParseOne, Log, Records, AllFit, Next;
    if kinds == [] {
      NothingLogged(session, start);
      assert Log(session, start, kinds) + tail == tail;
    } else {
      FirstLogged(session, start, kinds);
      var first := Record(session, start, kinds[0]);
      var rest := Log(session, Next(start), kinds[1..]);
      var bytes := Log(session, start, kinds) + tail;
      assert bytes == EncodeRecord(first) + (rest + tail);
      WrittenIsParsed(first, rest + tail, previous);
      assert bytes[|EncodeRecord(first)|..] == rest + tail;
      LogParsesFrom(session, Next(start), kinds[1..], tail, Some(first));
    }
  }

  /** Whatever follows a written log in the file, the log's records are read first, in order. */
  lemma LogIsParsed(session: Uuid, start: u64, kinds: seq<Kind>, tail: seq<byte>)
    requires AllFit(kinds)
    ensures Records(session, start, kinds) <= ParseValid(Log(session, start, kinds) + tail)
    ensures ParseValid(Log(session, start, kinds)) == Records(session, start, kinds)
  {
    LogParsesFrom(session, start, kinds, tail, None);
    LogParsesFrom(session, start, kinds, [], None);
    assert Log(session, start, kinds) + [] == Log(session, start, kinds);
  }

  /** The sequence number Journal::open continues with. */
  function NextAfter(records: seq<Record>): u64 {
    if records == [] then 0 else Next(records[|records| - 1].sequence)
  }

  /** Appending over any number of create and open sessions is appending in one. */
  lemma ReopenedLog(session: Uuid, before: seq<Kind>, after: seq<Kind>)
    requires AllFit(before) && AllFit(after)
    ensures var next := NextAfter(ParseValid(Log(session, 0, before)));
      && next == Later(0, |before|)
      && Log(session, 0, before) + Log(session, next, after) == Log(session, 0, before + after)
      && ParseValid(Log(session, 0, before) + Log(session, next, after)) == Records(session, 0, before + after)
      && forall i :: 0 <= i < |before + after| ==>
           Records(session, 0, before + after)[i] == Record(session, i % U64_SPAN, (before + after)[i])
  {
    hide EncodeRecord, ParseValid, Log, Records, AllFit;
    NothingLogged(session, 0);
    LaterSteps(0, 0);
    LogIsParsed(session, 0, before, []);
    if before != [] {
      RecordAt(session, 0, before, |before| - 1);
      LaterSteps(0, |before| - 1);
    }
    LogConcat(session, 0, before, after);
    LogIsParsed(session, 0, before + after, []);
    forall i | 0 <= i < |before + after|
      ensures Records(session, 0, before + after)[i] == Record(session, i % U64_SPAN, (before + after)[i])
    {
      RecordAt(session, 0, before + after, i);
    }
  }

  // ---- truncation ----

  /** Cutting any file, well formed or not, never changes or adds records. */
  lemma {:induction false} TruncationKeepsPrefix(bytes: seq<byte>, cut: nat, previous: Option<Record>)
    requires cut <= |bytes|
    ensures ParseFrom(bytes[..cut], previous) <= ParseFrom(bytes, previous)
    decreases |bytes|
  {
    hide ParseOne;
    var short := bytes[..cut];
    var step := ParseOne(short, previous);
    if step.Some? {
      var n := step.value.length;
      assert short[..n] == bytes[..n];
      ParseIsLocal(short, bytes, previous);
      assert short[n..] == bytes[n..][..cut - n];
      TruncationKeepsPrefix(bytes[n..], cut - n, Some(step.value.record));
    }
  }

  /** How many records of a log lie wholly inside its first `cut` bytes. */
  function Whole(session: Uuid, start: u64, kinds: seq<Kind>, cut: nat): (m: nat)
    requires AllFit(kinds)
    ensures m <= |kinds|
    decreases |kinds|
  {
    if kinds == [] then 0
    else
      var n := |EncodeRecord(Record(session, start, kinds[0]))|;
      if cut < n then 0 else 1 + Whole(session, Next(start), kinds[1..], cut - n)
  }

  lemma {:induction false} WholeBounds(session: Uuid, start: u64, kinds: seq<Kind>, cut: nat)
    requires AllFit(kinds)
    ensures var m := Whole(session, start, kinds, cut);
      && AllFit(kinds[..m]) && |Log(session, start, kinds[..m])| <= cut
      && (m < |kinds| ==> AllFit(kinds[..m + 1]) && cut < |Log(session, start, kinds[..m + 1])|)
    decreases |kinds|
  {
    hide EncodeRecord, Next, Log, Records, AllFit;
    var m := Whole(session, start, kinds, cut);
    AllFitPart(kinds, m);
    NothingLogged(session, start);
    if kinds != [] {
      FirstLogged(session, start, kinds);
      var first := Record(session, start, kinds[0]);
      if m == 0 {
        AllFitPart(kinds, 1);
        FirstLogged(session, start, kinds[..1]);
      } else {
        WholeBounds(session, Next(start), kinds[1..], cut - |EncodeRecord(first)|);
        FirstLogged(session, start, kinds[..m]);
        assert kinds[..m][1..] == kinds[1..][..m - 1];
        if m < |kinds| {
          AllFitPart(kinds, m + 1);
          FirstLogged(session, start, kinds[..m + 1]);
          assert kinds[..m + 1][1..] == kinds[1..][..m];
        }
      }
    }
  }

  lemma RejectedEnds(bytes: seq<byte>, previous: Option<Record>)
    requires bytes == [] || ParseOne(bytes, previous) == None
    ensures ParseFrom(bytes, previous) == []
  {
    hide Hash, Checksum, Decode, FromLE, Code, Follows;
  }

  lemma {:induction false} CutParsesFrom(session: Uuid, start: u64, kinds: seq<Kind>, cut: nat,
                                         previous: Option<Record>)
    requires AllFit(kinds) && Precedes(previous, session, start) && cut <= |Log(session, start, kinds)|
    ensures ParseFrom(Log(session, start, kinds)[..cut], previous)
         == Records(session, start, kinds[..Whole(session, start, kinds, cut)])
    decreases |kinds|
  {
    hide EncodeRecord, ParseOne, Next, Log, Records, AllFit;
    var bytes := Log(session, start, kinds)[..cut];
    NothingLogged(session, start);
    if kinds == [] {
      RejectedEnds(bytes, previous);
    } else {
      FirstLogged(session, start, kinds);
      var first := Record(session, start, kinds[0]);
      var n := |EncodeRecord(first)|;
      var rest := Log(session, Next(start), kinds[1..]);
      if cut < n {
        assert bytes == EncodeRecord(first)[..cut];
        TornIsRejected(first, cut, previous);
        RejectedEnds(bytes, previous);
      } else {
        assert bytes == EncodeRecord(first) + rest[..cut - n];
        WrittenIsParsed(first, rest[..cut - n], previous);
        assert bytes[n..] == rest[..cut - n];
        CutParsesFrom(session, Next(start), kinds[1..], cut - n, Some(first));
        var m := Whole(session, start, kinds, cut);
        AllFitPart(kinds, m);
        FirstLogged(session, start, kinds[..m]);
        assert kinds[..m][1..] == kinds[1..][..m - 1];
      }
    }
  }

  /** A written log cut at any byte yields exactly the records wholly inside the cut. */
  lemma CutLog(session: Uuid, start: u64, kinds: seq<Kind>, cut: nat)
    requires AllFit(kinds) && cut <= |Log(session, start, kinds)|
    ensures var m := Whole(session, start, kinds, cut);
      && ParseValid(Log(session, start, kinds)[..cut]) == Records(session, start, kinds[..m])
      && |Log(session, start, kinds[..m])| <= cut
      && (m < |kinds| ==> cut < |Log(session, start, kinds[..m + 1])|)
  {
    CutParsesFrom(session, start, kinds, cut, None);
    WholeBounds(session, start, kinds, cut);
  }

  lemma {:induction false} WholeAtLeast(session: Uuid, start: u64, kinds: seq<Kind>, kept: nat, cut: nat)
    requires AllFit(kinds) && kept <= |kinds| && |Log(session, start, kinds[..kept])| <= cut
    ensures kept <= Whole(session, start, kinds, cut)
    decreases |kinds|
  {
    hide EncodeRecord, Next;
    if kept > 0 {
      assert kinds[..kept][1..] == kinds[1..][..kept - 1];
      WholeAtLeast(session, Next(start), kinds[1..], kept - 1, cut - |EncodeRecord(Record(session, start, kinds[0]))|);
    }
  }

  // ---- corruption ----

  /** `damaged` is the record's bytes with up to four consecutive bytes of the checksummed part changed,
      the length field (offsets 36 to 39) untouched; or with only its stored checksum changed. */
  predicate DamagedBurst(clean: seq<byte>, damaged: seq<byte>, at: nat, width: nat) {
    && |damaged| == |clean| && damaged != clean && width <= 4
    && at + width <= |clean| - 4 && (at + width <= 36 || at >= HEADER_LEN)
    && damaged[..at] == clean[..at] && damaged[at + width..] == clean[at + width..]
  }

  predicate DamagedChecksum(clean: seq<byte>, damaged: seq<byte>) {
    && |damaged| == |clean| >= 4 && damaged != clean
    && damaged[..|clean| - 4] == clean[..|clean| - 4]
  }

  lemma DifferenceIsInside(a: seq<byte>, b: seq<byte>, from: nat, to: nat)
    requires |a| == |b| && a != b && from <= to <= |a| && a[..from] == b[..from] && a[to..] == b[to..]
    ensures a[from..to] != b[from..to]
  {
    assert a == a[..from] + a[from..to] + a[to..];
    assert b == b[..from] + b[from..to] + b[to..];
  }

  lemma ChecksumMismatch(bytes: seq<byte>, previous: Option<Record>, n: nat)
    requires HEADER_LEN + 4 <= n <= |bytes|
    requires FromLE(bytes[36..40]) == n - HEADER_LEN - 4
    requires Hash(bytes[..n - 4]) != Checksum(bytes[n - 4..n])
    ensures ParseOne(bytes, previous) == None
  {
  }

  lemma CleanRecord(r: Record)
    requires Fits(r.kind)
    ensures var clean := EncodeRecord(r); var n := |clean|;
      && FromLE(clean[36..40]) == n - HEADER_LEN - 4
      && Checksum(clean[n - 4..n]) == Hash(clean[..n - 4])
  {
    hide Hash, Checksum, ChecksumBytes, Encode, FromLE, Header, Code;
    var payload := Encode(r.kind);
    var crc := ChecksumBytes(Hash(Body(r)));
    HeaderFields(r.sessionId, r.sequence, Code(r.kind), |payload|, payload + crc);
    assert EncodeRecord(r) == Header(r.sessionId, r.sequence, Code(r.kind), |payload|) + (payload + crc);
    ChecksumRoundTrip(Hash(Body(r)));
    assert EncodeRecord(r)[..|Body(r)|] == Body(r);
    assert EncodeRecord(r)[|Body(r)|..|Body(r)| + 4] == crc;
  }

  lemma BurstIsRejected(r: Record, damaged: seq<byte>, at: nat, width: nat, tail: seq<byte>, previous: Option<Record>)
    requires Fits(r.kind) && DamagedBurst(EncodeRecord(r), damaged, at, width)
    ensures ParseOne(damaged + tail, previous) == None
  {
    hide EncodeRecord, ParseOne, Hash, Checksum, FromLE;
    var clean := EncodeRecord(r);
    var n := |clean|;
    var bytes := damaged + tail;
    CleanRecord(r);
    assert bytes[36..40] == damaged[36..40];
    if at + width <= 36 {
      assert damaged[36..40] == damaged[at + width..][36 - at - width..40 - at - width];
      assert clean[36..40] == clean[at + width..][36 - at - width..40 - at - width];
    } else {
      assert damaged[36..40] == damaged[..at][36..40] && clean[36..40] == clean[..at][36..40];
    }
    assert damaged[n - 4..] == damaged[at + width..][n - 4 - at - width..];
    assert clean[n - 4..] == clean[at + width..][n - 4 - at - width..];
    assert bytes[n - 4..n] == damaged[n - 4..] == clean[n - 4..] == clean[n - 4..n];
    var v, w := damaged[at..at + width], clean[at..at + width];
    var after := clean[at + width..][..n - 4 - at - width];
    DifferenceIsInside(clean, damaged, at, at + width);
    assert bytes[..n - 4] == clean[..at] + v + after;
    assert clean[..n - 4] == clean[..at] + w + after;
    BurstDetected(clean[..at], v, w, after);
    ChecksumMismatch(bytes, previous, n);
  }

  lemma ChecksumDamageIsRejected(r: Record, damaged: seq<byte>, tail: seq<byte>, previous: Option<Record>)
    requires Fits(r.kind) && DamagedChecksum(EncodeRecord(r), damaged)
    ensures ParseOne(damaged + tail, previous) == None
  {
    hide EncodeRecord, ParseOne, Hash, Checksum, FromLE;
    var clean := EncodeRecord(r);
    var n := |clean|;
    var bytes := damaged + tail;
    CleanRecord(r);
    assert bytes[36..40] == damaged[..n - 4][36..40] && clean[36..40] == clean[..n - 4][36..40];
    assert bytes[..n - 4] == damaged[..n - 4] == clean[..n - 4];
    DifferenceIsInside(clean, damaged, n - 4, n);
    assert bytes[n - 4..n] == damaged[n - 4..n];
    if Checksum(damaged[n - 4..n]) == Checksum(clean[n - 4..n]) {
      ChecksumInjective(damaged[n - 4..n], clean[n - 4..n]);
      assert false;
    }
    ChecksumMismatch(bytes, previous, n);
  }

  /** Damage to one record of a log is noticed: exactly the records before it are read. */
  lemma CorruptionIsDetected(session: Uuid, start: u64, before: seq<Kind>, k: Kind, damaged: seq<byte>,
                             at: nat, width: nat, tail: seq<byte>)
    requires AllFit(before) && Fits(k)
    requires var clean := EncodeRecord(Record(session, Later(start, |before|), k));
      DamagedBurst(clean, damaged, at, width) || DamagedChecksum(clean, damaged)
    ensures ParseValid(Log(session, start, before) + damaged + tail) == Records(session, start, before)
  {
    var r := Record(session, Later(start, |before|), k);
    var records := Records(session, start, before);
    var previous := LastOf(None, records);
    assert Log(session, start, before) + damaged + tail == Log(session, start, before) + (damaged + tail);
    LogParsesFrom(session, start, before, damaged + tail, None);
    if DamagedBurst(EncodeRecord(r), damaged, at, width) {
      BurstIsRejected(r, damaged, at, width, tail, previous);
    } else {
      ChecksumDamageIsRejected(r, damaged, tail, previous);
    }
  }

  // ---- soundness on arbitrary bytes ----

  /** bytes[from..to] is a complete record of the file format that stands for r. */
  predicate Backs(bytes: seq<byte>, from: nat, to: nat, r: Record) {
    && from + HEADER_LEN + 4 <= to <= |bytes|
    && var b := bytes[from..to];
       var n := |b|;
       && b[..8] == MAGIC && FromLE(b[8..10]) == VERSION
       && b[10..26] == r.sessionId && FromLE(b[26..34]) == r.sequence
       && FromLE(b[34..36]) == Code(r.kind) && FromLE(b[36..40]) == n - HEADER_LEN - 4 <= MAX_RECORD_SIZE
       && Decode(b[HEADER_LEN..n - 4]) == Some(r.kind)
       && Checksum(b[n - 4..]) == Hash(b[..n - 4])
  }

  /** The records found in bytes[offset..] are backed by adjacent ranges that begin at `offset`. */
  predicate Tiled(bytes: seq<byte>, offset: nat, records: seq<Record>, ends: seq<nat>) {
    && |ends| == |records|
    && forall i :: 0 <= i < |records| ==> Backs(bytes, if i == 0 then offset else ends[i - 1], ends[i], records[i])
  }

  lemma ParsedIsBacked(bytes: seq<byte>, previous: Option<Record>)
    requires ParseOne(bytes, previous).Some?
    ensures var p := ParseOne(bytes, previous).value;
      Backs(bytes, 0, p.length, p.record) && Continues(previous, p.record)
  {
    hide Hash, Checksum, Decode, FromLE, Code, Follows;
    var n := ParseOne(bytes, previous).value.length;
    var b := bytes[0..n];
    assert b[..8] == bytes[..8] && b[8..10] == bytes[8..10] && b[10..26] == bytes[10..26] && b[26..34] == bytes[26..34];
    assert b[34..36] == bytes[34..36] && b[36..40] == bytes[36..40];
    assert b[..n - 4] == bytes[..n - 4] && b[n - 4..] == bytes[n - 4..n];
    assert b[HEADER_LEN..n - 4] == bytes[..n - 4][HEADER_LEN..];
  }

  lemma BacksShifted(bytes: seq<byte>, shift: nat, from: nat, to: nat, r: Record)
    requires shift <= |bytes| && Backs(bytes[shift..], from, to, r)
    ensures Backs(bytes, shift + from, shift + to, r)
  {
    assert bytes[shift..][from..to] == bytes[shift + from..shift + to];
  }

  lemma {:induction false} ParserSoundFrom(bytes: seq<byte>, previous: Option<Record>) returns (ends: seq<nat>)
    ensures var records := ParseFrom(bytes, previous);
      && Tiled(bytes, 0, records, ends)
      && (forall i :: 0 < i < |records| ==> Follows(records[i - 1], records[i]))
      && (records != [] ==> Continues(previous, records[0]))
    decreases |bytes|
  {
    hide ParseOne, Backs, Follows;
    var records := ParseFrom(bytes, previous);
    ends := [];
    var step := ParseOne(bytes, previous);
    if step.Some? {
      var n := step.value.length;
      ParsedIsBacked(bytes, previous);
      var later := ParserSoundFrom(bytes[n..], Some(step.value.record));
      var others := ParseFrom(bytes[n..], Some(step.value.record));
      ends := [n] + seq(|later|, i requires 0 <= i < |later| => n + later[i]);
      forall i | 0 <= i < |records|
        ensures Backs(bytes, if i == 0 then 0 else ends[i - 1], ends[i], records[i])
      {
        if i > 0 {
          assert records[i] == others[i - 1];
          assert Backs(bytes[n..], if i - 1 == 0 then 0 else later[i - 1 - 1], later[i - 1], others[i - 1]);
          BacksShifted(bytes, n, if i == 1 then 0 else later[i - 2], later[i - 1], records[i]);
        }
      }
    }
  }

  /** On arbitrary bytes the parser reports records of one session with consecutive sequence numbers,
      each backed by its own adjacent range of the file. */
  lemma ParserSound(bytes: seq<byte>) returns (ends: seq<nat>)
    ensures var records := ParseValid(bytes);
      && Tiled(bytes, 0, records, ends)
      && (forall i :: 0 <= i < |records| ==>
            records[i].sessionId == records[0].sessionId && records[i].sequence == Later(records[0].sequence, i))
  {
    ends := ParserSoundFrom(bytes, None);
    var records := ParseValid(bytes);
    for i := 0 to |records|
      invariant forall j :: 0 <= j < i ==>
        records[j].sessionId == records[0].sessionId && records[j].sequence == Later(records[0].sequence, j)
    {
      if i > 0 {
        assert Follows(records[i - 1], records[i]);
        LaterSteps(records[0].sequence, i - 1);
      } else {
        LaterSteps(records[0].sequence, 0);
      }
    }
  }
}
