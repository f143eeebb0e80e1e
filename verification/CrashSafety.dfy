/** Why a crash loses nothing acknowledged: what holds of every moment of a recording, that each
    elementary action keeps it, and what recovery is then bound to find. */
module CrashSafety {
  import opened Bytes
  import opened Wrappers
  import opened Postcard
  import opened JournalFormat
  import opened JournalLaws
  import opened Rf64
  import opened Session
  import opened Storage
  import ManifestFile
  import Journal

  // ---- committed frontiers ----

  function Committed(k: Kind): nat {
    match k case FramesCommitted(n) => n case _ => 0
  }

  function Max(a: nat, b: nat): nat {
    if a < b then b else a
  }

  /** The largest committed frame count among journaled kinds; 0 when nothing was committed. */
  function Frontier(kinds: seq<Kind>): nat {
    if kinds == [] then 0 else Max(Frontier(kinds[..|kinds| - 1]), Committed(kinds[|kinds| - 1]))
  }

  /** The same over records read back: the maximum that recover_session takes. */
  function CommittedIn(records: seq<Record>): nat {
    if records == [] then 0 else Max(CommittedIn(records[..|records| - 1]), Committed(records[|records| - 1].kind))
  }

  lemma {:induction false} FrontierOfRecords(session: Uuid, start: u64, kinds: seq<Kind>)
    requires AllFit(kinds)
    ensures CommittedIn(Records(session, start, kinds)) == Frontier(kinds)
  {
    hide EncodeRecord, Later, Fits, Log, Records, CommittedIn, Frontier;
    if kinds == [] {
      FrontierOfNothing(session, start);
    } else {
      var n := |kinds| - 1;
      var init, last := kinds[..n], kinds[n];
      FrontierOfRecords(session, start, init);
      LogSnoc(session, start, init, last);
      assert init + [last] == kinds;
      FrontierSnoc(init, last);
      CommittedSnoc(Records(session, start, init), Record(session, Later(start, n), last));
    }
  }

  lemma FrontierOfNothing(session: Uuid, start: u64)
    ensures CommittedIn(Records(session, start, [])) == Frontier([])
  {
  }

  lemma CommittedSnoc(records: seq<Record>, r: Record)
    ensures CommittedIn(records + [r]) == Max(CommittedIn(records), Committed(r.kind))
  {
    assert (records + [r])[..|records|] == records;
  }

  lemma {:induction false} FrontierGrows(kinds: seq<Kind>, shorter: nat)
    requires shorter <= |kinds|
    ensures Frontier(kinds[..shorter]) <= Frontier(kinds)
  {
    if shorter < |kinds| {
      var n := |kinds| - 1;
      FrontierGrows(kinds[..n], shorter);
      assert kinds[..n][..shorter] == kinds[..shorter];
    } else {
      assert kinds[..shorter] == kinds;
    }
  }

  lemma FrontierSnoc(kinds: seq<Kind>, k: Kind)
    ensures Frontier(kinds + [k]) == Max(Frontier(kinds), Committed(k))
  {
    assert (kinds + [k])[..|kinds|] == kinds;
  }

  lemma {:induction false} CommittedPrefix(records: seq<Record>, shorter: nat)
    requires shorter <= |records|
    ensures CommittedIn(records[..shorter]) <= CommittedIn(records)
  {
    if shorter < |records| {
      var n := |records| - 1;
      CommittedPrefix(records[..n], shorter);
      assert records[..n][..shorter] == records[..shorter];
    } else {
      assert records[..shorter] == records;
    }
  }

  /** It is the largest count in a commit record, or 0 without one. */
  lemma {:induction false} CommittedIsLargest(records: seq<Record>)
    ensures forall r <- records :: r.kind.FramesCommitted? ==> r.kind.frames <= CommittedIn(records)
    ensures CommittedIn(records) == 0 || exists r <- records :: Committed(r.kind) == CommittedIn(records)
  {
    if records != [] {
      var n := |records| - 1;
      CommittedIsLargest(records[..n]);
      assert records == records[..n] + [records[n]];
    }
  }

  /** Appending to a journal, whatever its tail, never lowers the committed frontier. */
  lemma CommitsNeverDrop(log: seq<byte>, longer: seq<byte>)
    requires log <= longer
    ensures ParseValid(log) <= ParseValid(longer) && CommittedIn(ParseValid(log)) <= CommittedIn(ParseValid(longer))
  {
    assert longer[..|log|] == log;
    TruncationKeepsPrefix(longer, |log|, None);
    CommittedPrefix(ParseValid(longer), |ParseValid(log)|);
    assert ParseValid(longer)[..|ParseValid(log)|] == ParseValid(log);
  }

  // ---- the last commit ----

  /** The last committed frame count; 0 when nothing was committed. */
  function LastCommit(kinds: seq<Kind>): nat {
    if kinds == [] then 0
    else if kinds[|kinds| - 1].FramesCommitted? then Committed(kinds[|kinds| - 1])
    else LastCommit(kinds[..|kinds| - 1])
  }

  function LastCommitIn(records: seq<Record>): nat {
    if records == [] then 0
    else if records[|records| - 1].kind.FramesCommitted? then Committed(records[|records| - 1].kind)
    else LastCommitIn(records[..|records| - 1])
  }

  /** Commits are journaled in nondecreasing order. */
  predicate Ascending(kinds: seq<Kind>) {
    forall i :: 0 <= i < |kinds| && kinds[i].FramesCommitted? ==> Frontier(kinds[..i]) <= Committed(kinds[i])
  }

  lemma AscendingSnoc(kinds: seq<Kind>, k: Kind)
    requires Ascending(kinds) && (k.FramesCommitted? ==> Frontier(kinds) <= Committed(k))
    ensures Ascending(kinds + [k])
  {
    hide Frontier;
    var more := kinds + [k];
    forall i | 0 <= i < |more| && more[i].FramesCommitted?
      ensures Frontier(more[..i]) <= Committed(more[i])
    {
      assert more[..i] == kinds[..i];
      assert kinds[..|kinds|] == kinds;
    }
  }

  lemma AscendingPart(kinds: seq<Kind>, count: nat)
    requires Ascending(kinds) && count <= |kinds|
    ensures Ascending(kinds[..count])
  {
    hide Frontier;
    forall i | 0 <= i < count && kinds[i].FramesCommitted?
      ensures Frontier(kinds[..count][..i]) <= Committed(kinds[i])
    {
      assert kinds[..count][..i] == kinds[..i];
    }
  }

  /** Of ascending commits the last is the largest. */
  lemma {:induction false} LastIsLargest(kinds: seq<Kind>)
    requires Ascending(kinds)
    ensures LastCommit(kinds) == Frontier(kinds)
  {
    if kinds != [] {
      var n := |kinds| - 1;
      AscendingPart(kinds, n);
      LastIsLargest(kinds[..n]);
    }
  }

  lemma LastOfRecordsSnoc(records: seq<Record>, r: Record, kinds: seq<Kind>)
    requires LastCommitIn(records) == LastCommit(kinds)
    ensures LastCommitIn(records + [r]) == LastCommit(kinds + [r.kind])
  {
    assert (records + [r])[..|records|] == records && (kinds + [r.kind])[..|kinds|] == kinds;
  }

  lemma LastOfNothing(session: Uuid, start: u64)
    ensures LastCommitIn(Records(session, start, [])) == LastCommit([])
  {
  }

  lemma {:induction false} LastOfRecords(session: Uuid, start: u64, kinds: seq<Kind>)
    requires AllFit(kinds)
    ensures LastCommitIn(Records(session, start, kinds)) == LastCommit(kinds)
  {
    hide EncodeRecord, Later, Fits, Log, Records, LastCommitIn, LastCommit;
    if kinds == [] {
      LastOfNothing(session, start);
    } else {
      var n := |kinds| - 1;
      var init, last := kinds[..n], kinds[n];
      LastOfRecords(session, start, init);
      LogSnoc(session, start, init, last);
      assert init + [last] == kinds;
      LastOfRecordsSnoc(Records(session, start, init), Record(session, Later(start, n), last), init);
    }
  }

  // ---- audio ----

  /** One channel of a list of frames. */
  function Track(frames: seq<Frame>, c: nat): (samples: seq<Sample>)
    ensures |samples| == |frames|
  {
    seq(|frames|, f requires 0 <= f < |frames| => if c < |frames[f]| then frames[f][c] else SILENCE)
  }

  function TrackBytes(frames: seq<Frame>, c: nat): (b: seq<byte>)
    ensures |b| == BYTES_PER_SAMPLE * |frames|
  {
    SampleBytes(Track(frames, c))
  }

  lemma {:induction false} SampleBytesConcat(a: seq<Sample>, b: seq<Sample>)
    ensures SampleBytes(a + b) == SampleBytes(a) + SampleBytes(b)
  {
    if b == [] {
      assert a + b == a;
    } else {
      var n := |b| - 1;
      SampleBytesConcat(a, b[..n]);
      assert (a + b)[..|a| + n] == a + b[..n];
    }
  }

  lemma TrackBytesConcat(a: seq<Frame>, b: seq<Frame>, c: nat)
    ensures TrackBytes(a + b, c) == TrackBytes(a, c) + TrackBytes(b, c)
  {
    assert Track(a + b, c) == Track(a, c) + Track(b, c);
    SampleBytesConcat(Track(a, c), Track(b, c));
  }

  lemma TrackBytesPrefix(frames: seq<Frame>, c: nat, count: nat)
    requires count <= |frames|
    ensures TrackBytes(frames, c)[..BYTES_PER_SAMPLE * count] == TrackBytes(frames[..count], c)
  {
    TrackBytesConcat(frames[..count], frames[count..], c);
    assert frames == frames[..count] + frames[count..];
  }

  /** The file content holds the first `count` samples of channel c after the header. */
  predicate Carries(content: seq<byte>, frames: seq<Frame>, c: nat, count: nat) {
    && count <= |frames|
    && |content| >= AUDIO_OFFSET + BYTES_PER_SAMPLE * count
    && content[AUDIO_OFFSET..AUDIO_OFFSET + BYTES_PER_SAMPLE * count] == TrackBytes(frames[..count], c)
  }

  predicate Holds(f: FileState, frames: seq<Frame>, c: nat, count: nat) {
    Carries(f.current, frames, c, count) && Carries(f.stable, frames, c, count)
  }

  lemma CarriesMore(content: seq<byte>, extra: seq<byte>, frames: seq<Frame>, c: nat, count: nat)
    requires Carries(content, frames, c, count)
    ensures Carries(content + extra, frames, c, count)
  {
    var end := AUDIO_OFFSET + BYTES_PER_SAMPLE * count;
    assert (content + extra)[AUDIO_OFFSET..end] == content[AUDIO_OFFSET..end];
  }

  lemma CarriesPatched(content: seq<byte>, at: nat, bytes: seq<byte>, frames: seq<Frame>, c: nat, count: nat)
    requires Carries(content, frames, c, count) && at + |bytes| <= AUDIO_OFFSET
    ensures Carries(Spliced(content, at, bytes), frames, c, count)
  {
    var end := AUDIO_OFFSET + BYTES_PER_SAMPLE * count;
    assert Spliced(content, at, bytes)[AUDIO_OFFSET..end] == content[AUDIO_OFFSET..end];
  }

  lemma CarriesSurvive(f: FileState, after: seq<byte>, frames: seq<Frame>, c: nat, count: nat)
    requires Holds(f, frames, c, count) && AudioSurvives(f, after)
    ensures Carries(after, frames, c, count)
  {
    var end := AUDIO_OFFSET + BYTES_PER_SAMPLE * count;
    forall i | AUDIO_OFFSET <= i < end
      ensures after[i] == f.stable[i]
    {
      assert f.current[i] == f.current[AUDIO_OFFSET..end][i - AUDIO_OFFSET];
      assert f.stable[i] == f.stable[AUDIO_OFFSET..end][i - AUDIO_OFFSET];
    }
    assert after[AUDIO_OFFSET..end] == f.stable[AUDIO_OFFSET..end];
  }

  // ---- what holds at every moment ----

  /** Every part file still has its part name. */
  predicate Unpublished(d: Disk, channels: nat) {
    forall c :: 0 <= c < channels ==> Part(c) in d.files
  }

  /** The part files of the first `channels` channels hold `frames` complete frames. */
  predicate PartsReach(d: Disk, channels: nat, frames: nat) {
    forall c :: 0 <= c < channels ==>
      Part(c) in d.files && |d.files[Part(c)].current| >= AUDIO_OFFSET + BYTES_PER_SAMPLE * frames
  }

  predicate JournalSafe(session: Uuid, m: Moment)
    requires AllFit(m.kinds) && m.durable <= |m.kinds|
  {
    if JournalFile in m.disk.files then
      var f := m.disk.files[JournalFile];
      Log(session, 0, m.kinds[..m.durable]) <= f.stable <= f.current <= Log(session, 0, m.kinds)
    else m.kinds == []
  }

  predicate CopySafe(session: Uuid, channels: nat, committed: nat, c: Option<Copy>) {
    c.Some? ==>
      && c.value.synced && c.value.manifest.sessionId == session
      && |c.value.manifest.channels| == channels && c.value.manifest.sampleRate != 0
      && c.value.manifest.framesCommitted <= committed
  }

  predicate ManifestSafe(session: Uuid, channels: nat, m: Moment)
    requires m.durable <= |m.kinds|
  {
    var committed := Frontier(m.kinds[..m.durable]);
    && CopySafe(session, channels, committed, m.disk.visible)
    && CopySafe(session, channels, committed, m.disk.settled)
    && (Frontier(m.kinds) > 0 ==> m.disk.visible.Some? && m.disk.settled.Some?)
  }

  /** Where channel c's audio is: its part file, until that has been renamed. */
  function Home(d: Disk, c: nat): Name {
    if Part(c) in d.files then Part(c) else Final(c)
  }

  predicate AudioSafe(channels: nat, d: Disk, submitted: seq<Frame>, count: nat) {
    forall c :: 0 <= c < channels ==>
      Home(d, c) in d.files && Holds(d.files[Home(d, c)], submitted, c, count)
  }

  /** A recorder never makes recovery outputs. */
  predicate NoOutputs(d: Disk) {
    forall name <- d.files :: !name.Output?
  }

  /** The durable frontiers in order: manifest <= acknowledged journal <= journal <= synced audio <= submitted. */
  predicate Safe(session: Uuid, channels: nat, m: Moment) {
    && AllFit(m.kinds) && m.durable <= |m.kinds| && NoOutputs(m.disk) && Ascending(m.kinds)
    && m.acked <= Frontier(m.kinds[..m.durable]) <= Frontier(m.kinds) <= |m.submitted|
    && JournalSafe(session, m)
    && ManifestSafe(session, channels, m)
    && (Frontier(m.kinds) > 0 ==> AudioSafe(channels, m.disk, m.submitted, Frontier(m.kinds)))
  }

  // ---- every elementary action keeps it ----

  /** An append to a part file. */
  lemma GrowKeepsSafe(session: Uuid, channels: nat, m: Moment, c: nat, bytes: seq<byte>)
    requires Safe(session, channels, m) && Part(c) in m.disk.files
    ensures Safe(session, channels, m.(disk := Grown(m.disk, Part(c), bytes)))
  {
    var d := Grown(m.disk, Part(c), bytes);
    var n := Frontier(m.kinds);
    if n > 0 {
      forall i | 0 <= i < channels
        ensures Home(d, i) in d.files && Holds(d.files[Home(d, i)], m.submitted, i, n)
      {
        assert Home(d, i) == Home(m.disk, i) && Holds(m.disk.files[Home(d, i)], m.submitted, i, n);
        if i == c {
          CarriesMore(m.disk.files[Part(c)].current, bytes, m.submitted, c, n);
        }
      }
    }
  }

  /** A sync of a part file. */
  lemma FlushKeepsSafe(session: Uuid, channels: nat, m: Moment, c: nat)
    requires Safe(session, channels, m) && Part(c) in m.disk.files
    ensures Safe(session, channels, m.(disk := Flushed(m.disk, Part(c))))
  {
    var d := Flushed(m.disk, Part(c));
    var n := Frontier(m.kinds);
    if n > 0 {
      forall i | 0 <= i < channels
        ensures Home(d, i) in d.files && Holds(d.files[Home(d, i)], m.submitted, i, n)
      {
        assert Home(d, i) == Home(m.disk, i) && Holds(m.disk.files[Home(d, i)], m.submitted, i, n);
      }
    }
  }

  /** Header fields overwritten in place. */
  lemma PatchKeepsSafe(session: Uuid, channels: nat, m: Moment, c: nat, at: nat, bytes: seq<byte>)
    requires Safe(session, channels, m) && Part(c) in m.disk.files
    requires at + |bytes| <= AUDIO_OFFSET && at + |bytes| <= |m.disk.files[Part(c)].current|
    ensures Safe(session, channels, m.(disk := Patched(m.disk, Part(c), at, bytes)))
  {
    var d := Patched(m.disk, Part(c), at, bytes);
    var n := Frontier(m.kinds);
    if n > 0 {
      forall i | 0 <= i < channels
        ensures Home(d, i) in d.files && Holds(d.files[Home(d, i)], m.submitted, i, n)
      {
        assert Home(d, i) == Home(m.disk, i) && Holds(m.disk.files[Home(d, i)], m.submitted, i, n);
        if i == c {
          CarriesPatched(m.disk.files[Part(c)].current, at, bytes, m.submitted, c, n);
        }
      }
    }
  }

  /** A part file published under its final name. */
  lemma MoveKeepsSafe(session: Uuid, channels: nat, m: Moment, c: nat, to: nat)
    requires Safe(session, channels, m) && Part(c) in m.disk.files && to == c
    ensures Safe(session, channels, m.(disk := Moved(m.disk, Part(c), Final(to))))
  {
    hide Log, Frontier, AudioSafe;
    MoveKeepsAudio(channels, m.disk, m.submitted, Frontier(m.kinds), c);
  }

  lemma MoveKeepsAudio(channels: nat, d: Disk, submitted: seq<Frame>, count: nat, c: nat)
    requires Part(c) in d.files
    ensures AudioSafe(channels, d, submitted, count) ==>
              AudioSafe(channels, Moved(d, Part(c), Final(c)), submitted, count)
  {
    hide Holds;
    var e := Moved(d, Part(c), Final(c));
    if AudioSafe(channels, d, submitted, count) {
      forall i | 0 <= i < channels
        ensures Home(e, i) in e.files && Holds(e.files[Home(e, i)], submitted, i, count)
      {
        assert Home(d, i) in d.files && Holds(d.files[Home(d, i)], submitted, i, count);
        assert i != c ==> Home(e, i) == Home(d, i);
      }
    }
  }

  /** While nothing has been journaled, any change of the part files is safe. */
  lemma UnjournaledIsSafe(session: Uuid, channels: nat, m: Moment)
    requires m.acked == 0 && m.kinds == [] && m.durable == 0 && NoOutputs(m.disk)
    requires JournalFile in m.disk.files ==> m.disk.files[JournalFile] == FileState([], [])
    requires CopySafe(session, channels, 0, m.disk.visible) && CopySafe(session, channels, 0, m.disk.settled)
    ensures Safe(session, channels, m)
  {
    assert m.kinds[..0] == [];
  }

  /** More frames handed in. */
  lemma SubmitKeepsSafe(session: Uuid, channels: nat, m: Moment, more: seq<Frame>)
    requires Safe(session, channels, m)
    ensures Safe(session, channels, m.(submitted := m.submitted + more))
  {
    var n := Frontier(m.kinds);
    assert (m.submitted + more)[..n] == m.submitted[..n];
    if n > 0 {
      forall i | 0 <= i < channels
        ensures Home(m.disk, i) in m.disk.files && Holds(m.disk.files[Home(m.disk, i)], m.submitted + more, i, n)
      {
        assert Holds(m.disk.files[Home(m.disk, i)], m.submitted, i, n);
      }
    }
  }

  /** Frames acknowledged once a durable record commits them. */
  lemma AcknowledgeKeepsSafe(session: Uuid, channels: nat, m: Moment, acked: nat)
    requires Safe(session, channels, m) && acked <= Frontier(m.kinds[..m.durable])
    ensures Safe(session, channels, m.(acked := acked, secured := acked))
  {
  }

  /** A FramesCommitted record may be journaled once the frames it counts, no fewer than those already
      committed, are synced on every channel. */
  predicate MayJournal(channels: nat, base: Moment, k: Kind) {
    && (k.FramesCommitted? ==> Frontier(base.kinds) <= Committed(k))
    && (Committed(k) > 0 ==>
          && Committed(k) <= |base.submitted|
          && base.disk.visible.Some? && base.disk.settled.Some?
          && AudioSafe(channels, base.disk, base.submitted, Committed(k)))
  }

  lemma SameAudio(channels: nat, d: Disk, e: Disk, submitted: seq<Frame>, count: nat)
    requires SameBut(d, JournalFile, e) || e.files == d.files
    ensures AudioSafe(channels, d, submitted, count) ==> AudioSafe(channels, e, submitted, count)
  {
    hide Holds;
    if AudioSafe(channels, d, submitted, count) {
      forall c | 0 <= c < channels
        ensures Home(e, c) in e.files && Holds(e.files[Home(e, c)], submitted, c, count)
      {
        assert Home(e, c) == Home(d, c) && Holds(d.files[Home(d, c)], submitted, c, count);
      }
    }
  }

  lemma JournalStepFrontier(session: Uuid, channels: nat, base: Moment, k: Kind, x: Moment)
    requires Safe(session, channels, base) && MayJournal(channels, base, k)
    requires SameBut(base.disk, JournalFile, x.disk) && x == base.(disk := x.disk, kinds := base.kinds + [k])
    ensures x.acked <= Frontier(x.kinds[..x.durable]) <= Frontier(x.kinds) <= |x.submitted| && NoOutputs(x.disk)
    ensures Ascending(x.kinds)
    ensures ManifestSafe(session, channels, x)
    ensures Frontier(x.kinds) > 0 ==> AudioSafe(channels, x.disk, x.submitted, Frontier(x.kinds))
  {
    hide Ascending, AudioSafe;
    FrontierSnoc(base.kinds, k);
    SameAudio(channels, base.disk, x.disk, x.submitted, Frontier(x.kinds));
    AscendingSnoc(base.kinds, k);
    assert x.kinds[..x.durable] == base.kinds[..base.durable];
  }

  lemma PartialRecord(log: seq<byte>, bytes: seq<byte>, count: nat)
    requires count <= |bytes|
    ensures log + bytes[..count] <= log + bytes && log <= log + bytes[..count]
    ensures count == |bytes| ==> bytes[..count] == bytes
  {
  }

  /** Each state of an append differs from the base in the journal only, and its journal is safe. */
  lemma JournalStepFile(session: Uuid, base: Moment, k: Kind, x: Moment)
    requires AllFit(base.kinds) && base.durable <= |base.kinds| && JournalSafe(session, base)
    requires JournalFile in base.disk.files && base.disk.files[JournalFile].current == Log(session, 0, base.kinds)
    requires Journal.Step(base, Record(session, Later(0, |base.kinds|), k), x)
    ensures SameBut(base.disk, JournalFile, x.disk) && x == base.(disk := x.disk, kinds := base.kinds + [k])
    ensures AllFit(x.kinds) && x.durable <= |x.kinds| && JournalSafe(session, x)
  {
    hide EncodeRecord, Later, Log, Fits;
    var r := Record(session, Later(0, |base.kinds|), k);
    var bytes := EncodeRecord(r);
    LogSnoc(session, 0, base.kinds, k);
    assert (base.kinds + [k])[..base.durable] == base.kinds[..base.durable];
    PartialRecord(Log(session, 0, base.kinds), bytes, |bytes|);
    if count :| 0 <= count <= |bytes| && x == Journal.Written(base, r, count) {
      PartialRecord(Log(session, 0, base.kinds), bytes, count);
    }
  }

  /** Every state that an append of the next record passes through is safe. */
  lemma JournalStepKeepsSafe(session: Uuid, channels: nat, base: Moment, k: Kind, x: Moment)
    requires Safe(session, channels, base) && MayJournal(channels, base, k)
    requires JournalFile in base.disk.files && base.disk.files[JournalFile].current == Log(session, 0, base.kinds)
    requires Journal.Step(base, Record(session, Later(0, |base.kinds|), k), x)
    ensures Safe(session, channels, x)
  {
    hide Journal.Step, JournalSafe, Ascending, ManifestSafe, AudioSafe, MayJournal, Frontier, Log;
    JournalStepFile(session, base, k, x);
    JournalStepFrontier(session, channels, base, k, x);
  }

  /** The state after a successful append is safe; a durable one acknowledges every record so far. */
  lemma AppendedIsSafe(session: Uuid, channels: nat, base: Moment, k: Kind, durable: bool)
    requires Safe(session, channels, base) && MayJournal(channels, base, k) && Fits(k)
    requires JournalFile in base.disk.files && base.disk.files[JournalFile].current == Log(session, 0, base.kinds)
    ensures var x := Journal.Appended(base, Record(session, Later(0, |base.kinds|), k), durable);
      && Safe(session, channels, x) && AllFit(x.kinds)
      && x.disk.files[JournalFile].current == Log(session, 0, x.kinds)
      && (durable ==> x.disk.files[JournalFile].stable == Log(session, 0, x.kinds))
  {
    hide EncodeRecord, Later, Log, Ascending, Frontier, AudioSafe, MayJournal, Fits, Holds;
    var r := Record(session, Later(0, |base.kinds|), k);
    var n := |EncodeRecord(r)|;
    var written := Journal.Written(base, r, n);
    assert EncodeRecord(r)[..n] == EncodeRecord(r);
    LogSnoc(session, 0, base.kinds, k);
    JournalStepKeepsSafe(session, channels, base, k, written);
    if durable {
      var x := Journal.Appended(base, r, true);
      JournalStepKeepsSafe(session, channels, base, k, Journal.Synced(written));
      FrontierGrows(x.kinds, base.durable);
      assert x.kinds[..x.durable] == x.kinds;
      assert x.kinds[..base.durable] == base.kinds[..base.durable];
    }
  }

  /** Every state that a manifest replacement passes through is safe. */
  lemma ManifestStepKeepsSafe(session: Uuid, channels: nat, base: Moment, manifest: Manifest, x: Moment)
    requires Safe(session, channels, base) && ManifestFile.Step(base, manifest, x)
    requires CopySafe(session, channels, Frontier(base.kinds[..base.durable]), Some(Copy(manifest, true)))
    ensures Safe(session, channels, x)
  {
    hide Log, Frontier, AudioSafe;
    SameAudio(channels, base.disk, x.disk, x.submitted, Frontier(x.kinds));
  }

  // ---- what a crash leaves ----

  /** The records that survive are those before the cut, and hold every acknowledged commit. */
  lemma SurvivingFrontier(session: Uuid, channels: nat, m: Moment, after: seq<byte>)
    requires Safe(session, channels, m) && JournalFile in m.disk.files
    requires JournalSurvives(m.disk.files[JournalFile], after)
    ensures m.acked <= CommittedIn(ParseValid(after)) <= Frontier(m.kinds)
    ensures forall record <- ParseValid(after) :: record.sessionId == session
  {
    hide Log, Frontier, CommittedIn, Records, ParseValid, Whole, Fits, ManifestSafe, AudioSafe, NoOutputs;
    var whole := Log(session, 0, m.kinds);
    var cut := |after|;
    assert after == whole[..cut];
    CutLog(session, 0, m.kinds, cut);
    var kept := Whole(session, 0, m.kinds, cut);
    WholeAtLeast(session, 0, m.kinds, m.durable, cut);
    FrontierOfRecords(session, 0, m.kinds[..kept]);
    FrontierGrows(m.kinds, kept);
    FrontierGrows(m.kinds[..kept], m.durable);
    assert m.kinds[..kept][..m.durable] == m.kinds[..m.durable];
    forall record <- ParseValid(after)
      ensures record.sessionId == session
    {
      var i :| 0 <= i < kept && Records(session, 0, m.kinds[..kept])[i] == record;
      RecordAt(session, 0, m.kinds[..kept], i);
    }
  }

  /** Of the commits that survive a crash the last is the largest. */
  lemma SurvivingLastIsLargest(session: Uuid, channels: nat, m: Moment, after: seq<byte>)
    requires Safe(session, channels, m) && JournalFile in m.disk.files
    requires JournalSurvives(m.disk.files[JournalFile], after)
    ensures LastCommitIn(ParseValid(after)) == CommittedIn(ParseValid(after))
  {
    hide Log, Frontier, CommittedIn, LastCommit, LastCommitIn, Records, ParseValid, Whole, Fits, Ascending;
    hide ManifestSafe, AudioSafe, NoOutputs;
    var cut := |after|;
    assert after == Log(session, 0, m.kinds)[..cut];
    CutLog(session, 0, m.kinds, cut);
    var kept := Whole(session, 0, m.kinds, cut);
    AscendingPart(m.kinds, kept);
    LastIsLargest(m.kinds[..kept]);
    LastOfRecords(session, 0, m.kinds[..kept]);
    FrontierOfRecords(session, 0, m.kinds[..kept]);
  }

  /** What a crash leaves of a recording whose parts all have their part names, and whose surviving
      journal commits `count` frames. */
  predicate Recoverable(session: Uuid, channels: nat, m: Moment, s: Surviving, count: nat) {
    && s.manifest.Some? && s.manifest.value.sessionId == session
    && |s.manifest.value.channels| == channels && s.manifest.value.sampleRate != 0
    && forall c :: 0 <= c < channels ==> Part(c) in s.files && Carries(s.files[Part(c)], m.submitted, c, count)
  }

  /** Crash anywhere: the commits that survive cover everything acknowledged and nothing beyond what was
      submitted, and the audio they promise is on every channel. */
  lemma CrashIsRecoverable(session: Uuid, channels: nat, m: Moment, s: Surviving)
    requires Safe(session, channels, m) && Crash(m.disk, s) && Unpublished(m.disk, channels)
    ensures JournalFile !in s.files ==> m.acked == 0
    ensures JournalFile in s.files ==>
      var count := CommittedIn(ParseValid(s.files[JournalFile]));
      && m.acked <= count <= |m.submitted|
      && (forall record <- ParseValid(s.files[JournalFile]) :: record.sessionId == session)
      && (count > 0 ==> Recoverable(session, channels, m, s, count))
  {
    if JournalFile in s.files {
      SurvivingFrontier(session, channels, m, s.files[JournalFile]);
      var count := CommittedIn(ParseValid(s.files[JournalFile]));
      if count > 0 {
        var n := Frontier(m.kinds);
        forall c | 0 <= c < channels
          ensures Part(c) in s.files && Carries(s.files[Part(c)], m.submitted, c, count)
        {
          assert Home(m.disk, c) == Part(c);
          var f := m.disk.files[Part(c)];
          assert Holds(f, m.submitted, c, n);
          CarriesSurvive(f, s.files[Part(c)], m.submitted, c, n);
          CarriesFewer(s.files[Part(c)], m.submitted, c, n, count);
        }
        assert s.manifest == Some(m.disk.visible.value.manifest) || s.manifest == Some(m.disk.settled.value.manifest);
      }
    }
  }

  lemma CarriesFewer(content: seq<byte>, frames: seq<Frame>, c: nat, count: nat, fewer: nat)
    requires Carries(content, frames, c, count) && fewer <= count
    ensures Carries(content, frames, c, fewer)
  {
    TrackBytesPrefix(frames[..count], c, fewer);
    assert frames[..count][..fewer] == frames[..fewer];
    var end := AUDIO_OFFSET + BYTES_PER_SAMPLE * fewer;
    assert content[AUDIO_OFFSET..end]
        == content[AUDIO_OFFSET..AUDIO_OFFSET + BYTES_PER_SAMPLE * count][..BYTES_PER_SAMPLE * fewer];
  }
}
