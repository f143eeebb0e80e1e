/** Recovery of the very session that is being recorded: when it succeeds, and what it takes away. */
module LiveRecovery {
  import opened Bytes
  import opened Wrappers
  import opened Postcard
  import opened JournalFormat
  import opened JournalLaws
  import opened Session
  import opened Storage
  import opened CrashSafety
  import opened Endurance
  import opened Recovery
  import opened Retries
  import R = Recorder

  lemma NotItsOwnSuccessor(session: Uuid, n: u64, recovered: Kind, k: Kind)
    ensures !Follows(Record(session, Next(n), recovered), Record(session, n, k))
  {
  }

  /** The two records of a recovery continue the log. */
  lemma EpilogueIsLogged(session: Uuid, kinds: seq<Kind>, n: u64)
    requires AllFit(kinds) && Fits(RecoveryStarted) && Fits(RecoveryCompleted(n))
    ensures AllFit(kinds + [RecoveryStarted, RecoveryCompleted(n)])
    ensures Epilogue(Log(session, 0, kinds), session, n)
         == Log(session, 0, kinds + [RecoveryStarted, RecoveryCompleted(n)])
    ensures |Records(session, 0, kinds + [RecoveryStarted, RecoveryCompleted(n)])| == |kinds| + 2
    ensures Records(session, 0, kinds + [RecoveryStarted, RecoveryCompleted(n)])[|kinds| + 1]
         == Record(session, Next(Later(0, |kinds|)), RecoveryCompleted(n))
  {
    hide EncodeRecord, ParseValid, Fits, AllFit, Log, Records, Next, Later;
    NoneFit();
    ReopenedLog(session, kinds, []);
    LogSnoc(session, 0, kinds, RecoveryStarted);
    LogSnoc(session, 0, kinds + [RecoveryStarted], RecoveryCompleted(n));
    LaterSteps(0, |kinds|);
    assert kinds + [RecoveryStarted] + [RecoveryCompleted(n)] == kinds + [RecoveryStarted, RecoveryCompleted(n)];
  }

  lemma NoneFit()
    ensures AllFit([])
  {
  }

  lemma RecoveryCommitsNothing(kinds: seq<Kind>, n: u64)
    ensures Frontier(kinds + [RecoveryStarted, RecoveryCompleted(n)]) == Frontier(kinds)
  {
    FrontierSnoc(kinds, RecoveryStarted);
    FrontierSnoc(kinds + [RecoveryStarted], RecoveryCompleted(n));
    assert kinds + [RecoveryStarted] + [RecoveryCompleted(n)] == kinds + [RecoveryStarted, RecoveryCompleted(n)];
  }

  /** Recovering a session that is still being recorded ends the promise: recovery takes the sequence
      numbers the recorder will use next, so whatever the recorder journals and acknowledges from then on
      is never read back, and the committed frontier stays where it was. */
  lemma LiveRecoveryFreezesFrontier(session: Uuid, kinds: seq<Kind>, n: u64, k: Kind, tail: seq<byte>)
    requires AllFit(kinds) && Fits(k) && Fits(RecoveryStarted) && Fits(RecoveryCompleted(n))
    ensures var live := Record(session, Later(0, |kinds|), k);
      var records := ParseValid(Epilogue(Log(session, 0, kinds), session, n) + EncodeRecord(live) + tail);
      && records == Records(session, 0, kinds + [RecoveryStarted, RecoveryCompleted(n)])
      && CommittedIn(records) == Frontier(kinds)
  {
    hide EncodeRecord, ParseOne, ParseValid, ParseFrom, Frontier, CommittedIn, Fits, AllFit, Log, Records, Follows;
    hide Epilogue, Next, Later;
    var both := kinds + [RecoveryStarted, RecoveryCompleted(n)];
    EpilogueIsLogged(session, kinds, n);
    var live := Record(session, Later(0, |kinds|), k);
    var last := Records(session, 0, both)[|kinds| + 1];
    var rest := EncodeRecord(live) + tail;
    LogParsesFrom(session, 0, both, rest, None);
    NotItsOwnSuccessor(session, Later(0, |kinds|), RecoveryCompleted(n), k);
    WrittenIsRejected(live, tail, last);
    RejectedEnds(rest, Some(last));
    assert Log(session, 0, both) + EncodeRecord(live) + tail == Log(session, 0, both) + rest;
    ParseValidIs(Log(session, 0, both) + rest);
    FrontierOfRecords(session, 0, both);
    RecoveryCommitsNothing(kinds, n);
  }

  lemma ParseValidIs(bytes: seq<byte>)
    ensures ParseValid(bytes) == ParseFrom(bytes, None)
  {
  }

  /** The next record of a recorder is read back exactly if no recovery came in between. */
  lemma NextRecordReadIff(session: Uuid, kinds: seq<Kind>, recovered: bool, n: u64, k: Kind)
    requires AllFit(kinds) && Fits(k) && Fits(RecoveryStarted) && Fits(RecoveryCompleted(n))
    ensures var log := Log(session, 0, kinds);
      var journal := if recovered then Epilogue(log, session, n) else log;
      var records := ParseValid(journal + EncodeRecord(Record(session, Later(0, |kinds|), k)));
      records == Records(session, 0, kinds + [k]) <==> !recovered
  {
    hide EncodeRecord, ParseValid, Frontier, CommittedIn, Fits, AllFit, Log, Records, Epilogue, Later;
    var live := EncodeRecord(Record(session, Later(0, |kinds|), k));
    if recovered {
      LiveRecoveryFreezesFrontier(session, kinds, n, k, []);
      var journal := Epilogue(Log(session, 0, kinds), session, n);
      assert journal + live + [] == journal + live;
    } else {
      LogSnoc(session, 0, kinds, k);
      LogIsParsed(session, 0, kinds + [k], []);
    }
  }

  // ---- on a recorder ----

  lemma LevelPlan(d: Disk, m: Manifest, kinds: seq<Kind>)
    requires d.visible == Some(Copy(m, true)) && m.sampleRate != 0 && NoOutputs(d) && AllFit(kinds)
    requires JournalFile in d.files && d.files[JournalFile].current == Log(m.sessionId, 0, kinds)
    requires PartsReach(d, |m.channels|, Frontier(kinds))
    ensures Plan(d) == if Frontier(kinds) == 0 then Err(NoCommittedFrames) else Ok(Frontier(kinds))
  {
    hide ParseValid, CommittedIn, CopyError, SafeFrames, Log, Records, Frontier, AllFit;
    var n := Frontier(kinds);
    LogIsParsed(m.sessionId, 0, kinds, []);
    FrontierOfRecords(m.sessionId, 0, kinds);
    SafeFramesIsGreatest(d, |m.channels|, n, n);
    CopyErrorIff(d, m, 0);
    var records := Records(m.sessionId, 0, kinds);
    forall record <- records
      ensures record.sessionId == m.sessionId
    {
      var i :| 0 <= i < |records| && records[i] == record;
      RecordAt(m.sessionId, 0, kinds, i);
    }
  }

  /** Between two calls a recording that works can be recovered exactly if it has committed a frame. */
  lemma LivePlan(r: R.Recorder)
    requires r.Valid() && !r.store.failed
    ensures var n := r.manifest.framesCommitted;
      Plan(r.store.disk) == if n == 0 then Err(NoCommittedFrames) else Ok(n)
  {
    hide Plan, Log, Frontier, Secured, R.Tracked, R.MarkersInOrder;
    LevelPlan(r.store.disk, r.manifest, r.store.kinds);
  }

  /** A recovery, complete or not, leaves secured frames secured. */
  lemma UnspoiledKeepsSecured(session: Uuid, channels: nat, count: nat, submitted: seq<Frame>, d: Disk, e: Disk)
    requires Secured(session, channels, count, submitted, d) && Unspoiled(d, e)
    ensures Secured(session, channels, count, submitted, e)
  {
    hide ParseValid, CommittedIn, Holds;
    if count > 0 {
      CommitsNeverDrop(d.files[JournalFile].stable, e.files[JournalFile].stable);
      forall c | 0 <= c < channels
        ensures Home(e, c) in e.files && Holds(e.files[Home(e, c)], submitted, c, count)
      {
        assert Home(d, c) in d.files && Holds(d.files[Home(d, c)], submitted, c, count);
        assert Home(e, c) == Home(d, c);
      }
    }
  }

  /** Whatever the recorder journals next, no reader finds it, and the frontier read back is the present one. */
  ghost predicate Unheard(r: R.Recorder)
    reads r, r.store, r.journal
  {
    JournalFile in r.store.disk.files
    && forall k, tail: seq<byte> :: Fits(k) ==>
         CommittedIn(ParseValid(r.store.disk.files[JournalFile].current + EncodeRecord(r.journal.Record(k)) + tail))
         == r.manifest.framesCommitted
  }

  /** recover_session on the directory of a live recorder. Before the first commit it changes nothing; after
      it, it succeeds unless I/O fails, and the recorder is never heard of again. */
  method RecoverLive(r: R.Recorder) returns (outcome: Result<RecoveryOutcome, RecoveryError>)
    requires r.Valid()
    modifies r.store
    ensures r.Valid() && r.store.Observed() && r.store.Extended() && r.store.history == old(r.store.history)
    ensures Unspoiled(old(r.store.disk), r.store.disk)
    ensures old(r.store.failed) || r.manifest.framesCommitted > 0 ==> r.store.failed
    ensures !old(r.store.failed) && r.manifest.framesCommitted == 0 ==>
              outcome == Err(NoCommittedFrames) && r.Untouched()
    ensures !old(r.store.failed) && r.manifest.framesCommitted > 0 ==> outcome.Ok? || outcome == Err(Io)
    ensures !old(r.store.failed) && outcome.Ok? ==>
              outcome.value.recoveredFrames == r.manifest.framesCommitted && Unheard(r)
  {
    hide Plan, Unspoiled, Log, Frontier, Secured, Safe, R.Tracked, R.MarkersInOrder, Epilogue, CommittedIn, ParseValid;
    hide Followed, Rebuilt, PartsReach, OriginalsKept, Later;
    ghost var d, kinds := r.store.disk, r.store.kinds;
    ghost var h, seen := r.store.trace, |r.store.trace|;
    ghost var working := !r.store.failed;
    if working {
      LivePlan(r);
    }
    if working && r.manifest.framesCommitted > 0 {
      r.store.failed := true;
    }
    outcome := RecoverSession(r.store);
    UnspoiledKeepsSecured(r.manifest.sessionId, |r.manifest.channels|, r.store.secured, r.store.submitted,
                          d, r.store.disk);
    forall i | seen <= i < |r.store.trace|
      ensures SecuredAt(r.manifest.sessionId, |r.manifest.channels|, r.store.trace[i])
    {
      UnspoiledMeans(d, h, r.store.trace, i);
      UnspoiledKeepsSecured(r.manifest.sessionId, |r.manifest.channels|, r.store.secured, r.store.submitted,
                            d, r.store.trace[i].disk);
    }
    PartsStay(d, r.store.disk, |r.manifest.channels|, r.manifest.framesWritten);
    if working && outcome.Ok? {
      forall k, tail: seq<byte> | Fits(k)
        ensures CommittedIn(ParseValid(
                  r.store.disk.files[JournalFile].current + EncodeRecord(r.journal.Record(k)) + tail))
             == r.manifest.framesCommitted
      {
        LiveRecoveryFreezesFrontier(r.manifest.sessionId, kinds, outcome.value.recoveredFrames, k, tail);
      }
    }
  }

  lemma UnspoiledMeans(d: Disk, before: seq<Moment>, after: seq<Moment>, i: nat)
    requires Followed(d, before, after) && |before| <= i < |after|
    ensures Unspoiled(d, after[i].disk)
  {
  }

  lemma PartsStay(d: Disk, e: Disk, channels: nat, frames: nat)
    requires Unspoiled(d, e) && JournalFile in d.files
    ensures JournalFile in e.files
    ensures PartsReach(d, channels, frames) ==> PartsReach(e, channels, frames)
  {
  }
}
