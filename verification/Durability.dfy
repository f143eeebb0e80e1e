/** The promise of the recorder and its limits: what recovery returns after a crash at any moment of a
    recording, and the two ways in which the promise ends. */
module Durability {
  import opened Bytes
  import opened Wrappers
  import opened Postcard
  import opened JournalFormat
  import opened Rf64
  import opened Session
  import opened Storage
  import opened CrashSafety
  import opened Endurance
  import opened Recovery
  import R = Recorder

  // ---- crash durability ----

  lemma {:induction false} NoCopyErrors(d: Disk, m: Manifest, from: nat)
    requires NoOutputs(d) && m.sampleRate != 0
    ensures CopyError(d, m, from) == None
    decreases |m.channels| - from
  {
    if from < |m.channels| {
      NoCopyErrors(d, m, from + 1);
    }
  }

  lemma CarriedSamples(content: seq<byte>, frames: seq<Frame>, c: nat, n: nat)
    requires Carries(content, frames, c, n)
    ensures PartSamples(content, n) == Track(frames[..n], c)
  {
    SamplesRoundTrip(Track(frames[..n], c));
  }

  /** What a crash at a safe moment leaves recovers to `count` frames of the submitted audio. */
  lemma RecoverableRecovers(session: Uuid, channels: nat, m: Moment, s: Surviving, count: nat)
    requires Recoverable(session, channels, m, s, count) && count > 0
    requires JournalFile in s.files && count == CommittedIn(ParseValid(s.files[JournalFile]))
    requires forall record <- ParseValid(s.files[JournalFile]) :: record.sessionId == session
    requires NoOutputs(Found(s))
    ensures Plan(Found(s)) == Ok(count) && PartsReach(Found(s), channels, count)
    ensures forall c :: 0 <= c < channels ==>
              PartSamples(Found(s).files[Part(c)].current, count) == Track(m.submitted[..count], c)
  {
    hide CommittedIn, ParseValid, PartSamples, Track, TrackBytes;
    var d := Found(s);
    assert d.visible == Some(Copy(s.manifest.value, true));
    assert d.files[JournalFile].current == s.files[JournalFile];
    forall c | 0 <= c < channels
      ensures Part(c) in d.files && |d.files[Part(c)].current| >= AUDIO_OFFSET + BYTES_PER_SAMPLE * count
      ensures PartSamples(d.files[Part(c)].current, count) == Track(m.submitted[..count], c)
    {
      CarriedSamples(s.files[Part(c)], m.submitted, c, count);
    }
    SafeFramesIsGreatest(d, channels, count, count);
    NoCopyErrors(d, s.manifest.value, 0);
  }

  /** What recovery owes to a moment: nothing acknowledged is lost, nothing is invented, every channel has
      exactly the first frames submitted, and recovery is complete, up to the last commit that survived.
      With no surviving commit nothing had been acknowledged. */
  predicate Recovers(channels: nat, m: Moment, d: Disk) {
    var n := Commits(d);
    && m.acked <= n <= |m.submitted|
    && (n == 0 ==> Plan(d).Err?)
    && (n > 0 ==>
          && Plan(d) == Ok(n) && PartsReach(d, channels, n)
          && n == LastCommitIn(ParseValid(d.files[JournalFile].current))
          && forall c :: 0 <= c < channels ==>
               PartSamples(d.files[Part(c)].current, n) == Track(m.submitted[..n], c))
  }

  /** Crash anywhere before the first rename, up to and including the first failed action. */
  lemma CrashDurability(session: Uuid, channels: nat, m: Moment, s: Surviving)
    requires Safe(session, channels, m) && Crash(m.disk, s) && Unpublished(m.disk, channels)
    ensures Recovers(channels, m, Found(s))
  {
    hide PartSamples, Track, SafeFrames, CopyError, Recoverable, ParseValid, CommittedIn, LastCommitIn;
    CrashIsRecoverable(session, channels, m, s);
    var d := Found(s);
    var n := Commits(d);
    if n > 0 {
      assert NoOutputs(d);
      RecoverableRecovers(session, channels, m, s, n);
      SurvivingLastIsLargest(session, channels, m, s.files[JournalFile]);
    }
  }

  /** A crash of any recorder, finalizing or not, at any state its directory went through before the first
      rename and up to the first failure. */
  lemma EveryCrashIsCovered(r: R.Recorder, m: Moment, s: Surviving)
    requires r.Shaped() && m in r.store.history
    requires Crash(m.disk, s) && Unpublished(m.disk, |r.manifest.channels|)
    ensures Recovers(|r.manifest.channels|, m, Found(s))
  {
    hide Safe, Crash, Unpublished, Recovers, Secured;
    CrashDurability(r.manifest.sessionId, |r.manifest.channels|, m, s);
  }

  /** Between two calls the present state is one of these, as long as nothing has failed. */
  lemma PresentIsCovered(r: R.Recorder, s: Surviving)
    requires r.Valid() && !r.store.failed && Crash(r.store.disk, s)
    ensures Recovers(|r.manifest.channels|, r.store.Now(), Found(s))
  {
    hide Safe, Crash, Recovers, Secured, R.Tracked, R.MarkersInOrder, Log;
    EveryCrashIsCovered(r, r.store.Now(), s);
  }

  /** The first `count` frames of `submitted` are complete on every channel, and recovery returns at least
      as many frames, unless outputs of an earlier recovery are in its way. */
  predicate Endures(channels: nat, count: nat, submitted: seq<Frame>, d: Disk) {
    && PartsReach(d, channels, count) && count <= |submitted|
    && (forall c :: 0 <= c < channels ==>
          PartSamples(d.files[Part(c)].current, count) == Track(submitted[..count], c))
    && (NoOutputs(d) ==> Plan(d).Ok? && count <= Plan(d).value)
  }

  lemma SecuredEndures(session: Uuid, channels: nat, m: Moment, s: Surviving)
    requires SecuredAt(session, channels, m) && m.secured > 0 && channels > 0
    requires Crash(m.disk, s) && Unpublished(m.disk, channels)
    ensures Endures(channels, m.secured, m.submitted, Found(s))
  {
    hide PartSamples, Track, TrackBytes, CommittedIn, ParseValid, Crash;
    var d, n := Found(s), m.secured;
    SecuredOutlasts(session, channels, n, m.submitted, m.disk, s);
    assert Carries(d.files[Part(0)].current, m.submitted, 0, n);
    forall c | 0 <= c < channels
      ensures PartSamples(d.files[Part(c)].current, n) == Track(m.submitted[..n], c)
    {
      CarriedSamples(d.files[Part(c)].current, m.submitted, c, n);
    }
    if NoOutputs(d) {
      SafeFramesIsGreatest(d, channels, Commits(d), n);
      NoCopyErrors(d, d.visible.value.manifest, 0);
    }
  }

  /** Of every channel the first `count` samples are in the part file or, once that has been renamed, in
      the final file. */
  predicate AtHome(channels: nat, count: nat, submitted: seq<Frame>, d: Disk) {
    && count <= |submitted|
    && forall c :: 0 <= c < channels ==>
         && Home(d, c) in d.files
         && var content := d.files[Home(d, c)].current;
            && |content| >= AUDIO_OFFSET + BYTES_PER_SAMPLE * count
            && PartSamples(content, count) == Track(submitted[..count], c)
  }

  lemma HomeSurvives(channels: nat, d: Disk, submitted: seq<Frame>, count: nat, s: Surviving)
    requires AudioSafe(channels, d, submitted, count) && channels > 0 && Crash(d, s)
    ensures AtHome(channels, count, submitted, Found(s))
  {
    hide PartSamples, Track, TrackBytes;
    assert Holds(d.files[Home(d, 0)], submitted, 0, count);
    forall c | 0 <= c < channels
      ensures Home(d, c) == Home(Found(s), c) && Home(d, c) in Found(s).files
      ensures Carries(s.files[Home(d, c)], submitted, c, count)
      ensures PartSamples(s.files[Home(d, c)], count) == Track(submitted[..count], c)
    {
      var f, after := d.files[Home(d, c)], s.files[Home(d, c)];
      assert Holds(f, submitted, c, count);
      CarriesSurvive(f, after, submitted, c, count);
      CarriedSamples(after, submitted, c, count);
    }
  }

  /** A crash at any state a recorder's directory ever went through, failures and renames included, leaves
      what was acknowledged by then without a failure before it; before the first rename it is recoverable. */
  lemma EveryCrashKeepsSecured(r: R.Recorder, m: Moment, s: Surviving)
    requires r.Shaped() && (m in r.store.trace || m == r.store.Now()) && m.secured > 0 && Crash(m.disk, s)
    ensures var channels := |r.manifest.channels|;
      && AtHome(channels, m.secured, m.submitted, Found(s))
      && (Unpublished(m.disk, channels) ==> Endures(channels, m.secured, m.submitted, Found(s)))
  {
    hide CommittedIn, ParseValid, AudioSafe, AtHome, Crash, Safe, Unpublished, Endures;
    var session, channels := r.manifest.sessionId, |r.manifest.channels|;
    assert SecuredAt(session, channels, m);
    HomeSurvives(channels, m.disk, m.submitted, m.secured, s);
    if Unpublished(m.disk, channels) {
      SecuredEndures(session, channels, m, s);
    }
  }

  /** Frames acknowledged before anything failed outlast the failure and whatever the recorder does after it:
      so it is for a crash at every state noted from the failing one on, inside calls and between them. */
  lemma AcknowledgedOutlastFailure(r: R.Recorder, i: nat, s: Surviving)
    requires r.Shaped() && |r.store.history| <= i + 1 <= |r.store.trace| && r.store.secured > 0
    requires Crash(r.store.trace[i].disk, s)
    ensures var d, n, channels := Found(s), r.store.secured, |r.manifest.channels|;
      && AtHome(channels, n, r.store.submitted, d)
      && (Unpublished(r.store.trace[i].disk, channels) ==> Endures(channels, n, r.store.submitted, d))
  {
    hide Safe, Crash, Unpublished, Secured, PartSamples, Track, Plan;
    var m := r.store.trace[i];
    EveryCrashKeepsSecured(r, m, s);
    assert m.submitted[..m.secured] == r.store.submitted[..m.secured];
  }

  /** Renames included: a crash at any state up to the first failure leaves everything acknowledged by then
      in the part and final files. */
  lemma EveryCrashKeepsAudio(r: R.Recorder, m: Moment, s: Surviving)
    requires r.Shaped() && m in r.store.history && m.acked > 0 && Crash(m.disk, s)
    ensures AtHome(|r.manifest.channels|, m.acked, m.submitted, Found(s))
  {
    hide CommittedIn, ParseValid, AudioSafe, AtHome, Crash, Log, Frontier, CopySafe, Safe;
    SafeIsSecured(r.manifest.sessionId, |r.manifest.channels|, m, m.acked);
    HomeSurvives(|r.manifest.channels|, m.disk, m.submitted, m.acked, s);
  }

  /** A take with surviving commits is recoverable exactly while no part file has been renamed: the
      rename of one channel's file puts the recovery of every channel out of reach. */
  lemma RecoverableIffUnpublished(session: Uuid, channels: nat, m: Moment, s: Surviving)
    requires Safe(session, channels, m) && Crash(m.disk, s) && Commits(Found(s)) > 0
    ensures Plan(Found(s)).Ok? <==> Unpublished(m.disk, channels)
    ensures !Unpublished(m.disk, channels) ==> Plan(Found(s)).error.MissingPart?
  {
    hide SafeFrames, CopyError, ParseValid, CommittedIn;
    if Unpublished(m.disk, channels) {
      CrashDurability(session, channels, m, s);
    } else {
      var d := Found(s);
      SurvivingFrontier(session, channels, m, s.files[JournalFile]);
      assert s.manifest == Some(m.disk.visible.value.manifest) || s.manifest == Some(m.disk.settled.value.manifest);
      assert |s.manifest.value.channels| == channels;
      assert FirstMissing(d, channels).Some?;
    }
  }

  /** Finalizing a take of several channels passes through such a moment: the frames acknowledged are
      committed and their audio is still there, but whatever a crash leaves, recovery refuses it. */
  lemma HalfPublishedIsStranded(r: R.Recorder) returns (m: Moment)
    requires r.Shaped() && r.HalfPublished() && r.store.acked > 0
    ensures m in r.store.history && m.acked == r.store.acked && m.submitted == r.store.submitted
    ensures forall s :: Crash(m.disk, s) ==>
              var d, channels := Found(s), |r.manifest.channels|;
              && AtHome(channels, m.acked, m.submitted, d) && m.acked <= Commits(d)
              && Plan(d).Err? && Plan(d).error.MissingPart?
  {
    hide Safe, Crash, Secured, AtHome, Plan, ParseValid, CommittedIn;
    m :| m in r.store.history && m.acked == r.store.acked && m.submitted == r.store.submitted
      && Part(0) !in m.disk.files && Part(1) in m.disk.files;
    var session, channels := r.manifest.sessionId, |r.manifest.channels|;
    forall s | Crash(m.disk, s)
      ensures AtHome(channels, m.acked, m.submitted, Found(s)) && m.acked <= Commits(Found(s))
      ensures Plan(Found(s)).Err? && Plan(Found(s)).error.MissingPart?
    {
      EveryCrashKeepsAudio(r, m, s);
      CommitsSurvive(session, channels, m, s);
      RecoverableIffUnpublished(session, channels, m, s);
    }
  }

  lemma CommitsSurvive(session: Uuid, channels: nat, m: Moment, s: Surviving)
    requires Safe(session, channels, m) && Crash(m.disk, s)
    ensures m.acked <= Commits(Found(s))
  {
    hide ParseValid, CommittedIn;
    if JournalFile in m.disk.files {
      SurvivingFrontier(session, channels, m, s.files[JournalFile]);
    }
  }

  /** A directory opened after a crash of a recording: recovery, if no primitive fails, returns every
      acknowledged frame, aligned and complete. */
  method RecoverAfterCrash(session: Uuid, channels: nat, ghost m: Moment, s: Surviving)
    returns (store: Store, r: Result<RecoveryOutcome, RecoveryError>)
    requires Safe(session, channels, m) && Crash(m.disk, s) && Unpublished(m.disk, channels)
    ensures fresh(store)
    ensures OriginalsKept(Found(s), store.disk)
    ensures m.acked > 0 ==> r.Ok? || store.failed
    ensures r.Ok? ==>
      && r.value.status == Recovered && m.acked <= r.value.recoveredFrames <= |m.submitted|
      && s.manifest.Some? && |s.manifest.value.channels| == channels
      && forall c :: 0 <= c < channels ==>
           && Output(c) in store.disk.files
           && var file := Finished(s.manifest.value.sampleRate,
                                   Stamp(s.manifest.value.texts, s.manifest.value.channels[c].title, RECOVERED),
                                   Track(m.submitted[..r.value.recoveredFrames], c));
              store.disk.files[Output(c)] == FileState(file, file)
  {
    hide PartSamples, Track, SafeFrames, CopyError, Safe, ParseValid, CommittedIn, Commits, Plan, Finished, Epilogue;
    SizesSurvive(m.disk, s);
    CrashDurability(session, channels, m, s);
    store := new Store.Reopened(s);
    r := RecoverSession(store);
    if r.Ok? {
      ChannelsSurvive(session, channels, m, s);
    } else {
      NoCommitsWithoutPlan(session, channels, m, s);
    }
  }

  lemma SizesSurvive(d: Disk, s: Surviving)
    requires Crash(d, s)
    ensures forall name <- s.files :: |s.files[name]| <= MAX_FILE
  {
    forall name <- s.files
      ensures |s.files[name]| <= MAX_FILE
    {
      assert name in d.files;
    }
  }

  lemma ChannelsSurvive(session: Uuid, channels: nat, m: Moment, s: Surviving)
    requires Safe(session, channels, m) && Crash(m.disk, s) && Plan(Found(s)).Ok?
    ensures s.manifest.Some? && |s.manifest.value.channels| == channels
    ensures Commits(Found(s)) > 0
  {
    hide CopyError, SafeFrames, ParseValid, CommittedIn, FirstMissing;
    SurvivingFrontier(session, channels, m, s.files[JournalFile]);
    assert s.manifest == Some(m.disk.visible.value.manifest) || s.manifest == Some(m.disk.settled.value.manifest);
  }

  lemma NoCommitsWithoutPlan(session: Uuid, channels: nat, m: Moment, s: Surviving)
    requires Safe(session, channels, m) && Crash(m.disk, s) && Unpublished(m.disk, channels)
    ensures m.acked > 0 ==> Plan(Found(s)).Ok?
  {
    hide Plan, Commits;
    CrashDurability(session, channels, m, s);
  }
}
