/** When a recovery can be repeated: outputs of an earlier attempt, finished or not, are the only obstacle. */
module Retries {
  import opened Bytes
  import opened Wrappers
  import opened JournalFormat
  import opened Session
  import opened Storage
  import opened CrashSafety
  import opened Endurance
  import opened Recovery

  /** e still has what a recovery of d was about to use. */
  predicate Retained(d: Disk, e: Disk) {
    && d.visible.Some? && e.visible.Some?
    && e.visible.value.manifest.sessionId == d.visible.value.manifest.sessionId
    && e.visible.value.manifest.channels == d.visible.value.manifest.channels
    && e.visible.value.manifest.sampleRate == d.visible.value.manifest.sampleRate
    && JournalFile in d.files && JournalFile in e.files
    && d.files[JournalFile].current <= e.files[JournalFile].current
    && forall name <- d.files :: name.Part? ==>
         name in e.files && |d.files[name].current| <= |e.files[name].current|
  }

  predicate Unobstructed(d: Disk, channels: nat) {
    forall c :: 0 <= c < channels ==> Output(c) !in d.files
  }

  lemma {:induction false} CopyErrorIff(d: Disk, m: Manifest, from: nat)
    requires m.sampleRate != 0
    ensures CopyError(d, m, from) == None <==> forall c :: from <= c < |m.channels| ==> Output(c) !in d.files
    ensures CopyError(d, m, from).Some? ==> CopyError(d, m, from).value.OutputExists?
    decreases |m.channels| - from
  {
    if from < |m.channels| {
      CopyErrorIff(d, m, from + 1);
    }
  }

  lemma NothingToCopy(d: Disk, m: Manifest)
    requires CopyError(d, m, 0) == None
    ensures m.channels == [] || m.sampleRate != 0
  {
  }

  /** The frames and the records of d are still there to be recovered from e. */
  lemma StillCommitted(d: Disk, e: Disk)
    requires Plan(d).Ok? && Retained(d, e)
    ensures Commits(d) <= Commits(e)
    ensures forall record <- ParseValid(e.files[JournalFile].current) ::
              record.sessionId == e.visible.value.manifest.sessionId
  {
    hide ParseValid, CommittedIn, CopyError, SafeFrames;
    var log, longer := d.files[JournalFile].current, e.files[JournalFile].current;
    CommitsNeverDrop(log, longer);
    NoRecordsNoCommits();
    assert ParseValid(log)[0] in ParseValid(log) && ParseValid(longer)[0] == ParseValid(log)[0];
    OneSession(d.visible.value.manifest.sessionId, longer);
  }

  lemma NoRecordsNoCommits()
    ensures CommittedIn([]) == 0
  {
  }

  /** A directory that could be recovered, and that has since been through anything that leaves its parts,
      its journal and its take in place, can be recovered again exactly if no output is in the way. */
  lemma RecoverableAgainIff(d: Disk, e: Disk)
    requires Plan(d).Ok? && Retained(d, e)
    ensures var channels := |d.visible.value.manifest.channels|;
      && (Plan(e).Ok? <==> Unobstructed(e, channels))
      && (Plan(e).Ok? ==> Plan(d).value <= Plan(e).value)
      && (Plan(e).Err? ==> Plan(e).error.OutputExists?)
  {
    hide ParseValid, CommittedIn, CopyError, SafeFrames;
    var m := e.visible.value.manifest;
    var n, channels := Plan(d).value, |m.channels|;
    SafeFramesIsGreatest(d, channels, Commits(d), n);
    StillCommitted(d, e);
    SafeFramesIsGreatest(e, channels, Commits(e), n);
    NothingToCopy(d, d.visible.value.manifest);
    if channels > 0 {
      CopyErrorIff(e, m, 0);
    } else {
      NoChannelsNoError(e, m);
    }
  }

  lemma NoChannelsNoError(d: Disk, m: Manifest)
    requires m.channels == []
    ensures CopyError(d, m, 0) == None
  {
  }

  lemma UnspoiledIsRetained(d: Disk, e: Disk)
    requires Plan(d).Ok? && Unspoiled(d, e)
    ensures Retained(d, e)
  {
    hide ParseValid, CommittedIn, CopyError, SafeFrames;
  }

  /** A recovered session cannot be recovered again: its first output is already there. */
  lemma SecondRecoveryRefused(d: Disk, e: Disk, n: u64)
    requires RecoveredTo(d, e, n) && Unspoiled(d, e) && d.visible.value.manifest.channels != []
    ensures Plan(e) == Err(OutputExists(0))
  {
    hide ParseValid, CommittedIn, Epilogue, RecoveredFile, SafeFrames;
    UnspoiledIsRetained(d, e);
    RecoverableAgainIff(d, e);
    assert Output(0) in e.files;
    FirstOutputInTheWay(e);
  }

  lemma FirstOutputInTheWay(d: Disk)
    requires Plan(d).Err? && Plan(d).error.OutputExists? && Output(0) in d.files
    ensures Plan(d) == Err(OutputExists(0))
  {
    hide ParseValid, CommittedIn, SafeFrames;
  }

  /** Two recoveries in a row: whatever became of the first, the second is refused exactly if the first left
      an output, and otherwise can only fail by failing I/O. */
  method RecoverTwice(store: Store)
    returns (first: Result<RecoveryOutcome, RecoveryError>, ghost between: Disk,
             second: Result<RecoveryOutcome, RecoveryError>)
    requires Bounded(store.disk) && Plan(store.disk).Ok?
    modifies store
    ensures var channels := |old(store.disk).visible.value.manifest.channels|;
      && Unspoiled(old(store.disk), between) && Unspoiled(between, store.disk)
      && (second.Ok? ==> Unobstructed(between, channels))
      && (Unobstructed(between, channels) ==> second.Ok? || second == Err(Io))
      && (first.Ok? && channels > 0 ==> second == Err(OutputExists(0)) || second == Err(Io))
  {
    hide Plan, Unspoiled, RecoveredTo;
    ghost var d := store.disk;
    first := RecoverSession(store);
    between := store.disk;
    UnspoiledIsRetained(d, between);
    RecoverableAgainIff(d, between);
    if first.Ok? && |d.visible.value.manifest.channels| > 0 {
      SecondRecoveryRefused(d, between, first.value.recoveredFrames);
    }
    second := RecoverSession(store);
  }

  // ---- a crash during recovery ----

  /** Nothing is pending: a directory as a new process opens it. */
  predicate AtRest(d: Disk) {
    && (forall name <- d.files :: d.files[name].stable == d.files[name].current)
    && d.visible == d.settled && (d.visible.Some? ==> d.visible.value.synced)
  }

  lemma CrashedIsRetained(d: Disk, e: Disk, s: Surviving)
    requires Plan(d).Ok? && AtRest(d) && Unspoiled(d, e) && Crash(e, s)
    ensures Retained(d, Found(s))
  {
    hide ParseValid, CommittedIn, CopyError, SafeFrames;
    var f := Found(s);
    assert JournalFile in e.files && JournalSurvives(e.files[JournalFile], s.files[JournalFile]);
    forall name <- d.files | name.Part?
      ensures name in f.files && |d.files[name].current| <= |f.files[name].current|
    {
      assert e.files[name] == d.files[name] && AudioSurvives(e.files[name], s.files[name]);
    }
    assert CopySurvives(e.visible, s.manifest) || CopySurvives(e.settled, s.manifest);
  }

  /** A recovery cut short by a crash at any state it noted, up to and including the first failed action,
      leaves a directory that can be recovered exactly if the recovery had not created an output yet. */
  lemma InterruptedRecovery(d: Disk, before: seq<Moment>, after: seq<Moment>, i: nat, s: Surviving)
    requires Plan(d).Ok? && AtRest(d) && Followed(d, before, after)
    requires |before| <= i < |after| && Crash(after[i].disk, s)
    ensures Plan(Found(s)).Ok? <==> Unobstructed(after[i].disk, |d.visible.value.manifest.channels|)
    ensures Plan(Found(s)).Ok? ==> Plan(d).value <= Plan(Found(s)).value
  {
    hide Plan, Unspoiled, AtRest, Retained;
    CrashedIsRetained(d, after[i].disk, s);
    RecoverableAgainIff(d, Found(s));
  }
}
