/** When recovery succeeds, with how many frames, and what it answers otherwise, read off the directory. */
module RecoveryPlans {
  import opened Wrappers
  import opened JournalFormat
  import opened Rf64
  import opened Session
  import opened Storage
  import opened CrashSafety
  import opened Recovery

  /** The journal has a commit record of at least `frames` frames. */
  predicate CommitsAtLeast(records: seq<Record>, frames: nat) {
    exists r <- records :: r.kind.FramesCommitted? && r.kind.frames >= frames
  }

  lemma CommittedIff(records: seq<Record>, frames: nat)
    requires frames > 0
    ensures CommittedIn(records) >= frames <==> CommitsAtLeast(records, frames)
  {
    CommittedIsLargest(records);
  }

  /** Part c is the first that is missing, output c the first that is there. */
  predicate FirstPartMissing(d: Disk, channels: nat, c: nat) {
    c < channels && Part(c) !in d.files && forall i :: 0 <= i < c ==> Part(i) in d.files
  }

  predicate FirstOutput(d: Disk, channels: nat, c: nat) {
    c < channels && Output(c) in d.files && forall i :: 0 <= i < c ==> Output(i) !in d.files
  }

  /** A header can be written for every channel: there are none, or the rate is not zero. */
  predicate Writable(m: Manifest) {
    m.channels == [] || m.sampleRate != 0
  }

  lemma {:induction false} FirstMissingIs(d: Disk, channels: nat, c: nat)
    ensures FirstMissing(d, channels) == Some(c) <==> FirstPartMissing(d, channels, c)
  {
    if channels > 0 {
      FirstMissingIs(d, channels - 1, c);
    }
  }

  lemma {:induction false} CopyErrorIs(d: Disk, m: Manifest, from: nat)
    requires from <= |m.channels| && forall i :: 0 <= i < from ==> Output(i) !in d.files
    ensures Writable(m) ==>
              forall c: nat :: CopyError(d, m, from) == Some(OutputExists(c)) <==> FirstOutput(d, |m.channels|, c)
    ensures Writable(m) && CopyError(d, m, from) == None ==>
              forall c :: 0 <= c < |m.channels| ==> Output(c) !in d.files
    ensures Writable(m) && CopyError(d, m, from).Some? ==> CopyError(d, m, from).value.OutputExists?
    decreases |m.channels| - from
  {
    if from < |m.channels| && Output(from) !in d.files {
      if Writable(m) {
        CopyErrorIs(d, m, from + 1);
      }
    }
  }

  // ---- the errors found before anything is written ----

  /** No manifest; then no journal; then no commit; then the first part that is missing; then a part without
      a single complete sample: each is answered only if the ones before do not apply. */
  lemma EarlyErrors(d: Disk)
    ensures Plan(d) == Err(Unreadable) <==> d.visible == None
    ensures d.visible.Some? ==> (Plan(d) == Err(MissingJournal) <==> JournalFile !in d.files)
    ensures d.visible.Some? && JournalFile in d.files ==>
              var records, channels := ParseValid(d.files[JournalFile].current), |d.visible.value.manifest.channels|;
              && (forall c: nat :: Plan(d) == Err(MissingPart(c)) <==>
                    CommitsAtLeast(records, 1) && FirstPartMissing(d, channels, c))
              && (Plan(d) == Err(NoCommittedFrames) <==>
                    || !CommitsAtLeast(records, 1)
                    || (Unpublished(d, channels)
                        && exists c :: 0 <= c < channels && |d.files[Part(c)].current| < 694))
  {
    hide ParseValid, CommittedIn, CopyError, SafeFrames, FirstMissing;
    if d.visible.Some? && JournalFile in d.files {
      var records, channels := ParseValid(d.files[JournalFile].current), |d.visible.value.manifest.channels|;
      CommittedIff(records, 1);
      forall c: nat
        ensures FirstMissing(d, channels) == Some(c) <==> FirstPartMissing(d, channels, c)
      {
        FirstMissingIs(d, channels, c);
      }
      if CommittedIn(records) > 0 && Unpublished(d, channels) {
        NoSampleIff(d, channels, CommittedIn(records));
      }
    }
  }

  lemma {:induction false} NoSampleIff(d: Disk, channels: nat, committed: nat)
    requires Unpublished(d, channels) && committed > 0
    ensures SafeFrames(d, channels, committed) == 0
            <==> exists c :: 0 <= c < channels && |d.files[Part(c)].current| < 694
  {
    if channels > 0 {
      NoSampleIff(d, channels - 1, committed);
      if |d.files[Part(channels - 1)].current| < 694 {
        assert 0 <= channels - 1 < channels;
      }
    }
  }

  // ---- the answer ----

  /** Recovery returns n frames if and only if a commit says at least so many, every part has them, no larger
      number is both committed and on every part, no output is in the way, the rate can be written, and no
      record is of another session. */
  lemma RecoversIff(d: Disk, n: nat)
    requires d.visible.Some? && JournalFile in d.files
    ensures var m, records := d.visible.value.manifest, ParseValid(d.files[JournalFile].current);
      Plan(d) == Ok(n) <==>
        && n > 0 && CommitsAtLeast(records, n) && PartsReach(d, |m.channels|, n)
        && !(CommitsAtLeast(records, n + 1) && PartsReach(d, |m.channels|, n + 1))
        && Writable(m) && (forall c :: 0 <= c < |m.channels| ==> Output(c) !in d.files)
        && forall r <- records :: r.sessionId == m.sessionId
  {
    hide ParseValid, CommittedIn, CopyError, SafeFrames, FirstMissing;
    var m, records := d.visible.value.manifest, ParseValid(d.files[JournalFile].current);
    var channels, committed := |m.channels|, CommittedIn(records);
    if n > 0 {
      CommittedIff(records, n);
    }
    CommittedIff(records, n + 1);
    CopyErrorMeans(d, m);
    if Unpublished(d, channels) {
      SafeFramesIsGreatest(d, channels, committed, SafeFrames(d, channels, committed));
      SafeFramesIsGreatest(d, channels, committed, n);
      SafeFramesIsGreatest(d, channels, committed, n + 1);
      if n < SafeFrames(d, channels, committed) {
        ReachesFewer(d, channels, SafeFrames(d, channels, committed), n + 1);
      }
    }
  }

  lemma ReachesFewer(d: Disk, channels: nat, n: nat, fewer: nat)
    requires PartsReach(d, channels, n) && fewer <= n
    ensures PartsReach(d, channels, fewer)
  {
  }

  lemma CopyErrorMeans(d: Disk, m: Manifest)
    ensures CopyError(d, m, 0) == None
            <==> Writable(m) && forall c :: 0 <= c < |m.channels| ==> Output(c) !in d.files
  {
    if Writable(m) {
      CopyErrorIs(d, m, 0);
      if CopyError(d, m, 0).Some? {
        var c := CopyError(d, m, 0).value.channel;
        assert FirstOutput(d, |m.channels|, c);
      }
    }
  }

  /** What a recovery that has frames to return can still end in, and which of these it is: the first output
      that exists, a rate that cannot be written, or a record of another session. */
  lemma LateErrors(d: Disk, n: nat)
    requires d.visible.Some? && JournalFile in d.files
    requires n > 0 && CommitsAtLeast(ParseValid(d.files[JournalFile].current), n)
    requires PartsReach(d, |d.visible.value.manifest.channels|, n)
    ensures var m, records := d.visible.value.manifest, ParseValid(d.files[JournalFile].current);
      var channels := |m.channels|;
      && (Writable(m) ==> forall c: nat :: Plan(d) == Err(OutputExists(c)) <==> FirstOutput(d, channels, c))
      && (!Writable(m) ==>
            Plan(d) == Err(if Output(0) in d.files then OutputExists(0) else Invalid(InvalidSizes)))
      && (Plan(d) == Err(SessionMismatch) <==>
            && Writable(m) && (forall c :: 0 <= c < channels ==> Output(c) !in d.files)
            && exists r <- records :: r.sessionId != m.sessionId)
      && (Plan(d).Ok? <==>
            && Writable(m) && (forall c :: 0 <= c < channels ==> Output(c) !in d.files)
            && forall r <- records :: r.sessionId == m.sessionId)
  {
    hide ParseValid, CommittedIn, SafeFrames, FirstMissing;
    var m, records := d.visible.value.manifest, ParseValid(d.files[JournalFile].current);
    CommittedIff(records, n);
    SafeFramesIsGreatest(d, |m.channels|, CommittedIn(records), n);
    CopyErrorMeans(d, m);
    if Writable(m) {
      CopyErrorIs(d, m, 0);
    }
  }
}
