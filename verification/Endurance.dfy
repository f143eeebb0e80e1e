/** What even a failure does not take back: frames acknowledged while everything worked stay durable,
    committed and recoverable, whatever the recorder does after a primitive has failed. */
module Endurance {
  import opened Bytes
  import opened Wrappers
  import opened Postcard
  import opened JournalFormat
  import opened JournalLaws
  import opened Rf64
  import opened Session
  import opened Storage
  import opened CrashSafety
  import ManifestFile
  import Journal

  predicate SecuredJournal(session: Uuid, f: FileState, count: nat) {
    && f.stable <= f.current && count <= CommittedIn(ParseValid(f.stable))
    && ParseValid(f.stable) != [] && ParseValid(f.stable)[0].sessionId == session
  }

  predicate SecuredCopy(session: Uuid, channels: nat, c: Option<Copy>) {
    && c.Some? && c.value.synced && c.value.manifest.sessionId == session
    && |c.value.manifest.channels| == channels && c.value.manifest.sampleRate != 0
  }

  /** The first `count` frames submitted are durable in every part file that still has its name, durable
      commits cover them, and the manifest of this take is durable. */
  predicate Secured(session: Uuid, channels: nat, count: nat, submitted: seq<Frame>, d: Disk) {
    count > 0 ==>
      && JournalFile in d.files && SecuredJournal(session, d.files[JournalFile], count)
      && SecuredCopy(session, channels, d.visible) && SecuredCopy(session, channels, d.settled)
      && AudioSafe(channels, d, submitted, count)
  }

  predicate SecuredAt(session: Uuid, channels: nat, m: Moment) {
    Secured(session, channels, m.secured, m.submitted, m.disk)
  }

  /** While nothing has failed, everything acknowledged is secured. */
  lemma SafeIsSecured(session: Uuid, channels: nat, m: Moment, count: nat)
    requires Safe(session, channels, m) && count <= m.acked
    ensures Secured(session, channels, count, m.submitted, m.disk)
  {
    hide Log, Frontier, CommittedIn, Records, ParseValid, Fits, Ascending, NoOutputs, Holds;
    if count > 0 {
      var kinds := m.kinds[..m.durable];
      NothingCommitted();
      assert kinds != [] && m.kinds != [];
      var f := m.disk.files[JournalFile];
      FrontierOfRecords(session, 0, kinds);
      LogIsParsed(session, 0, kinds, []);
      CommitsNeverDrop(Log(session, 0, kinds), f.stable);
      RecordAt(session, 0, kinds, 0);
      assert ParseValid(f.stable)[0] == Records(session, 0, kinds)[0];
      HoldsFewerFrames(channels, m.disk, m.submitted, Frontier(m.kinds), count);
    }
  }

  lemma NothingCommitted()
    ensures Frontier([]) == 0
  {
  }

  lemma HoldsFewerFrames(channels: nat, d: Disk, submitted: seq<Frame>, count: nat, fewer: nat)
    requires AudioSafe(channels, d, submitted, count) && fewer <= count
    ensures AudioSafe(channels, d, submitted, fewer)
  {
    hide Carries;
    forall c | 0 <= c < channels
      ensures Home(d, c) in d.files && Holds(d.files[Home(d, c)], submitted, c, fewer)
    {
      var f := d.files[Home(d, c)];
      assert Holds(f, submitted, c, count);
      CarriesFewer(f.current, submitted, c, count, fewer);
      CarriesFewer(f.stable, submitted, c, count, fewer);
    }
  }

  // ---- every elementary action keeps it, also one that fails ----

  lemma GrowKeepsSecured(session: Uuid, channels: nat, count: nat, submitted: seq<Frame>, d: Disk,
                         c: nat, bytes: seq<byte>)
    requires Secured(session, channels, count, submitted, d) && Part(c) in d.files
    ensures Secured(session, channels, count, submitted, Grown(d, Part(c), bytes))
  {
    hide SecuredJournal, SecuredCopy, Carries;
    var e := Grown(d, Part(c), bytes);
    if count > 0 {
      forall i | 0 <= i < channels
        ensures Home(e, i) in e.files && Holds(e.files[Home(e, i)], submitted, i, count)
      {
        assert Home(e, i) == Home(d, i) && Holds(d.files[Home(d, i)], submitted, i, count);
        if i == c {
          CarriesMore(d.files[Part(c)].current, bytes, submitted, c, count);
        }
      }
    }
  }

  lemma FlushKeepsSecured(session: Uuid, channels: nat, count: nat, submitted: seq<Frame>, d: Disk, c: nat)
    requires Secured(session, channels, count, submitted, d) && Part(c) in d.files
    ensures Secured(session, channels, count, submitted, Flushed(d, Part(c)))
  {
    hide SecuredJournal, SecuredCopy, Carries;
    var e := Flushed(d, Part(c));
    if count > 0 {
      forall i | 0 <= i < channels
        ensures Home(e, i) in e.files && Holds(e.files[Home(e, i)], submitted, i, count)
      {
        assert Home(e, i) == Home(d, i) && Holds(d.files[Home(d, i)], submitted, i, count);
      }
    }
  }

  lemma PatchKeepsSecured(session: Uuid, channels: nat, count: nat, submitted: seq<Frame>, d: Disk,
                          c: nat, at: nat, bytes: seq<byte>)
    requires Secured(session, channels, count, submitted, d) && Part(c) in d.files
    requires at + |bytes| <= AUDIO_OFFSET && at + |bytes| <= |d.files[Part(c)].current|
    ensures Secured(session, channels, count, submitted, Patched(d, Part(c), at, bytes))
  {
    hide SecuredJournal, SecuredCopy, Carries;
    var e := Patched(d, Part(c), at, bytes);
    if count > 0 {
      forall i | 0 <= i < channels
        ensures Home(e, i) in e.files && Holds(e.files[Home(e, i)], submitted, i, count)
      {
        assert Home(e, i) == Home(d, i) && Holds(d.files[Home(d, i)], submitted, i, count);
        if i == c {
          CarriesPatched(d.files[Part(c)].current, at, bytes, submitted, c, count);
        }
      }
    }
  }

  lemma MoveKeepsSecured(session: Uuid, channels: nat, count: nat, submitted: seq<Frame>, d: Disk, c: nat, to: nat)
    requires Secured(session, channels, count, submitted, d) && Part(c) in d.files && to == c
    ensures Secured(session, channels, count, submitted, Moved(d, Part(c), Final(to)))
  {
    hide SecuredJournal, SecuredCopy, AudioSafe;
    MoveKeepsAudio(channels, d, submitted, count, c);
  }

  lemma SubmitKeepsSecured(session: Uuid, channels: nat, count: nat, submitted: seq<Frame>, d: Disk, more: seq<Frame>)
    requires Secured(session, channels, count, submitted, d)
    ensures Secured(session, channels, count, submitted + more, d)
  {
    hide SecuredJournal, SecuredCopy;
    if count > 0 {
      forall i | 0 <= i < channels
        ensures Home(d, i) in d.files && Holds(d.files[Home(d, i)], submitted + more, i, count)
      {
        assert Holds(d.files[Home(d, i)], submitted, i, count);
        assert (submitted + more)[..count] == submitted[..count];
      }
    }
  }

  /** A journal that grows and is synced or not. */
  lemma JournalKeepsSecured(session: Uuid, channels: nat, count: nat, submitted: seq<Frame>, d: Disk, e: Disk)
    requires Secured(session, channels, count, submitted, d)
    requires SameBut(d, JournalFile, e) && JournalGrows(d.files[JournalFile], e.files[JournalFile])
    ensures Secured(session, channels, count, submitted, e)
  {
    hide SecuredCopy, AudioSafe, ParseValid, CommittedIn;
    SameAudio(channels, d, e, submitted, count);
    if count > 0 {
      CommitsNeverDrop(d.files[JournalFile].stable, e.files[JournalFile].stable);
    }
  }

  /** Any state inside an append. */
  lemma JournalStepKeepsSecured(session: Uuid, channels: nat, base: Moment, r: Record, x: Moment)
    requires SecuredAt(session, channels, base) && Journal.Step(base, r, x)
    ensures SecuredAt(session, channels, x)
  {
    hide Secured, JournalGrows, EncodeRecord;
    Journal.StepGrows(base, r, x);
    JournalKeepsSecured(session, channels, base.secured, base.submitted, base.disk, x.disk);
  }

  /** Any state of a manifest replacement within the take. */
  lemma ManifestStepKeepsSecured(session: Uuid, channels: nat, base: Moment, manifest: Manifest, x: Moment)
    requires SecuredAt(session, channels, base) && ManifestFile.Step(base, manifest, x)
    requires SecuredCopy(session, channels, Some(Copy(manifest, true)))
    ensures SecuredAt(session, channels, x)
  {
    hide SecuredJournal, AudioSafe;
    SameAudio(channels, base.disk, x.disk, base.submitted, base.secured);
  }

  // ---- what a crash leaves of it ----

  /** The directory holds the secured frames on every channel, under surviving commits of this take only. */
  predicate Outlasts(session: Uuid, channels: nat, count: nat, submitted: seq<Frame>, d: Disk) {
    && JournalFile in d.files && d.visible.Some? && SecuredCopy(session, channels, d.visible)
    && count <= CommittedIn(ParseValid(d.files[JournalFile].current))
    && (forall record <- ParseValid(d.files[JournalFile].current) :: record.sessionId == session)
    && PartsReach(d, channels, count)
    && forall c :: 0 <= c < channels ==> Carries(d.files[Part(c)].current, submitted, c, count)
  }

  lemma OneSession(session: Uuid, bytes: seq<byte>)
    requires ParseValid(bytes) != [] && ParseValid(bytes)[0].sessionId == session
    ensures forall record <- ParseValid(bytes) :: record.sessionId == session
  {
    hide ParseValid, Tiled;
    var _ := ParserSound(bytes);
  }

  lemma SecuredOutlasts(session: Uuid, channels: nat, count: nat, submitted: seq<Frame>, d: Disk, s: Surviving)
    requires Secured(session, channels, count, submitted, d) && count > 0
    requires Crash(d, s) && Unpublished(d, channels)
    ensures Outlasts(session, channels, count, submitted, Found(s))
  {
    hide ParseValid, CommittedIn, Carries;
    var f, after := d.files[JournalFile], s.files[JournalFile];
    CommitsNeverDrop(f.stable, after);
    assert ParseValid(after)[0] == ParseValid(f.stable)[0];
    OneSession(session, after);
    forall c | 0 <= c < channels
      ensures Carries(s.files[Part(c)], submitted, c, count)
      ensures |s.files[Part(c)]| >= AUDIO_OFFSET + BYTES_PER_SAMPLE * count
    {
      assert Home(d, c) == Part(c) && Holds(d.files[Part(c)], submitted, c, count);
      CarriesSurvive(d.files[Part(c)], s.files[Part(c)], submitted, c, count);
      CarriesReaches(s.files[Part(c)], submitted, c, count);
    }
    assert s.manifest == Some(d.visible.value.manifest) || s.manifest == Some(d.settled.value.manifest);
  }

  lemma CarriesReaches(content: seq<byte>, frames: seq<Frame>, c: nat, count: nat)
    requires Carries(content, frames, c, count)
    ensures |content| >= AUDIO_OFFSET + BYTES_PER_SAMPLE * count
  {
  }
}
