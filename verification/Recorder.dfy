/** The recorder: one append-only file per channel, the journal and the manifest, kept so that a crash
    between any two elementary actions loses nothing acknowledged. */
module Recorder {
  import opened Bytes
  import opened Wrappers
  import opened Postcard
  import opened JournalFormat
  import opened JournalLaws
  import opened Rf64
  import opened State
  import opened Session
  import opened Storage
  import opened CrashSafety
  import opened Endurance
  import opened Interleave
  import opened Division
  import ManifestFile
  import Journal

  datatype RecorderError =
    | Io
    | NoteTooLarge
    | NoChannels
    | InvalidSampleRate
    | PartialFrame(samples: nat, channels: nat)
    | DiskFull(limit: u64)
    | InvalidState(expected: RecorderState)
    | InvalidTransition(error: StateError)
    | Invalid(reason: ValidationError)

  /** b continues the take of a: nothing that clients can observe is lost. */
  predicate ContinuesTake(a: Manifest, b: Manifest) {
    && b.sessionId == a.sessionId && b.texts == a.texts && b.sampleRate == a.sampleRate && b.channels == a.channels
    && b.status == a.status
    && a.framesWritten <= b.framesWritten && a.framesCommitted <= b.framesCommitted
    && a.markers <= b.markers && a.incidents <= b.incidents
  }

  lemma ContinuesItself(m: Manifest)
    ensures ContinuesTake(m, m)
  {
  }

  lemma ContinuesTakeTransitive(a: Manifest, b: Manifest, c: Manifest)
    requires ContinuesTake(a, b) && ContinuesTake(b, c)
    ensures ContinuesTake(a, c)
  {
  }

  /** The markers of one recording answer distinct requests, in frame order. */
  predicate MarkersInOrder(m: Manifest) {
    && (forall i, j :: 0 <= i < j < |m.markers| ==> m.markers[i].requestId != m.markers[j].requestId)
    && (forall i, j :: 0 <= i <= j < |m.markers| ==> m.markers[i].frame <= m.markers[j].frame)
    && (forall i :: 0 <= i < |m.markers| ==> m.markers[i].frame <= m.framesWritten)
  }

  lemma MarkersKept(a: Manifest, b: Manifest)
    requires MarkersInOrder(a) && b.markers == a.markers && a.framesWritten <= b.framesWritten
    ensures MarkersInOrder(b)
  {
  }

  lemma MarkerAppended(m: Manifest, marker: Marker)
    requires MarkersInOrder(m) && marker.frame == m.framesWritten
    requires forall i :: 0 <= i < |m.markers| ==> m.markers[i].requestId != marker.requestId
    ensures MarkersInOrder(m.(markers := m.markers + [marker]))
  {
  }

  lemma TooLongToFit(k: Kind)
    requires |Encode(k)| > MAX_RECORD_SIZE
    ensures !Fits(k)
  {
  }

  lemma ShortEnoughToFit(k: Kind)
    requires |Encode(k)| <= MAX_RECORD_SIZE
    ensures Fits(k)
  {
  }

  // ---- gaps ----

  /** The number of samples of a gap: a wrapping product. */
  function GapSamples(frames: u64, channels: nat): u64 {
    frames * channels % U64_SPAN
  }

  /** The number of frames that are really inserted. */
  function GapFrames(frames: u64, channels: nat): nat
    requires channels > 0
  {
    GapSamples(frames, channels) / channels
  }

  /** The samples of the gap make whole frames. */
  predicate WholeGap(frames: u64, channels: nat)
    requires channels > 0
  {
    GapSamples(frames, channels) % channels == 0
  }

  function PartialGap(frames: u64, channels: nat): RecorderError {
    PartialFrame(GapSamples(frames, channels), channels)
  }

  /** A gap has the length that was asked for if and only if its number of samples does not wrap. */
  lemma GapLengthIff(frames: u64, channels: nat)
    requires channels > 0
    ensures WholeGap(frames, channels) && GapFrames(frames, channels) == frames <==> frames * channels < U64_SPAN
  {
    RemainderIff(frames * channels, U64_SPAN);
    WholeQuotientIff(GapSamples(frames, channels), channels, frames);
  }

  /** Two gaps that wrap: 2^63 frames on two channels insert nothing and are reported in full, and a third of
      2^64, rounded up, on three channels is refused as ending inside a frame. */
  lemma WrappedGaps()
    ensures WholeGap(0x8000_0000_0000_0000, 2) && GapFrames(0x8000_0000_0000_0000, 2) == 0
    ensures !WholeGap(0x5555_5555_5555_5556, 3) && PartialGap(0x5555_5555_5555_5556, 3) == PartialFrame(2, 3)
  {
  }

  /** What of a take determines its audio files besides the samples. */
  datatype Layout = Layout(sampleRate: u32, texts: Texts, device: seq<byte>, channels: seq<Channel>)

  function LayoutOf(m: Manifest, device: seq<byte>): Layout {
    Layout(m.sampleRate, m.texts, device, m.channels)
  }

  /** The header bytes of channel c's part file. */
  function PartHeader(l: Layout, c: nat): (b: seq<byte>)
    requires c < |l.channels|
    ensures |b| == AUDIO_OFFSET
  {
    Rf64.Header(l.sampleRate, Stamp(l.texts, l.channels[c].title, l.device))
  }

  /** Channel c's part file once it holds `frames`. */
  function PartContent(l: Layout, frames: seq<Frame>, c: nat): (b: seq<byte>)
    requires c < |l.channels|
    ensures |b| == AUDIO_OFFSET + BYTES_PER_SAMPLE * |frames|
  {
    PartHeader(l, c) + TrackBytes(frames, c)
  }

  /** Channels before `upTo` hold all submitted frames, the others the first `written`. */
  predicate Tracked(d: Disk, submitted: seq<Frame>, l: Layout, written: nat, upTo: nat)
    requires PartsReach(d, |l.channels|, 0)
  {
    && written <= |submitted|
    && (forall frame <- submitted :: |frame| == |l.channels|)
    && forall c :: 0 <= c < |l.channels| ==>
         d.files[Part(c)].current == PartContent(l, if c < upTo then submitted else submitted[..written], c)
  }

  lemma PartContentGrows(l: Layout, a: seq<Frame>, b: seq<Frame>, c: nat)
    requires c < |l.channels|
    ensures PartContent(l, a, c) + TrackBytes(b, c) == PartContent(l, a + b, c)
  {
    TrackBytesConcat(a, b, c);
  }

  lemma PartContentCarries(l: Layout, frames: seq<Frame>, c: nat)
    requires c < |l.channels|
    ensures Carries(PartContent(l, frames, c), frames, c, |frames|)
  {
    hide PartHeader, TrackBytes;
    assert frames[..|frames|] == frames;
  }

  lemma ReachesNothing(d: Disk, frames: nat)
    ensures PartsReach(d, 0, frames)
  {
  }

  lemma ReachesOneMore(d: Disk, e: Disk, c: nat, frames: nat)
    requires PartsReach(d, c, frames) && SameBut(d, Part(c), e)
    requires |e.files[Part(c)].current| >= AUDIO_OFFSET + BYTES_PER_SAMPLE * frames
    ensures PartsReach(e, c + 1, frames)
  {
  }

  lemma TrackedKept(d: Disk, name: Name, e: Disk, submitted: seq<Frame>, l: Layout, written: nat, upTo: nat)
    requires PartsReach(d, |l.channels|, 0) && Tracked(d, submitted, l, written, upTo)
    requires d.files == e.files
             || (SameBut(d, name, e) && (name == JournalFile || e.files[name].current == d.files[name].current))
    ensures PartsReach(e, |l.channels|, 0) && Tracked(e, submitted, l, written, upTo)
  {
    hide PartContent;
  }

  lemma AllTracked(d: Disk, submitted: seq<Frame>, l: Layout, written: nat)
    requires PartsReach(d, |l.channels|, 0) && Tracked(d, submitted, l, written, |l.channels|)
    ensures Tracked(d, submitted, l, |submitted|, 0)
  {
    hide PartContent;
    assert submitted[..|submitted|] == submitted;
  }

  lemma TrackedOneMore(d: Disk, e: Disk, submitted: seq<Frame>, l: Layout, written: nat, c: nat)
    requires PartsReach(d, |l.channels|, 0) && c < |l.channels| && Tracked(d, submitted, l, written, c)
    requires SameBut(d, Part(c), e) && e.files[Part(c)].current == PartContent(l, submitted, c)
    ensures PartsReach(e, |l.channels|, 0) && Tracked(e, submitted, l, written, c + 1)
  {
    hide PartContent;
  }

  /** Filling in the sizes of a complete part file finishes it. */
  lemma FilledIsFinished(l: Layout, frames: seq<Frame>, c: nat)
    requires c < |l.channels| && l.sampleRate != 0 && |PartContent(l, frames, c)| <= MAX_FILE
    ensures var filled := Finalized(PartContent(l, frames, c), |frames|);
      && filled == FinishedPart(l, frames, c)
      && Validate(filled, l.sampleRate, |frames|) == Ok(())
  {
    hide Validate;
    FinishedIsValid(l.sampleRate, Stamp(l.texts, l.channels[c].title, l.device), Track(frames, c));
  }

  /** The channels of a completed take: as they were, each with its final file. */
  function AllPublished(channels: seq<Channel>): (r: seq<Channel>)
    ensures |r| == |channels| && forall c :: 0 <= c < |r| ==> r[c].title == channels[c].title && r[c].published
  {
    seq(|channels|, i requires 0 <= i < |channels| => channels[i].(published := true))
  }

  /** Channel c's finished file. */
  function FinishedPart(l: Layout, frames: seq<Frame>, c: nat): (b: seq<byte>)
    requires c < |l.channels|
  {
    Finished(l.sampleRate, Stamp(l.texts, l.channels[c].title, l.device), Track(frames, c))
  }

  /** The first `upTo` channels are published, the others still complete part files. */
  predicate PublishedUpTo(d: Disk, frames: seq<Frame>, l: Layout, upTo: nat) {
    && (forall c :: 0 <= c < upTo && c < |l.channels| ==>
          && Part(c) !in d.files && Final(c) in d.files
          && d.files[Final(c)] == FileState(FinishedPart(l, frames, c), FinishedPart(l, frames, c)))
    && (forall c :: upTo <= c < |l.channels| ==>
          Part(c) in d.files && d.files[Part(c)].current == PartContent(l, frames, c))
  }

  lemma TrackedIsPublishable(d: Disk, frames: seq<Frame>, l: Layout)
    requires PartsReach(d, |l.channels|, 0) && Tracked(d, frames, l, |frames|, 0)
    ensures PublishedUpTo(d, frames, l, 0)
  {
    hide PartContent;
    assert frames[..|frames|] == frames;
  }

  lemma PublishedOneMore(d: Disk, e: Disk, f: Disk, frames: seq<Frame>, l: Layout, c: nat)
    requires c < |l.channels| && PublishedUpTo(d, frames, l, c)
    requires SameBut(d, Part(c), e)
    requires e.files[Part(c)] == FileState(FinishedPart(l, frames, c), FinishedPart(l, frames, c))
    requires f == Moved(e, Part(c), Final(c))
    ensures PublishedUpTo(f, frames, l, c + 1)
  {
    hide FinishedPart, PartContent;
  }

  lemma PublishedKept(d: Disk, e: Disk, frames: seq<Frame>, l: Layout, upTo: nat)
    requires PublishedUpTo(d, frames, l, upTo) && SameBut(d, JournalFile, d.(files := e.files))
    ensures PublishedUpTo(e, frames, l, upTo)
  {
    hide FinishedPart, PartContent;
  }

  class Recorder {
    const store: Store
    const journal: Journal.Journal
    const device: seq<byte>
    const maxAudioBytes: Option<u64>
    var manifest: Manifest

    constructor (store: Store, journal: Journal.Journal, device: seq<byte>, maxAudioBytes: Option<u64>,
                 manifest: Manifest)
      ensures this.store == store && this.journal == journal && this.device == device
      ensures this.maxAudioBytes == maxAudioBytes && this.manifest == manifest
    {
      this.store, this.journal, this.device := store, journal, device;
      this.maxAudioBytes, this.manifest := maxAudioBytes, manifest;
    }

    // ---- invariants ----

    ghost predicate Shaped()
      reads this, store, journal
    {
      && journal.store == store && journal.session == manifest.sessionId
      && |manifest.channels| > 0 && manifest.sampleRate != 0
      && Bounded(store.disk) && JournalFile in store.disk.files
      && store.secured <= store.acked && store.Steady()
      && Secured(manifest.sessionId, |manifest.channels|, store.secured, store.submitted, store.disk)
      && (forall m <- store.history :: Safe(manifest.sessionId, |manifest.channels|, m))
      && forall m <- store.trace :: SecuredAt(manifest.sessionId, |manifest.channels|, m)
    }

    ghost predicate PartsPresent()
      reads this, store
    {
      PartsReach(store.disk, |manifest.channels|, manifest.framesWritten)
    }

    /** The journal file holds exactly the records set out, and the state is safe. */
    ghost predicate Logged()
      reads this, store, journal
      requires Shaped()
    {
      && Safe(manifest.sessionId, |manifest.channels|, store.Now())
      && AllFit(store.kinds) && store.disk.files[JournalFile].current == Log(manifest.sessionId, 0, store.kinds)
      && journal.nextSequence == Later(0, |store.kinds|)
    }

    ghost predicate Tracks(written: nat, upTo: nat)
      reads this, store
      requires PartsPresent()
    {
      Tracked(store.disk, store.submitted, LayoutOf(manifest, device), written, upTo)
    }

    /** All submitted frames are on every channel, journaled and counted as committed. */
    ghost predicate Level()
      reads this, store, journal
      requires Shaped() && PartsPresent()
    {
      && Logged() && store.durable == |store.kinds|
      && |store.submitted| == manifest.framesWritten == manifest.framesCommitted == Frontier(store.kinds)
      && Tracks(|store.submitted|, 0)
      && store.disk.visible.Some? && store.disk.settled.Some?
    }

    /** The present state is the last one noted. */
    ghost predicate Latest()
      reads this, store
    {
      store.history != [] && store.history[|store.history| - 1] == store.Now()
    }

    /** Between calls, as long as no primitive has failed. */
    ghost predicate Settled()
      reads this, store, journal
      requires Shaped() && PartsPresent()
    {
      && Level() && store.secured == store.acked == manifest.framesWritten
      && Latest()
      && store.disk.visible == store.disk.settled == Some(Copy(manifest, true))
    }

    ghost predicate Valid()
      reads this, store, journal
    {
      && Shaped() && PartsPresent() && MarkersInOrder(manifest)
      && manifest.framesCommitted <= manifest.framesWritten
      && (!store.failed ==> Settled())
    }

    // ---- steps ----

    /** One journal append. */
    method Record(kind: Kind, durable: bool) returns (r: Result<u64, Journal.AppendError>)
      requires Shaped()
      requires !store.failed ==> Logged() && MayJournal(|manifest.channels|, store.Now(), kind)
      modifies journal, store
      ensures Shaped() && (!store.failed ==> Logged())
      ensures r == Err(Journal.TooLarge) <==> !Fits(kind)
      ensures r == Err(Journal.TooLarge) ==>
                && store.Now() == old(store.Now()) && store.failed == old(store.failed)
                && store.history == old(store.history) && store.trace == old(store.trace)
      ensures r.Ok? ==> store.Now() == Journal.Appended(old(store.Now()), old(journal.Record(kind)), durable)
      ensures r.Ok? ==> store.failed == old(store.failed)
      ensures old(store.failed) || r == Err(Journal.Failed) ==> store.failed
      ensures SameBut(old(store.disk), JournalFile, store.disk)
      ensures store.Observed()
      ensures store.Extended()
    {
      hide Safe, Secured, JournalGrows, MayJournal, Journal.Step, Log, Fits, Later, Bounded, Next;
      ghost var base := store.Now();
      ghost var session, channels := manifest.sessionId, |manifest.channels|;
      ghost var record := journal.Record(kind);
      ghost var before, seen := |store.history|, |store.trace|;
      r := journal.Append(kind, durable);
      JournalKeepsSecured(session, channels, base.secured, base.submitted, base.disk, store.disk);
      forall i | seen <= i < |store.trace|
        ensures SecuredAt(session, channels, store.trace[i])
      {
        JournalStepKeepsSecured(session, channels, base, record, store.trace[i]);
      }
      if !old(store.failed) {
        forall i | before <= i < |store.history|
          ensures Safe(session, channels, store.history[i])
        {
          JournalStepKeepsSafe(session, channels, base, kind, store.history[i]);
        }
        match r
        case Ok(_) =>
          AppendedIsSafe(session, channels, base, kind, durable);
          LaterSteps(0, |base.kinds|);
        case Err(TooLarge) =>
        case Err(Failed) =>
      }
    }

    /** A durable journal record that commits nothing. */
    method RecordEvent(kind: Kind) returns (ok: bool)
      requires Shaped() && PartsPresent() && (!store.failed ==> Level())
      requires !kind.FramesCommitted? && Fits(kind)
      modifies journal, store
      ensures Shaped() && PartsPresent() && (!store.failed ==> Level())
      ensures store.failed == (old(store.failed) || !ok)
      ensures store.Observed()
      ensures ok ==> store.kinds == old(store.kinds) + [kind]
      ensures SameBut(old(store.disk), JournalFile, store.disk)
      ensures store.Extended()
    {
      hide Safe, Secured, Journal.Step, Log, Fits, Later, Bounded, Next, Frontier, Tracked;
      assert MayJournal(|manifest.channels|, store.Now(), kind);
      ghost var kinds, base := store.kinds, store.disk;
      var r := Record(kind, true);
      assert r.Ok? || r.error == Journal.TooLarge || r.error == Journal.Failed;
      ok := r.Ok?;
      FrontierSnoc(kinds, kind);
      if !store.failed {
        TrackedKept(base, JournalFile, store.disk, store.submitted, LayoutOf(manifest, device), |store.submitted|, 0);
      }
    }

    /** persist_manifest. */
    method PersistManifest() returns (ok: bool)
      requires Shaped()
      requires !store.failed ==> Logged() && manifest.framesCommitted <= Frontier(store.kinds[..store.durable])
      modifies store
      ensures Shaped() && (!store.failed ==> Logged())
      ensures store.Now() == old(store.Now()).(disk := store.disk) && store.disk.files == old(store.disk.files)
      ensures store.failed == (old(store.failed) || !ok)
      ensures ok ==> store.disk.visible == store.disk.settled == Some(Copy(manifest, true))
      ensures ok && !store.failed ==> Latest()
      ensures store.Extended()
    {
      hide Log, Later, Next, Frontier, JournalSafe, AudioSafe, Secured;
      ghost var base := store.Now();
      ghost var session, channels := manifest.sessionId, |manifest.channels|;
      ghost var before, seen := |store.history|, |store.trace|;
      ok := ManifestFile.WriteAtomic(store, manifest);
      ManifestStepKeepsSecured(session, channels, base, manifest, store.Now());
      forall i | seen <= i < |store.trace|
        ensures SecuredAt(session, channels, store.trace[i])
      {
        ManifestStepKeepsSecured(session, channels, base, manifest, store.trace[i]);
      }
      if !old(store.failed) {
        forall i | before <= i < |store.history|
          ensures Safe(session, channels, store.history[i])
        {
          ManifestStepKeepsSafe(session, channels, base, manifest, store.history[i]);
        }
        if ok {
          assert ManifestFile.Step(base, manifest, store.Now());
          ManifestStepKeepsSafe(session, channels, base, manifest, store.Now());
        }
      }
    }

    /** persist_manifest between journal records. */
    method Persist() returns (ok: bool)
      requires Shaped() && PartsPresent() && (!store.failed ==> Level())
      modifies store
      ensures Shaped() && PartsPresent() && (!store.failed ==> Level())
      ensures store.Now() == old(store.Now()).(disk := store.disk) && store.disk.files == old(store.disk.files)
      ensures store.failed == (old(store.failed) || !ok)
      ensures ok ==> store.disk.visible == store.disk.settled == Some(Copy(manifest, true))
      ensures ok && !store.failed ==> Latest()
      ensures store.Extended()
    {
      hide Log, Later, Next, Frontier, Safe, Secured, Tracked;
      ghost var base := store.disk;
      assert !store.failed ==> store.kinds[..store.durable] == store.kinds;
      ok := PersistManifest();
      if !store.failed {
        TrackedKept(base, JournalFile, store.disk, store.submitted, LayoutOf(manifest, device), |store.submitted|, 0);
      }
    }

    /** write_all on one part file. */
    method AppendPart(c: nat, bytes: seq<byte>) returns (ok: bool)
      requires Shaped() && PartsPresent() && c < |manifest.channels| && (!store.failed ==> Logged())
      modifies store
      ensures Shaped() && PartsPresent() && (!store.failed ==> Logged())
      ensures store.Now() == old(store.Now()).(disk := store.disk)
      ensures store.failed == (old(store.failed) || !ok)
      ensures SameBut(old(store.disk), Part(c), store.disk)
      ensures ok ==> store.disk == Grown(old(store.disk), Part(c), bytes)
      ensures |store.disk.files[Part(c)].current|
              >= |old(store.disk).files[Part(c)].current| + if ok then |bytes| else 0
      ensures store.Extended()
    {
      hide Log, Later, Safe, Secured, Bounded;
      ghost var base := store.Now();
      ghost var wrote: nat;
      ok, wrote := store.Append(Part(c), bytes);
      GrowKeepsSecured(manifest.sessionId, |manifest.channels|, base.secured, base.submitted, base.disk,
                       c, bytes[..wrote]);
      if !old(store.failed) {
        GrowKeepsSafe(manifest.sessionId, |manifest.channels|, base, c, bytes[..wrote]);
      }
      assert ok ==> bytes[..wrote] == bytes;
    }

    /** sync_data on one part file. */
    method SyncPart(c: nat) returns (ok: bool)
      requires Shaped() && PartsPresent() && c < |manifest.channels| && (!store.failed ==> Logged())
      modifies store
      ensures Shaped() && PartsPresent() && (!store.failed ==> Logged())
      ensures store.Now() == old(store.Now()).(disk := store.disk)
      ensures store.failed == (old(store.failed) || !ok)
      ensures store.disk == if ok then Flushed(old(store.disk), Part(c)) else old(store.disk)
      ensures store.Extended()
    {
      hide Log, Later, Safe, Secured, Bounded;
      ghost var base := store.Now();
      ok := store.Sync(Part(c));
      FlushKeepsSecured(manifest.sessionId, |manifest.channels|, base.secured, base.submitted, base.disk, c);
      if !old(store.failed) {
        FlushKeepsSafe(manifest.sessionId, |manifest.channels|, base, c);
      }
    }

    /** Everything submitted is on every channel, counted as written, and not yet counted as committed. */
    ghost predicate Written()
      reads this, store, journal
      requires Shaped() && PartsPresent()
    {
      && Logged()
      && |store.submitted| == manifest.framesWritten && Frontier(store.kinds) <= manifest.framesWritten
      && Tracks(|store.submitted|, 0)
      && store.disk.visible.Some? && store.disk.settled.Some?
    }

    ghost predicate AllSynced()
      reads this, store
      requires PartsPresent()
    {
      forall c :: 0 <= c < |manifest.channels| ==> store.disk.files[Part(c)].stable == store.disk.files[Part(c)].current
    }

    /** The loop of commit over the channel files. */
    method SyncAll() returns (ok: bool)
      requires Shaped() && PartsPresent() && (!store.failed ==> Written())
      modifies store
      ensures Shaped() && PartsPresent() && (!store.failed ==> Written())
      ensures store.Now() == old(store.Now()).(disk := store.disk) && store.failed == (old(store.failed) || !ok)
      ensures ok ==> AllSynced()
      ensures store.Extended()
    {
      hide Log, Later, Safe, Secured, Bounded, Frontier, Tracked;
      ok := true;
      var c := 0;
      while c < |manifest.channels|
        invariant 0 <= c <= |manifest.channels|
        invariant Shaped() && PartsPresent() && (!store.failed ==> Written())
        invariant store.Now() == old(store.Now()).(disk := store.disk) && store.failed == old(store.failed)
        invariant store.Extended()
        invariant forall i :: 0 <= i < c ==> store.disk.files[Part(i)].stable == store.disk.files[Part(i)].current
      {
        ghost var base := store.disk;
        ok := SyncPart(c);
        if !ok {
          return;
        }
        if !store.failed {
          TrackedKept(base, Part(c), store.disk, store.submitted, LayoutOf(manifest, device), |store.submitted|, 0);
        }
        c := c + 1;
      }
    }

    /** The durable FramesCommitted record. */
    method RecordCommit() returns (ok: bool)
      requires Shaped() && PartsPresent() && (!store.failed ==> Written() && AllSynced())
      requires manifest.framesCommitted == manifest.framesWritten
      modifies journal, store
      ensures Shaped() && PartsPresent() && (!store.failed ==> Level())
      ensures store.failed == (old(store.failed) || !ok)
      ensures store.Observed()
      ensures ok ==> store.kinds == old(store.kinds) + [FramesCommitted(manifest.framesCommitted)]
      ensures store.Extended()
    {
      hide Log, Later, Safe, Secured, Bounded, Fits, Frontier, AudioSafe, Tracked;
      ghost var base := store.disk;
      var kind := FramesCommitted(manifest.framesCommitted);
      ShortWithoutText(kind);
      FitsIfShort(kind);
      if !store.failed {
        SyncedIsCommittable();
        FrontierSnoc(store.kinds, kind);
      }
      var r := Record(kind, true);
      assert r.Ok? || r.error == Journal.TooLarge || r.error == Journal.Failed;
      ok := r.Ok?;
      if !store.failed {
        TrackedKept(base, JournalFile, store.disk, store.submitted, LayoutOf(manifest, device), |store.submitted|, 0);
      }
    }

    /** commit: sync every channel, then journal the frontier durably, then rewrite the manifest. */
    method Commit() returns (ok: bool)
      requires Shaped() && PartsPresent() && (!store.failed ==> Written())
      modifies this, journal, store
      ensures Shaped() && PartsPresent() && (!store.failed ==> Level())
      ensures store.failed == (old(store.failed) || !ok)
      ensures store.Observed()
      ensures manifest == old(manifest) || manifest == old(manifest).(framesCommitted := old(manifest).framesWritten)
      ensures ok ==> manifest == old(manifest).(framesCommitted := old(manifest).framesWritten)
      ensures ok ==> store.kinds == old(store.kinds) + [FramesCommitted(manifest.framesWritten)]
      ensures ok ==> store.disk.visible == store.disk.settled == Some(Copy(manifest, true))
      ensures store.Extended()
    {
      hide Log, Later, Safe, Secured, Bounded, TrackBytes, Frontier;
      ok := SyncAll();
      if ok {
        manifest := manifest.(framesCommitted := manifest.framesWritten);
        ok := RecordCommit();
      }
      if ok {
        ok := Persist();
      }
    }

    /** Frames that every channel has synced may be journaled as committed. */
    lemma SyncedIsCommittable()
      requires Shaped() && PartsPresent() && |store.submitted| == manifest.framesWritten
      requires Tracks(|store.submitted|, 0)
      requires forall c :: 0 <= c < |manifest.channels| ==>
                 store.disk.files[Part(c)].stable == store.disk.files[Part(c)].current
      ensures AudioSafe(|manifest.channels|, store.disk, store.submitted, |store.submitted|)
    {
      hide PartContent;
      var n := |store.submitted|;
      assert store.submitted[..n] == store.submitted;
      forall c | 0 <= c < |manifest.channels| && Part(c) in store.disk.files
        ensures Holds(store.disk.files[Part(c)], store.submitted, c, n)
      {
        PartContentCarries(LayoutOf(manifest, device), store.submitted, c);
      }
    }

    /** The records that precede the recording state. */
    method Announce() returns (ok: bool)
      requires Shaped() && PartsPresent() && (!store.failed ==> Level())
      modifies journal, store
      ensures Shaped() && PartsPresent() && (!store.failed ==> Level()) && store.failed == (old(store.failed) || !ok)
      ensures store.Observed()
      ensures ok ==> store.kinds == old(store.kinds) + [SessionCreated, DeviceConfigured, TakeArmed]
      ensures store.Extended()
    {
      hide Shaped, Level, Frontier;
      ok := RecordEvent(SessionCreated);
      if ok {
        ok := RecordEvent(DeviceConfigured);
      }
      if ok {
        ok := RecordEvent(TakeArmed);
      }
    }

    /** The records with which create opens the journal, and the manifest of the running take. */
    method Begin() returns (ok: bool)
      requires Shaped() && PartsPresent() && !store.failed && Level()
      requires manifest.state == Armed && manifest.markers == [] && manifest.framesWritten == 0 && store.acked == 0
      modifies this, journal, store
      ensures ok ==> Valid() && !store.failed && manifest == old(manifest).(state := Recording)
      ensures store.Observed()
      ensures ok ==> store.kinds == old(store.kinds) + [SessionCreated, DeviceConfigured, TakeArmed, SegmentStarted]
      ensures store.Extended()
    {
      hide Log, Later, Safe, Secured, Bounded, Tracked, Frontier;
      ok := Announce();
      if ok {
        manifest := manifest.(state := Recording);
        ok := RecordEvent(SegmentStarted);
      }
      if ok {
        ok := Persist();
      }
    }

    // ---- operations ----

    /** What every operation keeps: the invariants, a continued take, and everything already submitted. */
    twostate predicate Kept()
      reads this, store, journal
    {
      && Valid() && ContinuesTake(old(manifest), manifest)
      && old(store.submitted) <= store.submitted && old(store.acked) <= store.acked
      && old(store.secured) <= store.secured && store.Extended()
    }

    twostate predicate Untouched()
      reads this, store
    {
      manifest == old(manifest) && store.Now() == old(store.Now()) && store.failed == old(store.failed)
    }

    /** What write_interleaved has handed in beyond the frames already counted as written. */
    ghost predicate Handed(samples: seq<Sample>)
      reads this, store, journal
      requires Shaped()
    {
      && Logged() && manifest.framesWritten <= |store.submitted|
      && store.submitted == store.submitted[..manifest.framesWritten] + Frames(samples, |manifest.channels|)
    }

    /** One round of that loop. */
    method WritePart(samples: seq<Sample>, c: nat) returns (ok: bool)
      requires Shaped() && PartsPresent() && c < |manifest.channels|
      requires !store.failed ==> Handed(samples) && Tracks(manifest.framesWritten, c)
      modifies store
      ensures Shaped() && PartsPresent()
      ensures !store.failed ==> Handed(samples) && Tracks(manifest.framesWritten, c + 1)
      ensures store.Now() == old(store.Now()).(disk := store.disk) && SameBut(old(store.disk), Part(c), store.disk)
      ensures store.disk == old(store.disk).(files := store.disk.files)
      ensures store.failed == (old(store.failed) || !ok)
      ensures ok ==>
        var frames := manifest.framesWritten + |Frames(samples, |manifest.channels|)|;
        |store.disk.files[Part(c)].current| >= AUDIO_OFFSET + BYTES_PER_SAMPLE * frames
      ensures store.Extended()
    {
      hide Log, Later, Safe, Secured, Bounded, TrackBytes, PartContent, Frames;
      var channels := |manifest.channels|;
      var bytes := TrackOf(samples, channels, c);
      ghost var base := store.disk;
      ghost var before := if store.failed then [] else store.submitted[..manifest.framesWritten];
      PartContentGrows(LayoutOf(manifest, device), before, Frames(samples, channels), c);
      ok := AppendPart(c, bytes);
      if ok && !store.failed {
        TrackedOneMore(base, store.disk, store.submitted, LayoutOf(manifest, device), manifest.framesWritten, c);
      }
    }

    lemma AllHanded(samples: seq<Sample>)
      requires Shaped() && PartsPresent() && Handed(samples) && Tracks(manifest.framesWritten, |manifest.channels|)
      ensures Logged() && Tracks(|store.submitted|, 0)
    {
      hide Tracked;
      AllTracked(store.disk, store.submitted, LayoutOf(manifest, device), manifest.framesWritten);
    }

    /** The loop of write_interleaved over the channel files. */
    method WriteParts(samples: seq<Sample>) returns (ok: bool)
      requires Shaped() && PartsPresent()
      requires !store.failed ==> Handed(samples) && Tracks(manifest.framesWritten, 0)
      modifies store
      ensures Shaped() && PartsPresent()
      ensures !store.failed ==> Logged() && Tracks(|store.submitted|, 0)
      ensures store.Now() == old(store.Now()).(disk := store.disk)
      ensures store.disk == old(store.disk).(files := store.disk.files)
      ensures store.failed == (old(store.failed) || !ok)
      ensures ok ==>
        PartsReach(store.disk, |manifest.channels|, manifest.framesWritten + |Frames(samples, |manifest.channels|)|)
      ensures store.Extended()
    {
      hide Shaped, Logged, Handed, Tracks, Frames, PartsReach, SameBut;
      var c := 0;
      ok := true;
      SomeChannels();
      ghost var frames := manifest.framesWritten + |Frames(samples, |manifest.channels|)|;
      ReachesNothing(store.disk, frames);
      while c < |manifest.channels|
        invariant 0 <= c <= |manifest.channels|
        invariant Shaped() && PartsPresent()
        invariant !store.failed ==> Handed(samples) && Tracks(manifest.framesWritten, c)
        invariant store.Now() == old(store.Now()).(disk := store.disk) && store.failed == old(store.failed)
        invariant store.Extended()
        invariant store.disk == old(store.disk).(files := store.disk.files)
        invariant PartsReach(store.disk, c, frames)
      {
        ghost var before := store.disk;
        ok := WritePart(samples, c);
        if !ok {
          return;
        }
        ReachesOneMore(before, store.disk, c, frames);
        c := c + 1;
      }
      if !store.failed {
        AllHanded(samples);
      }
    }

    /** The FramesWritten record, journaled without a sync. */
    method RecordWritten() returns (ok: bool)
      requires Shaped() && PartsPresent() && (!store.failed ==> Written())
      modifies journal, store
      ensures Shaped() && PartsPresent() && (!store.failed ==> Written())
      ensures store.failed == (old(store.failed) || !ok)
      ensures store.Observed()
      ensures ok ==> store.kinds == old(store.kinds) + [FramesWritten(manifest.framesWritten)]
      ensures store.Extended()
    {
      hide Log, Later, Safe, Secured, Bounded, Fits, Frontier, AudioSafe, Tracked;
      ghost var base := store.disk;
      var kind := FramesWritten(manifest.framesWritten);
      ShortWithoutText(kind);
      FitsIfShort(kind);
      FrontierSnoc(store.kinds, kind);
      var r := Record(kind, false);
      assert r.Ok? || r.error == Journal.TooLarge || r.error == Journal.Failed;
      ok := r.Ok?;
      if !store.failed {
        TrackedKept(base, JournalFile, store.disk, store.submitted, LayoutOf(manifest, device), |store.submitted|, 0);
      }
    }

    /** The observer is told that `frames` more frames were handed in. */
    ghost method Submit(frames: seq<Frame>)
      requires Valid() && forall frame <- frames :: |frame| == |manifest.channels|
      modifies store`submitted
      ensures Shaped() && PartsPresent() && store.submitted == old(store.submitted) + frames
      ensures !store.failed ==>
        && Logged() && Tracks(manifest.framesWritten, 0) && manifest.framesWritten <= |store.submitted|
        && store.submitted == store.submitted[..manifest.framesWritten] + frames
        && |store.submitted| == manifest.framesWritten + |frames|
      ensures store.Extended()
    {
      hide Log, Later, Safe, Secured, Bounded, PartContent;
      SubmitKeepsSecured(manifest.sessionId, |manifest.channels|, store.secured, store.submitted, store.disk, frames);
      if !store.failed {
        SubmitKeepsSafe(manifest.sessionId, |manifest.channels|, store.Now(), frames);
        assert (store.submitted + frames)[..manifest.framesWritten] == store.submitted;
        assert store.submitted[..|store.submitted|] == store.submitted;
      }
      store.submitted := store.submitted + frames;
    }

    /** The observer is told that `frames` more frames were acknowledged. */
    ghost method Acknowledge(frames: nat)
      requires Shaped() && PartsPresent() && MarkersInOrder(manifest)
      requires manifest.framesCommitted <= manifest.framesWritten
      requires !store.failed ==>
        && Level() && store.acked + frames == manifest.framesWritten
        && store.disk.visible == store.disk.settled == Some(Copy(manifest, true))
      modifies store`acked, store`secured, store`history, store`trace, store`failed
      ensures Valid() && store.acked == old(store.acked) + frames && store.failed == old(store.failed)
      ensures store.secured == if store.failed then old(store.secured) else store.acked
      ensures store.Extended()
    {
      hide Log, Later, Bounded, Safe, Secured, Frontier, Tracked;
      if !store.failed {
        assert store.kinds[..store.durable] == store.kinds;
        AcknowledgeKeepsSafe(manifest.sessionId, |manifest.channels|, store.Now(), store.acked + frames);
        store.acked, store.secured := store.acked + frames, store.acked + frames;
        SafeIsSecured(manifest.sessionId, |manifest.channels|, store.Now(), store.secured);
      } else {
        store.acked := store.acked + frames;
      }
      store.Note(true);
    }

    /** The byte count that write_interleaved compares with the limit: a wrapping u64 product. */
    static function AudioBytes(frames: nat, channels: nat): u64 {
      frames % U64_SPAN * channels * BYTES_PER_SAMPLE % U64_SPAN
    }

    /** The limit is compared with the true number of bytes as long as that does not wrap. */
    static lemma LimitIsExact(frames: u64, channels: nat, limit: u64)
      requires frames * channels * 4 < 0x1_0000_0000_0000_0000
      ensures AudioBytes(frames, channels) > limit <==> frames * channels * 4 > limit
    {
    }

    /** Beyond, any number of bytes may pass: 2^60 frames on four channels count as none. */
    static lemma LimitWraps(limit: u64)
      ensures !(AudioBytes(0x1000_0000_0000_0000, 4) > limit)
    {
    }

    /** The audio would exceed the configured limit; the byte count is a wrapping u64 product. */
    predicate OverLimit(samples: seq<Sample>)
      reads this
      requires |manifest.channels| > 0
    {
      var frames := manifest.framesWritten + |samples| / |manifest.channels|;
      maxAudioBytes.Some? && AudioBytes(frames, |manifest.channels|) > maxAudioBytes.value
    }

    /** From a to b `frames` more frames were written and committed, and nothing else of the take changed. */
    static predicate Advanced(a: Manifest, b: Manifest, frames: nat) {
      && b.framesWritten == b.framesCommitted == a.framesWritten + frames
      && b == a.(framesWritten := b.framesWritten, framesCommitted := b.framesCommitted)
    }

    /** The end of write_interleaved: count the frames, journal them, commit them. */
    method Count(frames: nat) returns (ok: bool)
      requires Shaped() && PartsPresent()
      requires PartsReach(store.disk, |manifest.channels|, manifest.framesWritten + frames)
      requires !store.failed ==>
        && Logged() && Tracks(|store.submitted|, 0) && |store.submitted| == manifest.framesWritten + frames
        && Frontier(store.kinds) <= manifest.framesWritten
        && store.disk.visible.Some? && store.disk.settled.Some?
      modifies this, journal, store
      ensures Shaped() && PartsPresent() && (!store.failed ==> Level())
      ensures store.failed == (old(store.failed) || !ok)
      ensures store.Observed()
      ensures Advanced(old(manifest), manifest, frames)
              || manifest == old(manifest).(framesWritten := manifest.framesWritten)
      ensures manifest.framesWritten == old(manifest).framesWritten + frames
      ensures ok ==> Advanced(old(manifest), manifest, frames)
      ensures ok ==>
        var n := manifest.framesWritten; store.kinds == old(store.kinds) + [FramesWritten(n), FramesCommitted(n)]
      ensures ok ==> store.disk.visible == store.disk.settled == Some(Copy(manifest, true))
      ensures store.Extended()
    {
      hide Log, Later, Safe, Secured, Bounded, Tracked, Frontier;
      NoWrap(manifest.framesWritten + frames);
      manifest := manifest.(framesWritten := (manifest.framesWritten + frames) % U64_SPAN);
      ok := RecordWritten();
      if ok {
        ok := Commit();
      }
    }

    /** A handed-in buffer comes to be on every channel, journaled and committed. */
    method Land(samples: seq<Sample>) returns (ok: bool)
      requires Shaped() && PartsPresent() && |samples| % |manifest.channels| == 0
      requires !store.failed ==>
        && Handed(samples) && Tracks(manifest.framesWritten, 0)
        && |store.submitted| == manifest.framesWritten + |samples| / |manifest.channels|
        && Frontier(store.kinds) <= manifest.framesWritten
        && store.disk.visible.Some? && store.disk.settled.Some?
      modifies this, journal, store
      ensures Shaped() && PartsPresent() && (!store.failed ==> Level())
      ensures store.failed == (old(store.failed) || !ok) && store.Observed()
      ensures var n := manifest.framesWritten;
        || manifest == old(manifest) || manifest == old(manifest).(framesWritten := n)
        || Advanced(old(manifest), manifest, |samples| / |old(manifest).channels|)
      ensures old(manifest).framesWritten <= manifest.framesWritten
      ensures ok ==> Advanced(old(manifest), manifest, |samples| / |old(manifest).channels|)
      ensures ok ==> manifest.framesWritten == old(manifest).framesWritten + |samples| / |old(manifest).channels|
      ensures ok ==>
        var n := manifest.framesWritten; store.kinds == old(store.kinds) + [FramesWritten(n), FramesCommitted(n)]
      ensures ok ==> store.disk.visible == store.disk.settled == Some(Copy(manifest, true))
      ensures store.Extended()
    {
      hide Shaped, Log, Later, Safe, Secured, Bounded, Tracked, Frontier, PartsReach, Frames;
      SomeChannels();
      FrameCount(samples, |manifest.channels|);
      ok := WriteParts(samples);
      if ok {
        ok := Count(|samples| / |manifest.channels|);
      }
    }

    /** The writing part of write_interleaved, once the buffer has been accepted. */
    method Write(samples: seq<Sample>) returns (ok: bool)
      requires Valid() && |samples| % |manifest.channels| == 0
      modifies this, journal, store
      ensures Kept() && manifest.state == old(manifest.state) && manifest.markers == old(manifest.markers)
      ensures store.failed == (old(store.failed) || !ok)
      ensures ok ==> store.submitted == old(store.submitted) + Frames(samples, |manifest.channels|)
      ensures ok ==> store.acked == old(store.acked) + |samples| / |manifest.channels|
      ensures ok ==> Advanced(old(manifest), manifest, |samples| / |manifest.channels|)
      ensures ok ==>
        var n := manifest.framesWritten; store.kinds == old(store.kinds) + [FramesWritten(n), FramesCommitted(n)]
      ensures ok ==> manifest.framesWritten == old(manifest).framesWritten + |samples| / |manifest.channels|
    {
      hide Shaped, Logged, Log, Frames, Tracked, Frontier, MarkersInOrder, PartsReach;
      SomeChannels();
      ghost var before := manifest;
      FrameCount(samples, |manifest.channels|);
      Submit(Frames(samples, |manifest.channels|));
      ok := Land(samples);
      MarkersKept(before, manifest);
      if ok {
        Acknowledge(|samples| / |manifest.channels|);
      }
    }

    /** write_interleaved. */
    method WriteInterleaved(samples: seq<Sample>) returns (r: Result<nat, RecorderError>)
      requires Valid()
      modifies this, journal, store
      ensures Kept() && manifest.state == old(manifest.state) && manifest.markers == old(manifest.markers)
      ensures r == Err(InvalidState(Recording)) <==> old(manifest.state) != Recording
      ensures r == Err(PartialFrame(|samples|, |manifest.channels|))
              <==> old(manifest.state) == Recording && |samples| % |manifest.channels| != 0
      ensures r.Err? && (r.error.InvalidState? || r.error.PartialFrame?) ==> Untouched()
      ensures r.Err? ==>
        || r.error == InvalidState(Recording) || r.error == PartialFrame(|samples|, |manifest.channels|)
        || r.error.DiskFull? || (r.error == Io && store.failed)
      ensures r.Err? && r.error.DiskFull? ==>
        && old(OverLimit(samples)) && r.error.limit == maxAudioBytes.value && store.failed == old(store.failed)
        && store.submitted == old(store.submitted) && store.acked == old(store.acked)
        && store.kinds == old(store.kinds) + [Kind.DiskCritical(0)]
        && var full := Incident(IncidentKind.DiskCritical, manifest.framesWritten, None);
           manifest == old(manifest).(incidents := old(manifest).incidents + [full])
      ensures r.Ok? ==> !old(OverLimit(samples)) && r.value == |samples| / |manifest.channels|
      ensures r.Ok? ==> store.failed == old(store.failed)
      ensures r.Ok? ==> store.submitted == old(store.submitted) + Frames(samples, |manifest.channels|)
      ensures r.Ok? ==> store.acked == old(store.acked) + r.value && Advanced(old(manifest), manifest, r.value)
      ensures r.Ok? ==>
        var n := manifest.framesWritten; store.kinds == old(store.kinds) + [FramesWritten(n), FramesCommitted(n)]
      ensures r.Ok? ==> manifest.framesWritten == old(manifest).framesWritten + r.value
    {
      hide Log, Later, Safe, Secured, Bounded, Frames, Tracked, Frontier, AudioBytes, Advanced;
      hide MarkersInOrder, Level, PartsReach;
      if manifest.state != Recording {
        return Err(InvalidState(Recording));
      }
      var channels := |manifest.channels|;
      if |samples| % channels != 0 {
        return Err(PartialFrame(|samples|, channels));
      }
      var frames := |samples| / channels;
      if maxAudioBytes.Some? && AudioBytes(manifest.framesWritten + frames, channels) > maxAudioBytes.value {
        var ok := RecordIncident(IncidentKind.DiskCritical, None);
        if !ok {
          return Err(Io);
        }
        return Err(DiskFull(maxAudioBytes.value));
      }
      var ok := Write(samples);
      if !ok {
        return Err(Io);
      }
      return Ok(frames);
    }

    /** Files never outgrow the largest offset, so frame counts never wrap once written. */
    lemma NoWrap(frames: nat)
      requires Shaped() && PartsReach(store.disk, |manifest.channels|, frames)
      ensures frames < U64_SPAN && frames % U64_SPAN == frames
    {
      assert Part(0) in store.disk.files;
    }

    /** The journal record of an incident at frame `frame`. */
    static function IncidentRecord(kind: IncidentKind, frame: u64, missing: Option<u64>): Kind {
      match kind
      case BackendXrun => XrunObserved(frame)
      case QueueOverflow => Kind.QueueOverflow(frame, missing)
      case TimestampDiscontinuity => Kind.TimestampDiscontinuity(frame, missing)
      case UnknownDiscontinuity => Kind.TimestampDiscontinuity(frame, missing)
      case GapInserted => Kind.GapInserted(frame, if missing.Some? then missing.value else 0)
      case InputDeviceLost => Kind.InputDeviceLost(frame)
      case MonitorDeviceLost => Kind.MonitorDeviceLost(frame)
      case DiskWarning => Kind.DiskWarning(0)
      case DiskCritical => Kind.DiskCritical(0)
      case WriterFailure => Kind.DiskCritical(0)
    }

    /** record_incident. */
    method RecordIncident(kind: IncidentKind, missing: Option<u64>) returns (ok: bool)
      requires Valid()
      modifies this, journal, store
      ensures Kept() && store.Observed()
      ensures store.failed == (old(store.failed) || !ok)
      ensures manifest == old(manifest).(incidents := manifest.incidents)
      ensures ok ==> manifest.incidents == old(manifest).incidents + [Incident(kind, manifest.framesWritten, missing)]
      ensures ok ==> store.kinds == old(store.kinds) + [IncidentRecord(kind, manifest.framesWritten, missing)]
    {
      hide Log, Later, Safe, Secured, Bounded, Tracked, Frontier;
      var record := IncidentRecord(kind, manifest.framesWritten, missing);
      ShortWithoutText(record);
      FitsIfShort(record);
      ok := RecordEvent(record);
      if ok {
        manifest := manifest.(incidents := manifest.incidents + [Incident(kind, manifest.framesWritten, missing)]);
        ok := Persist();
      }
    }

    /** A journal record between two calls. */
    method JournalEvent(kind: Kind) returns (ok: bool)
      requires Valid() && !kind.FramesCommitted? && Fits(kind)
      modifies journal, store
      ensures Valid() && store.Observed()
      ensures store.failed == (old(store.failed) || !ok)
      ensures ok ==> store.kinds == old(store.kinds) + [kind]
      ensures store.Extended()
    {
      hide Log, Later, Safe, Secured, Bounded, Tracked, Frontier, Fits, MarkersInOrder;
      ok := RecordEvent(kind);
      store.Note(true);
    }

    /** The two records of a gap. */
    method RecordGap(start: u64, frames: u64) returns (ok: bool)
      requires Valid()
      modifies this, journal, store
      ensures Kept() && store.Observed()
      ensures store.failed == (old(store.failed) || !ok)
      ensures manifest == old(manifest).(incidents := manifest.incidents)
      ensures ok ==>
        var gap := Incident(IncidentKind.GapInserted, manifest.framesWritten, Some(frames));
        manifest.incidents == old(manifest).incidents + [gap]
      ensures ok ==>
        store.kinds == old(store.kinds)
                       + [Kind.GapInserted(start, frames), Kind.GapInserted(manifest.framesWritten, frames)]
    {
      hide Valid, Fits, MarkersInOrder;
      var kind := Kind.GapInserted(start, frames);
      ShortWithoutText(kind);
      FitsIfShort(kind);
      ok := JournalEvent(kind);
      if ok {
        ok := RecordIncident(IncidentKind.GapInserted, Some(frames));
      }
    }

    /** The write of the silence. */
    method WriteSilence(frames: u64) returns (r: Result<nat, RecorderError>)
      requires Valid()
      modifies this, journal, store
      ensures Kept() && manifest.state == old(manifest.state) && manifest.markers == old(manifest.markers)
      ensures r == Err(InvalidState(Recording)) <==> old(manifest.state) != Recording
      ensures r == Err(PartialGap(frames, |manifest.channels|))
              <==> old(manifest.state) == Recording && !WholeGap(frames, |manifest.channels|)
      ensures old(manifest.state) != Recording || !WholeGap(frames, |manifest.channels|) ==> Untouched()
      ensures r.Err? ==>
        || r.error == InvalidState(Recording) || r.error == PartialGap(frames, |manifest.channels|)
        || r.error.DiskFull? || (r.error == Io && store.failed)
      ensures r.Err? && r.error.DiskFull? ==> maxAudioBytes.Some?
      ensures r.Ok? ==> WholeGap(frames, |manifest.channels|) && store.failed == old(store.failed)
      ensures r.Ok? ==>
        var length := GapFrames(frames, |manifest.channels|);
        && store.submitted == old(store.submitted) + Silence(length, |manifest.channels|)
        && store.acked == old(store.acked) + length && Advanced(old(manifest), manifest, length)
        && var n := manifest.framesWritten; store.kinds == old(store.kinds) + [FramesWritten(n), FramesCommitted(n)]
    {
      var channels := ChannelCount();
      hide Valid, Fits, MarkersInOrder, Advanced, Frames, AudioBytes, ContinuesTake;
      var silence := seq(GapSamples(frames, channels), _ => SILENCE);
      if WholeGap(frames, channels) {
        WholeFrames(GapSamples(frames, channels), channels);
        FramesOfSilence(GapFrames(frames, channels), channels);
      }
      r := WriteInterleaved(silence);
    }

    /** insert_gap: silence, whose length is the given one unless the number of samples wraps, then the gap
        journaled twice, as a record of where it starts and as an incident at its end. */
    method InsertGap(frames: u64) returns (r: Result<(), RecorderError>)
      requires Valid()
      modifies this, journal, store
      ensures Kept() && manifest.state == old(manifest.state) && manifest.markers == old(manifest.markers)
      ensures r == Err(InvalidState(Recording)) <==> old(manifest.state) != Recording
      ensures r == Err(PartialGap(frames, |manifest.channels|))
              <==> old(manifest.state) == Recording && !WholeGap(frames, |manifest.channels|)
      ensures old(manifest.state) != Recording || !WholeGap(frames, |manifest.channels|) ==> Untouched()
      ensures r.Err? ==>
        || r.error == InvalidState(Recording) || r.error == PartialGap(frames, |manifest.channels|)
        || r.error.DiskFull? || (r.error == Io && store.failed)
      ensures r.Err? && r.error.DiskFull? ==> maxAudioBytes.Some?
      ensures r.Ok? ==> WholeGap(frames, |manifest.channels|) && store.failed == old(store.failed)
      ensures r.Ok? ==>
        var length, n := GapFrames(frames, |manifest.channels|), manifest.framesWritten;
        var gap := Incident(IncidentKind.GapInserted, n, Some(frames));
        && store.submitted == old(store.submitted) + Silence(length, |manifest.channels|)
        && store.acked == old(store.acked) + length
        && store.kinds == old(store.kinds) + [FramesWritten(n), FramesCommitted(n)]
                          + [Kind.GapInserted(old(manifest.framesWritten), frames), Kind.GapInserted(n, frames)]
        && n == manifest.framesCommitted == old(manifest).framesWritten + length
        && manifest == old(manifest).(framesWritten := n, framesCommitted := n,
                                      incidents := old(manifest).incidents + [gap])
    {
      hide Valid, Fits, MarkersInOrder, Silence, ContinuesTake, WholeGap, GapFrames, GapSamples;
      ghost var before := manifest;
      var start := manifest.framesWritten;
      var written := WriteSilence(frames);
      if written.Err? {
        return Err(written.error);
      }
      ghost var between := manifest;
      var ok := RecordGap(start, frames);
      ContinuesTakeTransitive(before, between, manifest);
      return if ok then Ok(()) else Err(Io);
    }

    lemma SomeChannels()
      requires Shaped()
      ensures |manifest.channels| > 0
    {
    }

    lemma InOrder()
      requires Valid()
      ensures MarkersInOrder(manifest)
    {
    }

    function ChannelCount(): (n: nat)
      requires Valid()
      reads this, store, journal
      ensures n == |manifest.channels| > 0
    {
      |manifest.channels|
    }

    /** A state change with its journal record, as pause and resume make it: the manifest in memory moves
        first, whatever becomes of the writes. */
    method Move(to: RecorderState, kind: Kind) returns (r: Result<(), RecorderError>)
      requires Valid() && !kind.FramesCommitted? && Fits(kind)
      modifies this, journal, store
      ensures Kept() && store.Observed()
      ensures !Allowed(old(manifest.state), to) ==>
                Untouched() && r == Err(InvalidTransition(StateError(old(manifest.state), to)))
      ensures Allowed(old(manifest.state), to) ==> manifest == old(manifest).(state := to)
      ensures r.Err? && Allowed(old(manifest.state), to) ==> r.error == Io && store.failed
      ensures r.Ok? ==> Allowed(old(manifest.state), to) && store.failed == old(store.failed)
      ensures r.Ok? ==> store.kinds == old(store.kinds) + [kind]
    {
      hide Log, Later, Safe, Secured, Bounded, Tracked, Frontier, Fits;
      var next := Transition(manifest.state, to);
      if next.Err? {
        return Err(InvalidTransition(next.error));
      }
      manifest := manifest.(state := next.value);
      var ok := RecordEvent(kind);
      if ok {
        ok := Persist();
      }
      return if ok then Ok(()) else Err(Io);
    }

    /** pause. */
    method Pause() returns (r: Result<(), RecorderError>)
      requires Valid()
      modifies this, journal, store
      ensures Kept() && store.Observed()
      ensures !Allowed(old(manifest.state), Paused) ==>
                Untouched() && r == Err(InvalidTransition(StateError(old(manifest.state), Paused)))
      ensures Allowed(old(manifest.state), Paused) ==> manifest == old(manifest).(state := Paused)
      ensures r.Err? && Allowed(old(manifest.state), Paused) ==> r.error == Io && store.failed
      ensures r.Ok? ==> Allowed(old(manifest.state), Paused) && store.failed == old(store.failed)
      ensures r.Ok? ==> store.kinds == old(store.kinds) + [PauseStarted(manifest.framesWritten)]
    {
      var kind := PauseStarted(manifest.framesWritten);
      ShortWithoutText(kind);
      FitsIfShort(kind);
      r := Move(Paused, kind);
    }

    /** resume. */
    method Resume() returns (r: Result<(), RecorderError>)
      requires Valid()
      modifies this, journal, store
      ensures Kept() && store.Observed()
      ensures !Allowed(old(manifest.state), Recording) ==>
                Untouched() && r == Err(InvalidTransition(StateError(old(manifest.state), Recording)))
      ensures Allowed(old(manifest.state), Recording) ==> manifest == old(manifest).(state := Recording)
      ensures r.Err? && Allowed(old(manifest.state), Recording) ==> r.error == Io && store.failed
      ensures r.Ok? ==> Allowed(old(manifest.state), Recording) && store.failed == old(store.failed)
      ensures r.Ok? ==> store.kinds == old(store.kinds) + [PauseEnded(manifest.framesWritten)]
    {
      var kind := PauseEnded(manifest.framesWritten);
      ShortWithoutText(kind);
      FitsIfShort(kind);
      r := Move(Recording, kind);
    }

    /** The marker that answers a request, if there is one. */
    function FindMarker(requestId: Uuid): (found: Option<Marker>)
      reads this
      ensures found.Some? ==> found.value in manifest.markers && found.value.requestId == requestId
      ensures found.None? ==> forall i :: 0 <= i < |manifest.markers| ==> manifest.markers[i].requestId != requestId
    {
      FirstMarker(manifest.markers, requestId)
    }

    static function FirstMarker(markers: seq<Marker>, requestId: Uuid): (found: Option<Marker>)
      ensures found.Some? ==> found.value in markers && found.value.requestId == requestId
      ensures found.None? ==> forall i :: 0 <= i < |markers| ==> markers[i].requestId != requestId
    {
      if markers == [] then None
      else if markers[0].requestId == requestId then Some(markers[0])
      else FirstMarker(markers[1..], requestId)
    }

    /** add_marker: a request is answered by the marker it already has, or by one new marker. */
    method AddMarker(requestId: Uuid, note: Text, id: Uuid) returns (r: Result<Marker, RecorderError>)
      requires Valid()
      modifies this, journal, store
      ensures Kept() && manifest.state == old(manifest.state) && manifest.framesWritten == old(manifest.framesWritten)
      ensures store.Observed()
      ensures old(FindMarker(requestId)).Some? ==> r == Ok(old(FindMarker(requestId)).value) && Untouched()
      ensures manifest.markers == old(manifest.markers)
              || manifest.markers == old(manifest.markers) + [Marker(id, requestId, manifest.framesWritten, note)]
      ensures r.Ok? ==>
                r.value in manifest.markers && r.value.requestId == requestId && store.failed == old(store.failed)
      ensures r.Ok? && old(FindMarker(requestId)).None? ==>
                store.kinds == old(store.kinds) + [MarkerAdded(id, manifest.framesWritten, note)]
      ensures r.Ok? && old(FindMarker(requestId)).None? ==>
        var marker := Marker(id, requestId, manifest.framesWritten, note);
        manifest == old(manifest).(markers := old(manifest.markers) + [marker])
      ensures r == Err(NoteTooLarge) ==> Untouched() && !Fits(MarkerAdded(id, manifest.framesWritten, note))
      ensures r.Err? ==> r.error == NoteTooLarge || (r.error == Io && store.failed)
      ensures manifest == old(manifest).(markers := manifest.markers)
    {
      hide Log, Later, Safe, Secured, Bounded, Tracked, Frontier, Fits, Store.Steady;
      var found := FindMarker(requestId);
      if found.Some? {
        return Ok(found.value);
      }
      var marker := Marker(id, requestId, manifest.framesWritten, note);
      var kind := MarkerAdded(id, marker.frame, note);
      if |Encode(kind)| > MAX_RECORD_SIZE {
        TooLongToFit(kind);
        var refused := Record(kind, true);
        return Err(NoteTooLarge);
      }
      ShortEnoughToFit(kind);
      var ok := RecordEvent(kind);
      if ok {
        MarkerAppended(manifest, marker);
        manifest := manifest.(markers := manifest.markers + [marker]);
        ok := Persist();
      }
      return if ok then Ok(marker) else Err(Io);
    }

    // ---- finalization ----

    ghost predicate Publishing(upTo: nat)
      reads this, store
    {
      PublishedUpTo(store.disk, store.submitted, LayoutOf(manifest, device), upTo)
    }

    /** The part files that have not been published yet are still there. */
    ghost predicate Remaining(from: nat)
      reads this, store
    {
      forall c :: from <= c < |manifest.channels| ==>
        Part(c) in store.disk.files && |store.disk.files[Part(c)].current| >= AUDIO_OFFSET
    }

    /** A state with as many frames acknowledged has been noted in which the first part file had been renamed
        and another one had not. */
    ghost predicate HalfPublished()
      reads this, store
    {
      exists m <- store.history ::
        && m.acked == store.acked && m.submitted == store.submitted
        && Part(0) !in m.disk.files && Part(1) in m.disk.files
    }

    twostate lemma StillHalfPublished()
      requires store.Observed() && store.Extended()
      ensures old(HalfPublished()) ==> HalfPublished()
    {
      if old(HalfPublished()) {
        var m: Moment :| m in old(store.history) && m.acked == old(store.acked)
          && m.submitted == old(store.submitted) && Part(0) !in m.disk.files && Part(1) in m.disk.files;
        assert m in store.history;
      }
    }

    /** finalize_rf64 on one part file. */
    method FillSizes(c: nat) returns (ok: bool)
      requires Shaped() && c < |manifest.channels| && Remaining(c) && (!store.failed ==> Logged())
      modifies store
      ensures Shaped() && (!store.failed ==> Logged())
      ensures store.Now() == old(store.Now()).(disk := store.disk) && store.failed == (old(store.failed) || !ok)
      ensures SameBut(old(store.disk), Part(c), store.disk)
      ensures |store.disk.files[Part(c)].current| == |old(store.disk).files[Part(c)].current|
      ensures ok ==>
        store.disk.files[Part(c)].current == Finalized(old(store.disk).files[Part(c)].current, manifest.framesCommitted)
      ensures store.Extended()
    {
      hide Log, Later, Safe, Secured, Bounded, Sizes;
      ghost var base := store.Now();
      var sizes := FinalSizes(manifest.framesCommitted);
      ghost var wrote: nat;
      ok, wrote := store.Overwrite(Part(c), SIZES_OFFSET, sizes);
      assert ok ==> sizes[..wrote] == sizes;
      PatchKeepsSecured(manifest.sessionId, |manifest.channels|, base.secured, base.submitted, base.disk,
                        c, SIZES_OFFSET, sizes[..wrote]);
      if !old(store.failed) {
        PatchKeepsSafe(manifest.sessionId, |manifest.channels|, base, c, SIZES_OFFSET, sizes[..wrote]);
      }
    }

    /** The part of that loop before the rename: sizes, sync, validation. */
    method FinishPart(c: nat) returns (r: Result<(), RecorderError>)
      requires Shaped() && c < |manifest.channels| && Remaining(c)
      requires !store.failed ==> Logged() && |store.submitted| == manifest.framesCommitted && Publishing(c)
      modifies store
      ensures Shaped() && Remaining(c) && (!store.failed ==> Logged())
      ensures store.Now() == old(store.Now()).(disk := store.disk) && SameBut(old(store.disk), Part(c), store.disk)
      ensures r.Ok? ==> store.failed == old(store.failed)
      ensures r.Ok? && !store.failed ==>
        var finished := FinishedPart(LayoutOf(manifest, device), store.submitted, c);
        store.disk.files[Part(c)] == FileState(finished, finished)
      ensures r.Err? ==> store.failed && (r.error != Io ==> r.error.Invalid? && old(store.failed))
      ensures store.Extended()
    {
      hide Log, Later, Safe, Secured, Finished, Finalized, Validate, PartContent;
      ghost var layout := LayoutOf(manifest, device);
      ghost var content := store.disk.files[Part(c)].current;
      assert !store.failed ==> content == PartContent(layout, store.submitted, c);
      var ok := FillSizes(c);
      if !ok {
        return Err(Io);
      }
      ghost var base := store.Now();
      ok := store.Sync(Part(c));
      FlushKeepsSecured(manifest.sessionId, |manifest.channels|, base.secured, base.submitted, base.disk, c);
      if !old(store.failed) {
        FlushKeepsSafe(manifest.sessionId, |manifest.channels|, base, c);
        assert |content| <= MAX_FILE;
        FilledIsFinished(layout, store.submitted, c);
      }
      if !ok {
        return Err(Io);
      }
      var valid := Validate(store.disk.files[Part(c)].current, manifest.sampleRate, manifest.framesCommitted);
      return if valid.Ok? then Ok(()) else Err(Invalid(valid.error));
    }

    /** The rename of a finished part file. */
    method RenamePart(c: nat) returns (ok: bool)
      requires Shaped() && c < |manifest.channels| && Part(c) in store.disk.files && (!store.failed ==> Logged())
      modifies store
      ensures Shaped() && (!store.failed ==> Logged() && Latest())
      ensures store.Now() == old(store.Now()).(disk := store.disk)
      ensures store.disk == if ok then Moved(old(store.disk), Part(c), Final(c)) else old(store.disk)
      ensures store.failed == (old(store.failed) || !ok)
      ensures store.Extended()
    {
      hide Log, Later, Safe, Secured, Store.Steady;
      ghost var base := store.Now();
      ok := store.Rename(Part(c), Final(c));
      MoveKeepsSecured(manifest.sessionId, |manifest.channels|, base.secured, base.submitted, base.disk, c, c);
      if !old(store.failed) {
        MoveKeepsSafe(manifest.sessionId, |manifest.channels|, base, c, c);
      }
    }

    /** One round of the loop of finalize: sizes, sync, validation, publication. */
    method PublishPart(c: nat) returns (r: Result<(), RecorderError>)
      requires Shaped() && c < |manifest.channels| && Remaining(c)
      requires !store.failed ==> Logged() && |store.submitted| == manifest.framesCommitted && Publishing(c)
      modifies store
      ensures Shaped() && Remaining(c + 1) && (!store.failed ==> Logged())
      ensures store.Now() == old(store.Now()).(disk := store.disk)
      ensures store.disk == old(store.disk).(files := store.disk.files)
      ensures r.Ok? ==> store.failed == old(store.failed)
      ensures r.Ok? && !store.failed ==> Publishing(c + 1) && Latest() && Part(c) !in store.disk.files
      ensures r.Err? ==> store.failed && (r.error != Io ==> r.error.Invalid? && old(store.failed))
      ensures store.Extended()
    {
      hide Shaped, Logged, Log, PublishedUpTo, FinishedPart;
      ghost var before := store.disk;
      r := FinishPart(c);
      if r.Err? {
        return;
      }
      ghost var base := store.disk;
      var ok := RenamePart(c);
      if ok && !store.failed {
        PublishedOneMore(before, base, store.disk, store.submitted, LayoutOf(manifest, device), c);
      }
      r := if ok then Ok(()) else Err(Io);
    }

    /** The loop of finalize over the channel files. */
    method PublishAll() returns (r: Result<seq<Channel>, RecorderError>)
      requires Shaped() && Remaining(0)
      requires !store.failed ==> Logged() && |store.submitted| == manifest.framesCommitted && Publishing(0)
      modifies store
      ensures Shaped() && (!store.failed ==> Logged())
      ensures store.Now() == old(store.Now()).(disk := store.disk)
      ensures r.Ok? ==> store.failed == old(store.failed)
      ensures r.Ok? ==> r.value == AllPublished(manifest.channels)
      ensures r.Ok? && !store.failed ==> Publishing(|manifest.channels|)
      ensures r.Ok? && !store.failed && |manifest.channels| > 1 ==> HalfPublished()
      ensures r.Err? ==> store.failed && (r.error != Io ==> r.error.Invalid? && old(store.failed))
      ensures store.Extended()
    {
      hide Log, Later, Safe, Secured, PublishedUpTo;
      var channels: seq<Channel> := [];
      var c := 0;
      while c < |manifest.channels|
        invariant 0 <= c == |channels| <= |manifest.channels|
        invariant Shaped() && Remaining(c)
        invariant !store.failed ==> Logged() && |store.submitted| == manifest.framesCommitted && Publishing(c)
        invariant store.Now() == old(store.Now()).(disk := store.disk) && store.failed == old(store.failed)
        invariant store.Extended()
        invariant forall i :: 0 <= i < c ==> channels[i] == manifest.channels[i].(published := true)
        invariant !store.failed && |manifest.channels| > 1 && c > 0 ==> HalfPublished()
      {
        label before:
        var step := PublishPart(c);
        if step.Err? {
          return Err(step.error);
        }
        StillHalfPublished@before();
        channels := channels + [manifest.channels[c].(published := true)];
        c := c + 1;
      }
      return Ok(channels);
    }

    /** The end of the recording proper: StopRequested, a last commit, SegmentStopped. */
    method RecordStop() returns (ok: bool)
      requires Shaped() && PartsPresent() && (!store.failed ==> Level())
      modifies this, journal, store
      ensures Shaped() && PartsPresent() && (!store.failed ==> Level())
      ensures store.failed == (old(store.failed) || !ok) && store.Observed()
      ensures manifest == old(manifest) || manifest == old(manifest).(framesCommitted := old(manifest).framesWritten)
      ensures ok ==> manifest == old(manifest).(framesCommitted := old(manifest).framesWritten)
      ensures ok ==>
        var n := manifest.framesWritten;
        store.kinds == old(store.kinds) + [StopRequested, FramesCommitted(n), SegmentStopped(n)]
      ensures store.Extended()
    {
      hide Log, Later, Safe, Secured, Bounded, Tracked, Frontier, Fits, PartsReach;
      ShortWithoutText(StopRequested);
      FitsIfShort(StopRequested);
      ok := RecordEvent(StopRequested);
      if ok {
        ok := Commit();
      }
      if ok {
        var stopped := SegmentStopped(manifest.framesCommitted);
        ShortWithoutText(stopped);
        FitsIfShort(stopped);
        ok := RecordEvent(stopped);
      }
    }

    /** The beginning of finalize: everything up to the publication loop. */
    method StopRecording() returns (ok: bool)
      requires Valid() && Allowed(manifest.state, Stopping)
      modifies this, journal, store
      ensures Shaped() && PartsPresent() && (!store.failed ==> Level())
      ensures store.failed == (old(store.failed) || !ok) && store.Observed()
      ensures ok ==> manifest == old(manifest).(state := Finalizing, framesCommitted := manifest.framesWritten)
      ensures ok ==>
        var n := manifest.framesWritten;
        store.kinds == old(store.kinds) + [StopRequested, FramesCommitted(n), SegmentStopped(n), FinalizationStarted]
      ensures store.Extended()
    {
      hide Log, Later, Safe, Secured, Bounded, Tracked, Frontier, Fits, MarkersInOrder, PartsReach;
      manifest := manifest.(state := Stopping);
      ok := RecordStop();
      if ok {
        manifest := manifest.(state := Finalizing);
        ShortWithoutText(FinalizationStarted);
        FitsIfShort(FinalizationStarted);
        ok := RecordEvent(FinalizationStarted);
      }
    }

    /** The record of the completion. */
    method JournalCompletion() returns (ok: bool)
      requires Shaped()
      requires !store.failed ==> Logged() && manifest.framesCommitted <= Frontier(store.kinds)
      modifies journal, store
      ensures Shaped()
      ensures ok && !store.failed ==> Logged() && manifest.framesCommitted <= Frontier(store.kinds[..store.durable])
      ensures store.failed == (old(store.failed) || !ok) && store.Observed()
      ensures ok ==> store.kinds == old(store.kinds) + [FinalizationCompleted]
      ensures SameBut(old(store.disk), JournalFile, store.disk)
      ensures store.Extended()
    {
      hide Log, Later, Safe, Secured, Bounded, Frontier, Fits, SameBut;
      ShortWithoutText(FinalizationCompleted);
      FitsIfShort(FinalizationCompleted);
      FrontierSnoc(store.kinds, FinalizationCompleted);
      var r := Record(FinalizationCompleted, true);
      assert r.Ok? || r.error == Journal.TooLarge || r.error == Journal.Failed;
      ok := r.Ok?;
      if ok && !store.failed {
        assert store.kinds[..store.durable] == store.kinds;
      }
    }

    /** The end of finalize: record and persist the completion. */
    method RecordCompletion(channels: seq<Channel>) returns (ok: bool)
      requires Shaped() && |channels| == |manifest.channels| && manifest.state == Finalizing
      requires !store.failed ==> Logged() && manifest.framesCommitted <= Frontier(store.kinds)
      modifies this, journal, store
      ensures Shaped()
      ensures manifest == old(manifest).(channels := channels, state := Completed, status := SessionStatus.Complete)
      ensures store.failed == (old(store.failed) || !ok) && store.Observed()
      ensures ok ==> store.kinds == old(store.kinds) + [FinalizationCompleted]
      ensures SameBut(old(store.disk), JournalFile, store.disk.(visible := old(store.disk).visible,
                      settled := old(store.disk).settled, temporary := old(store.disk).temporary))
      ensures ok ==> store.disk.visible == store.disk.settled == Some(Copy(manifest, true))
      ensures ok && !store.failed ==> Latest()
      ensures store.Extended()
    {
      hide Log, Later, Safe, Secured, Bounded, Frontier;
      manifest := manifest.(channels := channels, state := Completed, status := SessionStatus.Complete);
      ok := JournalCompletion();
      if ok {
        ok := PersistManifest();
      }
      if ok {
        ok := store.WriteUnread();
      }
    }

    /** finalize. A take whose writes never failed always passes validation. */
    method Finalize() returns (r: Result<Manifest, RecorderError>)
      requires Valid()
      modifies this, journal, store
      ensures Shaped() && store.Observed()
      ensures !Allowed(old(manifest.state), Stopping) ==>
                r == Err(InvalidTransition(StateError(old(manifest.state), Stopping))) && Untouched()
      ensures r.Err? && Allowed(old(manifest.state), Stopping) ==>
                store.failed && (r.error != Io ==> r.error.Invalid? && old(store.failed))
      ensures r.Ok? ==>
        && Allowed(old(manifest.state), Stopping) && store.failed == old(store.failed) && r.value == manifest
        && manifest == old(manifest).(state := Completed, status := SessionStatus.Complete,
                                      framesCommitted := old(manifest).framesWritten,
                                      channels := AllPublished(old(manifest).channels))
        && var n := manifest.framesWritten;
           store.kinds == old(store.kinds) + [StopRequested, FramesCommitted(n), SegmentStopped(n), FinalizationStarted]
                          + [FinalizationCompleted]
      ensures r.Ok? && !store.failed ==>
        && |store.submitted| == manifest.framesCommitted
        && PublishedUpTo(store.disk, store.submitted, LayoutOf(old(manifest), device), |manifest.channels|)
        && store.disk.visible == store.disk.settled == Some(Copy(manifest, true)) && Latest()
      ensures r.Ok? && !store.failed && |manifest.channels| > 1 ==> HalfPublished()
      ensures store.Extended()
    {
      hide Shaped, Logged, Log, Frontier, PublishedUpTo, PartContent, HalfPublished;
      ghost var layout := LayoutOf(manifest, device);
      var next := Transition(manifest.state, Stopping);
      if next.Err? {
        return Err(InvalidTransition(next.error));
      }
      var ok := StopRecording();
      if !ok {
        return Err(Io);
      }
      if !store.failed {
        TrackedIsPublishable(store.disk, store.submitted, layout);
      }
      var channels := PublishAll();
      if channels.Err? {
        return Err(channels.error);
      }
      ghost var published := store.disk;
      label published:
      ok := RecordCompletion(channels.value);
      if !ok {
        return Err(Io);
      }
      StillHalfPublished@published();
      if !store.failed {
        PublishedKept(published, store.disk, store.submitted, layout, |layout.channels|);
      }
      return Ok(manifest);
    }
  }

  /** Two kinds of incident that the journal does not distinguish. */
  predicate Merged(a: IncidentKind, b: IncidentKind) {
    || (a.TimestampDiscontinuity? && b.UnknownDiscontinuity?) || (a.UnknownDiscontinuity? && b.TimestampDiscontinuity?)
    || (a.DiskCritical? && b.WriterFailure?) || (a.WriterFailure? && b.DiskCritical?)
  }

  /** The journal tells incidents apart by their kind, except for exactly these two pairs. */
  lemma IncidentsToldApartIff(a: IncidentKind, b: IncidentKind, frame: u64, missing: Option<u64>)
    ensures Code(Recorder.IncidentRecord(a, frame, missing)) != Code(Recorder.IncidentRecord(b, frame, missing))
            <==> a != b && !Merged(a, b)
  {
  }

  datatype Config = Config(sampleRate: u32, titles: seq<seq<byte>>, device: seq<byte>, maxAudioBytes: Option<u64>)

  /** The manifest of a take that has just begun: one unpublished channel for each title, in order, at the rate
      asked for, and nothing recorded, marked or noted yet. */
  predicate Begins(m: Manifest, sampleRate: u32, titles: seq<seq<byte>>, sessionId: Uuid, texts: Texts) {
    && m.sessionId == sessionId && m.texts == texts && m.sampleRate == sampleRate
    && m.state == Recording && m.status == Active && m.framesWritten == m.framesCommitted == 0
    && |m.channels| == |titles| && m.markers == [] && m.incidents == []
    && forall c :: 0 <= c < |titles| ==> m.channels[c].title == titles[c] && !m.channels[c].published
  }

  function NewManifest(config: Config, sessionId: Uuid, texts: Texts): Manifest {
    Manifest(sessionId, texts, config.sampleRate, Armed, Active, 0, 0,
             seq(|config.titles|, i requires 0 <= i < |config.titles| => Channel(config.titles[i], false)), [], [])
  }

  /** A directory in which `upTo` part files hold their headers and nothing else exists. */
  predicate Prepared(d: Disk, l: Layout, upTo: nat) {
    && d.temporary == d.visible == d.settled == None
    && (forall name <- d.files :: name.Part? && name.channel < upTo)
    && forall c :: 0 <= c < upTo && c < |l.channels| ==>
         Part(c) in d.files && d.files[Part(c)].current == PartContent(l, [], c)
  }

  /** One channel of a new take: an exclusive create and the header. */
  method CreatePart(store: Store, manifest: Manifest, device: seq<byte>, c: nat) returns (ok: bool)
    requires c < |manifest.channels| && !store.failed && Bounded(store.disk) && store.Steady()
    requires store.acked == store.secured == 0 && store.submitted == [] && store.kinds == [] && store.durable == 0
    requires Prepared(store.disk, LayoutOf(manifest, device), c)
    requires forall m <- store.history :: Safe(manifest.sessionId, |manifest.channels|, m)
    requires forall m <- store.trace :: m.secured == 0
    modifies store
    ensures forall m <- store.history :: Safe(manifest.sessionId, |manifest.channels|, m)
    ensures store.Steady() && forall m <- store.trace :: m.secured == 0
    ensures store.acked == store.secured == 0 && store.submitted == [] && store.kinds == [] && store.durable == 0
    ensures ok ==> !store.failed && Bounded(store.disk) && Prepared(store.disk, LayoutOf(manifest, device), c + 1)
  {
    hide PartHeader, Safe, Store.Steady;
    ok := store.Create(Part(c));
    UnjournaledIsSafe(manifest.sessionId, |manifest.channels|, store.Now());
    if ok {
      var header := PartHeader(LayoutOf(manifest, device), c);
      ghost var wrote: nat;
      ok, wrote := store.Append(Part(c), header);
      UnjournaledIsSafe(manifest.sessionId, |manifest.channels|, store.Now());
      assert ok ==> [] + header[..wrote] == header == PartContent(LayoutOf(manifest, device), [], c);
    }
  }

  /** The loop of create over the channels. */
  method CreateParts(store: Store, manifest: Manifest, device: seq<byte>) returns (ok: bool)
    requires store.disk == Disk(map[], None, None, None) && store.history == [] && !store.failed
    requires store.trace == [] && store.Steady()
    requires store.acked == store.secured == 0 && store.submitted == [] && store.kinds == [] && store.durable == 0
    modifies store
    ensures forall m <- store.history :: Safe(manifest.sessionId, |manifest.channels|, m)
    ensures store.Steady() && forall m <- store.trace :: m.secured == 0
    ensures store.acked == store.secured == 0 && store.submitted == [] && store.kinds == [] && store.durable == 0
    ensures ok ==> !store.failed && Bounded(store.disk)
    ensures ok ==> Prepared(store.disk, LayoutOf(manifest, device), |manifest.channels|)
  {
    hide PartContent, Safe, Store.Steady;
    var c := 0;
    while c < |manifest.channels|
      invariant 0 <= c <= |manifest.channels| && !store.failed && Bounded(store.disk)
      invariant store.acked == store.secured == 0 && store.submitted == [] && store.kinds == [] && store.durable == 0
      invariant Prepared(store.disk, LayoutOf(manifest, device), c)
      invariant forall m <- store.history :: Safe(manifest.sessionId, |manifest.channels|, m)
      invariant store.Steady() && forall m <- store.trace :: m.secured == 0
    {
      ok := CreatePart(store, manifest, device, c);
      if !ok {
        return;
      }
      c := c + 1;
    }
    return true;
  }

  /** Recorder::create in a new session directory, with freshly drawn identities. */
  method Create(config: Config, sessionId: Uuid, texts: Texts) returns (r: Result<Recorder, RecorderError>)
    ensures config.titles == [] ==> r == Err(NoChannels)
    ensures config.titles != [] && config.sampleRate == 0 ==> r == Err(InvalidSampleRate)
    ensures config.titles != [] && config.sampleRate != 0 ==> r.Ok? || r == Err(Io)
    ensures r.Ok? ==>
      && fresh(r.value) && fresh(r.value.journal) && fresh(r.value.store)
      && r.value.Valid() && !r.value.store.failed
      && Begins(r.value.manifest, config.sampleRate, config.titles, sessionId, texts)
      && r.value.device == config.device && r.value.maxAudioBytes == config.maxAudioBytes
      && r.value.store.submitted == [] && r.value.store.acked == 0
      && r.value.store.kinds == [SessionCreated, DeviceConfigured, TakeArmed, SegmentStarted]
  {
    hide Recorder.Shaped, Recorder.Logged, Safe, Log, MarkersInOrder, Frontier;
    if config.titles == [] {
      return Err(NoChannels);
    }
    if config.sampleRate == 0 {
      return Err(InvalidSampleRate);
    }
    var furnished := Furnish(config, sessionId, NewManifest(config, sessionId, texts));
    if furnished.None? {
      return Err(Io);
    }
    var ok := furnished.value.Begin();
    return if ok then Ok(furnished.value) else Err(Io);
  }

  /** What create does before the first record: the part files, the Armed manifest, an empty journal. */
  method Furnish(config: Config, sessionId: Uuid, manifest: Manifest) returns (r: Option<Recorder>)
    requires manifest.channels != [] && manifest.sampleRate != 0 && manifest.sessionId == sessionId
    requires manifest.framesWritten == manifest.framesCommitted == 0
    ensures r.Some? ==>
      && fresh(r.value) && fresh(r.value.journal) && fresh(r.value.store)
      && r.value.Shaped() && r.value.PartsPresent() && !r.value.store.failed && r.value.Level()
      && r.value.manifest == manifest
      && r.value.device == config.device && r.value.maxAudioBytes == config.maxAudioBytes
      && r.value.store.submitted == [] && r.value.store.acked == 0 && r.value.store.kinds == []
  {
    hide Safe, PartHeader, MarkersInOrder, Store.Steady;
    var store := new Store();
    var ok := CreateParts(store, manifest, config.device);
    if !ok {
      return None;
    }
    ok := FirstManifest(store, manifest, config.device);
    if !ok {
      return None;
    }
    var journal := Journal.Create(store, sessionId);
    UnjournaledIsSafe(sessionId, |manifest.channels|, store.Now());
    if journal.None? {
      return None;
    }
    var recorder := new Recorder(store, journal.value, config.device, config.maxAudioBytes, manifest);
    return Some(recorder);
  }

  /** The Armed manifest that create writes before the journal exists. */
  method FirstManifest(store: Store, manifest: Manifest, device: seq<byte>) returns (ok: bool)
    requires !store.failed && Bounded(store.disk)
    requires store.acked == store.secured == 0 && store.submitted == [] && store.kinds == [] && store.durable == 0
    requires Prepared(store.disk, LayoutOf(manifest, device), |manifest.channels|)
    requires manifest.framesCommitted == 0 && manifest.sampleRate != 0
    requires forall m <- store.history :: Safe(manifest.sessionId, |manifest.channels|, m)
    requires store.Steady() && forall m <- store.trace :: m.secured == 0
    modifies store
    ensures store.Now() == old(store.Now()).(disk := store.disk) && store.disk.files == old(store.disk.files)
    ensures forall m <- store.history :: Safe(manifest.sessionId, |manifest.channels|, m)
    ensures store.Steady() && forall m <- store.trace :: m.secured == 0
    ensures ok ==> !store.failed && store.disk.visible == store.disk.settled == Some(Copy(manifest, true))
  {
    hide Store.Steady, Safe;
    ghost var base := store.Now();
    ghost var before := |store.history|;
    ok := ManifestFile.WriteAtomic(store, manifest);
    forall i | before <= i < |store.history|
      ensures Safe(manifest.sessionId, |manifest.channels|, store.history[i])
    {
      UnjournaledIsSafe(manifest.sessionId, |manifest.channels|, store.history[i]);
    }
  }
}
