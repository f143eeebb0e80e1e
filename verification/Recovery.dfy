/** recover_session: what it makes of a directory, for any directory, and what it leaves alone in every
    state it passes through. */
module Recovery {
  import opened Bytes
  import opened Wrappers
  import opened Postcard
  import opened JournalFormat
  import opened JournalLaws
  import opened Rf64
  import opened State
  import opened Session
  import opened Storage
  import opened CrashSafety
  import ManifestFile
  import Journal

  datatype RecoveryError =
    | Io
    | Unreadable
    | MissingJournal
    | MissingPart(channel: nat)
    | NoCommittedFrames
    | OutputExists(channel: nat)
    | Invalid(reason: ValidationError)
    | SessionMismatch

  datatype RecoveryOutcome = RecoveryOutcome(
    sessionId: Uuid,
    recoveredFrames: nat,
    files: seq<Name>,
    status: SessionStatus)

  /** The device text of recovered files. */
  const RECOVERED: seq<byte> := Ascii("recovered")

  // ---- how many frames are safe ----

  /** Complete samples in a part file of the given length. */
  function CompleteSamples(length: nat): nat {
    if length < AUDIO_OFFSET then 0 else (length - AUDIO_OFFSET) / BYTES_PER_SAMPLE
  }

  function Min(a: nat, b: nat): nat {
    if a < b then a else b
  }

  /** The committed frontier intersected with the length of every part file. */
  function SafeFrames(d: Disk, channels: nat, committed: nat): (n: nat)
    requires Unpublished(d, channels)
    ensures n <= committed
  {
    if channels == 0 then committed
    else Min(SafeFrames(d, channels - 1, committed), CompleteSamples(|d.files[Part(channels - 1)].current|))
  }

  /** SafeFrames is the greatest frame count, not above the commits, that every part file holds. */
  lemma {:induction false} SafeFramesIsGreatest(d: Disk, channels: nat, committed: nat, n: nat)
    requires Unpublished(d, channels)
    ensures n == SafeFrames(d, channels, committed) > 0 ==> PartsReach(d, channels, n)
    ensures 0 < n <= committed && PartsReach(d, channels, n) ==> n <= SafeFrames(d, channels, committed)
  {
    if channels > 0 {
      SafeFramesIsGreatest(d, channels - 1, committed, n);
      if n == SafeFrames(d, channels, committed) && n > 0 {
        HoldsFewer(d, channels - 1, committed, n);
      }
    }
  }

  lemma {:induction false} HoldsFewer(d: Disk, channels: nat, committed: nat, n: nat)
    requires Unpublished(d, channels) && 0 < n <= SafeFrames(d, channels, committed)
    ensures PartsReach(d, channels, n)
  {
    if channels > 0 {
      HoldsFewer(d, channels - 1, committed, n);
    }
  }

  // ---- the outcome, as a function of the directory ----

  function FirstMissing(d: Disk, channels: nat): (c: Option<nat>)
    ensures c.None? <==> Unpublished(d, channels)
    ensures c.Some? ==> c.value < channels && Part(c.value) !in d.files
  {
    if channels == 0 then None
    else
      match FirstMissing(d, channels - 1)
      case Some(c) => Some(c)
      case None => if Part(channels - 1) in d.files then None else Some(channels - 1)
  }

  /** What copying the channels from `from` on runs into. */
  function CopyError(d: Disk, m: Manifest, from: nat): (e: Option<RecoveryError>)
    ensures e.Some? ==> e.value.OutputExists? || e.value == Invalid(InvalidSizes)
    decreases |m.channels| - from
  {
    if from >= |m.channels| then None
    else if Output(from) in d.files then Some(OutputExists(from))
    else if m.sampleRate == 0 then Some(Invalid(InvalidSizes))
    else CopyError(d, m, from + 1)
  }

  function Commits(d: Disk): nat {
    if JournalFile in d.files then CommittedIn(ParseValid(d.files[JournalFile].current)) else 0
  }

  /** The frames that recovery returns, or the error it ends with, as long as no primitive fails. */
  function Plan(d: Disk): Result<nat, RecoveryError> {
    match d.visible
    case None => Err(Unreadable)
    case Some(copy) =>
      var m := copy.manifest;
      if JournalFile !in d.files then Err(MissingJournal)
      else if Commits(d) == 0 then Err(NoCommittedFrames)
      else
        match FirstMissing(d, |m.channels|)
        case Some(c) => Err(MissingPart(c))
        case None =>
          var n := SafeFrames(d, |m.channels|, Commits(d));
          if n == 0 then Err(NoCommittedFrames)
          else
            match CopyError(d, m, 0)
            case Some(e) => Err(e)
            case None =>
              if exists record <- ParseValid(d.files[JournalFile].current) :: record.sessionId != m.sessionId
              then Err(SessionMismatch)
              else Ok(n)
  }

  /** The first n samples of a part file. */
  function PartSamples(part: seq<byte>, n: nat): seq<Sample>
    requires |part| >= AUDIO_OFFSET + BYTES_PER_SAMPLE * n
  {
    ReadSamples(part[AUDIO_OFFSET..AUDIO_OFFSET + BYTES_PER_SAMPLE * n])
  }

  lemma {:induction false} ReadThenWrite(b: seq<byte>)
    requires |b| % 4 == 0
    ensures SampleBytes(ReadSamples(b)) == b
    decreases |b|
  {
    if b != [] {
      var init, last := b[..|b| - 4], b[|b| - 4..];
      ReadThenWrite(init);
      var s := Sample(last[0], last[1], last[2], last[3]);
      ReadSamplesAppend(init, s);
      assert b == init + [s.b0, s.b1, s.b2, s.b3];
      assert (ReadSamples(init) + [s])[..|ReadSamples(init)|] == ReadSamples(init);
    }
  }

  /** The recovered file of one channel. */
  function RecoveredFile(m: Manifest, c: nat, part: seq<byte>, n: nat): seq<byte>
    requires c < |m.channels| && |part| >= AUDIO_OFFSET + BYTES_PER_SAMPLE * n
  {
    Finished(m.sampleRate, Stamp(m.texts, m.channels[c].title, RECOVERED), PartSamples(part, n))
  }

  /** In e, the channels before `upTo` have been rebuilt and synced from the parts in d. */
  predicate Rebuilt(d: Disk, e: Disk, m: Manifest, n: nat, upTo: nat)
    requires PartsReach(d, |m.channels|, n)
  {
    forall c :: 0 <= c < upTo && c < |m.channels| ==>
      && Output(c) in e.files
      && var file := RecoveredFile(m, c, d.files[Part(c)].current, n);
         e.files[Output(c)] == FileState(file, file)
  }

  /** Recovery adds outputs, appends to the journal and replaces the manifest; every other file stays. */
  predicate OriginalsKept(d: Disk, e: Disk) {
    forall name <- d.files ::
      && name in e.files
      && (if name == JournalFile then d.files[name].current <= e.files[name].current
          else e.files[name] == d.files[name])
  }

  /** c names a durable manifest of the take that d names. */
  predicate OfTake(c: Option<Copy>, d: Disk) {
    && d.visible.Some? && c.Some? && c.value.synced
    && c.value.manifest.sessionId == d.visible.value.manifest.sessionId
    && c.value.manifest.channels == d.visible.value.manifest.channels
    && c.value.manifest.sampleRate == d.visible.value.manifest.sampleRate
  }

  /** All that a recovery, complete or not, may have made of d. */
  predicate Unspoiled(d: Disk, e: Disk) {
    && (forall name <- d.files ::
          && name in e.files
          && (if name == JournalFile then JournalGrows(d.files[name], e.files[name])
              else e.files[name] == d.files[name]))
    && (forall name <- e.files :: name !in d.files ==> name.Output?)
    && (e.visible == d.visible || OfTake(e.visible, d))
    && (e.settled == d.settled || e.settled == d.visible || OfTake(e.settled, d))
  }

  lemma UnspoiledItself(d: Disk)
    ensures Unspoiled(d, d)
  {
  }

  lemma UnspoiledTransitive(d: Disk, e: Disk, f: Disk)
    requires Unspoiled(d, e) && Unspoiled(e, f)
    ensures Unspoiled(d, f)
  {
    hide OfTake;
    forall name <- d.files
      ensures name in f.files
      ensures if name == JournalFile then JournalGrows(d.files[name], f.files[name]) else f.files[name] == d.files[name]
    {
      assert name in e.files;
    }
    TakeOfTake(f.visible, e, d);
    TakeOfTake(f.settled, e, d);
  }

  lemma TakeOfTake(c: Option<Copy>, e: Disk, d: Disk)
    requires e.visible == d.visible || OfTake(e.visible, d)
    ensures OfTake(c, e) ==> OfTake(c, d)
  {
  }

  /** The trace goes on, and d is unspoiled in every state noted since. */
  predicate Followed(d: Disk, before: seq<Moment>, after: seq<Moment>) {
    before <= after && forall i :: |before| <= i < |after| ==> Unspoiled(d, after[i].disk)
  }

  lemma FollowedItself(d: Disk, h: seq<Moment>)
    ensures Followed(d, h, h)
  {
  }

  lemma FollowedOn(d: Disk, e: Disk, a: seq<Moment>, b: seq<Moment>, c: seq<Moment>)
    requires Followed(d, a, b) && Unspoiled(d, e) && Followed(e, b, c)
    ensures Followed(d, a, c)
  {
    hide Unspoiled;
    forall i | |a| <= i < |c|
      ensures Unspoiled(d, c[i].disk)
    {
      if i < |b| {
        assert c[i] == b[i];
      } else {
        UnspoiledTransitive(d, e, c[i].disk);
      }
    }
  }

  predicate OnlyOutputsAdded(d: Disk, e: Disk) {
    && (forall name <- d.files :: name in e.files && e.files[name] == d.files[name])
    && (forall name <- e.files :: name !in d.files ==> name.Output?)
    && e.visible == d.visible && e.settled == d.settled
  }

  lemma OutputsLeaveUnspoiled(d: Disk, e: Disk)
    requires OnlyOutputsAdded(d, e)
    ensures Unspoiled(d, e)
  {
  }

  // ---- the procedure ----

  /** The errors that are found before anything is written. */
  predicate Early(e: RecoveryError) {
    e.Unreadable? || e.MissingJournal? || e.NoCommittedFrames? || e.MissingPart?
  }

  /** The loop that narrows safe_frames. */
  method Narrow(d: Disk, m: Manifest, committed: nat) returns (r: Result<nat, RecoveryError>)
    ensures r == match FirstMissing(d, |m.channels|)
                 case Some(c) => Err(MissingPart(c))
                 case None => Ok(SafeFrames(d, |m.channels|, committed))
  {
    var safe := committed;
    var c := 0;
    while c < |m.channels|
      invariant 0 <= c <= |m.channels|
      invariant Unpublished(d, c) && safe == SafeFrames(d, c, committed)
    {
      if Part(c) !in d.files {
        MissingFirst(d, c, |m.channels|);
        return Err(MissingPart(c));
      }
      safe := Min(safe, CompleteSamples(|d.files[Part(c)].current|));
      c := c + 1;
    }
    return Ok(safe);
  }

  lemma {:induction false} MissingFirst(d: Disk, c: nat, channels: nat)
    requires c < channels && Unpublished(d, c) && Part(c) !in d.files
    ensures FirstMissing(d, channels) == Some(c)
  {
    if c + 1 < channels {
      MissingFirst(d, c, channels - 1);
    } else {
      assert FirstMissing(d, c).None?;
    }
  }

  /** e is d with one more file. */
  predicate Added(d: Disk, name: Name, e: Disk) {
    && name !in d.files && name in e.files
    && e == d.(files := e.files) && e.files.Keys == d.files.Keys + {name}
    && forall other <- d.files :: e.files[other] == d.files[other]
  }

  lemma AddedLeavesUnspoiled(d: Disk, c: nat, e: Disk)
    requires e == d || Added(d, Output(c), e)
    ensures Unspoiled(d, e)
  {
  }

  /** The new file with its header and the copied audio. */
  method CopyOutput(store: Store, c: nat, header: seq<byte>, copied: seq<byte>) returns (ok: bool)
    requires Bounded(store.disk) && Output(c) !in store.disk.files
    modifies store
    ensures Bounded(store.disk) && (store.disk == old(store.disk) || Added(old(store.disk), Output(c), store.disk))
    ensures store.failed == (old(store.failed) || !ok)
    ensures Followed(old(store.disk), old(store.trace), store.trace)
    ensures old(store.failed) ==> store.history == old(store.history)
    ensures store.Unattended()
    ensures ok ==> Output(c) in store.disk.files && store.disk.files[Output(c)].current == header + copied
  {
    hide Bounded, Unspoiled;
    ghost var wrote: nat;
    ghost var d := store.disk;
    ok := store.Create(Output(c));
    AddedLeavesUnspoiled(d, c, store.disk);
    if ok {
      ok, wrote := store.Append(Output(c), header);
      AddedLeavesUnspoiled(d, c, store.disk);
      assert ok ==> [] + header[..wrote] == header;
    }
    if ok {
      ok, wrote := store.Append(Output(c), copied);
      AddedLeavesUnspoiled(d, c, store.disk);
      assert ok ==> copied[..wrote] == copied;
    }
  }

  /** The writes of one recovered file: an exclusive create, header, copied audio, sizes, sync. */
  method WriteOutput(store: Store, c: nat, header: seq<byte>, copied: seq<byte>, n: nat) returns (ok: bool)
    requires Bounded(store.disk) && Output(c) !in store.disk.files && |header| == AUDIO_OFFSET
    modifies store
    ensures Bounded(store.disk) && (store.disk == old(store.disk) || Added(old(store.disk), Output(c), store.disk))
    ensures store.failed == (old(store.failed) || !ok)
    ensures Followed(old(store.disk), old(store.trace), store.trace)
    ensures old(store.failed) ==> store.history == old(store.history)
    ensures store.Unattended()
    ensures ok ==>
      && Output(c) in store.disk.files
      && var file := Spliced(header + copied, SIZES_OFFSET, FinalSizes(n));
         store.disk.files[Output(c)] == FileState(file, file)
  {
    hide FinalSizes, Bounded, Spliced, Unspoiled;
    ghost var wrote: nat;
    ghost var d := store.disk;
    SizesLength(n);
    ok := CopyOutput(store, c, header, copied);
    if ok {
      var sizes := FinalSizes(n);
      ok, wrote := store.Overwrite(Output(c), SIZES_OFFSET, sizes);
      AddedLeavesUnspoiled(d, c, store.disk);
      assert ok ==> sizes[..wrote] == sizes;
    }
    if ok {
      ok := store.Sync(Output(c));
      AddedLeavesUnspoiled(d, c, store.disk);
    }
  }

  lemma SizesLength(n: nat)
    ensures |FinalSizes(n)| == 24
  {
  }

  /** Rebuilds one channel. */
  method CopyChannel(store: Store, m: Manifest, c: nat, n: nat) returns (r: Result<(), RecoveryError>)
    requires Bounded(store.disk) && c < |m.channels| && PartsReach(store.disk, |m.channels|, n)
    modifies store
    ensures Bounded(store.disk) && (store.disk == old(store.disk) || Added(old(store.disk), Output(c), store.disk))
    ensures old(store.failed) ==> store.failed
    ensures Followed(old(store.disk), old(store.trace), store.trace)
    ensures old(store.failed) ==> store.history == old(store.history)
    ensures store.Unattended()
    ensures r == Err(OutputExists(c)) <==> Output(c) in old(store.disk).files
    ensures r.Err? ==> r.error == OutputExists(c) || r.error == Invalid(InvalidSizes) || (r.error == Io && store.failed)
    ensures r.Err? && r.error.Invalid? ==> m.sampleRate == 0
    ensures r.Err? && r.error != Io ==> store.failed == old(store.failed)
    ensures r.Ok? ==>
      && m.sampleRate != 0 && store.failed == old(store.failed) && Output(c) in store.disk.files
      && var file := RecoveredFile(m, c, old(store.disk).files[Part(c)].current, n);
         store.disk.files[Output(c)] == FileState(file, file)
  {
    hide Unspoiled, RecoveredFile, Validate, Spliced, FinalSizes, Rf64.Header;
    if Output(c) in store.disk.files {
      return Err(OutputExists(c));
    }
    var source := store.disk.files[Part(c)].current;
    var header := Rf64.Header(m.sampleRate, Stamp(m.texts, m.channels[c].title, RECOVERED));
    var copied := source[AUDIO_OFFSET..AUDIO_OFFSET + BYTES_PER_SAMPLE * n];
    var ok := WriteOutput(store, c, header, copied, n);
    if !ok {
      return Err(Io);
    }
    var output := store.disk.files[Output(c)].current;
    RebuiltIsFinished(m, c, source, n, output);
    var valid := Validate(output, m.sampleRate, n);
    return if valid.Ok? then Ok(()) else Err(Invalid(valid.error));
  }

  lemma RebuiltIsFinished(m: Manifest, c: nat, source: seq<byte>, n: nat, output: seq<byte>)
    requires c < |m.channels| && |source| >= AUDIO_OFFSET + BYTES_PER_SAMPLE * n && |source| <= MAX_FILE
    requires var id := Stamp(m.texts, m.channels[c].title, RECOVERED);
      output == Spliced(Rf64.Header(m.sampleRate, id) + source[AUDIO_OFFSET..AUDIO_OFFSET + BYTES_PER_SAMPLE * n],
                        SIZES_OFFSET, FinalSizes(n))
    ensures output == RecoveredFile(m, c, source, n)
    ensures Validate(output, m.sampleRate, n) == if m.sampleRate == 0 then Err(InvalidSizes) else Ok(())
  {
    hide Validate, ReadSamples, SampleBytes, Rf64.Header, Sizes;
    var id := Stamp(m.texts, m.channels[c].title, RECOVERED);
    var copied := source[AUDIO_OFFSET..AUDIO_OFFSET + BYTES_PER_SAMPLE * n];
    ReadThenWrite(copied);
    var samples := ReadSamples(copied);
    assert |samples| == n by {
      assert |SampleBytes(samples)| == BYTES_PER_SAMPLE * n;
    }
    assert output == Finished(m.sampleRate, id, samples);
    FinishedIsValid(1, id, samples);
    if m.sampleRate == 0 {
      ZeroRateIsInvalid(id, samples);
    } else {
      FinishedIsValid(m.sampleRate, id, samples);
    }
  }

  lemma ZeroRateIsInvalid(id: Identity, samples: seq<Sample>)
    requires Describable(|samples|)
    ensures Validate(Finished(0, id, samples), 0, |samples|) == Err(InvalidSizes)
  {
    hide FromLE, LE, Preamble, Sizes, Middle, SampleBytes, Finished;
    var n := |samples|;
    FinishedParts(0, id, samples);
    var rest := Middle(0, id) + SampleBytes(samples);
    assert Finished(0, id, samples) == Preamble() + (FinalSizes(n) + rest);
    PreambleFields(FinalSizes(n) + rest);
  }

  lemma {:induction false} CommitsFitU64(records: seq<Record>)
    ensures CommittedIn(records) < U64_SPAN
  {
    if records != [] {
      CommitsFitU64(records[..|records| - 1]);
    }
  }

  lemma NothingRebuilt(d: Disk, m: Manifest, n: nat)
    requires PartsReach(d, |m.channels|, n)
    ensures Rebuilt(d, d, m, n, 0)
  {
  }

  lemma RebuiltOneMore(d: Disk, e: Disk, f: Disk, m: Manifest, n: nat, c: nat)
    requires PartsReach(d, |m.channels|, n) && c < |m.channels| && Rebuilt(d, e, m, n, c)
    requires Added(e, Output(c), f) && OnlyOutputsAdded(d, e)
    requires var file := RecoveredFile(m, c, e.files[Part(c)].current, n); f.files[Output(c)] == FileState(file, file)
    ensures Rebuilt(d, f, m, n, c + 1)
  {
    hide RecoveredFile;
  }

  /** The loop over the channels. */
  method CopyAll(store: Store, m: Manifest, n: nat) returns (r: Result<seq<Name>, RecoveryError>)
    requires Bounded(store.disk) && PartsReach(store.disk, |m.channels|, n)
    modifies store
    ensures Bounded(store.disk) && OnlyOutputsAdded(old(store.disk), store.disk)
    ensures old(store.failed) ==> store.failed
    ensures Followed(old(store.disk), old(store.trace), store.trace)
    ensures old(store.failed) ==> store.history == old(store.history)
    ensures store.Unattended()
    ensures r.Err? ==> (r.error == Io && store.failed) || CopyError(old(store.disk), m, 0) == Some(r.error)
    ensures r.Ok? ==>
      && CopyError(old(store.disk), m, 0) == None && store.failed == old(store.failed)
      && Rebuilt(old(store.disk), store.disk, m, n, |m.channels|)
      && r.value == seq(|m.channels|, i requires 0 <= i => Output(i))
  {
    hide RecoveredFile, Rebuilt, Unspoiled, Followed;
    NothingRebuilt(store.disk, m, n);
    ghost var d, h := store.disk, store.trace;
    FollowedItself(d, h);
    var outputs: seq<Name> := [];
    var c := 0;
    while c < |m.channels|
      invariant 0 <= c == |outputs| <= |m.channels|
      invariant Bounded(store.disk) && OnlyOutputsAdded(d, store.disk) && store.failed == old(store.failed)
      invariant store.Unattended()
      invariant Followed(d, h, store.trace) && (old(store.failed) ==> store.history == old(store.history))
      invariant CopyError(d, m, 0) == CopyError(d, m, c)
      invariant forall i :: c <= i ==> (Output(i) in store.disk.files <==> Output(i) in d.files)
      invariant Rebuilt(d, store.disk, m, n, c)
      invariant forall i :: 0 <= i < c ==> outputs[i] == Output(i)
    {
      ghost var before, noted := store.disk, store.trace;
      var step := CopyChannel(store, m, c, n);
      OutputsLeaveUnspoiled(d, before);
      FollowedOn(d, before, h, noted, store.trace);
      if step.Err? {
        return Err(step.error);
      }
      RebuiltOneMore(d, before, store.disk, m, n, c);
      outputs := outputs + [Output(c)];
      c := c + 1;
    }
    return Ok(outputs);
  }

  /** The manifest that recovery leaves. */
  function RecoveredManifest(m: Manifest, n: u64, committed: nat): Manifest {
    m.(status := if n == committed then Recovered else PartiallyRecovered, state := Completed,
       framesWritten := n, framesCommitted := n)
  }

  /** The journal after recovery has appended its two records. */
  function Epilogue(log: seq<byte>, session: Uuid, n: u64): seq<byte>
    requires Fits(RecoveryStarted) && Fits(RecoveryCompleted(n))
  {
    var next := NextAfter(ParseValid(log));
    log + EncodeRecord(Record(session, next, RecoveryStarted))
    + EncodeRecord(Record(session, Next(next), RecoveryCompleted(n)))
  }

  predicate Foreign(log: seq<byte>, session: Uuid) {
    exists record <- ParseValid(log) :: record.sessionId != session
  }

  /** The two journal records. */
  method JournalRecovery(store: Store, session: Uuid, n: u64) returns (r: Result<(), RecoveryError>)
    requires Bounded(store.disk) && JournalFile in store.disk.files
    modifies store
    ensures SameBut(old(store.disk), JournalFile, store.disk) && Fits(RecoveryStarted) && Fits(RecoveryCompleted(n))
    ensures Bounded(store.disk)
    ensures JournalGrows(old(store.disk).files[JournalFile], store.disk.files[JournalFile])
    ensures Followed(old(store.disk), old(store.trace), store.trace)
    ensures old(store.failed) ==> store.history == old(store.history)
    ensures store.Unattended()
    ensures r == Err(SessionMismatch) ==> store.disk == old(store.disk)
    ensures old(store.failed) ==> store.failed
    ensures r == Err(SessionMismatch) <==> Foreign(old(store.disk).files[JournalFile].current, session)
    ensures r.Err? ==> (r.error == Io && store.failed) || r.error == SessionMismatch
    ensures r.Ok? ==> store.failed == old(store.failed)
    ensures r.Ok? ==>
              store.disk.files[JournalFile].current == Epilogue(old(store.disk).files[JournalFile].current, session, n)
  {
    hide ParseValid, EncodeRecord, NextAfter, Bounded, Encode, Next, Fits, Journal.Step, Unspoiled, JournalGrows;
    Journal.NothingWritten(store.disk);
    ShortWithoutText(RecoveryStarted);
    ShortWithoutText(RecoveryCompleted(n));
    FitsIfShort(RecoveryStarted);
    FitsIfShort(RecoveryCompleted(n));
    var reopened := Journal.Open(store, session);
    assert reopened.Ok? || reopened.error == Journal.Missing || reopened.error == Journal.SessionMismatch;
    if reopened.Err? {
      return Err(SessionMismatch);
    }
    var ok := AppendEpilogue(reopened.value, n);
    return if ok then Ok(()) else Err(Io);
  }

  lemma JournalLeavesUnspoiled(d: Disk, e: Disk)
    requires SameBut(d, JournalFile, e) && JournalGrows(d.files[JournalFile], e.files[JournalFile])
    ensures Unspoiled(d, e)
  {
  }

  lemma JournalOn(d: Disk, e: Disk, f: Disk)
    requires SameBut(d, JournalFile, e) && JournalGrows(d.files[JournalFile], e.files[JournalFile])
    requires SameBut(e, JournalFile, f) && JournalGrows(e.files[JournalFile], f.files[JournalFile])
    ensures SameBut(d, JournalFile, f) && JournalGrows(d.files[JournalFile], f.files[JournalFile])
  {
  }

  /** One durable append during a recovery. */
  method AppendFollowed(journal: Journal.Journal, kind: Kind) returns (r: Result<u64, Journal.AppendError>)
    requires JournalFile in journal.store.disk.files && Bounded(journal.store.disk) && Fits(kind)
    modifies journal, journal.store
    ensures Bounded(journal.store.disk) && SameBut(old(journal.store.disk), JournalFile, journal.store.disk)
    ensures JournalGrows(old(journal.store.disk).files[JournalFile], journal.store.disk.files[JournalFile])
    ensures Followed(old(journal.store.disk), old(journal.store.trace), journal.store.trace)
    ensures old(journal.store.failed) ==> journal.store.history == old(journal.store.history)
    ensures journal.store.Unattended()
    ensures r.Err? ==> r.error == Journal.Failed && journal.store.failed
    ensures r.Ok? ==> journal.store.failed == old(journal.store.failed)
    ensures old(journal.store.failed) ==> journal.store.failed
    ensures r.Ok? ==> journal.nextSequence == Next(old(journal.nextSequence))
    ensures r.Ok? ==>
              journal.store.disk.files[JournalFile].current
              == old(journal.store.disk).files[JournalFile].current + EncodeRecord(old(journal.Record(kind)))
  {
    hide ParseValid, EncodeRecord, NextAfter, Bounded, Encode, Next, Fits, Journal.Step, Unspoiled, JournalGrows;
    ghost var base, record, before := journal.store.Now(), journal.Record(kind), |journal.store.trace|;
    r := journal.Append(kind, true);
    assert r.Ok? || r.error == Journal.TooLarge || r.error == Journal.Failed;
    forall i | before <= i < |journal.store.trace|
      ensures Unspoiled(base.disk, journal.store.trace[i].disk)
      ensures journal.store.trace[i].secured == base.secured && journal.store.trace[i].submitted == base.submitted
    {
      Journal.StepGrows(base, record, journal.store.trace[i]);
      JournalLeavesUnspoiled(base.disk, journal.store.trace[i].disk);
    }
    assert r.Ok? ==> EncodeRecord(record)[..|EncodeRecord(record)|] == EncodeRecord(record);
  }

  method AppendEpilogue(journal: Journal.Journal, n: u64) returns (ok: bool)
    requires Bounded(journal.store.disk) && JournalFile in journal.store.disk.files
    requires Fits(RecoveryStarted) && Fits(RecoveryCompleted(n))
    requires journal.nextSequence == NextAfter(ParseValid(journal.store.disk.files[JournalFile].current))
    modifies journal, journal.store
    ensures SameBut(old(journal.store.disk), JournalFile, journal.store.disk)
    ensures Bounded(journal.store.disk)
    ensures JournalGrows(old(journal.store.disk).files[JournalFile], journal.store.disk.files[JournalFile])
    ensures Followed(old(journal.store.disk), old(journal.store.trace), journal.store.trace)
    ensures old(journal.store.failed) ==> journal.store.history == old(journal.store.history)
    ensures journal.store.Unattended()
    ensures journal.store.failed == (old(journal.store.failed) || !ok)
    ensures ok ==>
              journal.store.disk.files[JournalFile].current
              == Epilogue(old(journal.store.disk).files[JournalFile].current, journal.session, n)
  {
    hide ParseValid, EncodeRecord, NextAfter, Bounded, Encode, Next, Fits, Journal.Step, Unspoiled;
    hide JournalGrows, Followed;
    ghost var d, h := journal.store.disk, journal.store.trace;
    var started := AppendFollowed(journal, RecoveryStarted);
    assert started.Ok? || started.error == Journal.TooLarge || started.error == Journal.Failed;
    ok := started.Ok?;
    if ok {
      ghost var e, noted := journal.store.disk, journal.store.trace;
      JournalLeavesUnspoiled(d, e);
      var completed := AppendFollowed(journal, RecoveryCompleted(n));
      FollowedOn(d, e, h, noted, journal.store.trace);
      JournalOn(d, e, journal.store.disk);
      assert completed.Ok? || completed.error == Journal.TooLarge || completed.error == Journal.Failed;
      ok := completed.Ok?;
    }
  }

  /** e is d after the manifest and the journal were written. */
  predicate Concluded(d: Disk, e: Disk) {
    && e.files.Keys == d.files.Keys && JournalFile in d.files
    && JournalGrows(d.files[JournalFile], e.files[JournalFile])
    && forall name <- d.files :: name != JournalFile ==> e.files[name] == d.files[name]
  }

  /** Replacing the manifest by another of the same take leaves the directory unspoiled. */
  lemma ReplacementFollowed(base: Moment, m: Manifest, x: Moment, before: seq<Moment>, after: seq<Moment>)
    requires ManifestFile.Step(base, m, x) && OfTake(Some(Copy(m, true)), base.disk)
    requires before <= after && forall i :: |before| <= i < |after| ==> ManifestFile.Step(base, m, after[i])
    ensures Unspoiled(base.disk, x.disk) && Followed(base.disk, before, after)
    ensures forall i :: |before| <= i < |after| ==>
              after[i].secured == base.secured && after[i].submitted == base.submitted
  {
    StepLeavesUnspoiled(base, m, x);
    forall i | |before| <= i < |after|
      ensures Unspoiled(base.disk, after[i].disk)
    {
      StepLeavesUnspoiled(base, m, after[i]);
    }
  }

  lemma StepLeavesUnspoiled(base: Moment, m: Manifest, x: Moment)
    requires ManifestFile.Step(base, m, x) && OfTake(Some(Copy(m, true)), base.disk)
    ensures Unspoiled(base.disk, x.disk)
  {
  }

  /** The end of recover_session: the manifest, then the journal. */
  method Conclude(store: Store, m: Manifest, n: u64, committed: nat) returns (r: Result<(), RecoveryError>)
    requires Bounded(store.disk) && JournalFile in store.disk.files
    requires store.disk.visible.Some? && store.disk.visible.value.manifest == m
    modifies store
    ensures Concluded(old(store.disk), store.disk) && Fits(RecoveryStarted) && Fits(RecoveryCompleted(n))
    ensures Bounded(store.disk) && Unspoiled(old(store.disk), store.disk)
    ensures Followed(old(store.disk), old(store.trace), store.trace)
    ensures old(store.failed) ==> store.history == old(store.history)
    ensures store.Unattended()
    ensures r == Err(SessionMismatch) ==> store.disk.files == old(store.disk.files)
    ensures old(store.failed) ==> store.failed
    ensures r.Err? ==>
      (r.error == Io && store.failed)
      || (r.error == SessionMismatch && Foreign(old(store.disk).files[JournalFile].current, m.sessionId))
    ensures r.Ok? ==>
      && store.failed == old(store.failed) && !Foreign(old(store.disk).files[JournalFile].current, m.sessionId)
      && store.disk.visible == store.disk.settled == Some(Copy(RecoveredManifest(m, n, committed), true))
      && store.disk.files[JournalFile].current == Epilogue(old(store.disk).files[JournalFile].current, m.sessionId, n)
  {
    hide Epilogue, Foreign, Bounded, Unspoiled, ManifestFile.Step;
    ghost var base, h := store.Now(), store.trace;
    ShortWithoutText(RecoveryStarted);
    ShortWithoutText(RecoveryCompleted(n));
    FitsIfShort(RecoveryStarted);
    FitsIfShort(RecoveryCompleted(n));
    var ok := ManifestFile.WriteAtomic(store, RecoveredManifest(m, n, committed));
    ghost var e, noted := store.disk, store.trace;
    ReplacementFollowed(base, RecoveredManifest(m, n, committed), store.Now(), h, noted);
    if !ok {
      return Err(Io);
    }
    assert SameBut(e, JournalFile, e);
    r := JournalRecovery(store, m.sessionId, n);
    JournalLeavesUnspoiled(e, store.disk);
    UnspoiledTransitive(base.disk, e, store.disk);
    FollowedOn(base.disk, e, h, noted, store.trace);
  }

  /** What a successful recovery has done to the directory. */
  predicate RecoveredTo(d: Disk, e: Disk, n: u64) {
    && Plan(d) == Ok(n)
    && var m := d.visible.value.manifest;
       && PartsReach(d, |m.channels|, n)
       && Rebuilt(d, e, m, n, |m.channels|)
       && e.visible == e.settled == Some(Copy(RecoveredManifest(m, n, Commits(d)), true))
       && Fits(RecoveryStarted) && Fits(RecoveryCompleted(n)) && JournalFile in e.files
       && e.files[JournalFile].current == Epilogue(d.files[JournalFile].current, m.sessionId, n)
  }

  lemma KeptBoth(d: Disk, e: Disk, f: Disk)
    requires OnlyOutputsAdded(d, e) && (e == f || Concluded(e, f))
    ensures OriginalsKept(d, f)
  {
  }

  lemma RebuiltStays(d: Disk, e: Disk, f: Disk, m: Manifest, n: nat)
    requires PartsReach(d, |m.channels|, n) && Rebuilt(d, e, m, n, |m.channels|) && Concluded(e, f)
    ensures Rebuilt(d, f, m, n, |m.channels|)
  {
    hide RecoveredFile;
  }

  /** The second half of recover_session: the copies, then the manifest and the journal. */
  method Rebuild(store: Store, m: Manifest, n: u64, committed: nat) returns (r: Result<seq<Name>, RecoveryError>)
    requires Bounded(store.disk) && JournalFile in store.disk.files && PartsReach(store.disk, |m.channels|, n)
    requires store.disk.visible.Some? && store.disk.visible.value.manifest == m
    modifies store
    ensures OriginalsKept(old(store.disk), store.disk) && Unspoiled(old(store.disk), store.disk)
    ensures Bounded(store.disk) && Followed(old(store.disk), old(store.trace), store.trace)
    ensures old(store.failed) ==> store.failed && store.history == old(store.history)
    ensures store.Unattended()
    ensures JournalFile in store.disk.files && Fits(RecoveryStarted) && Fits(RecoveryCompleted(n))
    ensures r.Err? && r.error != Io ==> store.disk.files[JournalFile] == old(store.disk).files[JournalFile]
    ensures r.Err? ==>
      || (r.error == Io && store.failed)
      || CopyError(old(store.disk), m, 0) == Some(r.error)
      || (CopyError(old(store.disk), m, 0) == None && r.error == SessionMismatch
          && Foreign(old(store.disk).files[JournalFile].current, m.sessionId))
    ensures r.Ok? ==>
      && CopyError(old(store.disk), m, 0) == None && store.failed == old(store.failed)
      && !Foreign(old(store.disk).files[JournalFile].current, m.sessionId)
      && Rebuilt(old(store.disk), store.disk, m, n, |m.channels|)
      && r.value == seq(|m.channels|, i requires 0 <= i => Output(i))
      && store.disk.visible == store.disk.settled == Some(Copy(RecoveredManifest(m, n, committed), true))
      && store.disk.files[JournalFile].current == Epilogue(old(store.disk).files[JournalFile].current, m.sessionId, n)
  {
    hide Rebuilt, Epilogue, Foreign, OnlyOutputsAdded, Concluded, CopyError, Unspoiled, Followed, OriginalsKept;
    ShortWithoutText(RecoveryStarted);
    ShortWithoutText(RecoveryCompleted(n));
    FitsIfShort(RecoveryStarted);
    FitsIfShort(RecoveryCompleted(n));
    ghost var d, h := store.disk, store.trace;
    r := CopyAll(store, m, n);
    KeptBoth(d, store.disk, store.disk);
    OutputsLeaveUnspoiled(d, store.disk);
    JournalUntouched(d, store.disk);
    if r.Err? {
      return;
    }
    ghost var copied, noted := store.disk, store.trace;
    VisibleUntouched(d, copied);
    var concluded := Conclude(store, m, n, committed);
    KeptBoth(d, copied, store.disk);
    UnspoiledTransitive(d, copied, store.disk);
    FollowedOn(d, copied, h, noted, store.trace);
    StillThere(copied, store.disk);
    if concluded.Err? {
      return Err(concluded.error);
    }
    RebuiltStays(d, copied, store.disk, m, n);
  }

  /** recover_session on any directory. */
  method RecoverSession(store: Store) returns (r: Result<RecoveryOutcome, RecoveryError>)
    requires Bounded(store.disk)
    modifies store
    ensures OriginalsKept(old(store.disk), store.disk) && Unspoiled(old(store.disk), store.disk)
    ensures Bounded(store.disk) && Followed(old(store.disk), old(store.trace), store.trace)
    ensures old(store.failed) ==> store.failed && store.history == old(store.history)
    ensures store.Unattended()
    ensures Plan(old(store.disk)).Err? && Early(Plan(old(store.disk)).error) ==>
              r == Err(Plan(old(store.disk)).error) && store.Now() == old(store.Now())
              && store.failed == old(store.failed)
              && store.history == old(store.history) && store.trace == old(store.trace)
    ensures r.Err? && r.error != Io && JournalFile in old(store.disk).files ==>
              JournalFile in store.disk.files && store.disk.files[JournalFile] == old(store.disk).files[JournalFile]
    ensures r == Err(Io) ==> store.failed
    ensures r.Err? && r.error != Io ==> Plan(old(store.disk)) == Err(r.error)
    ensures r.Ok? ==>
      && Plan(old(store.disk)) == Ok(r.value.recoveredFrames) && r.value.recoveredFrames < U64_SPAN
      && RecoveredTo(old(store.disk), store.disk, r.value.recoveredFrames)
      && var m := old(store.disk).visible.value.manifest;
         && r.value.sessionId == m.sessionId
         && r.value.files == seq(|m.channels|, i requires 0 <= i => Output(i))
         && r.value.status
            == (if r.value.recoveredFrames == Commits(old(store.disk)) then Recovered else PartiallyRecovered)
         && store.disk.visible.value.manifest
            == m.(status := r.value.status, state := Completed,
                  framesWritten := r.value.recoveredFrames, framesCommitted := r.value.recoveredFrames)
  {
    hide Rebuilt, Epilogue, Foreign, OriginalsKept, CommittedIn, ParseValid, CopyError, Unspoiled, Followed;
    ghost var d, h := store.disk, store.trace;
    UnspoiledItself(d);
    FollowedItself(d, h);
    KeptItself(d);
    if store.disk.visible.None? {
      return Err(Unreadable);
    }
    var m := store.disk.visible.value.manifest;
    if JournalFile !in store.disk.files {
      return Err(MissingJournal);
    }
    var records := ParseLoop(store.disk.files[JournalFile].current);
    var committed := CommittedIn(records);
    CommitsFitU64(records);
    if committed == 0 {
      return Err(NoCommittedFrames);
    }
    var narrowed := Narrow(store.disk, m, committed);
    if narrowed.Err? {
      return Err(narrowed.error);
    }
    var n := narrowed.value;
    if n == 0 {
      return Err(NoCommittedFrames);
    }
    SafeFramesIsGreatest(d, |m.channels|, committed, n);
    var outputs := Rebuild(store, m, n, committed);
    ForeignMeans(d.files[JournalFile].current, m.sessionId);
    if outputs.Err? {
      return Err(outputs.error);
    }
    return Ok(RecoveryOutcome(m.sessionId, n, outputs.value, if n == committed then Recovered else PartiallyRecovered));
  }

  lemma JournalUntouched(d: Disk, e: Disk)
    requires OnlyOutputsAdded(d, e) && JournalFile in d.files
    ensures JournalFile in e.files && e.files[JournalFile] == d.files[JournalFile]
  {
  }

  lemma KeptItself(d: Disk)
    ensures OriginalsKept(d, d)
  {
  }

  lemma ForeignMeans(log: seq<byte>, session: Uuid)
    ensures Foreign(log, session) <==> exists record <- ParseValid(log) :: record.sessionId != session
  {
  }

  lemma VisibleUntouched(d: Disk, e: Disk)
    requires OnlyOutputsAdded(d, e)
    ensures e.visible == d.visible
  {
  }

  lemma StillThere(d: Disk, e: Disk)
    requires Concluded(d, e)
    ensures JournalFile in e.files
  {
  }
}
