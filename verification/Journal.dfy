/** The append-only journal of a session directory. */
module Journal {
  import opened Bytes
  import opened Wrappers
  import opened Postcard
  import opened JournalFormat
  import opened JournalLaws
  import opened Storage

  datatype AppendError = TooLarge | Failed

  datatype OpenError = Missing | SessionMismatch

  /** The base state with the first `count` bytes of r written to the journal. */
  ghost function Written(base: Moment, r: Record, count: nat): Moment
    requires JournalFile in base.disk.files && Fits(r.kind) && count <= |EncodeRecord(r)|
  {
    base.(disk := Grown(base.disk, JournalFile, EncodeRecord(r)[..count]), kinds := base.kinds + [r.kind])
  }

  ghost function Synced(base: Moment): Moment
    requires JournalFile in base.disk.files
  {
    base.(disk := Flushed(base.disk, JournalFile))
  }

  /** x is a state that appending r to `base` may pass through. */
  ghost predicate Step(base: Moment, r: Record, x: Moment) {
    && JournalFile in base.disk.files && Fits(r.kind)
    && var n := |EncodeRecord(r)|;
       || (exists count :: 0 <= count <= n && x == Written(base, r, count))
       || x == Synced(Written(base, r, n))
  }

  /** The state after a successful append. */
  ghost function Appended(base: Moment, r: Record, durable: bool): Moment
    requires JournalFile in base.disk.files && Fits(r.kind)
  {
    var written := Written(base, r, |EncodeRecord(r)|);
    if durable then Synced(written).(durable := |written.kinds|) else written
  }

  lemma StepsOf(base: Moment, r: Record, count: nat)
    requires JournalFile in base.disk.files && Fits(r.kind) && count <= |EncodeRecord(r)|
    ensures Step(base, r, Written(base, r, count))
    ensures Step(base, r, Synced(Written(base, r, |EncodeRecord(r)|)))
  {
  }

  /** Inside an append nothing but the journal changes, and the journal only grows. */
  lemma StepGrows(base: Moment, r: Record, x: Moment)
    requires Step(base, r, x)
    ensures SameBut(base.disk, JournalFile, x.disk)
    ensures JournalGrows(base.disk.files[JournalFile], x.disk.files[JournalFile])
    ensures x.secured == base.secured && x.submitted == base.submitted
  {
    hide EncodeRecord, Fits;
  }

  lemma NothingWritten(d: Disk)
    requires JournalFile in d.files
    ensures SameBut(d, JournalFile, d) && JournalGrows(d.files[JournalFile], d.files[JournalFile])
  {
  }

  class Journal {
    const store: Store
    const session: Uuid
    var nextSequence: u64

    constructor (store: Store, session: Uuid, nextSequence: u64)
      ensures this.store == store && this.session == session && this.nextSequence == nextSequence
    {
      this.store, this.session, this.nextSequence := store, session, nextSequence;
    }

    /** The record that the next append writes. */
    ghost function Record(kind: Kind): Record
      reads this
    {
      JournalFormat.Record(session, nextSequence, kind)
    }

    /** The write of one record. */
    method WriteRecord(kind: Kind) returns (ok: bool, ghost wrote: nat)
      requires JournalFile in store.disk.files && Bounded(store.disk) && Fits(kind)
      modifies store
      ensures wrote <= |EncodeRecord(Record(kind))| && (ok ==> wrote == |EncodeRecord(Record(kind))|)
      ensures store.Now() == Written(old(store.Now()), Record(kind), wrote) && Bounded(store.disk)
      ensures JournalFile in store.disk.files && store.Observed()
      ensures store.failed == (old(store.failed) || !ok)
      ensures store.history == if old(store.failed) then old(store.history) else old(store.history) + [store.Now()]
      ensures store.trace == old(store.trace) + [store.Now()]
      ensures old(store.Steady()) ==> store.Steady()
    {
      hide EncodeRecord, Bounded, Store.Steady;
      var bytes := EncodeRecord(JournalFormat.Record(session, nextSequence, kind));
      store.kinds := store.kinds + [kind];
      ok, wrote := store.Append(JournalFile, bytes);
    }

    /** The sync of what was written. */
    method SyncRecords() returns (ok: bool)
      requires JournalFile in store.disk.files && Bounded(store.disk)
      modifies store
      ensures ok ==> store.Now() == Synced(old(store.Now())).(durable := |old(store.Now()).kinds|)
      ensures !ok ==> store.Now() == old(store.Now())
      ensures store.failed == (old(store.failed) || !ok) && Bounded(store.disk) && store.Observed()
      ensures var noted := if ok then Synced(old(store.Now())) else old(store.Now());
        && store.history == (if old(store.failed) then old(store.history) else old(store.history) + [noted])
        && store.trace == old(store.trace) + [noted]
      ensures old(store.Steady()) ==> store.Steady()
    {
      hide Flushed, Bounded, Store.Steady;
      ok := store.Sync(JournalFile);
      if ok {
        store.durable := |store.kinds|;
      }
    }

    /** The write and, if asked for, the sync of one record. */
    method WriteAndSync(kind: Kind, durable: bool) returns (ok: bool)
      requires JournalFile in store.disk.files && Bounded(store.disk) && Fits(kind)
      modifies store
      ensures ok ==> store.Now() == Appended(old(store.Now()), Record(kind), durable)
      ensures store.failed == (old(store.failed) || !ok)
      ensures Bounded(store.disk) && SameBut(old(store.disk), JournalFile, store.disk)
      ensures JournalGrows(old(store.disk).files[JournalFile], store.disk.files[JournalFile])
      ensures store.Observed()
      ensures old(store.history) <= store.history && (old(store.failed) ==> store.history == old(store.history))
      ensures old(store.Steady()) ==> store.Steady()
      ensures forall i :: |old(store.history)| <= i < |store.history| ==>
                Step(old(store.Now()), Record(kind), store.history[i])
      ensures old(store.trace) <= store.trace
      ensures forall i :: |old(store.trace)| <= i < |store.trace| ==>
                Step(old(store.Now()), Record(kind), store.trace[i])
    {
      hide EncodeRecord, Written, Synced, Bounded, Next, Step, Fits, SameBut, JournalGrows, Store.Steady;
      ghost var base, record := store.Now(), Record(kind);
      ghost var wrote: nat;
      ok, wrote := WriteRecord(kind);
      StepsOf(base, record, wrote);
      ghost var reached := store.Now();
      if ok && durable {
        ok := SyncRecords();
        reached := if ok then Synced(reached) else reached;
      }
      assert Step(base, record, reached);
      StepGrows(base, record, reached);
    }

    /** Journal::append. */
    method Append(kind: Kind, durable: bool) returns (r: Result<u64, AppendError>)
      requires JournalFile in store.disk.files && Bounded(store.disk)
      modifies this, store
      ensures r == Err(TooLarge) <==> !Fits(kind)
      ensures r == Err(TooLarge) ==> nextSequence == old(nextSequence) && store.Now() == old(store.Now())
      ensures r == Err(TooLarge) ==> store.failed == old(store.failed) && store.history == old(store.history)
      ensures r == Err(TooLarge) ==> store.trace == old(store.trace)
      ensures r.Ok? ==> r.value == old(nextSequence) && nextSequence == Next(old(nextSequence))
      ensures r.Ok? ==> store.Now() == Appended(old(store.Now()), old(Record(kind)), durable)
      ensures r.Ok? ==> store.failed == old(store.failed)
      ensures old(store.failed) ==> store.failed
      ensures r == Err(Failed) ==> store.failed && nextSequence == old(nextSequence)
      ensures Bounded(store.disk) && SameBut(old(store.disk), JournalFile, store.disk)
      ensures JournalGrows(old(store.disk).files[JournalFile], store.disk.files[JournalFile])
      ensures store.Observed()
      ensures old(store.history) <= store.history && (old(store.failed) ==> store.history == old(store.history))
      ensures old(store.Steady()) ==> store.Steady()
      ensures forall i :: |old(store.history)| <= i < |store.history| ==>
                Step(old(store.Now()), old(Record(kind)), store.history[i])
      ensures old(store.trace) <= store.trace
      ensures forall i :: |old(store.trace)| <= i < |store.trace| ==>
                Step(old(store.Now()), old(Record(kind)), store.trace[i])
    {
      hide Appended, Bounded, Next, Step, SameBut, JournalGrows, Encode, Store.Steady;
      NothingWritten(store.disk);
      if |Encode(kind)| > MAX_RECORD_SIZE {
        return Err(TooLarge);
      }
      var ok := WriteAndSync(kind, durable);
      if !ok {
        return Err(Failed);
      }
      var sequence := nextSequence;
      nextSequence := Next(nextSequence);
      return Ok(sequence);
    }
  }

  /** Journal::create. */
  method Create(store: Store, session: Uuid) returns (r: Option<Journal>)
    requires JournalFile !in store.disk.files && Bounded(store.disk)
    modifies store
    ensures store.disk == if r.None? then old(store.disk)
                          else old(store.disk).(files := old(store.disk).files[JournalFile := FileState([], [])])
    ensures Bounded(store.disk)
    ensures store.Noted(r.Some?)
    ensures r.Some? ==>
              fresh(r.value) && r.value.store == store && r.value.session == session && r.value.nextSequence == 0
  {
    var ok := store.Create(JournalFile);
    if !ok {
      return None;
    }
    var journal := new Journal(store, session, 0);
    return Some(journal);
  }

  /** Journal::open: continues after the last record that can be read, leaving any torn tail in place. */
  method Open(store: Store, session: Uuid) returns (r: Result<Journal, OpenError>)
    ensures JournalFile !in store.disk.files ==> r == Err(Missing)
    ensures JournalFile in store.disk.files ==>
      var records := ParseValid(store.disk.files[JournalFile].current);
      && (r == Err(SessionMismatch) <==> exists record <- records :: record.sessionId != session)
      && (r.Ok? || r == Err(SessionMismatch))
      && (r.Ok? ==> fresh(r.value) && r.value.store == store && r.value.session == session
                    && r.value.nextSequence == NextAfter(records))
  {
    if JournalFile !in store.disk.files {
      return Err(Missing);
    }
    var records := ParseLoop(store.disk.files[JournalFile].current);
    if exists record <- records :: record.sessionId != session {
      return Err(SessionMismatch);
    }
    var next := 0;
    if records != [] {
      next := Next(records[|records| - 1].sequence);
    }
    var journal := new Journal(store, session, next);
    return Ok(journal);
  }
}
