/** The session directory: files with what of them has reached the medium, the manifest's directory
    entry, and what a crash may leave. Every primitive may fail, and every state a primitive leaves is
    noted in `trace`, and in `history` up to and including the first failure. */
module Storage {
  import opened Bytes
  import opened Wrappers
  import opened Postcard
  import opened Rf64
  import opened Session

  /** What the process sees of a file, and what the last completed sync made durable. */
  datatype FileState = FileState(current: seq<byte>, stable: seq<byte>)

  datatype Name = Part(channel: nat) | Final(channel: nat) | Output(channel: nat) | JournalFile

  /** A manifest written to a file; `synced` once its content is durable. */
  datatype Copy = Copy(manifest: Manifest, synced: bool)

  /** `visible` is what session.json names now, `settled` what it named at the last directory sync. */
  datatype Disk = Disk(
    files: map<Name, FileState>,
    temporary: Option<Copy>,
    visible: Option<Copy>,
    settled: Option<Copy>)

  const MAX_FILE := 0x7FFF_FFFF_FFFF_FFFF

  predicate Bounded(d: Disk) {
    forall name <- d.files :: |d.files[name].current| <= MAX_FILE
  }

  // ---- crashes ----

  /** What a new process finds after a crash. */
  datatype Surviving = Surviving(files: map<Name, seq<byte>>, manifest: Option<Manifest>)

  /** Synced bytes that were not overwritten since survive; all else is arbitrary. */
  predicate AudioSurvives(f: FileState, after: seq<byte>) {
    && |f.stable| <= |after| <= MAX_FILE
    && forall i :: 0 <= i < |f.stable| && i < |f.current| && f.current[i] == f.stable[i] ==> after[i] == f.stable[i]
  }

  /** The append-only journal survives up to some point at or after its last sync. */
  predicate JournalSurvives(f: FileState, after: seq<byte>) {
    f.stable <= after && after <= f.current && |after| <= MAX_FILE
  }

  predicate CopySurvives(c: Option<Copy>, after: Option<Manifest>) {
    match c
    case None => after == None
    case Some(copy) => copy.synced ==> after == Some(copy.manifest)
  }

  predicate Crash(d: Disk, s: Surviving) {
    && s.files.Keys == d.files.Keys
    && (forall name <- d.files ::
          if name == JournalFile then JournalSurvives(d.files[name], s.files[name])
          else AudioSurvives(d.files[name], s.files[name]))
    && (CopySurvives(d.visible, s.manifest) || CopySurvives(d.settled, s.manifest))
  }

  // ---- observation ----

  type Frame = seq<Sample>

  /** A state of the directory together with what the recorder had been given and had acknowledged, and
      the records it had set out to journal, the first `durable` of them synced; `secured` is what it had
      acknowledged before anything failed. */
  datatype Moment = Moment(disk: Disk, acked: nat, secured: nat, submitted: seq<Frame>, kinds: seq<Kind>, durable: nat)

  class Store {
    var disk: Disk
    ghost var acked: nat
    ghost var secured: nat
    ghost var submitted: seq<Frame>
    ghost var kinds: seq<Kind>
    ghost var durable: nat
    ghost var failed: bool
    ghost var history: seq<Moment>
    ghost var trace: seq<Moment>

    ghost function Now(): Moment
      reads this
    {
      Moment(disk, acked, secured, submitted, kinds, durable)
    }

    /** Nothing was handed in or acknowledged. */
    twostate predicate Observed()
      reads this
    {
      acked == old(acked) && secured == old(secured) && submitted == old(submitted)
    }

    /** The observer's view did not change, and this state was noted unless a primitive had failed before. */
    twostate predicate Noted(ok: bool)
      reads this
    {
      && Observed() && kinds == old(kinds) && durable == old(durable)
      && failed == (old(failed) || !ok)
      && history == (if old(failed) then old(history) else old(history) + [Now()])
      && trace == old(trace) + [Now()]
      && (old(Steady()) ==> Steady())
    }

    /** Nothing was handed in or acknowledged at any point. */
    twostate predicate Unattended()
      reads this
    {
      && Observed() && old(trace) <= trace
      && forall i :: |old(trace)| <= i < |trace| ==>
           trace[i].secured == secured && trace[i].submitted == submitted
    }

    /** Nothing was taken back of what had been noted, and a failure is the end of `history` and `secured`. */
    twostate predicate Extended()
      reads this
    {
      && old(history) <= history && old(trace) <= trace
      && (old(failed) ==> failed && history == old(history) && secured == old(secured))
    }

    /** From the failing state on, every state noted says what is secured, of what was handed in. */
    ghost predicate Steady()
      reads this`history, this`trace, this`failed, this`secured, this`submitted
    {
      && |history| <= |trace| && (!failed ==> |history| == |trace|)
      && forall i :: 0 <= i < |trace| && |history| <= i + 1 ==>
           trace[i].secured == secured && trace[i].submitted <= submitted
    }

    /** A new, empty session directory. */
    constructor ()
      ensures disk == Disk(map[], None, None, None)
      ensures acked == 0 && secured == 0 && submitted == [] && kinds == [] && durable == 0
      ensures !failed && history == [] && trace == [] && Steady()
    {
      disk := Disk(map[], None, None, None);
      acked, secured, submitted, kinds, durable, failed := 0, 0, [], [], 0, false;
      history, trace := [], [];
    }

    /** The directory a crash left, as the next process opens it. */
    constructor Reopened(s: Surviving)
      requires forall name <- s.files :: |s.files[name]| <= MAX_FILE
      ensures disk == Found(s) && Bounded(disk) && !failed && history == [] && trace == []
    {
      disk := Found(s);
      acked, secured, submitted, kinds, durable, failed := 0, 0, [], [], 0, false;
      history, trace := [], [];
    }

    ghost method Note(ok: bool)
      modifies this`history, this`trace, this`failed
      ensures failed == (old(failed) || !ok)
      ensures history == if old(failed) then old(history) else old(history) + [Now()]
      ensures trace == old(trace) + [Now()]
    {
      trace := trace + [Now()];
      if !failed {
        history := history + [Now()];
        failed := !ok;
      }
    }

    method Outcome() returns (ok: bool)
    {
      ok := *;
    }

    /** open with create_new. */
    method Create(name: Name) returns (ok: bool)
      requires name !in disk.files && Bounded(disk)
      modifies this
      ensures disk == if ok then old(disk).(files := old(disk).files[name := FileState([], [])]) else old(disk)
      ensures Bounded(disk) && Noted(ok)
    {
      ok := Outcome();
      if ok {
        disk := disk.(files := disk.files[name := FileState([], [])]);
      }
      Note(ok);
    }

    /** write_all at the end of a file; a failed one may have written some of the bytes, and one that
        would outgrow the largest file offset fails. */
    method Append(name: Name, bytes: seq<byte>) returns (ok: bool, ghost wrote: nat)
      requires name in disk.files && Bounded(disk)
      modifies this
      ensures wrote <= |bytes| && (ok ==> wrote == |bytes|)
      ensures disk == Grown(old(disk), name, bytes[..wrote])
      ensures Bounded(disk) && Noted(ok)
    {
      var file := disk.files[name];
      ok := Outcome();
      var count := |bytes|;
      if !ok || |file.current| + |bytes| > MAX_FILE {
        ok := false;
        count :| 0 <= count <= |bytes| && |file.current| + count <= MAX_FILE;
      }
      disk := Grown(disk, name, bytes[..count]);
      wrote := count;
      Note(ok);
    }

    /** A seek and a write inside a file; a failed one may have written some of the bytes. */
    method Overwrite(name: Name, at: nat, bytes: seq<byte>) returns (ok: bool, ghost wrote: nat)
      requires name in disk.files && Bounded(disk) && at + |bytes| <= |disk.files[name].current|
      modifies this
      ensures wrote <= |bytes| && (ok ==> wrote == |bytes|)
      ensures disk == Patched(old(disk), name, at, bytes[..wrote])
      ensures Bounded(disk) && Noted(ok)
    {
      ok := Outcome();
      var count := |bytes|;
      if !ok {
        count :| 0 <= count <= |bytes|;
      }
      disk := Patched(disk, name, at, bytes[..count]);
      wrote := count;
      Note(ok);
    }

    /** sync_data or sync_all. */
    method Sync(name: Name) returns (ok: bool)
      requires name in disk.files && Bounded(disk)
      modifies this
      ensures disk == if ok then Flushed(old(disk), name) else old(disk)
      ensures Bounded(disk) && Noted(ok)
    {
      ok := Outcome();
      if ok {
        disk := Flushed(disk, name);
      }
      Note(ok);
    }

    /** rename, replacing the target. */
    method Rename(from: Name, to: Name) returns (ok: bool)
      requires from in disk.files && Bounded(disk)
      modifies this
      ensures disk == if ok then Moved(old(disk), from, to) else old(disk)
      ensures Bounded(disk) && Noted(ok)
    {
      ok := Outcome();
      if ok {
        disk := Moved(disk, from, to);
      }
      Note(ok);
    }

    /** fs::write of the temporary manifest. */
    method WriteTemporary(m: Manifest) returns (ok: bool)
      requires Bounded(disk)
      modifies this
      ensures disk == old(disk).(temporary := if ok then Some(Copy(m, false)) else None)
      ensures Bounded(disk) && Noted(ok)
    {
      ok := Outcome();
      disk := disk.(temporary := if ok then Some(Copy(m, false)) else None);
      Note(ok);
    }

    /** fs::write of a file that nothing in the model reads (completed.json). */
    method WriteUnread() returns (ok: bool)
      requires Bounded(disk)
      modifies this
      ensures disk == old(disk) && Noted(ok)
    {
      ok := Outcome();
      Note(ok);
    }

    method SyncTemporary() returns (ok: bool)
      requires Bounded(disk) && disk.temporary.Some?
      modifies this
      ensures disk == if ok then old(disk).(temporary := Some(old(disk).temporary.value.(synced := true)))
                      else old(disk)
      ensures Bounded(disk) && Noted(ok)
    {
      ok := Outcome();
      if ok {
        disk := disk.(temporary := Some(disk.temporary.value.(synced := true)));
      }
      Note(ok);
    }

    /** Renames the temporary manifest over session.json. */
    method RenameTemporary() returns (ok: bool)
      requires Bounded(disk) && disk.temporary.Some?
      modifies this
      ensures disk == if ok then old(disk).(visible := old(disk).temporary, temporary := None) else old(disk)
      ensures Bounded(disk) && Noted(ok)
    {
      ok := Outcome();
      if ok {
        disk := disk.(visible := disk.temporary, temporary := None);
      }
      Note(ok);
    }

    /** sync_directory. */
    method SyncDirectory() returns (ok: bool)
      requires Bounded(disk)
      modifies this
      ensures disk == if ok then old(disk).(settled := old(disk).visible) else old(disk)
      ensures Bounded(disk) && Noted(ok)
    {
      ok := Outcome();
      if ok {
        disk := disk.(settled := disk.visible);
      }
      Note(ok);
    }
  }

  // ---- what the primitives do to a disk ----

  function Found(s: Surviving): Disk {
    var copy := match s.manifest case None => None case Some(m) => Some(Copy(m, true));
    Disk(map name <- s.files :: FileState(s.files[name], s.files[name]), None, copy, copy)
  }

  /** e is d except for the content of one file. */
  predicate SameBut(d: Disk, name: Name, e: Disk) {
    && name in d.files
    && e == d.(files := e.files) && e.files.Keys == d.files.Keys
    && forall other <- d.files :: other != name ==> e.files[other] == d.files[other]
  }

  function Grown(d: Disk, name: Name, bytes: seq<byte>): (e: Disk)
    requires name in d.files
    ensures SameBut(d, name, e) && d.files[name].current <= e.files[name].current
    ensures e.files[name].stable == d.files[name].stable
  {
    d.(files := d.files[name := d.files[name].(current := d.files[name].current + bytes)])
  }

  function Spliced(file: seq<byte>, at: nat, bytes: seq<byte>): (r: seq<byte>)
    requires at + |bytes| <= |file|
    ensures |r| == |file|
  {
    file[..at] + bytes + file[at + |bytes|..]
  }

  function Patched(d: Disk, name: Name, at: nat, bytes: seq<byte>): (e: Disk)
    requires name in d.files && at + |bytes| <= |d.files[name].current|
    ensures SameBut(d, name, e)
  {
    d.(files := d.files[name := d.files[name].(current := Spliced(d.files[name].current, at, bytes))])
  }

  function Flushed(d: Disk, name: Name): (e: Disk)
    requires name in d.files
    ensures SameBut(d, name, e) && e.files[name].stable == e.files[name].current == d.files[name].current
  {
    d.(files := d.files[name := FileState(d.files[name].current, d.files[name].current)])
  }

  /** An append-only file that was appended to, and synced or not. */
  predicate JournalGrows(f: FileState, g: FileState) {
    && f.current <= g.current
    && (g.stable == f.stable || (f.current <= g.stable && g.stable <= g.current))
  }

  function Moved(d: Disk, from: Name, to: Name): Disk
    requires from in d.files
  {
    d.(files := (d.files - {from})[to := d.files[from]])
  }
}
