/** What the service answers: the snapshot of a state, and how the snapshot that a command is answered with
    follows from the one before. */
module Answers {
  import opened Bytes
  import opened Wrappers
  import opened Postcard
  import opened State
  import opened Session
  import opened Protocol

  /** What a snapshot says: of a running take its counts, and without one nothing but the state of the service
      and how many channels are pending. */
  predicate Says(s: StateSnapshot, state: RecorderState, take: Option<Manifest>, pending: nat, free: Option<u64>) {
    && s.state == state && s.availableBytes == free
    && (take.None? ==>
          && s.sessionId == None && s.framesWritten == s.framesCommitted == s.markers == s.incidents == 0
          && s.activeChannels == pending)
    && (take.Some? ==>
          && s.sessionId == Some(take.value.sessionId)
          && s.framesWritten == take.value.framesWritten && s.framesCommitted == take.value.framesCommitted
          && s.activeChannels == |take.value.channels|
          && s.markers == |take.value.markers| && s.incidents == |take.value.incidents|)
  }

  /** The frames that a gap of `frames` really adds to each of `channels` channels. */
  function Inserted(frames: u64, channels: nat): nat {
    if channels == 0 then 0 else frames * channels % 0x1_0000_0000_0000_0000 / channels
  }

  /** From answer a to the answer b of a successful command, told in the answers. `again` says that a marker
      answers the request already, `pending` how many channels are configured for the next take, `session` is
      the identity of a new take and `free` the space that is left. */
  predicate Follows(a: StateSnapshot, command: Command, again: bool, pending: nat, session: Uuid, free: Option<u64>,
                    b: StateSnapshot)
  {
    var same := a.(availableBytes := free);
    match command
    case Configure(_, titles) => a.sessionId == None && b == same.(state := Armed, activeChannels := |titles|)
    case Start =>
      if a.state == Armed then b == same.(state := RecorderState.Recording, sessionId := Some(session))
      else b == same
    case Pause => b == same.(state := Paused)
    case Resume => b == same.(state := RecorderState.Recording)
    case Mark(_) => b == same.(markers := if again then a.markers else a.markers + 1)
    case Stop =>
      if a.sessionId == None then b == same
      else b == StateSnapshot(Completed, None, 0, 0, pending, 0, 0, free)
    case Simulate(frames, _) =>
      && b == same.(framesWritten := b.framesWritten, framesCommitted := b.framesCommitted)
      && b.framesWritten == (if a.framesWritten + frames < 0x1_0000_0000_0000_0000 then a.framesWritten + frames
                             else 0xFFFF_FFFF_FFFF_FFFF)
      && b.framesCommitted == if b.framesWritten == a.framesWritten then a.framesCommitted else b.framesWritten
    case InjectFault(fault) =>
      && b == same.(incidents := a.incidents + 1, state := b.state,
                    framesWritten := b.framesWritten, framesCommitted := b.framesCommitted)
      && b.state == (if fault == FaultKind.InputDeviceLost || fault == FaultKind.DiskCritical then Faulted else a.state)
      && (match fault
          case TimestampJump(Some(frames)) =>
            b.framesWritten == b.framesCommitted == a.framesWritten + Inserted(frames, a.activeChannels)
          case _ => b.framesWritten == a.framesWritten && b.framesCommitted == a.framesCommitted)
    case _ => b == same
  }

  // ---- command by command ----

  /** Nothing moves when the state is asked for, a running take started, or an absent one stopped. */
  lemma StayFollows(a: StateSnapshot, command: Command, again: bool, session: Uuid, b: StateSnapshot,
                    state: RecorderState, take: Option<Manifest>, pending: nat, free: Option<u64>, left: Option<u64>)
    requires Says(a, state, take, pending, free) && Says(b, state, take, pending, left)
    requires command.Status? || (command.Start? && state != Armed) || (command.Stop? && take == None)
    ensures Follows(a, command, again, pending, session, left, b)
  {
  }

  lemma ConfigureFollows(a: StateSnapshot, command: Command, again: bool, session: Uuid, b: StateSnapshot,
                         state: RecorderState, pending: nat, free: Option<u64>, left: Option<u64>)
    requires command.Configure?
    requires Says(a, state, None, pending, free) && Says(b, Armed, None, |command.titles|, left)
    ensures Follows(a, command, again, pending, session, left, b)
  {
  }

  lemma StartFollows(a: StateSnapshot, again: bool, b: StateSnapshot, n: Manifest, pending: nat,
                     free: Option<u64>, left: Option<u64>)
    requires Says(a, Armed, None, pending, free) && Says(b, RecorderState.Recording, Some(n), pending, left)
    requires n.framesWritten == n.framesCommitted == 0
    requires |n.channels| == pending && n.markers == [] && n.incidents == []
    ensures Follows(a, Start, again, pending, n.sessionId, left, b)
  {
  }

  lemma MoveFollows(a: StateSnapshot, command: Command, again: bool, session: Uuid, b: StateSnapshot,
                    state: RecorderState, m: Manifest, n: Manifest, pending: nat, free: Option<u64>, left: Option<u64>)
    requires command.Pause? || command.Resume?
    requires Says(a, state, Some(m), pending, free)
    requires Says(b, if command.Pause? then Paused else RecorderState.Recording, Some(n), pending, left)
    requires n == m.(state := n.state)
    ensures Follows(a, command, again, pending, session, left, b)
  {
  }

  lemma MarkFollows(a: StateSnapshot, command: Command, again: bool, session: Uuid, b: StateSnapshot,
                    state: RecorderState, m: Manifest, n: Manifest, pending: nat, free: Option<u64>, left: Option<u64>)
    requires command.Mark?
    requires Says(a, state, Some(m), pending, free) && Says(b, state, Some(n), pending, left)
    requires n == m.(markers := n.markers) && |n.markers| == if again then |m.markers| else |m.markers| + 1
    ensures Follows(a, command, again, pending, session, left, b)
  {
  }

  lemma StopFollows(a: StateSnapshot, again: bool, session: Uuid, b: StateSnapshot,
                    state: RecorderState, m: Manifest, pending: nat, free: Option<u64>, left: Option<u64>)
    requires Says(a, state, Some(m), pending, free) && Says(b, Completed, None, pending, left)
    ensures Follows(a, Stop, again, pending, session, left, b)
  {
  }

  lemma SimulationFollows(a: StateSnapshot, command: Command, again: bool, session: Uuid, b: StateSnapshot,
                          state: RecorderState, m: Manifest, n: Manifest, pending: nat, free: Option<u64>,
                          left: Option<u64>)
    requires command.Simulate?
    requires Says(a, state, Some(m), pending, free) && Says(b, state, Some(n), pending, left)
    requires n == m.(framesWritten := n.framesWritten, framesCommitted := n.framesCommitted)
    requires var end := m.framesWritten + command.frames;
      n.framesWritten == if end < U64_SPAN then end else U64_SPAN - 1
    requires n.framesCommitted == if n.framesWritten == m.framesWritten then m.framesCommitted else n.framesWritten
    ensures Follows(a, command, again, pending, session, left, b)
  {
  }

  lemma FaultFollows(a: StateSnapshot, fault: FaultKind, again: bool, session: Uuid, b: StateSnapshot,
                     state: RecorderState, m: Manifest, after: RecorderState, n: Manifest, pending: nat,
                     free: Option<u64>, left: Option<u64>)
    requires Says(a, state, Some(m), pending, free) && Says(b, after, Some(n), pending, left)
    requires after == if fault == FaultKind.InputDeviceLost || fault == FaultKind.DiskCritical then Faulted else state
    requires n == m.(framesWritten := n.framesWritten, framesCommitted := n.framesCommitted, incidents := n.incidents)
    requires |n.incidents| == |m.incidents| + 1
    requires match fault
      case TimestampJump(Some(frames)) =>
        n.framesWritten == n.framesCommitted == m.framesWritten + Inserted(frames, |m.channels|)
      case _ => n.framesWritten == m.framesWritten && n.framesCommitted == m.framesCommitted
    ensures Follows(a, Command.InjectFault(fault), again, pending, session, left, b)
  {
  }
}
