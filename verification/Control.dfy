/** The service's own recorder state beside its recorder: where commands may take it, and where not. */
module Control {
  import opened Bytes
  import opened State
  import opened Protocol

  /** The service's state, and whether it holds a recorder. */
  datatype Control = Control(state: RecorderState, live: bool)

  /** Loss of the input or of the disk faults the service. */
  predicate Faulting(f: FaultKind) {
    f.InputDeviceLost? || f.DiskCritical?
  }

  predicate Configurable(s: RecorderState) {
    s == Idle || s == Completed || s == Configured || s == Armed
  }

  /** Where a command leaves the service, given whether it was answered with success. */
  function After(c: Control, command: Command, ok: bool): Control {
    match command
    case Configure(_, _) => if ok then c.(state := Armed) else c
    case Start => if ok && c.state == Armed then Control(Recording, true) else c
    case Pause => if ok then c.(state := Paused) else c
    case Resume => if ok then c.(state := Recording) else c
    case Stop =>
      if c.state == Completed || !c.live then c else Control(if ok then Completed else Faulted, false)
    case InjectFault(fault) => if ok && Faulting(fault) then c.(state := Faulted) else c
    case _ => c
  }

  /** The command cannot succeed, whatever the disk does. */
  predicate Refused(c: Control, command: Command) {
    match command
    case Configure(rate, titles) => titles == [] || rate == 0 || !Configurable(c.state)
    case Start => c.state != Recording && c.state != Armed
    case Pause | Resume | Mark(_) | InjectFault(_) => !c.live
    case Simulate(_, callbackFrames) => callbackFrames == 0 || !c.live
    case Stop => c.state != Completed && !c.live
    case _ => false
  }

  /** What holds between two commands. */
  predicate Coupled(c: Control) {
    && (c.state == Idle || c.state == Armed || c.state == Recording || c.state == Paused
        || c.state == Completed || c.state == Faulted)
    && (c.state == Recording || c.state == Paused ==> c.live)
    && (c.live ==> c.state == Recording || c.state == Paused || c.state == Faulted)
  }

  /** A command with its outcome. */
  datatype Turn = Turn(command: Command, ok: bool)

  predicate Possible(c: Control, turns: seq<Turn>)
    decreases |turns|
  {
    turns == []
    || ((turns[0].ok ==> !Refused(c, turns[0].command))
        && Possible(After(c, turns[0].command, turns[0].ok), turns[1..]))
  }

  function AfterAll(c: Control, turns: seq<Turn>): Control
    decreases |turns|
  {
    if turns == [] then c else AfterAll(After(c, turns[0].command, turns[0].ok), turns[1..])
  }

  lemma AfterKeepsCoupled(c: Control, command: Command, ok: bool)
    requires Coupled(c) && (ok ==> !Refused(c, command))
    ensures Coupled(After(c, command, ok))
    ensures command == Start && c.live ==> After(c, command, ok) == c
  {
  }

  /** Over every run of commands, with any outcome of the disk: the service is between states that it can
      leave, has a recorder while it says that it records, and start never discards one. */
  lemma {:induction false} RunsStayCoupled(c: Control, turns: seq<Turn>)
    requires Coupled(c) && Possible(c, turns)
    ensures Coupled(AfterAll(c, turns))
    decreases |turns|
  {
    if turns != [] {
      AfterKeepsCoupled(c, turns[0].command, turns[0].ok);
      RunsStayCoupled(After(c, turns[0].command, turns[0].ok), turns[1..]);
    }
  }

  /** The life of a service: a take that is paused and resumed, and another that faults. */
  function Life(rate: u32, titles: seq<seq<byte>>, frames: u64, callbackFrames: u64): seq<Turn> {
    [Turn(Configure(rate, titles), true), Turn(Start, true), Turn(Simulate(frames, callbackFrames), true),
     Turn(Pause, true), Turn(Resume, true), Turn(Stop, true), Turn(Configure(rate, titles), true), Turn(Start, true),
     Turn(InjectFault(FaultKind.InputDeviceLost), true), Turn(Stop, true)]
  }

  /** The states it goes through. */
  function Course(from: RecorderState): seq<Control> {
    [Control(from, false), Control(Armed, false), Control(Recording, true), Control(Recording, true),
     Control(Paused, true), Control(Recording, true), Control(Completed, false), Control(Armed, false),
     Control(Recording, true), Control(Faulted, true), Control(Completed, false)]
  }

  /** From any state in which it can be configured, a service can live so, and is then in these states. */
  lemma LifeCycle(from: RecorderState, rate: u32, titles: seq<seq<byte>>, frames: u64, callbackFrames: u64, k: nat)
    requires from == Idle || from == Configured || from == Armed || from == Completed
    requires rate != 0 && titles != [] && callbackFrames != 0 && k <= 10
    ensures var life := Life(rate, titles, frames, callbackFrames);
      Possible(Control(from, false), life[..k]) && AfterAll(Control(from, false), life[..k]) == Course(from)[k]
  {
    hide Refused, After;
    var course, life := Course(from), Life(rate, titles, frames, callbackFrames);
    forall i | 0 <= i < k
      ensures !Refused(course[i], life[i].command) && After(course[i], life[i].command, life[i].ok) == course[i + 1]
    {
      LifeStep(from, rate, titles, frames, callbackFrames, i);
    }
    Along(course[..k + 1], life[..k], k);
  }

  lemma LifeStep(from: RecorderState, rate: u32, titles: seq<seq<byte>>, frames: u64, callbackFrames: u64, i: nat)
    requires from == Idle || from == Configured || from == Armed || from == Completed
    requires rate != 0 && titles != [] && callbackFrames != 0 && i < 10
    ensures var course, turn := Course(from), Life(rate, titles, frames, callbackFrames)[i];
      !Refused(course[i], turn.command) && After(course[i], turn.command, turn.ok) == course[i + 1]
  {
  }

  /** A run follows a path that each of its turns follows. */
  lemma {:induction false} Along(path: seq<Control>, turns: seq<Turn>, count: nat)
    requires count == |turns| && |path| == count + 1
    requires forall i :: 0 <= i < count ==>
               !Refused(path[i], turns[i].command) && After(path[i], turns[i].command, turns[i].ok) == path[i + 1]
    ensures Possible(path[0], turns) && AfterAll(path[0], turns) == path[count]
  {
    hide Refused, After;
    if count > 0 {
      Along(path[1..], turns[1..], count - 1);
    }
  }

  /** A failed stop is final: faulted without a recorder, the service refuses every command that would
      configure, start or stop a recording, for good. */
  lemma {:induction false} FailedStopIsFinal(turns: seq<Turn>)
    requires Possible(Control(Faulted, false), turns)
    ensures AfterAll(Control(Faulted, false), turns) == Control(Faulted, false)
    ensures forall turn <- turns :: turn.ok ==>
              !turn.command.Configure? && !turn.command.Start? && !turn.command.Stop? && !turn.command.Mark?
    decreases |turns|
  {
    if turns != [] {
      FailedStopIsFinal(turns[1..]);
      assert turns == [turns[0]] + turns[1..];
    }
  }

  /** The service's state moves along the transition relation except in these cases: configure arms
      directly from Idle and Completed, stop goes through Finalizing within the command, and pause and resume
      leave Faulted as if the fault had not happened. */
  lemma StateMovesIff(c: Control, command: Command, ok: bool)
    requires Coupled(c) && (ok ==> !Refused(c, command))
    ensures var next := After(c, command, ok).state;
      next == c.state || Allowed(c.state, next)
      <==> !((command.Configure? && ok && c.state != Armed)
             || (command.Stop? && ok && c.live)
             || ((command.Pause? || command.Resume?) && ok && c.state == Faulted))
  {
  }
}
