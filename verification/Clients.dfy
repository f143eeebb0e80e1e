/** The service as its clients see it: what two answers in a row have to do with each other. */
module Clients {
  import opened Wrappers
  import opened Postcard
  import opened State
  import opened Protocol
  import opened ReplayCache
  import opened Answers
  import opened Service
  import R = Recorder

  /** A marker of the running take answers the request. */
  ghost predicate Again(service: Service, requestId: Uuid)
    reads service`recorder, service.recorder
  {
    service.recorder != null && exists m <- service.recorder.manifest.markers :: m.requestId == requestId
  }

  /** The commands that begin, end and prepare a take, and the one that asks. */
  predicate Framing(command: Command) {
    command.Status? || command.Configure? || command.Start? || command.Stop?
  }

  method FramingAnswer(service: Service, a: StateSnapshot, before: World, request: Request, world: World)
    returns (r: Response)
    requires service.Valid() && service.Executes(request) && service.Tells(a, before)
    requires Framing(request.command)
    modifies service, service.Live()
    ensures service.Kept()
    ensures r.result.Ok? ==>
      && (if request.command.Status? then r.result.value.Snapshot? else r.result.value.Accepted?)
      && service.Tells(r.result.value.snapshot, world)
      && Follows(a, request.command, old(Again(service, request.requestId)), old(service.Pending()), world.sessionId,
                 world.availableBytes, r.result.value.snapshot)
  {
    hide R.Recorder.Valid, R.ContinuesTake, R.MarkersInOrder, Caches, Service.Excused, OnlyMarker, R.PublishedUpTo;
    hide R.Recorder.Kept, Signal, Says, Follows;
    ghost var state, pending, m, command := service.state, service.Pending(), service.Take(), request.command;
    ghost var again := Again(service, request.requestId);
    r := service.Execute(request, world);
    if r.result.Ok? {
      ghost var b, n := r.result.value.snapshot, service.Take();
      ghost var session, free, left := world.sessionId, before.availableBytes, world.availableBytes;
      match command
      case Status => StayFollows(a, command, again, session, b, state, m, pending, free, left);
      case Configure(_, _) => ConfigureFollows(a, command, again, session, b, state, pending, free, left);
      case Start =>
        if state == Armed {
          StartFollows(a, again, b, n.value, pending, free, left);
        } else {
          StayFollows(a, command, again, session, b, state, m, pending, free, left);
        }
      case Stop =>
        if m == None {
          StayFollows(a, command, again, session, b, state, m, pending, free, left);
        } else {
          StopFollows(a, again, session, b, state, m.value, pending, free, left);
        }
    }
  }

  /** The commands that act on a running take. */
  predicate Acting(command: Command) {
    command.Pause? || command.Resume? || command.Mark? || command.Simulate? || command.InjectFault?
  }

  method ActingAnswer(service: Service, a: StateSnapshot, before: World, request: Request, world: World)
    returns (r: Response)
    requires service.Valid() && service.Executes(request) && service.Tells(a, before)
    requires Acting(request.command)
    modifies service, service.Live()
    ensures service.Kept()
    ensures r.result.Ok? ==>
      && (if request.command.Status? then r.result.value.Snapshot? else r.result.value.Accepted?)
      && service.Tells(r.result.value.snapshot, world)
      && Follows(a, request.command, old(Again(service, request.requestId)), old(service.Pending()), world.sessionId,
                 world.availableBytes, r.result.value.snapshot)
  {
    hide R.Recorder.Valid, R.ContinuesTake, R.MarkersInOrder, Caches, Service.Excused, OnlyMarker, R.PublishedUpTo;
    hide R.Recorder.Kept, Signal, Says, Follows;
    ghost var state, pending, m, command := service.state, service.Pending(), service.Take(), request.command;
    ghost var again := Again(service, request.requestId);
    r := service.Execute(request, world);
    if r.result.Ok? {
      ghost var b, n := r.result.value.snapshot, service.Take();
      ghost var session, free, left := world.sessionId, before.availableBytes, world.availableBytes;
      match command
      case Pause => MoveFollows(a, command, again, session, b, state, m.value, n.value, pending, free, left);
      case Resume => MoveFollows(a, command, again, session, b, state, m.value, n.value, pending, free, left);
      case Mark(_) => MarkFollows(a, command, again, session, b, state, m.value, n.value, pending, free, left);
      case Simulate(_, _) =>
        SimulationFollows(a, command, again, session, b, state, m.value, n.value, pending, free, left);
      case InjectFault(fault) =>
        FaultFollows(a, fault, again, session, b, state, m.value, service.state, n.value, pending, free, left);
    }
  }

  /** The answer to a command follows from any snapshot of the service before it. */
  method NextAnswer(service: Service, a: StateSnapshot, before: World, request: Request, world: World)
    returns (r: Response)
    requires service.Valid() && service.Executes(request) && service.Tells(a, before)
    requires Framing(request.command) || Acting(request.command)
    modifies service, service.Live()
    ensures service.Kept()
    ensures r.result.Ok? ==>
      && (if request.command.Status? then r.result.value.Snapshot? else r.result.value.Accepted?)
      && service.Tells(r.result.value.snapshot, world)
      && Follows(a, request.command, old(Again(service, request.requestId)), old(service.Pending()), world.sessionId,
                 world.availableBytes, r.result.value.snapshot)
  {
    hide R.Recorder.Valid, Caches, Says, Follows, Service.Kept, Again;
    if Framing(request.command) {
      r := FramingAnswer(service, a, before, request, world);
    } else {
      r := ActingAnswer(service, a, before, request, world);
    }
  }

  /** A status request is always answered, and changes nothing but what has been executed. */
  method Ask(service: Service, status: Request, world: World) returns (a: StateSnapshot)
    requires service.Valid() && service.Executes(status) && status.command.Status?
    modifies service, service.Live()
    ensures service.Kept() && service.Unmoved() && service.Tells(a, world)
    ensures |service.executed| == |old(service.executed)| + 1 && old(service.executed) < service.executed
    ensures service.executed[|old(service.executed)|].requestId == status.requestId
  {
    hide R.Recorder.Valid, Caches, Says, R.ContinuesTake, R.MarkersInOrder;
    var answer := service.Execute(status, world);
    a := answer.result.value.snapshot;
  }

  /** A status request, and then a command: the second answer follows from the first. */
  method TwoAnswers(service: Service, status: Request, before: World, request: Request, world: World)
    returns (a: StateSnapshot, r: Response)
    requires service.Valid() && service.Executes(status) && service.Executes(request)
    requires status.command.Status? && status.requestId != request.requestId
    requires Framing(request.command) || Acting(request.command)
    modifies service, service.Live()
    ensures service.Kept()
    ensures r.result.Ok? ==>
      && (if request.command.Status? then r.result.value.Snapshot? else r.result.value.Accepted?)
      && service.Tells(r.result.value.snapshot, world)
      && Follows(a, request.command, old(Again(service, request.requestId)), old(service.Pending()), world.sessionId,
                 world.availableBytes, r.result.value.snapshot)
  {
    hide R.Recorder.Valid, Caches, Says, Follows, R.ContinuesTake, R.MarkersInOrder;
    a := Ask(service, status, before);
    r := NextAnswer(service, a, before, request, world);
  }
}
