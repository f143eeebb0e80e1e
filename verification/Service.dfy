/** The audio service: a command machine around at most one recorder, behind a token and a replay cache. */
module Service {
  import opened Bytes
  import opened Wrappers
  import opened Postcard
  import opened JournalFormat
  import opened Rf64
  import opened State
  import opened Session
  import opened Storage
  import opened Interleave
  import opened Division
  import opened Protocol
  import opened ReplayCache
  import opened Control
  import opened Answers
  import opened LiveRecovery
  import opened Recovery
  import R = Recorder

  /** The device identity of service recordings. */
  const SIMULATOR: seq<byte> := Ascii("deterministic-simulator")

  datatype PendingConfig = PendingConfig(sampleRate: u32, titles: seq<seq<byte>>)

  /** What a command takes from outside: free space, fresh identities, and the answer of the commands that
      look at other session directories and at the devices. `reached` says that no other directory ends a
      recovery of several before it comes to the live one. */
  datatype World = World(
    availableBytes: Option<u64>,
    sessionId: Uuid,
    texts: Texts,
    markerId: Uuid,
    reached: bool,
    answer: Result<CommandResult, ProtocolError>)

  function OfIo(): ProtocolError {
    ProtocolError.Service(OfRecorder(R.Io))
  }

  function OfState(): ProtocolError {
    ProtocolError.Service(OfRecorder(R.InvalidState(RecorderState.Recording)))
  }

  function OfTransition(s: RecorderState): ProtocolError {
    ProtocolError.Service(OfRecorder(R.InvalidTransition(StateError(s, s))))
  }

  predicate Filled(f: FaultKind) {
    f.TimestampJump? && f.missingFrames.Some?
  }

  /** The silence that a fault inserts. */
  function Filling(f: FaultKind, channels: nat): seq<Frame> {
    if Filled(f) && channels > 0 then Silence(R.GapFrames(f.missingFrames.value, channels), channels) else []
  }

  /** A jump that cannot be filled: the take is not recording, or the samples to fill it with, a product that
      wraps, end inside a frame. */
  predicate Unfillable(f: FaultKind, m: Manifest) {
    && Filled(f)
    && (m.state == RecorderState.Recording ==>
          |m.channels| > 0 && !R.WholeGap(f.missingFrames.value, |m.channels|))
  }

  function UnfilledFor(f: FaultKind, m: Manifest): ProtocolError
    requires Filled(f)
  {
    if m.state != RecorderState.Recording then OfState()
    else ProtocolError.Service(OfRecorder(R.PartialGap(f.missingFrames.value, |m.channels|)))
  }

  /** The incident that a fault is noted as; a jump over a known number of frames is filled instead. */
  function NotedAs(f: FaultKind): (IncidentKind, Option<u64>) {
    match f
    case BackendXrun => (IncidentKind.BackendXrun, None)
    case QueueOverflow(missing) => (IncidentKind.QueueOverflow, missing)
    case TimestampJump(Some(frames)) => (IncidentKind.GapInserted, Some(frames))
    case TimestampJump(None) => (IncidentKind.UnknownDiscontinuity, None)
    case InputDeviceLost => (IncidentKind.InputDeviceLost, None)
    case MonitorDeviceLost => (IncidentKind.MonitorDeviceLost, None)
    case DiskCritical => (IncidentKind.DiskCritical, None)
  }

  /** Each fault is noted under its own name, except that a jump is a gap or a discontinuity. */
  lemma FaultsByName(missing: Option<u64>, frames: u64)
    ensures NotedAs(FaultKind.BackendXrun) == (IncidentKind.BackendXrun, None)
    ensures NotedAs(FaultKind.QueueOverflow(missing)) == (IncidentKind.QueueOverflow, missing)
    ensures NotedAs(TimestampJump(Some(frames))) == (IncidentKind.GapInserted, Some(frames))
    ensures NotedAs(TimestampJump(None)) == (IncidentKind.UnknownDiscontinuity, None)
    ensures NotedAs(FaultKind.InputDeviceLost) == (IncidentKind.InputDeviceLost, None)
    ensures NotedAs(FaultKind.MonitorDeviceLost) == (IncidentKind.MonitorDeviceLost, None)
    ensures NotedAs(FaultKind.DiskCritical) == (IncidentKind.DiskCritical, None)
  {
  }

  /** What the journal is told of a fault in a take of `start` frames, which has n frames after it. */
  function JournaledAs(f: FaultKind, start: u64, n: u64): seq<Kind> {
    match f
    case BackendXrun => [XrunObserved(n)]
    case QueueOverflow(missing) => [Kind.QueueOverflow(n, missing)]
    case TimestampJump(Some(frames)) =>
      [FramesWritten(n), FramesCommitted(n), Kind.GapInserted(start, frames), Kind.GapInserted(n, frames)]
    case TimestampJump(None) => [Kind.TimestampDiscontinuity(n, None)]
    case InputDeviceLost => [Kind.InputDeviceLost(n)]
    case MonitorDeviceLost => [Kind.MonitorDeviceLost(n)]
    case DiskCritical => [Kind.DiskCritical(0)]
  }

  /** Marker i, and no other, answers the request. */
  predicate OnlyMarker(markers: seq<Marker>, i: nat, requestId: Uuid)
    requires i < |markers|
  {
    markers[i].requestId == requestId && forall j :: 0 <= j < |markers| && j != i ==> markers[j].requestId != requestId
  }

  lemma TheOnlyMarker(m: Manifest, marker: Marker) returns (i: nat)
    requires R.MarkersInOrder(m) && marker in m.markers
    ensures i < |m.markers| && OnlyMarker(m.markers, i, marker.requestId)
  {
    i :| 0 <= i < |m.markers| && m.markers[i] == marker;
  }

  /** Frames `from` up to `to` of the simulated signal. */
  function Signal(tone: (int, int) -> Sample, channels: nat, from: nat, to: nat): (frames: seq<Frame>)
    requires from <= to
    ensures |frames| == to - from && forall frame <- frames :: |frame| == channels
  {
    seq(to - from, f => seq(channels, c => tone(c, from + f)))
  }

  /** What was added is, on every channel, the signal at the position of the frame. */
  lemma AddedSamples(tone: (int, int) -> Sample, a: Manifest, before: seq<Frame>, b: Manifest, after: seq<Frame>,
                     to: nat, f: nat, c: nat)
    requires Adds(tone, a, before, b, after, to) && a.framesWritten + f < to && c < |a.channels|
    ensures |after| == |before| + (to - a.framesWritten) && before <= after
    ensures |after[|before| + f]| == |a.channels| && after[|before| + f][c] == tone(c, a.framesWritten + f)
  {
  }

  lemma SignalConcat(tone: (int, int) -> Sample, channels: nat, a: nat, b: nat, c: nat)
    requires a <= b <= c
    ensures Signal(tone, channels, a, b) + Signal(tone, channels, b, c) == Signal(tone, channels, a, c)
  {
  }

  lemma NoSignal(tone: (int, int) -> Sample, channels: nat, at: nat)
    ensures Signal(tone, channels, at, at) == []
  {
  }

  /** From (a, before) to (b, after) nothing changed but that frames of the signal up to `to` were added. */
  predicate Adds(tone: (int, int) -> Sample, a: Manifest, before: seq<Frame>, b: Manifest, after: seq<Frame>, to: nat) {
    && a.framesWritten <= to == b.framesWritten
    && b == a.(framesWritten := b.framesWritten, framesCommitted := b.framesCommitted)
    && (a.framesWritten < to ==> b.framesCommitted == to) && (a.framesWritten == to ==> b == a)
    && after == before + Signal(tone, |a.channels|, a.framesWritten, to)
  }

  lemma AddsNothing(tone: (int, int) -> Sample, a: Manifest, before: seq<Frame>)
    ensures Adds(tone, a, before, a, before, a.framesWritten)
  {
    NoSignal(tone, |a.channels|, a.framesWritten);
  }

  lemma AddsMeans(tone: (int, int) -> Sample, a: Manifest, before: seq<Frame>, b: Manifest, after: seq<Frame>, to: nat)
    requires Adds(tone, a, before, b, after, to)
    ensures b.framesWritten == to && b.state == a.state
  {
  }

  lemma AddsTransitive(tone: (int, int) -> Sample, a: Manifest, before: seq<Frame>, b: Manifest, between: seq<Frame>,
                       to: nat, c: Manifest, after: seq<Frame>, further: nat)
    requires Adds(tone, a, before, b, between, to) && Adds(tone, b, between, c, after, further)
    ensures Adds(tone, a, before, c, after, further)
  {
    hide Signal;
    SignalConcat(tone, |a.channels|, a.framesWritten, to, further);
  }

  /** The sample buffer of one simulated callback. */
  method Generate(tone: (int, int) -> Sample, channels: nat, from: nat, count: nat) returns (samples: seq<Sample>)
    requires channels > 0
    ensures Frames(samples, channels) == Signal(tone, channels, from, from + count)
    ensures |samples| == count * channels
  {
    samples := [];
    ghost var frames: seq<Frame> := [];
    for f := 0 to count
      invariant frames == Signal(tone, channels, from, from + f) && samples == Interleaved(frames)
    {
      ghost var before := samples;
      ghost var row: Frame := [];
      for c := 0 to channels
        invariant row == seq(c, i => tone(i, from + f)) && samples == before + row
      {
        samples := samples + [tone(c, from + f)];
        row := row + [tone(c, from + f)];
      }
      assert (frames + [row])[..|frames|] == frames;
      assert frames + [row] == Signal(tone, channels, from, from + f + 1);
      frames := frames + [row];
    }
    FramesOfInterleaved(frames, channels);
  }

  class Service {
    const token: seq<byte>
    const tone: (int, int) -> Sample
    var state: RecorderState
    var pending: Option<PendingConfig>
    var recorder: R.Recorder?
    var cached: map<Uuid, Response>
    var cacheOrder: seq<Uuid>
    // what happened so far
    ghost var executed: seq<Response>
    ghost var takes: seq<Manifest>

    constructor (token: seq<byte>, tone: (int, int) -> Sample)
      ensures Valid() && state == Idle && recorder == null && executed == [] && takes == []
      ensures this.token == token && this.tone == tone
    {
      this.token, this.tone := token, tone;
      state, pending, recorder, cached, cacheOrder := Idle, None, null, map[], [];
      executed, takes := [], [];
    }

    ghost function Live(): set<object>
      reads this`recorder
    {
      if recorder == null then {} else {recorder, recorder.journal, recorder.store}
    }

    function ControlState(): Control
      reads this`state, this`recorder
    {
      Control(state, recorder != null)
    }

    /** The recorder is sound and says what the service says, unless its disk has failed or a fault is noted. */
    ghost predicate Recording()
      reads this`state, this`recorder, Live()
    {
      recorder != null ==>
        && recorder.Valid() && recorder.maxAudioBytes == None
        && (recorder.manifest.state == RecorderState.Recording || recorder.manifest.state == Paused)
        && (!recorder.store.failed && state != Faulted ==> state == recorder.manifest.state)
    }

    ghost predicate Valid()
      reads this, Live()
    {
      && Coupled(ControlState()) && Recording()
      && (pending.Some? ==> pending.value.titles != [] && pending.value.sampleRate != 0)
      && (state == Armed ==> pending.Some?)
      && Caches(cached, cacheOrder, executed)
      && (forall take <- takes :: R.MarkersInOrder(take) && take.state == Completed)
    }

    /** Nothing of the service or its recording changes. */
    twostate predicate Unmoved()
      reads this`state, this`pending, this`recorder, this`takes, Live()
    {
      && state == old(state) && pending == old(pending) && recorder == old(recorder) && takes == old(takes)
      && (recorder != null ==> recorder.Untouched())
    }

    /** The take goes on: what was in it stays in it. */
    twostate predicate SameTake()
      reads this, Live()
    {
      recorder == old(recorder) && takes == old(takes) && (recorder != null ==> recorder.Kept())
    }

    /** The channels configured for the next take. */
    function Pending(): nat
      reads this`pending
    {
      if pending.Some? then |pending.value.titles| else 0
    }

    ghost function Take(): Option<Manifest>
      reads this`recorder, recorder
    {
      if recorder == null then None else Some(recorder.manifest)
    }

    ghost predicate Tells(s: StateSnapshot, world: World)
      reads this`state, this`pending, this`recorder, recorder
    {
      Says(s, state, Take(), Pending(), world.availableBytes)
    }

    /** What the answer of a successful command says. */
    ghost predicate Answers(command: Command, world: World, answer: CommandResult)
      reads this`state, this`pending, this`recorder, recorder
    {
      if Asks(command) || command.Recover? then world.answer == Ok(answer)
      else if command.Status? then answer.Snapshot? && Tells(answer.snapshot, world)
      else answer.Accepted? && Tells(answer.snapshot, world)
    }

    function Snapshot(world: World): StateSnapshot
      reads this, recorder
    {
      if recorder == null then
        StateSnapshot(state, None, 0, 0, if pending.Some? then |pending.value.titles| else 0, 0, 0,
                      world.availableBytes)
      else
        var m := recorder.manifest;
        StateSnapshot(state, Some(m.sessionId), m.framesWritten, m.framesCommitted,
                      |m.channels|, |m.markers|, |m.incidents|, world.availableBytes)
    }

    /** Command::Configure. */
    method Configure(sampleRate: u32, titles: seq<seq<byte>>) returns (r: Result<(), ProtocolError>)
      requires Valid()
      modifies this`state, this`pending
      ensures Valid() && SameTake()
      ensures ControlState() == After(old(ControlState()), Command.Configure(sampleRate, titles), r.Ok?)
      ensures r.Ok? <==>
                && titles != [] && sampleRate != 0
                && (old(state) == Idle || old(state) == Completed || old(state) == Configured || old(state) == Armed)
      ensures r.Ok? ==> pending == Some(PendingConfig(sampleRate, titles))
      ensures r.Err? ==> Unmoved()
      ensures r.Err? ==>
        r.error == InvalidCommand(if titles == [] || sampleRate == 0 then RateAndChannelsRequired
                                  else CannotConfigure(state))
    {
      hide R.Recorder.Valid, Caches, R.MarkersInOrder;
      if titles == [] || sampleRate == 0 {
        return Err(InvalidCommand(RateAndChannelsRequired));
      }
      if !Configurable(state) {
        return Err(InvalidCommand(CannotConfigure(state)));
      }
      pending := Some(PendingConfig(sampleRate, titles));
      state := Armed;
      return Ok(());
    }

    /** The manifest's state moved and nothing else of the recording. */
    twostate predicate MovedTo(to: RecorderState)
      reads this`recorder, Live()
    {
      && recorder != null && recorder == old(recorder) && recorder.manifest == old(recorder.manifest).(state := to)
      && recorder.store.submitted == old(recorder.store.submitted)
    }

    /** Command::Pause. */
    method Pause() returns (r: Result<(), ProtocolError>)
      requires Valid()
      modifies this`state, Live()
      ensures Valid() && SameTake() && ControlState() == After(old(ControlState()), Command.Pause, r.Ok?)
      ensures recorder == null ==> r == Err(InvalidCommand(NotRecording)) && Unmoved()
      ensures recorder != null && old(recorder.manifest.state) == Paused ==> r == Err(OfTransition(Paused)) && Unmoved()
      ensures recorder != null && old(recorder.manifest.state) == RecorderState.Recording ==>
                MovedTo(Paused) && (r.Err? ==> r.error == OfIo() && recorder.store.failed)
    {
      hide R.Recorder.Valid, Caches, R.MarkersInOrder;
      if recorder == null {
        return Err(InvalidCommand(NotRecording));
      }
      var paused := recorder.Pause();
      if paused.Err? {
        return Err(ProtocolError.Service(OfRecorder(paused.error)));
      }
      state := Paused;
      return Ok(());
    }

    /** Command::Resume. */
    method Resume() returns (r: Result<(), ProtocolError>)
      requires Valid()
      modifies this`state, Live()
      ensures Valid() && SameTake() && ControlState() == After(old(ControlState()), Command.Resume, r.Ok?)
      ensures recorder == null ==> r == Err(InvalidCommand(NotRecording)) && Unmoved()
      ensures recorder != null && old(recorder.manifest.state) == RecorderState.Recording ==>
                r == Err(OfTransition(RecorderState.Recording)) && Unmoved()
      ensures recorder != null && old(recorder.manifest.state) == Paused ==>
                MovedTo(RecorderState.Recording) && (r.Err? ==> r.error == OfIo() && recorder.store.failed)
    {
      hide R.Recorder.Valid, Caches, R.MarkersInOrder;
      if recorder == null {
        return Err(InvalidCommand(NotRecording));
      }
      var resumed := recorder.Resume();
      if resumed.Err? {
        return Err(ProtocolError.Service(OfRecorder(resumed.error)));
      }
      state := RecorderState.Recording;
      return Ok(());
    }

    /** A recording of the pending configuration has just begun. */
    ghost predicate Began(world: World)
      reads this`recorder, this`pending, Live()
    {
      && recorder != null && pending.Some? && !recorder.store.failed
      && R.Begins(recorder.manifest, pending.value.sampleRate, pending.value.titles, world.sessionId, world.texts)
      && recorder.device == Ascii("deterministic-simulator")
      && recorder.store.submitted == [] && recorder.store.acked == 0
    }

    /** Command::Start. A recording that runs is left alone; otherwise a new one begins, and none is lost. */
    method Start(world: World) returns (r: Result<(), ProtocolError>)
      requires Valid()
      modifies this`state, this`recorder
      ensures Valid() && ControlState() == After(old(ControlState()), Command.Start, r.Ok?)
      ensures pending == old(pending) && takes == old(takes)
      ensures old(recorder) != null ==> recorder == old(recorder)
      ensures old(state) == RecorderState.Recording ==> r.Ok?
      ensures old(state) != RecorderState.Recording && old(state) != Armed ==>
                r == Err(InvalidCommand(CannotStart(old(state))))
      ensures old(state) == Armed && r.Err? ==> r == Err(OfIo())
      ensures old(state) == Armed && r.Ok? ==>
                Began(world) && fresh(recorder) && fresh(recorder.journal) && fresh(recorder.store)
    {
      hide R.Recorder.Valid, Caches, R.MarkersInOrder;
      if state == RecorderState.Recording {
        return Ok(());
      }
      if state != Armed {
        return Err(InvalidCommand(CannotStart(state)));
      }
      var config := R.Config(pending.value.sampleRate, pending.value.titles, SIMULATOR, None);
      var created := R.Create(config, world.sessionId, world.texts);
      if created.Err? {
        return Err(ProtocolError.Service(OfRecorder(created.error)));
      }
      state := RecorderState.Recording;
      recorder := created.value;
      return Ok(());
    }

    /** A mark changes nothing but the markers. It adds none if the request is already answered by one, one if
        it succeeds otherwise, and at most one if it fails; after a success exactly one answers the request. */
    twostate predicate MarkedOnce(requestId: Uuid, note: Text, markerId: Uuid, ok: bool)
      reads this`recorder, Live()
    {
      && recorder != null && recorder == old(recorder)
      && var markers := old(recorder.manifest.markers);
      && var marker := Marker(markerId, requestId, recorder.manifest.framesWritten, note);
      && recorder.manifest == old(recorder.manifest).(markers := recorder.manifest.markers)
      && (recorder.manifest.markers == markers || recorder.manifest.markers == markers + [marker])
      && (if exists marker <- markers :: marker.requestId == requestId then ok && recorder.Untouched()
          else ok ==> recorder.manifest.markers == markers + [marker])
      && (ok ==>
            exists i :: 0 <= i < |recorder.manifest.markers| && OnlyMarker(recorder.manifest.markers, i, requestId))
    }

    /** Command::Mark. A request that is already answered by a marker adds none. */
    method Mark(requestId: Uuid, note: Text, world: World) returns (r: Result<(), ProtocolError>)
      requires Valid()
      modifies Live()
      ensures Valid() && SameTake() && ControlState() == old(ControlState()) && pending == old(pending)
      ensures recorder == null ==> r == Err(InvalidCommand(NotRecording))
      ensures recorder != null ==> MarkedOnce(requestId, note, world.markerId, r.Ok?)
      ensures recorder != null && r.Err? ==>
                || (!Fits(MarkerAdded(world.markerId, old(recorder.manifest.framesWritten), note)) && Unmoved()
                    && r.error == ProtocolError.Service(OfRecorder(R.NoteTooLarge)))
                || (recorder.store.failed && r.error == OfIo())
    {
      hide R.Recorder.Valid, Caches, R.MarkersInOrder;
      if recorder == null {
        return Err(InvalidCommand(NotRecording));
      }
      var marked := recorder.AddMarker(requestId, note, world.markerId);
      if marked.Ok? {
        recorder.InOrder();
        ghost var i := TheOnlyMarker(recorder.manifest, marked.value);
      }
      return if marked.Ok? then Ok(()) else Err(ProtocolError.Service(OfRecorder(marked.error)));
    }

    /** Command::Stop. The recorder is given up before its finalization is known to succeed. */
    method Stop() returns (r: Result<(), ProtocolError>)
      requires Valid()
      modifies this`state, this`recorder, this`takes, Live()
      ensures Valid() && ControlState() == After(old(ControlState()), Command.Stop, r.Ok?) && pending == old(pending)
      ensures old(state) == Completed ==> r.Ok? && takes == old(takes)
      ensures old(state) != Completed && old(recorder) == null ==> r == Err(InvalidCommand(NotRecording))
      ensures old(recorder) == null ==> Unmoved()
      ensures |old(takes)| <= |takes| && takes[..|old(takes)|] == old(takes)
      ensures old(recorder) != null && r.Err? ==> GivenUp(old(recorder), r.error)
      ensures old(recorder) != null && r.Ok? ==> Finished(old(recorder))
    {
      hide R.Recorder.Valid, Finished, Caches, R.MarkersInOrder;
      if state == Completed {
        return Ok(());
      }
      if recorder == null {
        return Err(InvalidCommand(NotRecording));
      }
      r := Finish();
    }

    /** The recorder was given up unfinished, because its disk has failed. */
    twostate predicate GivenUp(stopped: R.Recorder, e: ProtocolError)
      reads this`takes, stopped.store
    {
      && stopped.store.failed && takes == old(takes)
      && e.Service? && e.cause.OfRecorder? && (e.cause.error == R.Io || e.cause.error.Invalid?)
    }

    /** The finalization of the recorder. */
    method Finish() returns (r: Result<(), ProtocolError>)
      requires Valid() && recorder != null
      modifies this`state, this`recorder, this`takes, Live()
      ensures Valid() && recorder == null && state == if r.Ok? then Completed else Faulted
      ensures pending == old(pending)
      ensures |old(takes)| <= |takes| && takes[..|old(takes)|] == old(takes)
      ensures r.Err? ==> GivenUp(old(recorder), r.error)
      ensures r.Ok? ==> Finished(old(recorder))
    {
      hide R.Recorder.Valid, R.Recorder.Shaped, R.PublishedUpTo, R.AllPublished, R.Recorder.HalfPublished;
      hide Caches, R.MarkersInOrder, R.LayoutOf, R.Recorder.Latest;
      var stopped := recorder;
      ghost var before := stopped.manifest;
      stopped.InOrder();
      recorder := null;
      state := Finalizing;
      var finalized := stopped.Finalize();
      if finalized.Err? {
        state := Faulted;
        return Err(ProtocolError.Service(OfRecorder(finalized.error)));
      }
      state := Completed;
      R.MarkersKept(before, finalized.value);
      takes := takes + [finalized.value];
      return Ok(());
    }

    /** The take of `stopped` was completed with everything it had: its frames, its markers, and, if no
        disk operation ever failed, finished files of exactly the samples submitted. */
    twostate predicate Finished(stopped: R.Recorder)
      reads this`takes, stopped, stopped.store
    {
      && |takes| == |old(takes)| + 1 && takes[..|old(takes)|] == old(takes)
      && var take := takes[|old(takes)|];
      && take == old(stopped.manifest).(state := Completed, status := Complete,
                                        framesCommitted := old(stopped.manifest.framesWritten),
                                        channels := R.AllPublished(old(stopped.manifest.channels)))
      && stopped.store.submitted == old(stopped.store.submitted)
      && (!stopped.store.failed ==>
            R.PublishedUpTo(stopped.store.disk, stopped.store.submitted,
                            R.LayoutOf(old(stopped.manifest), stopped.device), |old(stopped.manifest.channels)|))
    }

    /** Where a simulation of `frames` frames ends: a saturating sum. */
    static function Target(start: u64, frames: u64): (target: u64)
      ensures start <= target
    {
      if start + frames < U64_SPAN then start + frames else U64_SPAN - 1
    }

    /** What a simulation has added once it has come to frame `to`: nothing but these frames. */
    twostate predicate Simulated(to: nat)
      reads this`recorder, Live()
    {
      && recorder == old(recorder) && recorder != null && recorder.Kept()
      && recorder.store.failed == old(recorder.store.failed)
      && Adds(tone, old(recorder.manifest), old(recorder.store.submitted),
              recorder.manifest, recorder.store.submitted, to)
    }

    /** One simulated callback. */
    method Callback(from: nat, count: nat) returns (r: Result<(), ProtocolError>)
      requires Valid() && recorder != null && recorder.manifest.framesWritten == from && count > 0
      modifies Live()
      ensures Valid() && SameTake()
      ensures r.Ok? ==> Simulated(from + count) && old(recorder.manifest.state) == RecorderState.Recording
      ensures r.Err? ==>
                || (old(recorder.manifest.state) != RecorderState.Recording && r.error == OfState())
                || (recorder.store.failed && r.error == OfIo())
    {
      hide R.Recorder.Valid, R.Recorder.AudioBytes, Caches, R.MarkersInOrder, Frames;
      var channels := recorder.ChannelCount();
      var samples := Generate(tone, channels, from, count);
      Multiple(channels, count);
      var written := recorder.WriteInterleaved(samples);
      return if written.Ok? then Ok(()) else Err(ProtocolError.Service(OfRecorder(written.error)));
    }

    /** Command::Simulate. A success adds the next `frames` frames of the signal, in callbacks of whatever size. */
    method Simulate(frames: u64, callbackFrames: u64) returns (r: Result<(), ProtocolError>)
      requires Valid()
      modifies Live()
      ensures Valid() && SameTake() && ControlState() == old(ControlState()) && pending == old(pending)
      ensures callbackFrames == 0 ==> r == Err(InvalidCommand(CallbackFramesRequired)) && Unmoved()
      ensures callbackFrames != 0 && recorder == null ==> r == Err(InvalidCommand(NotRecording))
      ensures r.Ok? ==> Simulated(Target(old(recorder.manifest.framesWritten), frames))
      ensures callbackFrames != 0 && recorder != null ==>
                (r.Err? ==>
                   || (old(recorder.manifest.state) != RecorderState.Recording && frames > 0 && r.error == OfState())
                   || (recorder.store.failed && r.error == OfIo()))
    {
      hide R.Recorder.Valid, R.ContinuesTake, Caches, R.MarkersInOrder, Adds;
      if recorder != null {
        R.ContinuesItself(recorder.manifest);
      }
      if callbackFrames == 0 {
        return Err(InvalidCommand(CallbackFramesRequired));
      }
      if recorder == null {
        return Err(InvalidCommand(NotRecording));
      }
      var next := recorder.manifest.framesWritten;
      var target := Target(next, frames);
      ghost var a, before := recorder.manifest, recorder.store.submitted;
      AddsNothing(tone, a, before);
      while next < target
        invariant Valid() && next <= target && Simulated(next)
        decreases target - next
      {
        var count := if callbackFrames < target - next then callbackFrames else target - next;
        ghost var b, between := recorder.manifest, recorder.store.submitted;
        AddsMeans(tone, a, before, b, between, next);
        r := Callback(next, count);
        R.ContinuesTakeTransitive(a, b, recorder.manifest);
        if r.Err? {
          return;
        }
        AddsTransitive(tone, a, before, b, between, next, recorder.manifest, recorder.store.submitted, next + count);
        next := next + count;
      }
      return Ok(());
    }

    /** The fault is the take's last incident; a known gap is filled with silence, and nothing else of the take
        changes. */
    twostate predicate Noted(fault: FaultKind)
      reads this`recorder, Live()
    {
      && recorder != null && recorder == old(recorder)
      && var m, n := old(recorder.manifest), recorder.manifest.framesWritten;
      && recorder.manifest
         == m.(framesWritten := n, framesCommitted := if Filled(fault) then n else m.framesCommitted,
               incidents := m.incidents + [Incident(NotedAs(fault).0, n, NotedAs(fault).1)])
      && n == m.framesWritten + |Filling(fault, |m.channels|)|
      && recorder.store.kinds == old(recorder.store.kinds) + JournaledAs(fault, m.framesWritten, n)
      && recorder.store.submitted == old(recorder.store.submitted) + Filling(fault, |m.channels|)
    }

    /** A fault that only adds an incident. */
    method NoteLoss(fault: FaultKind) returns (r: Result<(), ProtocolError>)
      requires Valid() && recorder != null && !Filled(fault)
      modifies Live()
      ensures Valid() && SameTake() && recorder.manifest.state == old(recorder.manifest.state)
      ensures r.Err? ==> recorder.store.failed && r.error == OfIo()
      ensures r.Ok? ==> Noted(fault)
    {
      hide R.Recorder.Valid, Caches, R.MarkersInOrder;
      var ok: bool;
      match fault {
        case BackendXrun => ok := recorder.RecordIncident(IncidentKind.BackendXrun, None);
        case QueueOverflow(missing) => ok := recorder.RecordIncident(IncidentKind.QueueOverflow, missing);
        case TimestampJump(_) => ok := recorder.RecordIncident(IncidentKind.UnknownDiscontinuity, None);
        case InputDeviceLost => ok := recorder.RecordIncident(IncidentKind.InputDeviceLost, None);
        case MonitorDeviceLost => ok := recorder.RecordIncident(IncidentKind.MonitorDeviceLost, None);
        case DiskCritical => ok := recorder.RecordIncident(IncidentKind.DiskCritical, None);
      }
      return if ok then Ok(()) else Err(OfIo());
    }

    /** The part of a fault that concerns the take. */
    method NoteFault(fault: FaultKind) returns (r: Result<(), ProtocolError>)
      requires Valid() && recorder != null
      modifies Live()
      ensures Valid() && SameTake() && recorder.manifest.state == old(recorder.manifest.state)
      ensures Unfillable(fault, old(recorder.manifest)) ==>
                r == Err(UnfilledFor(fault, old(recorder.manifest))) && recorder.Untouched()
      ensures r.Err? && !Unfillable(fault, old(recorder.manifest)) ==> recorder.store.failed && r.error == OfIo()
      ensures r.Ok? ==> Noted(fault)
    {
      hide R.Recorder.Valid, Caches, R.MarkersInOrder, R.WholeGap, R.GapFrames;
      if Filled(fault) {
        var channels := recorder.ChannelCount();
        var filled := recorder.InsertGap(fault.missingFrames.value);
        return if filled.Ok? then Ok(()) else Err(ProtocolError.Service(OfRecorder(filled.error)));
      }
      r := NoteLoss(fault);
    }

    /** Command::InjectFault. A fault is noted in the take; only the loss of input or disk changes the
        service's own state, and nothing changes the manifest's. */
    method InjectFault(fault: FaultKind) returns (r: Result<(), ProtocolError>)
      requires Valid()
      modifies this`state, Live()
      ensures Valid() && SameTake() && pending == old(pending)
      ensures ControlState() == After(old(ControlState()), Command.InjectFault(fault), r.Ok?)
      ensures state == if r.Ok? && (fault == FaultKind.InputDeviceLost || fault == FaultKind.DiskCritical) then Faulted
                       else old(state)
      ensures recorder == null ==> r == Err(InvalidCommand(NotRecording))
      ensures recorder != null ==> recorder.manifest.state == old(recorder.manifest.state)
      ensures recorder != null && Unfillable(fault, old(recorder.manifest)) ==>
                r == Err(UnfilledFor(fault, old(recorder.manifest))) && Unmoved()
      ensures recorder != null && r.Err? && !Unfillable(fault, old(recorder.manifest)) ==>
                recorder.store.failed && r.error == OfIo()
      ensures r.Ok? ==> Noted(fault)
    {
      hide R.Recorder.Valid, R.ContinuesTake, Caches, R.MarkersInOrder, Noted, Unfillable, UnfilledFor;
      if recorder == null {
        return Err(InvalidCommand(NotRecording));
      }
      r := NoteFault(fault);
      if r.Ok? && Faulting(fault) {
        state := Faulted;
      }
    }

    /** The commands that are answered from the session directories and the devices without touching them. */
    static predicate Asks(command: Command) {
      command.List? || command.Devices? || command.Inspect?
    }

    /** A take that goes on keeps what is in it, one that does not was finished or given up; none is lost. */
    twostate predicate TakeGoesOn()
      reads this`takes, this`recorder, Live()
    {
      && |old(takes)| <= |takes| && takes[..|old(takes)|] == old(takes)
      && (recorder != null && recorder == old(recorder) ==> recorder.Kept())
    }

    /** What each successful command has done; `was` is the recorder before it. */
    twostate predicate Effect(request: Request, world: World, was: R.Recorder?)
      reads this`state, this`pending, this`recorder, this`takes, Live(), was, if was == null then {} else {was.store}
    {
      match request.command
      case Configure(rate, titles) => recorder == was && pending == Some(PendingConfig(rate, titles))
      case Start => if old(state) == Armed then Began(world) else Unmoved()
      case Pause => MovedTo(Paused)
      case Resume => MovedTo(RecorderState.Recording)
      case Mark(note) => MarkedOnce(request.requestId, note, world.markerId, true)
      case Stop => if was == null then Unmoved() else Finished(was)
      case Simulate(frames, _) => recorder != null && was == recorder == old(recorder)
                                  && Simulated(Target(old(recorder.manifest.framesWritten), frames))
      case InjectFault(fault) => Noted(fault)
      case Recover(selected, all) => recorder == was && pending == old(pending) && Disturbed(selected, all, world)
      case _ => Unmoved()
    }

    /** What a command can fail for, and what it then says; `was` is the recorder before it. */
    twostate predicate Excused(request: Request, world: World, was: R.Recorder?, e: ProtocolError)
      reads this`state, this`pending, this`recorder, this`takes, Live(), was, if was == null then {} else {was.store}
    {
      var idle := was == null && e == InvalidCommand(NotRecording);
      var broken := was != null && was.store.failed && e == OfIo();
      match request.command
      case Configure(rate, titles) =>
        if titles == [] || rate == 0 then e == InvalidCommand(RateAndChannelsRequired)
        else !Configurable(old(state)) && e == InvalidCommand(CannotConfigure(old(state)))
      case Start =>
        if old(state) == Armed then e == OfIo()
        else old(state) != RecorderState.Recording && e == InvalidCommand(CannotStart(old(state)))
      case Pause => idle || broken || (was != null && old(was.manifest.state) == Paused && e == OfTransition(Paused))
      case Resume =>
        idle || broken
        || (was != null && old(was.manifest.state) == RecorderState.Recording
            && e == OfTransition(RecorderState.Recording))
      case Mark(note) =>
        idle || broken
        || (was != null && !Fits(MarkerAdded(world.markerId, old(was.manifest.framesWritten), note))
            && e == ProtocolError.Service(OfRecorder(R.NoteTooLarge)))
      case Stop => if was == null then old(state) != Completed && idle else GivenUp(was, e)
      case Simulate(frames, callbackFrames) =>
        if callbackFrames == 0 then e == InvalidCommand(CallbackFramesRequired)
        else
          idle || broken
          || (was != null && old(was.manifest.state) != RecorderState.Recording && frames > 0 && e == OfState())
      case InjectFault(fault) =>
        idle || broken
        || (was != null && Unfillable(fault, old(was.manifest)) && e == UnfilledFor(fault, old(was.manifest)))
      case Recover(selected, all) =>
        recorder == was && pending == old(pending)
        && ((world.answer == Err(e) && Disturbed(selected, all, world))
            || (LiveSelected(selected, all) && world.reached && LiveFailed(e)))
      case _ => Asks(request.command)
    }

    /** The live session is among those that Command::Recover selects. */
    predicate LiveSelected(selected: Option<Uuid>, all: bool)
      reads this`recorder, recorder
    {
      recorder != null && (all || selected == Some(recorder.manifest.sessionId))
    }

    /** What a recovery does to the live recording: nothing if it does not come to it; otherwise, once frames
        are committed, a recorder whose disk worked is never heard of again. */
    twostate predicate Disturbed(selected: Option<Uuid>, all: bool, world: World)
      reads this`recorder, Live()
    {
      recorder == old(recorder) && recorder != null ==>
        if LiveSelected(selected, all) && world.reached then
          && recorder.manifest == old(recorder.manifest) && recorder.store.failed
          && (!old(recorder.store.failed) ==> recorder.manifest.framesCommitted > 0 && Unheard(recorder))
        else recorder.Untouched()
    }

    /** The recovery of the live session failed: before the first commit, without effect, or by failing I/O. */
    twostate predicate LiveFailed(e: ProtocolError)
      reads this`recorder, Live()
    {
      && recorder != null && recorder == old(recorder) && e.Service? && e.cause.OfRecovery?
      && (!old(recorder.store.failed) ==>
            if recorder.manifest.framesCommitted == 0 then e.cause.failure == NoCommittedFrames && recorder.Untouched()
            else e.cause.failure == Io && recorder.store.failed)
    }

    /** Command::Recover. The live session is not exempt. */
    method Recover(selected: Option<Uuid>, all: bool, world: World) returns (r: Result<CommandResult, ProtocolError>)
      requires Valid()
      modifies Live()
      ensures Valid() && SameTake() && ControlState() == old(ControlState()) && pending == old(pending)
      ensures recorder == null || (!all && selected != Some(recorder.manifest.sessionId)) || !world.reached ==>
                r == world.answer && Unmoved()
      ensures recorder != null && (all || selected == Some(recorder.manifest.sessionId)) && world.reached
              && !old(recorder.store.failed) && recorder.manifest.framesCommitted == 0 ==>
                r == Err(ProtocolError.Service(OfRecovery(NoCommittedFrames))) && Unmoved()
      ensures (r == world.answer && Disturbed(selected, all, world))
              || (r.Err? && LiveSelected(selected, all) && world.reached && LiveFailed(r.error))
    {
      hide R.Recorder.Valid, R.ContinuesTake, Caches, R.MarkersInOrder, Unheard, Unspoiled;
      if recorder != null {
        R.ContinuesItself(recorder.manifest);
      }
      if LiveSelected(selected, all) && world.reached {
        var recovered := RecoverLive(recorder);
        if recovered.Err? {
          return Err(ProtocolError.Service(OfRecovery(recovered.error)));
        }
      }
      return world.answer;
    }

    /** The commands that are acknowledged with a snapshot. */
    method Act(request: Request, world: World) returns (r: Result<(), ProtocolError>)
      requires Valid() && !Asks(request.command) && !request.command.Recover?
      modifies this`state, this`pending, this`recorder, this`takes, Live()
      ensures Valid() && TakeGoesOn() && ControlState() == After(old(ControlState()), request.command, r.Ok?)
      ensures old(recorder) != null && recorder != null ==> recorder == old(recorder)
      ensures Refused(old(ControlState()), request.command) ==> r.Err?
      ensures !request.command.Configure? ==> pending == old(pending)
      ensures if r.Ok? then Effect(request, world, old(recorder)) else Excused(request, world, old(recorder), r.error)
    {
      hide R.Recorder.Valid, R.ContinuesTake, Caches, R.MarkersInOrder, MovedTo, Simulated, Finished, Adds;
      hide Noted, Began, MarkedOnce, Unfillable, UnfilledFor, GivenUp;
      if recorder != null {
        R.ContinuesItself(recorder.manifest);
      }
      match request.command
      case Status => r := Ok(());
      case Configure(rate, titles) => r := Configure(rate, titles);
      case Start => r := Start(world);
      case Pause => r := Pause();
      case Resume => r := Resume();
      case Mark(note) => r := Mark(request.requestId, note, world);
      case Stop => r := Stop();
      case Simulate(frames, callbackFrames) => r := Simulate(frames, callbackFrames);
      case InjectFault(fault) => r := InjectFault(fault);
    }

    /** What every command keeps, authenticated or not, new or replayed: the service stays coupled to its
        recorder, completed takes stay, and the running take goes on unless it is stopped. */
    twostate predicate Kept()
      reads this, Live()
    {
      && Valid() && TakeGoesOn()
      && (old(recorder) != null && recorder != null ==> recorder == old(recorder))
    }

    /** execute_command. */
    method ExecuteCommand(request: Request, world: World) returns (r: Result<CommandResult, ProtocolError>)
      requires Valid()
      modifies this`state, this`pending, this`recorder, this`takes, Live()
      ensures Kept() && ControlState() == After(old(ControlState()), request.command, r.Ok?)
      ensures Refused(old(ControlState()), request.command) ==> r.Err?
      ensures Asks(request.command) ==> r == world.answer && Unmoved()
      ensures r.Ok? ==> Answers(request.command, world, r.value)
      ensures !request.command.Configure? ==> pending == old(pending)
      ensures if r.Ok? then Effect(request, world, old(recorder)) else Excused(request, world, old(recorder), r.error)
    {
      hide R.Recorder.Valid, R.ContinuesTake, Caches, R.MarkersInOrder, MovedTo, Simulated, Finished, Adds;
      hide Noted, Began, MarkedOnce, Unfillable, UnfilledFor, GivenUp;
      if recorder != null {
        R.ContinuesItself(recorder.manifest);
      }
      if Asks(request.command) {
        return world.answer;
      }
      if request.command.Recover? {
        r := Recover(request.command.selected, request.command.all, world);
        return;
      }
      var done := Act(request, world);
      if done.Err? {
        return Err(done.error);
      }
      var snapshot := Snapshot(world);
      return Ok(if request.command.Status? then CommandResult.Snapshot(snapshot) else Accepted(snapshot));
    }

    /** The request is executed: it carries the token and none of the last 1024 executed ones had its id. */
    ghost predicate Executes(request: Request)
      reads this
    {
      && request.token == token
      && forall i :: 0 <= i < |executed| && |executed| - 1024 <= i ==> executed[i].requestId != request.requestId
    }

    /** A request that is not answered from the cache. */
    method ExecuteNew(request: Request, world: World) returns (response: Response)
      requires Valid() && request.requestId !in cached
      modifies this, Live()
      ensures Kept() && response.requestId == request.requestId && executed == old(executed) + [response]
      ensures ControlState() == After(old(ControlState()), request.command, response.result.Ok?)
      ensures Refused(old(ControlState()), request.command) ==> response.result.Err?
      ensures response.result.Ok? ==> Answers(request.command, world, response.result.value)
      ensures !request.command.Configure? ==> pending == old(pending)
      ensures if response.result.Ok? then Effect(request, world, old(recorder))
              else Excused(request, world, old(recorder), response.result.error)
    {
      hide R.Recorder.Valid, R.ContinuesTake, Caches, R.MarkersInOrder, Effect, Excused;
      if recorder != null {
        R.ContinuesItself(recorder.manifest);
      }
      var result := ExecuteCommand(request, world);
      response := Response(request.requestId, result);
      label executed:
      Remember(response);
      assert Live() == old@executed(Live());
    }

    /** execute. */
    method Execute(request: Request, world: World) returns (response: Response)
      requires Valid()
      modifies this, Live()
      ensures Kept() && response.requestId == request.requestId
      ensures request.token != token ==>
                response.result == Err(Authentication) && Unmoved() && executed == old(executed)
      ensures forall i ::
        && 0 <= i < |old(executed)| && |old(executed)| - 1024 <= i
        && old(executed)[i].requestId == request.requestId && request.token == token ==>
          response == old(executed)[i] && Unmoved() && executed == old(executed)
      ensures old(Executes(request)) ==>
        && executed == old(executed) + [response]
        && ControlState() == After(old(ControlState()), request.command, response.result.Ok?)
        && (Refused(old(ControlState()), request.command) ==> response.result.Err?)
        && (response.result.Ok? ==> Answers(request.command, world, response.result.value))
        && (!request.command.Configure? ==> pending == old(pending))
      ensures old(Executes(request)) ==>
                if response.result.Ok? then Effect(request, world, old(recorder))
                else Excused(request, world, old(recorder), response.result.error)
    {
      hide R.Recorder.Valid, R.ContinuesTake, Caches, R.MarkersInOrder, Effect, Excused;
      if recorder != null {
        R.ContinuesItself(recorder.manifest);
      }
      if request.token != token {
        return Response(request.requestId, Err(Authentication));
      }
      AnsweredFromRecent(cached, cacheOrder, executed, request.requestId);
      if request.requestId in cached {
        return cached[request.requestId];
      }
      response := ExecuteNew(request, world);
    }

    /** The insertion into the cache, and the eviction of the oldest entry. */
    method Remember(response: Response)
      requires Caches(cached, cacheOrder, executed) && response.requestId !in cached
      modifies this`cached, this`cacheOrder, this`executed
      ensures Caches(cached, cacheOrder, executed) && executed == old(executed) + [response]
      ensures HoldsLast(cached, cacheOrder, executed)
    {
      hide Caches, HoldsLast;
      InsertedCaches(cached, cacheOrder, executed, response);
      cached := cached[response.requestId := response];
      cacheOrder := cacheOrder + [response.requestId];
      if |cacheOrder| > MAX_CACHED_REQUESTS {
        var oldest := cacheOrder[0];
        cacheOrder := cacheOrder[1..];
        cached := cached - {oldest};
      }
      executed := executed + [response];
    }
  }
}
