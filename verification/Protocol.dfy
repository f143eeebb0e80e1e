/** The commands of the audio service and their answers. */
module Protocol {
  import opened Bytes
  import opened Wrappers
  import opened Postcard
  import opened State
  import opened Session
  import R = Recorder
  import Recovery

  datatype FaultKind =
    | BackendXrun
    | QueueOverflow(missingFrames: Option<u64>)
    | TimestampJump(missingFrames: Option<u64>)
    | InputDeviceLost
    | MonitorDeviceLost
    | DiskCritical

  datatype Command =
    | Status
    | List
    | Devices
    | Configure(sampleRate: u32, titles: seq<seq<byte>>)
    | Start
    | Pause
    | Resume
    | Mark(note: Text)
    | Stop
    | Recover(selected: Option<Uuid>, all: bool)
    | Inspect(session: Uuid)
    | Simulate(frames: u64, callbackFrames: u64)
    | InjectFault(fault: FaultKind)

  datatype Request = Request(requestId: Uuid, token: seq<byte>, command: Command)

  datatype StateSnapshot = StateSnapshot(
    state: RecorderState,
    sessionId: Option<Uuid>,
    framesWritten: u64,
    framesCommitted: u64,
    activeChannels: nat,
    markers: nat,
    incidents: nat,
    availableBytes: Option<u64>)

  datatype Device = Device(name: seq<byte>)

  datatype CommandResult =
    | Snapshot(snapshot: StateSnapshot)
    | Devices(devices: seq<Device>)
    | Sessions(sessions: seq<Manifest>)
    | Session(session: Manifest)
    | Accepted(snapshot: StateSnapshot)

  /** What the message of an invalid command says. */
  datatype Refusal =
    | RateAndChannelsRequired
    | CannotConfigure(state: RecorderState)
    | CannotStart(state: RecorderState)
    | NotRecording
    | CallbackFramesRequired
    | UnknownSession

  datatype Cause =
    | OfRecorder(error: R.RecorderError)
    | OfRecovery(failure: Recovery.RecoveryError)
    | ConfigurationMissing
    | OfFiles

  datatype ProtocolError = Authentication | InvalidCommand(reason: Refusal) | Service(cause: Cause)

  datatype Response = Response(requestId: Uuid, result: Result<CommandResult, ProtocolError>)
}
