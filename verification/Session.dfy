/** The session manifest and what it lists. */
module Session {
  import opened Bytes
  import opened Wrappers
  import opened Postcard
  import opened Rf64
  import opened State

  datatype SessionStatus = Active | Complete | Interrupted | Recovered | PartiallyRecovered | NeedsAttention

  datatype Marker = Marker(id: Uuid, requestId: Uuid, frame: u64, note: Text)

  datatype IncidentKind =
    | BackendXrun
    | QueueOverflow
    | TimestampDiscontinuity
    | UnknownDiscontinuity
    | GapInserted
    | InputDeviceLost
    | MonitorDeviceLost
    | DiskWarning
    | DiskCritical
    | WriterFailure

  datatype Incident = Incident(kind: IncidentKind, frame: u64, missingFrames: Option<u64>)

  /** Texts that the audio headers repeat; how they are formatted is not part of the model. */
  datatype Texts = Texts(session: seq<byte>, take: seq<byte>, date: seq<byte>, time: seq<byte>)

  datatype Channel = Channel(title: seq<byte>, published: bool)

  datatype Manifest = Manifest(
    sessionId: Uuid,
    texts: Texts,
    sampleRate: u32,
    state: RecorderState,
    status: SessionStatus,
    framesWritten: u64,
    framesCommitted: u64,
    channels: seq<Channel>,
    markers: seq<Marker>,
    incidents: seq<Incident>)

  /** The bext texts of one channel. */
  function Stamp(texts: Texts, title: seq<byte>, device: seq<byte>): Identity {
    Identity(Ascii("Icepod session ") + texts.session + Ascii("; take ") + texts.take + Ascii("; channel ") + title
             + Ascii("; device ") + device,
             texts.session, texts.date, texts.time)
  }
}
