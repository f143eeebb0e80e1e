/** The payload of a journal record: the record kinds and their postcard encoding. Integers and sequence
    lengths are varints, an enum is its variant index and then its fields, an Option is a 0 or 1 byte,
    a Uuid is a 16-byte byte string, and decoding ignores whatever follows the value. */
module Postcard {
  import opened Bytes
  import opened Wrappers

  type Uuid = s: seq<byte> | |s| == 16 witness seq(16, _ => 0)

  /** Bytes that str::from_utf8 accepts: well-formed UTF-8 (table 3-7 of the Unicode Standard). */
  predicate ValidUtf8(s: seq<byte>) {
    if s == [] then true
    else if s[0] < 0x80 then ValidUtf8(s[1..])
    else if 0xC2 <= s[0] <= 0xDF then |s| >= 2 && Continuation(s[1]) && ValidUtf8(s[2..])
    else if 0xE0 <= s[0] <= 0xEF then
      && |s| >= 3
      && Continuation(s[1]) && (s[0] == 0xE0 ==> s[1] >= 0xA0) && (s[0] == 0xED ==> s[1] <= 0x9F)
      && Continuation(s[2])
      && ValidUtf8(s[3..])
    else if 0xF0 <= s[0] <= 0xF4 then
      && |s| >= 4
      && Continuation(s[1]) && (s[0] == 0xF0 ==> s[1] >= 0x90) && (s[0] == 0xF4 ==> s[1] <= 0x8F)
      && Continuation(s[2]) && Continuation(s[3])
      && ValidUtf8(s[4..])
    else false
  }

  predicate Continuation(b: byte) {
    0x80 <= b <= 0xBF
  }

  type Text = s: seq<byte> | |s| < U64_SPAN && ValidUtf8(s) witness []

  datatype Kind =
    | SessionCreated
    | DeviceConfigured
    | TakeArmed
    | SegmentStarted
    | FramesWritten(frames: u64)
    | FramesCommitted(frames: u64)
    | MarkerAdded(markerId: Uuid, frame: u64, note: Text)
    | PauseStarted(frame: u64)
    | PauseEnded(frame: u64)
    | XrunObserved(frame: u64)
    | QueueOverflow(frame: u64, missingFrames: Option<u64>)
    | TimestampDiscontinuity(frame: u64, missingFrames: Option<u64>)
    | GapInserted(frame: u64, frames: u64)
    | InputDeviceLost(frame: u64)
    | MonitorDeviceLost(frame: u64)
    | DiskWarning(availableBytes: u64)
    | DiskCritical(availableBytes: u64)
    | StopRequested
    | SegmentStopped(frames: u64)
    | FinalizationStarted
    | FinalizationCompleted
    | RecoveryStarted
    | RecoveryCompleted(frames: u64)
    | SessionFaulted(detail: Text)

  /** The record code of the journal header. */
  function Code(k: Kind): u16 {
    match k
    case SessionCreated => 1
    case DeviceConfigured => 2
    case TakeArmed => 3
    case SegmentStarted => 4
    case FramesWritten(_) => 5
    case FramesCommitted(_) => 6
    case MarkerAdded(_, _, _) => 7
    case PauseStarted(_) => 8
    case PauseEnded(_) => 9
    case XrunObserved(_) => 10
    case QueueOverflow(_, _) => 11
    case TimestampDiscontinuity(_, _) => 12
    case GapInserted(_, _) => 13
    case InputDeviceLost(_) => 14
    case MonitorDeviceLost(_) => 15
    case DiskWarning(_) => 16
    case DiskCritical(_) => 17
    case StopRequested => 18
    case SegmentStopped(_) => 19
    case FinalizationStarted => 20
    case FinalizationCompleted => 21
    case RecoveryStarted => 22
    case RecoveryCompleted(_) => 23
    case SessionFaulted(_) => 24
  }

  // ---- varints ----

  function Varint(n: nat): seq<byte> {
    if n < 0x80 then [n] else [0x80 + n % 0x80] + Varint(n / 0x80)
  }

  /** A decoded value and the bytes after it. */
  datatype Taken<+T> = Taken(value: T, rest: seq<byte>)

  /** What a varint of at most `left` bytes, the last at most `last`, can hold. */
  function VarintSpan(left: nat, last: nat): (r: nat)
    ensures left > 0 ==> r >= 1
    ensures left > 1 ==> r >= 0x80
  {
    if left == 0 then 0 else if left == 1 then last + 1 else 0x80 * VarintSpan(left - 1, last)
  }

  /** Reads such a varint off the front of s. */
  function TakeVarint(s: seq<byte>, left: nat, last: nat): (r: Option<Taken<nat>>)
    ensures r.Some? ==> r.value.value < VarintSpan(left, last)
  {
    if left == 0 || s == [] then None
    else if s[0] < 0x80 then
      if left == 1 && s[0] > last then None else Some(Taken(s[0], s[1..]))
    else
      match TakeVarint(s[1..], left - 1, last)
      case None => None
      case Some(t) => Some(Taken(s[0] - 0x80 + 0x80 * t.value, t.rest))
  }

  lemma {:induction false} VarintRoundTrip(n: nat, tail: seq<byte>, left: nat, last: nat)
    requires last < 0x80 && n < VarintSpan(left, last)
    ensures TakeVarint(Varint(n) + tail, left, last) == Some(Taken(n, tail))
  {
    var s := Varint(n) + tail;
    if n < 0x80 {
      assert s[1..] == tail;
    } else {
      VarintRoundTrip(n / 0x80, tail, left - 1, last);
      assert s[1..] == Varint(n / 0x80) + tail;
    }
  }

  /** The spans of a 64-bit and a 32-bit varint. */
  lemma VarintSpans()
    ensures VarintSpan(10, 1) == U64_SPAN && VarintSpan(5, 15) == U32_SPAN
  {
    assert VarintSpan(5, 1) == 0x80 * (0x80 * (0x80 * (0x80 * VarintSpan(1, 1))));
    assert VarintSpan(10, 1) == 0x80 * (0x80 * (0x80 * (0x80 * (0x80 * VarintSpan(5, 1)))));
    assert VarintSpan(5, 15) == 0x80 * (0x80 * (0x80 * (0x80 * VarintSpan(1, 15))));
  }

  lemma {:induction false} VarintLength(n: nat, left: nat)
    requires n < VarintSpan(left, 0x7F)
    ensures |Varint(n)| <= left
  {
    if n >= 0x80 {
      VarintLength(n / 0x80, left - 1);
    }
  }

  lemma U64Length(n: u64)
    ensures |Varint(n)| <= 10
  {
    assert VarintSpan(5, 0x7F) == 0x80 * (0x80 * (0x80 * (0x80 * VarintSpan(1, 0x7F))));
    assert VarintSpan(10, 0x7F) == 0x80 * (0x80 * (0x80 * (0x80 * (0x80 * VarintSpan(5, 0x7F)))));
    VarintLength(n, 10);
  }

  // ---- fields ----

  function TakeU64(s: seq<byte>): Option<Taken<u64>> {
    VarintSpans();
    match TakeVarint(s, 10, 1)
    case None => None
    case Some(t) => Some(Taken(t.value, t.rest))
  }

  function OptionalU64(v: Option<u64>): seq<byte> {
    match v
    case None => [0]
    case Some(n) => [1] + Varint(n)
  }

  function TakeOptionalU64(s: seq<byte>): Option<Taken<Option<u64>>> {
    if s == [] || s[0] > 1 then None
    else if s[0] == 0 then Some(Taken(None, s[1..]))
    else
      match TakeU64(s[1..])
      case None => None
      case Some(t) => Some(Taken(Some(t.value), t.rest))
  }

  function ByteString(b: seq<byte>): seq<byte> {
    Varint(|b|) + b
  }

  function TakeByteString(s: seq<byte>): (r: Option<Taken<seq<byte>>>)
    ensures r.Some? ==> |r.value.value| < U64_SPAN
  {
    match TakeU64(s)
    case None => None
    case Some(t) =>
      if t.value > |t.rest| then None else Some(Taken(t.rest[..t.value], t.rest[t.value..]))
  }

  lemma U64RoundTrip(n: u64, tail: seq<byte>)
    ensures TakeU64(Varint(n) + tail) == Some(Taken(n, tail))
  {
    VarintSpans();
    VarintRoundTrip(n, tail, 10, 1);
  }

  lemma OptionalU64RoundTrip(v: Option<u64>, tail: seq<byte>)
    ensures TakeOptionalU64(OptionalU64(v) + tail) == Some(Taken(v, tail))
  {
    var s := OptionalU64(v) + tail;
    if v.Some? {
      assert s[1..] == Varint(v.value) + tail;
      U64RoundTrip(v.value, tail);
    } else {
      assert s[1..] == tail;
    }
  }

  lemma ByteStringRoundTrip(b: seq<byte>, tail: seq<byte>)
    requires |b| < U64_SPAN
    ensures TakeByteString(ByteString(b) + tail) == Some(Taken(b, tail))
  {
    assert ByteString(b) + tail == Varint(|b|) + (b + tail);
    U64RoundTrip(|b|, b + tail);
    assert (b + tail)[..|b|] == b && (b + tail)[|b|..] == tail;
  }

  // ---- record kinds ----

  function Fields(k: Kind): seq<byte> {
    match k
    case MarkerAdded(id, frame, note) => ByteString(id) + (Varint(frame) + ByteString(note))
    case QueueOverflow(frame, missing) => Varint(frame) + OptionalU64(missing)
    case TimestampDiscontinuity(frame, missing) => Varint(frame) + OptionalU64(missing)
    case GapInserted(frame, frames) => Varint(frame) + Varint(frames)
    case SessionFaulted(detail) => ByteString(detail)
    case FramesWritten(n) => Varint(n)
    case FramesCommitted(n) => Varint(n)
    case PauseStarted(n) => Varint(n)
    case PauseEnded(n) => Varint(n)
    case XrunObserved(n) => Varint(n)
    case InputDeviceLost(n) => Varint(n)
    case MonitorDeviceLost(n) => Varint(n)
    case DiskWarning(n) => Varint(n)
    case DiskCritical(n) => Varint(n)
    case SegmentStopped(n) => Varint(n)
    case RecoveryCompleted(n) => Varint(n)
    case _ => []
  }

  /** postcard::to_stdvec: the variant index (one less than the record code), then the fields. */
  function Encode(k: Kind): seq<byte> {
    Varint(Code(k) - 1) + Fields(k)
  }

  /** The kinds that carry a single frame or byte count. */
  function CountKind(variant: nat, n: u64): Option<Kind> {
    if variant == 4 then Some(FramesWritten(n))
    else if variant == 5 then Some(FramesCommitted(n))
    else if variant == 7 then Some(PauseStarted(n))
    else if variant == 8 then Some(PauseEnded(n))
    else if variant == 9 then Some(XrunObserved(n))
    else if variant == 13 then Some(InputDeviceLost(n))
    else if variant == 14 then Some(MonitorDeviceLost(n))
    else if variant == 15 then Some(DiskWarning(n))
    else if variant == 16 then Some(DiskCritical(n))
    else if variant == 18 then Some(SegmentStopped(n))
    else if variant == 22 then Some(RecoveryCompleted(n))
    else None
  }

  function DecodeMarker(s: seq<byte>): Option<Kind> {
    match TakeByteString(s)
    case None => None
    case Some(id) =>
      if |id.value| != 16 then None
      else
        match TakeU64(id.rest)
        case None => None
        case Some(frame) =>
          match TakeByteString(frame.rest)
          case None => None
          case Some(note) =>
            if ValidUtf8(note.value) then Some(MarkerAdded(id.value, frame.value, note.value)) else None
  }

  function DecodeFault(s: seq<byte>): Option<Kind> {
    match TakeByteString(s)
    case None => None
    case Some(detail) => if ValidUtf8(detail.value) then Some(SessionFaulted(detail.value)) else None
  }

  function DecodeLoss(variant: nat, s: seq<byte>): Option<Kind> {
    match TakeU64(s)
    case None => None
    case Some(frame) =>
      match TakeOptionalU64(frame.rest)
      case None => None
      case Some(missing) =>
        Some(if variant == 10 then QueueOverflow(frame.value, missing.value)
             else TimestampDiscontinuity(frame.value, missing.value))
  }

  function DecodeGap(s: seq<byte>): Option<Kind> {
    match TakeU64(s)
    case None => None
    case Some(frame) =>
      match TakeU64(frame.rest)
      case None => None
      case Some(frames) => Some(GapInserted(frame.value, frames.value))
  }

  function DecodeCount(variant: nat, s: seq<byte>): Option<Kind> {
    match TakeU64(s)
    case None => None
    case Some(n) => CountKind(variant, n.value)
  }

  lemma MarkerRoundTrip(k: Kind, tail: seq<byte>)
    requires k.MarkerAdded?
    ensures DecodeMarker(Fields(k) + tail) == Some(k)
  {
    var afterFrame := ByteString(k.note) + tail;
    var afterId := Varint(k.frame) + afterFrame;
    assert Fields(k) + tail == ByteString(k.markerId) + afterId;
    ByteStringRoundTrip(k.markerId, afterId);
    U64RoundTrip(k.frame, afterFrame);
    ByteStringRoundTrip(k.note, tail);
  }

  lemma LossRoundTrip(k: Kind, tail: seq<byte>)
    requires k.QueueOverflow? || k.TimestampDiscontinuity?
    ensures DecodeLoss(Code(k) - 1, Fields(k) + tail) == Some(k)
  {
    assert Fields(k) + tail == Varint(k.frame) + (OptionalU64(k.missingFrames) + tail);
    U64RoundTrip(k.frame, OptionalU64(k.missingFrames) + tail);
    OptionalU64RoundTrip(k.missingFrames, tail);
  }

  lemma GapRoundTrip(k: Kind, tail: seq<byte>)
    requires k.GapInserted?
    ensures DecodeGap(Fields(k) + tail) == Some(k)
  {
    assert Fields(k) + tail == Varint(k.frame) + (Varint(k.frames) + tail);
    U64RoundTrip(k.frame, Varint(k.frames) + tail);
    U64RoundTrip(k.frames, tail);
  }

  lemma FaultRoundTrip(k: Kind, tail: seq<byte>)
    requires k.SessionFaulted?
    ensures DecodeFault(Fields(k) + tail) == Some(k)
  {
    ByteStringRoundTrip(k.detail, tail);
  }

  lemma CountRoundTrip(k: Kind, n: u64, tail: seq<byte>)
    requires CountKind(Code(k) - 1, n) == Some(k) && Fields(k) == Varint(n)
    ensures DecodeCount(Code(k) - 1, Fields(k) + tail) == Some(k)
  {
    U64RoundTrip(n, tail);
  }

  /** What Decode does once the variant index has been read. */
  function DecodeVariant(variant: nat, s: seq<byte>): Option<Kind> {
    if variant == 0 then Some(SessionCreated)
    else if variant == 1 then Some(DeviceConfigured)
    else if variant == 2 then Some(TakeArmed)
    else if variant == 3 then Some(SegmentStarted)
    else if variant == 6 then DecodeMarker(s)
    else if variant == 10 || variant == 11 then DecodeLoss(variant, s)
    else if variant == 12 then DecodeGap(s)
    else if variant == 17 then Some(StopRequested)
    else if variant == 19 then Some(FinalizationStarted)
    else if variant == 20 then Some(FinalizationCompleted)
    else if variant == 21 then Some(RecoveryStarted)
    else if variant == 23 then DecodeFault(s)
    else DecodeCount(variant, s)
  }

  /** postcard::from_bytes. */
  function Decode(s: seq<byte>): Option<Kind> {
    match TakeVarint(s, 5, 15)
    case None => None
    case Some(t) => DecodeVariant(t.value, t.rest)
  }

  lemma VariantRoundTrip(k: Kind, tail: seq<byte>)
    ensures DecodeVariant(Code(k) - 1, Fields(k) + tail) == Some(k)
  {
    hide Varint, ByteString, OptionalU64, DecodeMarker, DecodeLoss, DecodeGap, DecodeFault, DecodeCount;
    match k
    case MarkerAdded(_, _, _) => MarkerRoundTrip(k, tail);
    case QueueOverflow(_, _) => LossRoundTrip(k, tail);
    case TimestampDiscontinuity(_, _) => LossRoundTrip(k, tail);
    case GapInserted(_, _) => GapRoundTrip(k, tail);
    case SessionFaulted(_) => FaultRoundTrip(k, tail);
    case FramesWritten(n) => CountRoundTrip(k, n, tail);
    case FramesCommitted(n) => CountRoundTrip(k, n, tail);
    case PauseStarted(n) => CountRoundTrip(k, n, tail);
    case PauseEnded(n) => CountRoundTrip(k, n, tail);
    case XrunObserved(n) => CountRoundTrip(k, n, tail);
    case InputDeviceLost(n) => CountRoundTrip(k, n, tail);
    case MonitorDeviceLost(n) => CountRoundTrip(k, n, tail);
    case DiskWarning(n) => CountRoundTrip(k, n, tail);
    case DiskCritical(n) => CountRoundTrip(k, n, tail);
    case SegmentStopped(n) => CountRoundTrip(k, n, tail);
    case RecoveryCompleted(n) => CountRoundTrip(k, n, tail);
    case _ =>
  }

  /** Every record kind decodes to itself, whatever bytes follow it. */
  lemma CodecRoundTrip(k: Kind, tail: seq<byte>)
    ensures Decode(Encode(k) + tail) == Some(k)
  {
    hide Varint, Fields, DecodeVariant;
    VarintSpans();
    VarintRoundTrip(Code(k) - 1, Fields(k) + tail, 5, 15);
    assert Encode(k) + tail == Varint(Code(k) - 1) + (Fields(k) + tail);
    VariantRoundTrip(k, tail);
  }

  /** Nothing else decodes to a record kind: the payload starts with the varint of that kind's variant. */
  lemma DecodedVariant(s: seq<byte>)
    requires Decode(s).Some?
    ensures TakeVarint(s, 5, 15).Some? && TakeVarint(s, 5, 15).value.value == Code(Decode(s).value) - 1
  {
    hide TakeVarint, TakeU64, TakeByteString, TakeOptionalU64, ValidUtf8;
  }

  /** Only the records that carry text can be long. */
  lemma ShortWithoutText(k: Kind)
    requires !k.MarkerAdded? && !k.SessionFaulted?
    ensures |Encode(k)| <= 31
  {
    U64Length(Code(k) - 1);
    hide Varint, Code;
    match k
    case QueueOverflow(frame, missing) => LossLength(frame, missing);
    case TimestampDiscontinuity(frame, missing) => LossLength(frame, missing);
    case GapInserted(frame, frames) => U64Length(frame); U64Length(frames);
    case FramesWritten(n) => U64Length(n);
    case FramesCommitted(n) => U64Length(n);
    case PauseStarted(n) => U64Length(n);
    case PauseEnded(n) => U64Length(n);
    case XrunObserved(n) => U64Length(n);
    case InputDeviceLost(n) => U64Length(n);
    case MonitorDeviceLost(n) => U64Length(n);
    case DiskWarning(n) => U64Length(n);
    case DiskCritical(n) => U64Length(n);
    case SegmentStopped(n) => U64Length(n);
    case RecoveryCompleted(n) => U64Length(n);
    case _ =>
  }

  lemma LossLength(frame: u64, missing: Option<u64>)
    ensures |Varint(frame) + OptionalU64(missing)| <= 21
  {
    U64Length(frame);
    if missing.Some? {
      U64Length(missing.value);
    }
  }
}
