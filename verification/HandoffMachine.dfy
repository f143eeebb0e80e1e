/** The realtime handoff as a protocol: blocks travel callback, filled ring, worker, free ring, callback.
    Each ring operation and each copy of the callback is one step; worker steps fall anywhere between. */
module HandoffMachine {
  import opened Wrappers
  import opened Rf64

  /** `samples` is the whole buffer, of which the first `valid` samples have been filled. */
  datatype Block = Block(samples: seq<Sample>, valid: nat, sequence: nat, startFrame: nat, timestamp: Option<nat>)

  /** The part of its input that a running capture call has not consumed yet. */
  datatype Call = Call(rest: seq<Sample>, timestamp: Option<nat>)

  /** The state of both ends, and after it the history: everything consumed from callers, for each of these
      samples the timestamp of the call that brought it, every block published, how many of them the worker
      has taken, where in the consumed input each published block (and the current one) starts, how many
      frames had been dropped when it was acquired, whether every input carried whole frames, and how many
      blocks were flushed before they were full. */
  datatype Machine = Machine(
    pool: nat,
    capacity: nat,
    channels: nat,
    free: seq<Block>,
    filled: seq<Block>,
    held: seq<Block>,
    current: Option<Block>,
    sequence: nat,
    nextFrame: nat,
    unavailableBlocks: nat,
    saturatedBlocks: nat,
    droppedFrames: nat,
    call: Option<Call>,
    offered: seq<Sample>,
    stamps: seq<Option<nat>>,
    log: seq<Block>,
    taken: nat,
    starts: seq<nat>,
    startOfCurrent: nat,
    lossBefore: seq<nat>,
    lossBeforeCurrent: nat,
    whole: bool,
    flushed: nat)

  function EmptyBlock(capacity: nat): Block {
    Block(seq(capacity, _ => SILENCE), 0, 0, 0, None)
  }

  /** CaptureCallback::new. */
  function Initial(pool: nat, blockFrames: nat, channels: nat): Machine {
    var capacity := blockFrames * channels;
    Machine(pool, capacity, channels, seq(pool, _ => EmptyBlock(capacity)), [], [], None, 0, 0, 0, 0, 0, None,
            [], [], [], 0, [], 0, [], 0, true, 0)
  }

  // ---- callback steps ----

  function Min(a: nat, b: nat): nat {
    if a < b then a else b
  }

  /** The timestamps of samples that one call brought. */
  function StampsOf(samples: seq<Sample>, timestamp: Option<nat>): (stamps: seq<Option<nat>>)
    ensures |stamps| == |samples|
  {
    seq(|samples|, _ => timestamp)
  }

  /** A call of capture begins; an empty input ends it at once. */
  function Begin(m: Machine, input: seq<Sample>, timestamp: Option<nat>): Machine
    requires m.channels > 0
  {
    m.(call := if input == [] then None else Some(Call(input, timestamp)),
       whole := m.whole && |input| % m.channels == 0)
  }

  /** All that is left of the input is dropped and the call ends. */
  function DropRest(m: Machine): Machine
    requires m.call.Some? && m.channels > 0
  {
    var frames := |m.call.value.rest| / m.channels;
    m.(droppedFrames := m.droppedFrames + frames, nextFrame := m.nextFrame + frames,
       offered := m.offered + m.call.value.rest,
       stamps := m.stamps + StampsOf(m.call.value.rest, m.call.value.timestamp), call := None)
  }

  /** The pop from the free ring: a block to fill, or no block and the rest dropped. */
  function Acquire(m: Machine): Machine
    requires m.call.Some? && m.channels > 0
  {
    if m.free == [] then DropRest(m.(unavailableBlocks := m.unavailableBlocks + 1))
    else
      m.(free := m.free[1..],
         current := Some(m.free[0].(valid := 0, sequence := m.sequence, startFrame := m.nextFrame,
                                    timestamp := m.call.value.timestamp)),
         startOfCurrent := |m.offered|, lossBeforeCurrent := m.droppedFrames)
  }

  /** The bounded copy into the current block. */
  function Copy(m: Machine): Machine
    requires m.call.Some? && m.current.Some? && m.channels > 0
    requires m.current.value.valid <= |m.current.value.samples|
  {
    var rest := m.call.value.rest;
    var block := m.current.value;
    var count := Min(|rest|, |block.samples| - block.valid);
    var samples := block.samples[..block.valid] + rest[..count] + block.samples[block.valid + count..];
    m.(current := Some(block.(samples := samples, valid := block.valid + count)),
       nextFrame := m.nextFrame + count / m.channels,
       offered := m.offered + rest[..count],
       stamps := m.stamps + StampsOf(rest[..count], m.call.value.timestamp),
       call := Some(Call(rest[count..], m.call.value.timestamp)))
  }

  /** The push to the filled ring, which holds `pool` blocks. */
  function Push(m: Machine): Machine
    requires m.current.Some?
  {
    m.(filled := m.filled + [m.current.value], log := m.log + [m.current.value],
       starts := m.starts + [m.startOfCurrent], lossBefore := m.lossBefore + [m.lossBeforeCurrent],
       current := None, sequence := m.sequence + 1)
  }

  function Publish(m: Machine): Machine
    requires m.current.Some? && m.call.Some? && m.channels > 0
  {
    if |m.filled| < m.pool then Push(m) else DropRest(m.(saturatedBlocks := m.saturatedBlocks + 1))
  }

  predicate Full(b: Block) {
    b.valid == |b.samples|
  }

  /** The next action of a running call. */
  function Advance(m: Machine): Machine
    requires m.call.Some? && m.channels > 0 && (m.current.Some? ==> m.current.value.valid <= |m.current.value.samples|)
  {
    if m.current.Some? && Full(m.current.value) then Publish(m)
    else if m.call.value.rest == [] then m.(call := None)
    else if m.current.None? then Acquire(m)
    else Copy(m)
  }

  /** flush_partial. */
  function Flush(m: Machine): Machine {
    if m.current.None? || m.current.value.valid == 0 then m
    else if |m.filled| < m.pool then
      Push(m).(flushed := if Full(m.current.value) then m.flushed else m.flushed + 1)
    else m.(saturatedBlocks := m.saturatedBlocks + 1)
  }

  // ---- worker steps ----

  /** CaptureWorker::pop. */
  function Take(m: Machine): Machine {
    if m.filled == [] then m else m.(filled := m.filled[1..], held := m.held + [m.filled[0]], taken := m.taken + 1)
  }

  /** CaptureWorker::recycle of one of the blocks it holds, given that the free ring has room. */
  function Recycle(m: Machine, i: nat): Machine
    requires i < |m.held|
  {
    if |m.free| < m.pool then
      m.(held := m.held[..i] + m.held[i + 1..], free := m.free + [m.held[i].(valid := 0)])
    else m
  }

  // ---- runs ----

  datatype Step =
    | Capture(input: seq<Sample>, timestamp: Option<nat>)
    | Continue
    | FlushPartial
    | Pop
    | Return(index: nat)

  /** Callback steps follow the program; worker steps happen at any time. */
  predicate Enabled(m: Machine, s: Step) {
    match s
    case Capture(_, _) => m.call.None?
    case Continue => m.call.Some?
    case FlushPartial => m.call.None?
    case Pop => true
    case Return(i) => i < |m.held|
  }

  predicate Sound(m: Machine) {
    m.channels > 0 && (m.current.Some? ==> m.current.value.valid <= |m.current.value.samples|)
  }

  function Apply(m: Machine, s: Step): Machine
    requires Enabled(m, s) && Sound(m)
  {
    match s
    case Capture(input, timestamp) => Begin(m, input, timestamp)
    case Continue => Advance(m)
    case FlushPartial => Flush(m)
    case Pop => Take(m)
    case Return(i) => Recycle(m, i)
  }

  // ---- the invariant ----

  /** Whole frames in a list of blocks. */
  function FramesIn(blocks: seq<Block>, channels: nat): nat
    requires channels > 0
  {
    if blocks == [] then 0
    else FramesIn(blocks[..|blocks| - 1], channels) + blocks[|blocks| - 1].valid / channels
  }

  /** The samples in a list of blocks, end to end. */
  function SamplesIn(blocks: seq<Block>): seq<Sample> {
    if blocks == [] then []
    else SamplesIn(blocks[..|blocks| - 1]) + Content(blocks[|blocks| - 1])
  }

  function Content(b: Block): seq<Sample> {
    if b.valid <= |b.samples| then b.samples[..b.valid] else b.samples
  }

  function CurrentContent(m: Machine): seq<Sample> {
    if m.current.Some? then Content(m.current.value) else []
  }

  function CurrentFrames(m: Machine): nat
    requires m.channels > 0
  {
    if m.current.Some? then m.current.value.valid / m.channels else 0
  }

  predicate Shape(m: Machine) {
    && m.pool > 1 && m.channels > 0 && m.capacity > 0 && m.capacity % m.channels == 0
    && (forall b <- m.free :: |b.samples| == m.capacity)
    && (forall b <- m.held :: |b.samples| == m.capacity)
    && (forall b <- m.log :: |b.samples| == m.capacity && 0 < b.valid <= m.capacity)
    && (m.current.Some? ==> |m.current.value.samples| == m.capacity && m.current.value.valid <= m.capacity)
    && (m.current.Some? && m.call.None? ==> !Full(m.current.value))
  }

  /** Every block is in exactly one place, so no ring ever overflows. */
  predicate Conserved(m: Machine) {
    && |m.free| + |m.filled| + |m.held| + (if m.current.Some? then 1 else 0) == m.pool
    && m.saturatedBlocks == 0
  }

  /** The filled ring is what of the log has not been taken; sequence numbers are positions in the log. */
  predicate InOrder(m: Machine) {
    && m.taken <= |m.log| && m.filled == m.log[m.taken..]
    && m.sequence == |m.log| == |m.lossBefore|
    && (forall i :: 0 <= i < |m.log| ==> m.log[i].sequence == i)
    && (m.current.Some? ==> m.current.value.sequence == |m.log|)
  }

  /** Samples of the running call that are still to be consumed. */
  function Pending(m: Machine): nat {
    if m.call.Some? then |m.call.value.rest| else 0
  }

  /** A frame count that never runs ahead of the samples consumed, and keeps up with them exactly as long
      as only whole frames came in. */
  predicate InStep(nextFrame: nat, channels: nat, consumed: nat, content: nat, pending: nat, whole: bool)
    requires channels > 0
  {
    && nextFrame * channels <= consumed
    && (nextFrame * channels == consumed ==> content % channels == 0)
    && (whole <==> nextFrame * channels == consumed && pending % channels == 0)
  }

  predicate Counted(m: Machine)
    requires m.channels > 0
  {
    InStep(m.nextFrame, m.channels, |m.offered|, |CurrentContent(m)|, Pending(m), m.whole)
  }

  /** b holds an unbroken part of the input. */
  predicate Holds(b: Block, start: nat, offered: seq<Sample>) {
    start + b.valid <= |offered| && Content(b) == offered[start..start + b.valid]
  }

  /** Start frames never run ahead of the position, and are exact as long as only whole frames came in. */
  predicate Labelled(b: Block, start: nat, channels: nat, whole: bool)
    requires channels > 0
  {
    && b.startFrame * channels <= start
    && (whole ==> b.startFrame * channels == start && b.valid % channels == 0)
  }

  predicate Positioned(m: Machine)
    requires m.channels > 0
  {
    && |m.starts| == |m.log|
    && (forall i :: 0 <= i < |m.log| ==>
          Holds(m.log[i], m.starts[i], m.offered) && Labelled(m.log[i], m.starts[i], m.channels, m.whole))
    && (forall i, j :: 0 <= i < j < |m.log| ==> m.starts[i] + m.log[i].valid <= m.starts[j])
    && (m.current.Some? ==>
          && Holds(m.current.value, m.startOfCurrent, m.offered)
          && Labelled(m.current.value, m.startOfCurrent, m.channels, m.whole)
          && m.startOfCurrent + m.current.value.valid == |m.offered|
          && forall i :: 0 <= i < |m.log| ==> m.starts[i] + m.log[i].valid <= m.startOfCurrent)
  }

  /** Frames are delivered, current or dropped; start frames skip exactly the dropped ones. */
  predicate Accounted(m: Machine)
    requires m.channels > 0
  {
    m.whole ==>
      && m.nextFrame == FramesIn(m.log, m.channels) + CurrentFrames(m) + m.droppedFrames
      && |m.lossBefore| == |m.log|
      && (forall i :: 0 <= i < |m.log| ==> m.lossBefore[i] <= m.droppedFrames)
      && (forall i, j :: 0 <= i <= j < |m.log| ==> m.lossBefore[i] <= m.lossBefore[j])
      && (forall i :: 0 <= i < |m.log| ==> m.log[i].startFrame == FramesIn(m.log[..i], m.channels) + m.lossBefore[i])
      && (m.current.Some? ==> m.lossBeforeCurrent == m.droppedFrames
                              && m.current.value.startFrame == FramesIn(m.log, m.channels) + m.droppedFrames)
  }

  /** Without drops the blocks, end to end, are the input; without flushes they are all full. */
  predicate Lossless(m: Machine) {
    && (m.unavailableBlocks == 0 ==> m.droppedFrames == 0 && SamplesIn(m.log) + CurrentContent(m) == m.offered)
    && (m.flushed == 0 ==> forall b <- m.log :: Full(b))
  }

  /** b carries the timestamp of the call that brought its first sample. */
  predicate StampedAt(b: Block, start: nat, stamps: seq<Option<nat>>) {
    start < |stamps| && b.timestamp == stamps[start]
  }

  /** Every block is stamped so; a block without samples belongs to the call that is about to fill it. */
  predicate Stamped(m: Machine) {
    && |m.stamps| == |m.offered| && |m.starts| == |m.log|
    && (forall i :: 0 <= i < |m.log| ==> StampedAt(m.log[i], m.starts[i], m.stamps))
    && (m.current.Some? ==>
          if m.current.value.valid > 0 then StampedAt(m.current.value, m.startOfCurrent, m.stamps)
          else m.startOfCurrent == |m.stamps| && m.call.Some? && m.call.value.rest != []
               && m.current.value.timestamp == m.call.value.timestamp)
  }

  predicate Inv(m: Machine) {
    && Shape(m) && Conserved(m) && InOrder(m) && Counted(m) && Positioned(m) && Accounted(m) && Lossless(m)
    && Stamped(m)
  }
}
