/** What every run of the handoff keeps, for any inputs and any interleaving with the worker. */
module HandoffLaws {
  import opened Wrappers
  import opened Rf64
  import opened HandoffMachine
  import opened Division

  // ---- lists of blocks ----

  lemma FramesSnoc(blocks: seq<Block>, b: Block, channels: nat)
    requires channels > 0
    ensures FramesIn(blocks + [b], channels) == FramesIn(blocks, channels) + b.valid / channels
  {
    assert (blocks + [b])[..|blocks|] == blocks;
  }

  lemma SamplesSnoc(blocks: seq<Block>, b: Block)
    ensures SamplesIn(blocks + [b]) == SamplesIn(blocks) + Content(b)
  {
    assert (blocks + [b])[..|blocks|] == blocks;
  }

  lemma HoldsStays(b: Block, start: nat, offered: seq<Sample>, more: seq<Sample>)
    requires Holds(b, start, offered)
    ensures Holds(b, start, offered + more)
  {
    assert (offered + more)[start..start + b.valid] == offered[start..start + b.valid];
  }

  // ---- frame counts ----

  /** Consuming `count` samples, of which only the last of a call may end inside a frame. */
  lemma ConsumeInStep(nextFrame: nat, channels: nat, consumed: nat, content: nat, pending: nat, whole: bool, count: nat)
    requires channels > 0 && InStep(nextFrame, channels, consumed, content, pending, whole) && count <= pending
    requires nextFrame * channels == consumed && count % channels != 0 ==> count == pending
    ensures InStep(nextFrame + count / channels, channels, consumed + count, content + count, pending - count, whole)
    ensures count == pending ==> InStep(nextFrame + count / channels, channels, consumed + count, 0, 0, whole)
    ensures whole ==> count % channels == 0
  {
    assert (nextFrame + count / channels) * channels == nextFrame * channels + count / channels * channels;
    WholeFrames(count, channels);
    Multiple(channels, 0);
    if count % channels == 0 {
      SumOfWhole(count, pending - count, channels);
      SumOfWhole(count, content, channels);
    }
  }

  // ---- timestamps ----

  lemma StampedStays(b: Block, start: nat, stamps: seq<Option<nat>>, more: seq<Option<nat>>)
    requires StampedAt(b, start, stamps)
    ensures StampedAt(b, start, stamps + more)
  {
    assert (stamps + more)[start] == stamps[start];
  }

  /** Nothing that the worker, a beginning or an ending call does moves a stamp. */
  lemma StampsUntouched(m: Machine, n: Machine)
    requires Stamped(m)
    requires n.stamps == m.stamps && |n.offered| == |m.offered| && n.starts == m.starts && n.log == m.log
    requires n.current == m.current && n.startOfCurrent == m.startOfCurrent
    requires m.current.Some? && m.current.value.valid == 0 ==> n.call == m.call
    ensures Stamped(n)
  {
  }

  lemma DropStamps(m: Machine)
    requires Inv(m) && m.call.Some? && m.current.None?
    ensures Stamped(DropRest(m.(unavailableBlocks := m.unavailableBlocks + 1)))
  {
    hide Conserved, InOrder, Positioned, Accounted, Lossless, Counted, StampedAt, Shape;
    var more := StampsOf(m.call.value.rest, m.call.value.timestamp);
    forall i | 0 <= i < |m.log|
      ensures StampedAt(m.log[i], m.starts[i], m.stamps + more)
    {
      StampedStays(m.log[i], m.starts[i], m.stamps, more);
    }
  }

  lemma AcquireStamps(m: Machine)
    requires Inv(m) && m.call.Some? && m.current.None? && m.call.value.rest != []
    ensures Stamped(Acquire(m))
  {
    hide Conserved, InOrder, Positioned, Accounted, Lossless, Counted, StampedAt, Shape;
    if m.free == [] {
      DropStamps(m);
    }
  }

  lemma CopyStamps(m: Machine)
    requires Inv(m) && m.call.Some? && m.current.Some? && !Full(m.current.value) && m.call.value.rest != []
    ensures Stamped(Copy(m))
  {
    hide Conserved, InOrder, Positioned, Accounted, Lossless, Counted, StampedAt;
    var b, c := m.current.value, Copy(m).current.value;
    var more := StampsOf(m.call.value.rest[..Copied(m)], m.call.value.timestamp);
    assert Copied(m) > 0;
    forall i | 0 <= i < |m.log|
      ensures StampedAt(m.log[i], m.starts[i], m.stamps + more)
    {
      StampedStays(m.log[i], m.starts[i], m.stamps, more);
    }
    if b.valid > 0 {
      StampedStays(b, m.startOfCurrent, m.stamps, more);
      SameStamp(b, c, m.startOfCurrent, m.stamps + more);
    } else {
      FirstStamp(c, m.stamps, more);
    }
  }

  lemma SameStamp(b: Block, c: Block, start: nat, stamps: seq<Option<nat>>)
    requires StampedAt(b, start, stamps) && c.timestamp == b.timestamp
    ensures StampedAt(c, start, stamps)
  {
  }

  lemma FirstStamp(b: Block, stamps: seq<Option<nat>>, more: seq<Option<nat>>)
    requires more != [] && b.timestamp == more[0]
    ensures StampedAt(b, |stamps|, stamps + more)
  {
  }

  lemma PushStamps(m: Machine)
    requires Inv(m) && m.current.Some? && m.current.value.valid > 0
    ensures Stamped(Push(m)) && Stamped(Push(m).(flushed := m.flushed + 1))
  {
    hide Conserved, InOrder, Positioned, Accounted, Lossless, Counted, StampedAt, Shape;
  }

  // ---- steps ----

  lemma InitialHolds(pool: nat, blockFrames: nat, channels: nat)
    requires pool > 1 && blockFrames > 0 && channels > 0
    ensures Inv(Initial(pool, blockFrames, channels))
  {
    Multiple(channels, blockFrames);
    Multiple(channels, 0);
  }

  lemma TakeKeeps(m: Machine)
    requires Inv(m)
    ensures Inv(Take(m))
  {
    hide Holds, Labelled, FramesIn, SamplesIn, Content, InStep, Stamped;
    StampsUntouched(m, Take(m));
    if m.filled != [] {
      assert m.log[m.taken..][0] == m.log[m.taken];
      assert m.log[m.taken..][1..] == m.log[m.taken + 1..];
    }
  }

  lemma RecycleKeeps(m: Machine, i: nat)
    requires Inv(m) && i < |m.held|
    ensures Inv(Recycle(m, i)) && |m.free| < m.pool
  {
    hide Holds, Labelled, FramesIn, SamplesIn, Content, InStep, Stamped;
    StampsUntouched(m, Recycle(m, i));
  }

  lemma BeginCounts(m: Machine, input: seq<Sample>, timestamp: Option<nat>)
    requires Inv(m) && m.call.None?
    ensures Counted(Begin(m, input, timestamp))
  {
    hide Conserved, InOrder, Positioned, Accounted, Lossless, Stamped;
    Multiple(m.channels, 0);
  }

  lemma BeginKeeps(m: Machine, input: seq<Sample>, timestamp: Option<nat>)
    requires Inv(m) && m.call.None?
    ensures Inv(Begin(m, input, timestamp))
  {
    hide Holds, FramesIn, SamplesIn, Content, Counted, StampedAt;
    BeginCounts(m, input, timestamp);
  }

  lemma EndKeeps(m: Machine)
    requires Inv(m) && m.call.Some? && m.call.value.rest == [] && (m.current.Some? ==> !Full(m.current.value))
    ensures Inv(m.(call := None))
  {
    hide Holds, Labelled, FramesIn, SamplesIn, Content, StampedAt;
  }

  lemma DropCounts(m: Machine)
    requires Inv(m) && m.call.Some? && m.current.None?
    ensures Counted(DropRest(m)) && (m.whole ==> |m.call.value.rest| % m.channels == 0)
  {
    hide Conserved, InOrder, Positioned, Accounted, Lossless, Stamped;
    ConsumeInStep(m.nextFrame, m.channels, |m.offered|, 0, Pending(m), m.whole, Pending(m));
  }

  lemma DropKeeps(m: Machine)
    requires Inv(m) && m.call.Some? && m.current.None?
    ensures Inv(DropRest(m.(unavailableBlocks := m.unavailableBlocks + 1)))
  {
    hide Holds, Labelled, FramesIn, SamplesIn, Content, Counted, Stamped;
    DropStamps(m);
    var n := DropRest(m.(unavailableBlocks := m.unavailableBlocks + 1));
    DropCounts(m);
    assert Counted(n) by { CountedOf(DropRest(m), n); }
    forall i | 0 <= i < |m.log|
      ensures Holds(m.log[i], m.starts[i], n.offered)
    {
      HoldsStays(m.log[i], m.starts[i], m.offered, m.call.value.rest);
    }
  }

  lemma CountedOf(m: Machine, n: Machine)
    requires m.channels > 0 && Counted(m) && n == m.(unavailableBlocks := n.unavailableBlocks)
    ensures Counted(n)
  {
  }

  lemma AcquireKeeps(m: Machine)
    requires Inv(m) && m.call.Some? && m.current.None? && m.call.value.rest != []
    ensures Inv(Acquire(m))
  {
    hide FramesIn, SamplesIn, Stamped;
    AcquireStamps(m);
    Multiple(m.channels, 0);
    if m.free == [] {
      DropKeeps(m);
    }
  }

  lemma PushOrders(m: Machine)
    requires Inv(m) && m.current.Some?
    ensures InOrder(Push(m))
  {
    hide Holds, Labelled, FramesIn, SamplesIn, Content, Counted, Accounted, Lossless, Positioned, Stamped;
    assert (m.log + [m.current.value])[m.taken..] == m.filled + [m.current.value];
  }

  lemma PushAccounts(m: Machine)
    requires Inv(m) && m.current.Some?
    ensures Accounted(Push(m))
  {
    hide Holds, Labelled, SamplesIn, Content, Counted, Lossless, Positioned, FramesIn, Stamped;
    FramesSnoc(m.log, m.current.value, m.channels);
    var log := m.log + [m.current.value];
    forall i | 0 <= i < |log|
      ensures log[..i] == m.log[..i]
    {
    }
    assert m.log[..|m.log|] == m.log;
  }

  lemma PushPlaces(m: Machine)
    requires Inv(m) && m.current.Some? && m.current.value.valid > 0
    ensures Positioned(Push(m)) && Counted(Push(m))
  {
    hide Holds, Labelled, FramesIn, SamplesIn, InOrder, Accounted, Stamped, Lossless, Conserved;
    Multiple(m.channels, 0);
  }

  /** What does not speak of how many blocks were flushed. */
  predicate Unchanged(m: Machine)
    requires m.channels > 0
  {
    Shape(m) && Conserved(m) && InOrder(m) && Counted(m) && Positioned(m) && Accounted(m) && Stamped(m)
  }

  lemma FlushedOf(m: Machine, n: Machine)
    requires m.channels > 0 && Unchanged(m) && n == m.(flushed := n.flushed)
    ensures Unchanged(n)
  {
    hide Holds, Labelled, FramesIn, SamplesIn, Content, StampedAt, InStep, Full;
  }

  lemma PushKeepsOthers(m: Machine)
    requires Inv(m) && m.current.Some? && m.current.value.valid > 0
    ensures |m.filled| < m.pool && Unchanged(Push(m))
  {
    hide Holds, Labelled, FramesIn, SamplesIn, Content, InOrder, Accounted, Stamped, Positioned, Counted, Lossless;
    PushStamps(m);
    PushOrders(m);
    PushAccounts(m);
    PushPlaces(m);
  }

  lemma PushLoses(m: Machine)
    requires Inv(m) && m.current.Some?
    ensures Full(m.current.value) ==> Lossless(Push(m))
    ensures Lossless(Push(m).(flushed := m.flushed + 1))
  {
    hide SamplesIn, Content, InOrder, Accounted, Stamped, Positioned, Counted, Conserved;
    SamplesSnoc(m.log, m.current.value);
  }

  lemma PushKeeps(m: Machine)
    requires Inv(m) && m.current.Some? && m.current.value.valid > 0
    ensures |m.filled| < m.pool
    ensures Full(m.current.value) ==> Inv(Push(m))
    ensures Inv(Push(m).(flushed := m.flushed + 1))
  {
    PushKeepsOthers(m);
    PushLoses(m);
    FlushedOf(Push(m), Push(m).(flushed := m.flushed + 1));
    hide Shape, Conserved, InOrder, Accounted, Stamped, Positioned, Counted, Lossless;
  }

  lemma FlushKeeps(m: Machine)
    requires Inv(m) && m.call.None?
    ensures Inv(Flush(m))
  {
    hide Holds, Labelled, FramesIn, SamplesIn, Content, InOrder, Accounted, Positioned, Lossless, Counted, Stamped;
    if m.current.Some? && m.current.value.valid > 0 {
      PushKeeps(m);
    }
  }

  /** What one bounded copy consumes. */
  function Copied(m: Machine): (count: nat)
    requires m.call.Some? && m.current.Some? && m.current.value.valid <= |m.current.value.samples|
    ensures count <= |m.call.value.rest| && m.current.value.valid + count <= |m.current.value.samples|
  {
    Min(|m.call.value.rest|, |m.current.value.samples| - m.current.value.valid)
  }

  lemma CopyCounts(m: Machine)
    requires Inv(m) && m.call.Some? && m.current.Some?
    ensures Counted(Copy(m))
    ensures m.whole ==> Copied(m) % m.channels == 0 && m.current.value.valid % m.channels == 0
  {
    hide Conserved, InOrder, Positioned, Accounted, Lossless, InStep, Stamped;
    var valid, room, count := m.current.value.valid, m.capacity - m.current.value.valid, Copied(m);
    InStepMeans(m);
    if m.nextFrame * m.channels == |m.offered| && count != Pending(m) {
      SumOfWhole(valid, room, m.channels);
    }
    ConsumeInStep(m.nextFrame, m.channels, |m.offered|, valid, Pending(m), m.whole, count);
  }

  lemma InStepMeans(m: Machine)
    requires m.channels > 0 && Counted(m)
    ensures m.nextFrame * m.channels == |m.offered| ==> |CurrentContent(m)| % m.channels == 0
    ensures m.whole ==> m.nextFrame * m.channels == |m.offered|
  {
  }

  lemma CopyContent(m: Machine)
    requires m.call.Some? && m.current.Some? && m.channels > 0 && m.current.value.valid <= |m.current.value.samples|
    ensures Content(Copy(m).current.value) == Content(m.current.value) + m.call.value.rest[..Copied(m)]
  {
  }

  lemma CopyPlaces(m: Machine)
    requires Inv(m) && m.call.Some? && m.current.Some?
    ensures Positioned(Copy(m))
  {
    hide Conserved, InOrder, Accounted, Lossless, InStep, Content, Counted, Stamped;
    CopyCounts(m);
    CopyContent(m);
    var b, c, more := m.current.value, Copy(m).current.value, m.call.value.rest[..Copied(m)];
    if m.whole {
      SumOfWhole(b.valid, Copied(m), m.channels);
    }
    var start := m.startOfCurrent;
    assert (m.offered + more)[start..start + c.valid] == m.offered[start..start + b.valid] + more;
    forall i | 0 <= i < |m.log|
      ensures Holds(m.log[i], m.starts[i], m.offered + more)
    {
      HoldsStays(m.log[i], m.starts[i], m.offered, more);
    }
  }

  lemma CopyAccounts(m: Machine)
    requires Inv(m) && m.call.Some? && m.current.Some?
    ensures Accounted(Copy(m))
  {
    hide Conserved, InOrder, Positioned, Lossless, InStep, Counted, FramesIn, Stamped;
    CopyCounts(m);
    if m.whole {
      SumOfWhole(m.current.value.valid, Copied(m), m.channels);
    }
  }

  lemma CopyKeeps(m: Machine)
    requires Inv(m) && m.call.Some? && m.current.Some? && !Full(m.current.value) && m.call.value.rest != []
    ensures Inv(Copy(m))
  {
    hide FramesIn, SamplesIn, Content, Counted, Positioned, Accounted, Stamped;
    CopyStamps(m);
    CopyCounts(m);
    CopyPlaces(m);
    CopyAccounts(m);
    CopyContent(m);
    assert SamplesIn(m.log) + (Content(m.current.value) + m.call.value.rest[..Copied(m)])
        == SamplesIn(m.log) + Content(m.current.value) + m.call.value.rest[..Copied(m)];
  }

  lemma AdvanceKeeps(m: Machine)
    requires Inv(m) && m.call.Some?
    ensures Inv(Advance(m))
  {
    hide Holds, Labelled, FramesIn, SamplesIn, Content, InOrder, Accounted, Positioned, Lossless, Counted;
    hide Stamped, Copy, Acquire, Push;
    if m.current.Some? && Full(m.current.value) {
      PushKeeps(m);
    } else if m.call.value.rest == [] {
      EndKeeps(m);
    } else if m.current.None? {
      AcquireKeeps(m);
    } else {
      CopyKeeps(m);
    }
  }

  lemma StepKeeps(m: Machine, s: Step)
    requires Inv(m) && Enabled(m, s)
    ensures Inv(Apply(m, s))
  {
    hide Holds, Labelled, FramesIn, SamplesIn, Content, InOrder, Accounted, Positioned, Lossless, Counted;
    hide Stamped, Begin, Advance, Flush, Take, Recycle;
    match s
    case Capture(input, timestamp) => BeginKeeps(m, input, timestamp);
    case Continue => AdvanceKeeps(m);
    case FlushPartial => FlushKeeps(m);
    case Pop => TakeKeeps(m);
    case Return(i) => RecycleKeeps(m, i);
  }
}
