/** The handoff over whole runs: what the worker receives, told from the inputs of the callback alone. */
module HandoffRuns {
  import opened Wrappers
  import opened Rf64
  import opened Division
  import opened HandoffMachine
  import opened HandoffLaws

  /** The steps can happen in this order. */
  predicate Possible(m: Machine, steps: seq<Step>)
    decreases |steps|
  {
    steps == [] || (Sound(m) && Enabled(m, steps[0]) && Possible(Apply(m, steps[0]), steps[1..]))
  }

  function After(m: Machine, steps: seq<Step>): Machine
    requires Possible(m, steps)
    decreases |steps|
  {
    if steps == [] then m else After(Apply(m, steps[0]), steps[1..])
  }

  function InputOf(s: Step): seq<Sample> {
    if s.Capture? then s.input else []
  }

  /** Everything the callback was given, end to end. */
  function Inputs(steps: seq<Step>): seq<Sample>
    decreases |steps|
  {
    if steps == [] then [] else InputOf(steps[0]) + Inputs(steps[1..])
  }

  /** For every sample of the input the timestamp of the call that brought it. */
  function Stamps(steps: seq<Step>): seq<Option<nat>>
    decreases |steps|
  {
    if steps == [] then [] else StampsBy(steps[0]) + Stamps(steps[1..])
  }

  function StampsBy(s: Step): seq<Option<nat>> {
    if s.Capture? then seq(|s.input|, _ => s.timestamp) else []
  }

  predicate WholeInputs(steps: seq<Step>, channels: nat)
    requires channels > 0
  {
    forall s <- steps :: |InputOf(s)| % channels == 0
  }

  predicate Unflushed(steps: seq<Step>) {
    FlushPartial !in steps
  }

  function DeliveredBy(m: Machine, s: Step): seq<Block> {
    if s.Pop? && m.filled != [] then [m.filled[0]] else []
  }

  /** The blocks the worker pops, in order. */
  function Delivered(m: Machine, steps: seq<Step>): seq<Block>
    requires Possible(m, steps)
    decreases |steps|
  {
    if steps == [] then [] else DeliveredBy(m, steps[0]) + Delivered(Apply(m, steps[0]), steps[1..])
  }

  /** Consumed input and what is left of the running call. */
  function Seen(m: Machine): seq<Sample> {
    m.offered + if m.call.Some? then m.call.value.rest else []
  }

  function SeenStamps(m: Machine): seq<Option<nat>> {
    m.stamps + if m.call.Some? then StampsOf(m.call.value.rest, m.call.value.timestamp) else []
  }

  // ---- one step ----

  lemma StepSees(m: Machine, s: Step)
    requires Inv(m) && Enabled(m, s)
    ensures Seen(Apply(m, s)) == Seen(m) + InputOf(s)
    ensures Apply(m, s).whole <==> m.whole && |InputOf(s)| % m.channels == 0
  {
    hide Holds, Labelled, FramesIn, SamplesIn, Content, InOrder, Accounted, Positioned, Lossless, Counted;
    Multiple(m.channels, 0);
  }

  lemma StepStamps(m: Machine, s: Step)
    requires Inv(m) && Enabled(m, s)
    ensures SeenStamps(Apply(m, s)) == SeenStamps(m) + StampsBy(s)
  {
    hide Holds, Labelled, FramesIn, SamplesIn, Content, InOrder, Accounted, Positioned, Lossless, Counted, Stamped;
    if s == Continue && m.current.Some? && !Full(m.current.value) && m.call.value.rest != [] {
      var rest, count := m.call.value.rest, Copied(m);
      assert StampsOf(rest[..count], m.call.value.timestamp) + StampsOf(rest[count..], m.call.value.timestamp)
          == StampsOf(rest, m.call.value.timestamp);
    }
  }

  lemma StepDelivers(m: Machine, s: Step)
    requires Inv(m) && Enabled(m, s)
    ensures var n := Apply(m, s);
      && n.taken <= |n.log| && m.taken <= |m.log|
      && n.log[..n.taken] == m.log[..m.taken] + DeliveredBy(m, s)
      && n.channels == m.channels && n.capacity == m.capacity && n.pool == m.pool
      && (s != FlushPartial ==> n.flushed == m.flushed)
      && m.unavailableBlocks <= n.unavailableBlocks
  {
    hide Holds, Labelled, FramesIn, SamplesIn, Content, Accounted, Positioned, Lossless, Counted;
    if s == Pop && m.filled != [] {
      assert m.filled[0] == m.log[m.taken];
    }
  }

  // ---- whole runs ----

  lemma {:induction false} RunKeeps(m: Machine, steps: seq<Step>)
    requires Inv(m) && Possible(m, steps)
    ensures Inv(After(m, steps))
    decreases |steps|
  {
    if steps != [] {
      StepKeeps(m, steps[0]);
      RunKeeps(Apply(m, steps[0]), steps[1..]);
    }
  }

  lemma {:induction false} RunSees(m: Machine, steps: seq<Step>)
    requires Inv(m) && Possible(m, steps)
    ensures var n := After(m, steps);
      && Seen(n) == Seen(m) + Inputs(steps) && n.channels == m.channels
      && (n.whole <==> m.whole && WholeInputs(steps, m.channels))
    decreases |steps|
  {
    hide Inv, Seen, Apply, InputOf;
    if steps != [] {
      StepKeeps(m, steps[0]);
      StepSees(m, steps[0]);
      StepDelivers(m, steps[0]);
      RunSees(Apply(m, steps[0]), steps[1..]);
      assert steps == [steps[0]] + steps[1..];
    }
  }

  lemma {:induction false} RunStamps(m: Machine, steps: seq<Step>)
    requires Inv(m) && Possible(m, steps)
    ensures SeenStamps(After(m, steps)) == SeenStamps(m) + Stamps(steps)
    decreases |steps|
  {
    hide Inv, SeenStamps, Apply, StampsBy;
    if steps != [] {
      StepKeeps(m, steps[0]);
      StepStamps(m, steps[0]);
      RunStamps(Apply(m, steps[0]), steps[1..]);
    }
  }

  lemma {:induction false} RunDelivers(m: Machine, steps: seq<Step>)
    requires Inv(m) && Possible(m, steps)
    ensures var n := After(m, steps);
      && n.taken <= |n.log| && m.taken <= |m.log|
      && n.log[..n.taken] == m.log[..m.taken] + Delivered(m, steps)
      && n.channels == m.channels && n.capacity == m.capacity && n.pool == m.pool
      && (Unflushed(steps) ==> n.flushed == m.flushed)
    decreases |steps|
  {
    hide Inv, Apply, DeliveredBy;
    TakenBound(m);
    if steps != [] {
      StepKeeps(m, steps[0]);
      StepDelivers(m, steps[0]);
      RunDelivers(Apply(m, steps[0]), steps[1..]);
    }
  }

  lemma TakenBound(m: Machine)
    requires Inv(m)
    ensures m.taken <= |m.log|
  {
  }

  /** The state after a run of a new handoff. */
  function Reached(pool: nat, blockFrames: nat, channels: nat, steps: seq<Step>): Machine
    requires Possible(Initial(pool, blockFrames, channels), steps)
  {
    After(Initial(pool, blockFrames, channels), steps)
  }

  predicate Run(pool: nat, blockFrames: nat, channels: nat, steps: seq<Step>) {
    pool > 1 && blockFrames > 0 && channels > 0 && Possible(Initial(pool, blockFrames, channels), steps)
  }

  /** What every reachable state owes to the inputs and to what was delivered. */
  lemma ReachedFrom(pool: nat, blockFrames: nat, channels: nat, steps: seq<Step>)
    requires Run(pool, blockFrames, channels, steps)
    ensures var n := Reached(pool, blockFrames, channels, steps);
      && Inv(n) && n.channels == channels && n.capacity == blockFrames * channels && n.pool == pool
      && Seen(n) == Inputs(steps) && SeenStamps(n) == Stamps(steps) && (n.whole <==> WholeInputs(steps, channels))
      && n.taken <= |n.log| && n.log[..n.taken] == Delivered(Initial(pool, blockFrames, channels), steps)
      && (Unflushed(steps) ==> n.flushed == 0)
  {
    hide Inv;
    var m := Initial(pool, blockFrames, channels);
    InitialHolds(pool, blockFrames, channels);
    RunKeeps(m, steps);
    RunSees(m, steps);
    RunStamps(m, steps);
    RunDelivers(m, steps);
  }

  /** Every block is in exactly one place; no push, to either ring, ever finds it full. */
  lemma BlocksAreConserved(pool: nat, blockFrames: nat, channels: nat, steps: seq<Step>)
    requires Run(pool, blockFrames, channels, steps)
    ensures var n := Reached(pool, blockFrames, channels, steps);
      && |n.free| + |n.filled| + |n.held| + (if n.current.Some? then 1 else 0) == pool
      && n.saturatedBlocks == 0
      && (n.current.Some? ==> |n.filled| < pool)
      && (n.held != [] ==> |n.free| < pool)
  {
    ReachedFrom(pool, blockFrames, channels, steps);
  }

  /** The worker receives the sequence numbers 0, 1, 2, ... Whatever was dropped and whatever the sizes of
      the calls, every block holds an unbroken part of the input, and these parts come in order without
      overlap. Each carries the timestamp of the call that brought its first sample. Start frames never run
      ahead of them, and name them exactly if only whole frames came in. */
  lemma DeliveredInPlace(pool: nat, blockFrames: nat, channels: nat, steps: seq<Step>, i: nat)
    requires Run(pool, blockFrames, channels, steps)
    requires i < |Delivered(Initial(pool, blockFrames, channels), steps)|
    ensures var delivered := Delivered(Initial(pool, blockFrames, channels), steps);
      var n := Reached(pool, blockFrames, channels, steps);
      var b := delivered[i];
      && |n.starts| >= |delivered| && b.sequence == i && 0 < b.valid <= |b.samples| == blockFrames * channels
      && n.starts[i] + b.valid <= |Inputs(steps)|
      && (forall k :: 0 <= k < b.valid ==> b.samples[k] == Inputs(steps)[n.starts[i] + k])
      && (i > 0 ==> n.starts[i - 1] + delivered[i - 1].valid <= n.starts[i])
      && b.startFrame * channels <= n.starts[i]
      && (WholeInputs(steps, channels) ==> b.startFrame * channels == n.starts[i])
      && n.starts[i] < |Stamps(steps)| && b.timestamp == Stamps(steps)[n.starts[i]]
  {
    hide FramesIn, SamplesIn, Accounted, Counted, Lossless, Inputs, Delivered, Content, WholeInputs, Stamps;
    ReachedFrom(pool, blockFrames, channels, steps);
    var n := Reached(pool, blockFrames, channels, steps);
    var b := Delivered(Initial(pool, blockFrames, channels), steps)[i];
    assert b == n.log[i] && b in n.log;
    assert n.offered <= Inputs(steps) && n.stamps <= Stamps(steps);
    assert StampedAt(b, n.starts[i], n.stamps);
    forall k | 0 <= k < b.valid
      ensures b.samples[k] == Inputs(steps)[n.starts[i] + k]
    {
      HeldAt(b, n.starts[i], n.offered, k);
      assert n.offered[n.starts[i] + k] == Inputs(steps)[n.starts[i] + k];
    }
    if i > 0 {
      assert n.starts[i - 1] + n.log[i - 1].valid <= n.starts[i];
    }
  }

  lemma HeldAt(b: Block, start: nat, offered: seq<Sample>, k: nat)
    requires Holds(b, start, offered) && k < b.valid <= |b.samples|
    ensures b.samples[k] == offered[start + k]
  {
    assert Content(b)[k] == offered[start..start + b.valid][k];
  }

  /** Between calls: the frame counter is exactly the number of frames given in, unless some call ended
      inside a frame, and then it is too small for good. */
  lemma FramesCountedIffWhole(pool: nat, blockFrames: nat, channels: nat, steps: seq<Step>)
    requires Run(pool, blockFrames, channels, steps) && Reached(pool, blockFrames, channels, steps).call.None?
    ensures var n := Reached(pool, blockFrames, channels, steps);
      && n.nextFrame * channels <= |Inputs(steps)|
      && (n.nextFrame * channels == |Inputs(steps)| <==> WholeInputs(steps, channels))
  {
    hide FramesIn, SamplesIn, Accounted, Conserved, Positioned, Lossless, Inputs, Delivered;
    ReachedFrom(pool, blockFrames, channels, steps);
    Multiple(channels, 0);
  }

  /** The block that the next call starts is labelled with its true position exactly if every call so far
      carried whole frames. */
  lemma NextLabelExactIffWhole(pool: nat, blockFrames: nat, channels: nat, steps: seq<Step>,
                               input: seq<Sample>, timestamp: Option<nat>)
    requires Run(pool, blockFrames, channels, steps) && input != []
    requires var n := Reached(pool, blockFrames, channels, steps); n.call.None? && n.current.None? && n.free != []
    ensures var n := Reached(pool, blockFrames, channels, steps);
      n.channels == channels &&
      var begun := Begin(n, input, timestamp);
      var next := Acquire(begun);
      && next == Advance(begun) && next.current.Some? && next.startOfCurrent == |Inputs(steps)|
      && (next.current.value.startFrame * channels == next.startOfCurrent <==> WholeInputs(steps, channels))
  {
    hide FramesIn, SamplesIn, Accounted, Conserved, Positioned, Lossless, Inputs, WholeInputs;
    ReachedFrom(pool, blockFrames, channels, steps);
    FramesCountedIffWhole(pool, blockFrames, channels, steps);
  }

  /** Whole frames in: each is delivered, waiting, in the current block, or counted as dropped. */
  lemma FramesBalance(pool: nat, blockFrames: nat, channels: nat, steps: seq<Step>)
    requires Run(pool, blockFrames, channels, steps) && WholeInputs(steps, channels)
    requires Reached(pool, blockFrames, channels, steps).call.None?
    ensures var n := Reached(pool, blockFrames, channels, steps);
      var delivered := Delivered(Initial(pool, blockFrames, channels), steps);
      && n.channels == channels && n.nextFrame == |Inputs(steps)| / channels
      && n.nextFrame == FramesIn(delivered + n.filled, channels) + CurrentFrames(n) + n.droppedFrames
  {
    hide FramesIn, SamplesIn, Conserved, Positioned, Lossless, Inputs, Delivered;
    ReachedFrom(pool, blockFrames, channels, steps);
    var n := Reached(pool, blockFrames, channels, steps);
    Multiple(channels, n.nextFrame);
    assert n.log == n.log[..n.taken] + n.filled;
  }

  /** Whole frames in: the distance from the end of one block to the start of the next is the number of
      frames dropped in between, and a block's start frame is the frames delivered plus those dropped before. */
  lemma GapsAreDrops(pool: nat, blockFrames: nat, channels: nat, steps: seq<Step>, i: nat)
    requires Run(pool, blockFrames, channels, steps) && WholeInputs(steps, channels)
    requires i < |Delivered(Initial(pool, blockFrames, channels), steps)|
    ensures var n := Reached(pool, blockFrames, channels, steps);
      var delivered := Delivered(Initial(pool, blockFrames, channels), steps);
      && |n.lossBefore| >= |delivered|
      && delivered[i].startFrame == FramesIn(delivered[..i], channels) + n.lossBefore[i]
      && n.lossBefore[i] <= n.droppedFrames
      && (i > 0 ==>
            && n.lossBefore[i - 1] <= n.lossBefore[i]
            && delivered[i].startFrame
               == delivered[i - 1].startFrame + delivered[i - 1].valid / channels
                  + (n.lossBefore[i] - n.lossBefore[i - 1]))
  {
    hide FramesIn, SamplesIn, Conserved, Positioned, Lossless, Inputs, Delivered;
    ReachedFrom(pool, blockFrames, channels, steps);
    var n := Reached(pool, blockFrames, channels, steps);
    var delivered := Delivered(Initial(pool, blockFrames, channels), steps);
    assert delivered[..i] == n.log[..i];
    if i > 0 {
      FramesSnoc(delivered[..i - 1], delivered[i - 1], channels);
      assert delivered[..i - 1] + [delivered[i - 1]] == delivered[..i];
      assert delivered[..i - 1] == n.log[..i - 1];
    }
  }

  // ---- nothing lost, nothing moved ----

  lemma NoSamples()
    ensures SamplesIn([]) == []
  {
  }

  lemma {:induction false} SamplesConcat(a: seq<Block>, b: seq<Block>)
    ensures SamplesIn(a + b) == SamplesIn(a) + SamplesIn(b)
  {
    hide SamplesIn, Content;
    NoSamples();
    if b == [] {
      assert a + b == a;
    } else {
      var init, last := b[..|b| - 1], b[|b| - 1];
      SamplesConcat(a, init);
      SamplesSnoc(init, last);
      SamplesSnoc(a + init, last);
      assert init + [last] == b && a + init + [last] == a + b;
    }
  }

  /** As long as a block was always available, delivered, waiting, current and unread samples are the
      input, whatever the sizes of the calls and however the worker was interleaved. */
  lemma NothingLost(pool: nat, blockFrames: nat, channels: nat, steps: seq<Step>)
    requires Run(pool, blockFrames, channels, steps)
    ensures var n := Reached(pool, blockFrames, channels, steps);
      n.unavailableBlocks == 0 ==>
        && n.droppedFrames == 0
        && SamplesIn(Delivered(Initial(pool, blockFrames, channels), steps)) + SamplesIn(n.filled) + CurrentContent(n)
           + (if n.call.Some? then n.call.value.rest else []) == Inputs(steps)
  {
    hide FramesIn, SamplesIn, Conserved, Positioned, Accounted, Counted, Inputs, Delivered;
    ReachedFrom(pool, blockFrames, channels, steps);
    var n := Reached(pool, blockFrames, channels, steps);
    assert n.log == n.log[..n.taken] + n.filled;
    SamplesConcat(n.log[..n.taken], n.filled);
  }

  /** Piece i of a stream cut at multiples of `size`. */
  function Piece(stream: seq<Sample>, size: nat, i: nat): seq<Sample>
    requires (i + 1) * size <= |stream|
  {
    assert i * size <= (i + 1) * size;
    stream[i * size..(i + 1) * size]
  }

  lemma PieceBefore(a: seq<Sample>, b: seq<Sample>, size: nat, i: nat)
    requires (i + 1) * size <= |a|
    ensures Piece(a + b, size, i) == Piece(a, size, i)
  {
  }

  lemma {:induction false} FullBlocksCut(blocks: seq<Block>, size: nat, i: nat)
    requires forall b <- blocks :: Full(b) && |b.samples| == size
    ensures |SamplesIn(blocks)| == |blocks| * size
    ensures i < |blocks| ==> (i + 1) * size <= |blocks| * size && Piece(SamplesIn(blocks), size, i) == blocks[i].samples
  {
    hide SamplesIn, Piece;
    NoSamples();
    if blocks != [] {
      var n := |blocks| - 1;
      var init, last := blocks[..n], blocks[n];
      FullBlocksCut(init, size, i);
      SamplesSnoc(init, last);
      assert init + [last] == blocks;
      assert (n + 1) * size == n * size + size;
      if i < n {
        PieceBefore(SamplesIn(init), Content(last), size, i);
      } else if i == n {
        LastPiece(SamplesIn(init), Content(last), size, n);
      }
    }
  }

  lemma LastPiece(a: seq<Sample>, b: seq<Sample>, size: nat, n: nat)
    requires |a| == n * size && |b| == size
    ensures (n + 1) * size == |a + b| && Piece(a + b, size, n) == b
  {
    assert (n + 1) * size == n * size + size;
  }

  /** Without drops and flushes the blocks are the canonical cut of the input into whole block sizes. */
  lemma CanonicalCut(pool: nat, blockFrames: nat, channels: nat, steps: seq<Step>, i: nat)
    requires Run(pool, blockFrames, channels, steps) && Unflushed(steps)
    requires i < |Delivered(Initial(pool, blockFrames, channels), steps)|
    ensures var size := blockFrames * channels;
      var n := Reached(pool, blockFrames, channels, steps);
      n.unavailableBlocks == 0 ==>
        && (i + 1) * size <= |Inputs(steps)|
        && Content(Delivered(Initial(pool, blockFrames, channels), steps)[i]) == Piece(Inputs(steps), size, i)
  {
    hide FramesIn, SamplesIn, Conserved, Positioned, Accounted, Counted, Inputs, Delivered, Piece;
    ReachedFrom(pool, blockFrames, channels, steps);
    var n := Reached(pool, blockFrames, channels, steps);
    if n.unavailableBlocks == 0 {
      var rest := CurrentContent(n) + if n.call.Some? then n.call.value.rest else [];
      assert Inputs(steps) == SamplesIn(n.log) + rest;
      FullBlocksCut(n.log, n.capacity, i);
      PieceBefore(SamplesIn(n.log), rest, n.capacity, i);
      assert n.log[i] == Delivered(Initial(pool, blockFrames, channels), steps)[i];
    }
  }

  // ---- chunking independence ----

  lemma CutDetermined(size: nat, p: nat, q: nat, r: nat, s: nat)
    requires p * size + r == q * size + s && r < size && s < size
    ensures p == q && r == s
  {
    QuotientOfRemainder(p * size + r, size, p, r);
    QuotientOfRemainder(p * size + r, size, q, s);
  }

  /** What a run without drops and flushes has cut its input into, between calls. */
  lemma CutOf(pool: nat, blockFrames: nat, channels: nat, steps: seq<Step>)
    requires Run(pool, blockFrames, channels, steps) && Unflushed(steps)
    requires Reached(pool, blockFrames, channels, steps).call.None?
    ensures var n := Reached(pool, blockFrames, channels, steps);
      var size := blockFrames * channels;
      n.unavailableBlocks == 0 ==>
        && Inputs(steps) == SamplesIn(n.log) + CurrentContent(n)
        && (forall b <- n.log :: Full(b) && |b.samples| == size)
        && |CurrentContent(n)| < size
        && |Inputs(steps)| == |n.log| * size + |CurrentContent(n)|
  {
    hide FramesIn, SamplesIn, Conserved, Positioned, Accounted, Counted, Inputs, Delivered;
    ReachedFrom(pool, blockFrames, channels, steps);
    var n := Reached(pool, blockFrames, channels, steps);
    if n.unavailableBlocks == 0 {
      FullBlocksCut(n.log, n.capacity, 0);
      assert n.offered + [] == n.offered;
    }
  }

  /** Two runs that are given the same samples in calls of any sizes, on pools of any sizes, with any
      interleaving of their workers, publish the same blocks and are left with the same partial block. */
  lemma ChunkingIndependence(pool: nat, pool': nat, blockFrames: nat, channels: nat,
                             steps: seq<Step>, steps': seq<Step>)
    requires Run(pool, blockFrames, channels, steps) && Unflushed(steps)
    requires Run(pool', blockFrames, channels, steps') && Unflushed(steps')
    requires Inputs(steps) == Inputs(steps')
    ensures var m, n := Reached(pool, blockFrames, channels, steps), Reached(pool', blockFrames, channels, steps');
      m.call.None? && n.call.None? && m.unavailableBlocks == 0 && n.unavailableBlocks == 0 ==>
        && |m.log| == |n.log| && CurrentContent(m) == CurrentContent(n)
        && forall i :: 0 <= i < |m.log| ==> m.log[i].samples == n.log[i].samples
  {
    hide SamplesIn, Inputs, Piece, CurrentContent;
    var m, n := Reached(pool, blockFrames, channels, steps), Reached(pool', blockFrames, channels, steps');
    if m.call.None? && n.call.None? && m.unavailableBlocks == 0 && n.unavailableBlocks == 0 {
      var size := blockFrames * channels;
      CutOf(pool, blockFrames, channels, steps);
      CutOf(pool', blockFrames, channels, steps');
      CutDetermined(size, |m.log|, |n.log|, |CurrentContent(m)|, |CurrentContent(n)|);
      FullBlocksCut(m.log, size, 0);
      FullBlocksCut(n.log, size, 0);
      SameHalves(SamplesIn(m.log), CurrentContent(m), SamplesIn(n.log), CurrentContent(n));
      forall i | 0 <= i < |m.log|
        ensures m.log[i].samples == n.log[i].samples
      {
        FullBlocksCut(m.log, size, i);
        FullBlocksCut(n.log, size, i);
      }
    }
  }

  lemma SameHalves(a: seq<Sample>, b: seq<Sample>, c: seq<Sample>, d: seq<Sample>)
    requires a + b == c + d && |a| == |c|
    ensures a == c && b == d
  {
    assert (a + b)[..|a|] == a && (c + d)[..|a|] == c;
    assert (a + b)[|a|..] == b && (c + d)[|a|..] == d;
  }
}
