/** The realtime handoff in its own form: capture is a loop over its input that never waits, with the
    worker free to act between any two of its ring operations and copies. */
module Realtime {
  import opened Wrappers
  import opened Rf64
  import opened Division
  import opened HandoffMachine
  import opened HandoffLaws
  import opened HandoffRuns

  // ---- the caller's side of a run ----

  function CallOf(s: Step): seq<Step> {
    if s.Capture? || s.FlushPartial? then [s] else []
  }

  /** The calls of a run, without the steps that carry them out and those of the worker. */
  function Calls(steps: seq<Step>): seq<Step>
    decreases |steps|
  {
    if steps == [] then [] else CallOf(steps[0]) + Calls(steps[1..])
  }

  /** What the run theorems ask of a run, they ask of its calls. */
  lemma {:induction false} CallsDecide(steps: seq<Step>, channels: nat)
    requires channels > 0
    ensures Inputs(steps) == Inputs(Calls(steps)) && Stamps(steps) == Stamps(Calls(steps))
    ensures WholeInputs(steps, channels) <==> WholeInputs(Calls(steps), channels)
    ensures Unflushed(steps) <==> Unflushed(Calls(steps))
    decreases |steps|
  {
    if steps != [] {
      var s, rest := steps[0], steps[1..];
      Multiple(channels, 0);
      CallsDecide(rest, channels);
      assert steps == [s] + rest;
      if CallOf(s) == [] {
        assert Calls(steps) == Calls(rest);
      } else {
        assert Calls(steps) == [s] + Calls(rest);
        assert ([s] + Calls(rest))[1..] == Calls(rest);
      }
    }
  }

  // ---- runs grow at their end ----

  lemma {:induction false} OneMoreStep(m: Machine, steps: seq<Step>, s: Step)
    requires Possible(m, steps) && Sound(After(m, steps)) && Enabled(After(m, steps), s)
    ensures Possible(m, steps + [s]) && After(m, steps + [s]) == Apply(After(m, steps), s)
    ensures Delivered(m, steps + [s]) == Delivered(m, steps) + DeliveredBy(After(m, steps), s)
    decreases |steps|
  {
    hide Apply, Enabled, Sound, DeliveredBy;
    if steps == [] {
      JustOneStep(m, s);
      assert [] + [s] == [s];
    } else {
      OneMoreStep(Apply(m, steps[0]), steps[1..], s);
      assert (steps + [s])[1..] == steps[1..] + [s];
    }
  }

  lemma {:induction false} OneMoreCall(steps: seq<Step>, s: Step)
    ensures Calls(steps + [s]) == Calls(steps) + CallOf(s)
    decreases |steps|
  {
    hide CallOf;
    if steps == [] {
      assert [s][1..] == [];
      assert [] + [s] == [s];
    } else {
      OneMoreCall(steps[1..], s);
      assert (steps + [s])[1..] == steps[1..] + [s];
    }
  }

  lemma JustOneStep(m: Machine, s: Step)
    requires Sound(m) && Enabled(m, s)
    ensures Possible(m, [s]) && After(m, [s]) == Apply(m, s)
    ensures Delivered(m, [s]) == DeliveredBy(m, s)
  {
    assert [s][1..] == [];
    assert Possible(Apply(m, s), []);
  }

  class Handoff {
    const pool: nat
    const blockFrames: nat
    const channels: nat
    // the two rings
    var free: seq<Block>
    var filled: seq<Block>
    // the callback
    var current: Option<Block>
    var sequence: nat
    var nextFrame: nat
    // the counters
    var unavailableBlocks: nat
    var saturatedBlocks: nat
    var droppedFrames: nat
    // the worker
    var held: seq<Block>
    // what happened so far
    ghost var steps: seq<Step>
    ghost var model: Machine

    ghost predicate Agrees()
      reads this
    {
      && model.free == free && model.filled == filled && model.held == held
      && model.current == current && model.sequence == sequence && model.nextFrame == nextFrame
      && model.unavailableBlocks == unavailableBlocks && model.saturatedBlocks == saturatedBlocks
      && model.droppedFrames == droppedFrames
      && model.pool == pool && model.capacity == blockFrames * channels && model.channels == channels
    }

    /** The fields are those of the protocol after some run, possibly inside a call. */
    ghost predicate Valid()
      reads this
    {
      && Run(pool, blockFrames, channels, steps) && model == Reached(pool, blockFrames, channels, steps)
      && Inv(model) && Agrees()
    }

    ghost predicate Idle()
      reads this
    {
      Valid() && model.call.None?
    }

    /** The blocks the worker has popped so far. */
    ghost function Received(): seq<Block>
      reads this
      requires Valid()
    {
      Delivered(Initial(pool, blockFrames, channels), steps)
    }

    /** b holds the samples that came in from position `start` on, and the timestamp of the call that brought
        the first of them. */
    ghost predicate InPlace(b: Block, start: nat)
      reads this
    {
      && 0 < b.valid <= |b.samples| && start + b.valid <= |Inputs(Calls(steps))|
      && (forall k :: 0 <= k < b.valid ==> b.samples[k] == Inputs(Calls(steps))[start + k])
      && start < |Stamps(Calls(steps))| && b.timestamp == Stamps(Calls(steps))[start]
    }

    /** b is in place, and its start frame does not run ahead of it. */
    ghost predicate Placed(b: Block)
      reads this
    {
      exists start :: InPlace(b, start) && b.startFrame * channels <= start
    }

    /** b is in place where its start frame says. */
    ghost predicate PlacedAsLabelled(b: Block)
      reads this
    {
      InPlace(b, b.startFrame * channels)
    }

    /** CaptureCallback::new. */
    constructor (pool: nat, blockFrames: nat, channels: nat)
      requires pool > 1 && blockFrames > 0 && channels > 0
      ensures Idle() && steps == []
      ensures this.pool == pool && this.blockFrames == blockFrames && this.channels == channels
      ensures |free| == pool && filled == [] && held == [] && current == None
    {
      hide Inv, Inputs, Delivered;
      var blocks: seq<Block> := [];
      while |blocks| < pool
        invariant |blocks| <= pool && forall i :: 0 <= i < |blocks| ==> blocks[i] == EmptyBlock(blockFrames * channels)
      {
        blocks := blocks + [EmptyBlock(blockFrames * channels)];
      }
      this.pool, this.blockFrames, this.channels := pool, blockFrames, channels;
      free, filled, held, current := blocks, [], [], None;
      sequence, nextFrame, unavailableBlocks, saturatedBlocks, droppedFrames := 0, 0, 0, 0, 0;
      steps := [];
      model := Initial(pool, blockFrames, channels);
      InitialHolds(pool, blockFrames, channels);
    }

    /** The history takes a step of the protocol. */
    ghost method Follow(s: Step)
      requires Run(pool, blockFrames, channels, steps) && model == Reached(pool, blockFrames, channels, steps)
      requires Inv(model) && Enabled(model, s)
      modifies `steps, `model
      ensures Run(pool, blockFrames, channels, steps) && model == Reached(pool, blockFrames, channels, steps)
      ensures Inv(model) && model == Apply(old(model), s) && steps == old(steps) + [s]
      ensures Calls(steps) == Calls(old(steps)) + CallOf(s)
      ensures Delivered(Initial(pool, blockFrames, channels), steps)
           == Delivered(Initial(pool, blockFrames, channels), old(steps)) + DeliveredBy(old(model), s)
    {
      hide Inv, Apply, Enabled, Calls, CallOf, Delivered, Possible, After, Initial;
      assert Sound(model) by { InvIsSound(model); }
      StepKeeps(model, s);
      OneMoreStep(Initial(pool, blockFrames, channels), steps, s);
      OneMoreCall(steps, s);
      steps := steps + [s];
      model := Apply(model, s);
    }

    // ---- the worker ----

    /** What the worker has received last is in place. */
    lemma LastIsPlaced()
      requires Valid() && Received() != []
      ensures var b, n := Received()[|Received()| - 1], |Received()| - 1;
        && b.sequence == n && Placed(b) && (WholeInputs(Calls(steps), channels) ==> PlacedAsLabelled(b))
    {
      hide Inv, Inputs, Stamps, Delivered, Run, Reached;
      var n := |Received()| - 1;
      DeliveredInPlace(pool, blockFrames, channels, steps, n);
      CallsDecide(steps, channels);
      assert InPlace(Received()[n], model.starts[n]);
    }

    /** CaptureWorker::pop. */
    method Pop() returns (block: Option<Block>)
      requires Valid()
      modifies this
      ensures Valid() && steps == old(steps) + [Step.Pop] && model.call == old(model.call)
      ensures block == if old(filled) == [] then None else Some(old(filled)[0])
      ensures Received() == old(Received()) + (if block.Some? then [block.value] else [])
      ensures block.Some? ==> block.value.sequence == old(|Received()|)
      ensures block.Some? ==> Placed(block.value)
      ensures block.Some? && WholeInputs(Calls(steps), channels) ==> PlacedAsLabelled(block.value)
      ensures Calls(steps) == Calls(old(steps)) && current == old(current) && nextFrame == old(nextFrame)
      ensures free == old(free) && unavailableBlocks == old(unavailableBlocks)
    {
      hide Inv, Calls, WholeInputs, Delivered, Run, Reached, Placed, PlacedAsLabelled;
      block := None;
      if filled != [] {
        block := Some(filled[0]);
        filled, held := filled[1..], held + [filled[0]];
      }
      Follow(Step.Pop);
      if block.Some? {
        LastIsPlaced();
      }
    }

    /** CaptureWorker::recycle of a block it holds; it is never refused. */
    method Recycle(i: nat) returns (ok: bool)
      requires Valid() && i < |held|
      modifies this
      ensures Valid() && ok && steps == old(steps) + [Step.Return(i)] && model.call == old(model.call)
      ensures free == old(free) + [old(held)[i].(valid := 0)] && held == old(held)[..i] + old(held)[i + 1..]
      ensures Received() == old(Received()) && Calls(steps) == Calls(old(steps))
      ensures current == old(current) && nextFrame == old(nextFrame) && unavailableBlocks == old(unavailableBlocks)
    {
      hide Calls, Delivered, Run, Reached, Inv;
      RecycleKeeps(model, i);
      ok := |free| < pool;
      if ok {
        free, held := free + [held[i].(valid := 0)], held[..i] + held[i + 1..];
      }
      Follow(Step.Return(i));
    }

    /** What the worker may do while the callback is between two of its actions: any pops and recycles. */
    method Work()
      requires Valid()
      modifies this
      ensures Valid() && model.call == old(model.call) && Calls(steps) == Calls(old(steps))
      ensures current == old(current) && nextFrame == old(nextFrame) && unavailableBlocks == old(unavailableBlocks)
      ensures old(Received()) <= Received()
    {
      hide Calls, Delivered, Run, Reached, Inv;
      var actions: nat := *;
      while actions > 0
        invariant Valid() && model.call == old(model.call) && Calls(steps) == Calls(old(steps))
        invariant current == old(current) && nextFrame == old(nextFrame) && unavailableBlocks == old(unavailableBlocks)
        invariant old(Received()) <= Received()
      {
        var i: nat := *;
        if i < |held| {
          var _ := Recycle(i);
        } else {
          var _ := Pop();
        }
        actions := actions - 1;
      }
    }

    // ---- the callback ----

    /** The samples of the running call that are still to be consumed. */
    ghost predicate Running(rest: seq<Sample>, timestamp: Option<nat>)
      reads this
    {
      Valid() && model.call == Some(Call(rest, timestamp))
    }

    /** The pop from the free ring. */
    method Acquire(rest: seq<Sample>, timestamp: Option<nat>) returns (ok: bool)
      requires Running(rest, timestamp) && current.None? && rest != []
      modifies this
      ensures Valid() && Calls(steps) == Calls(old(steps)) && old(Received()) <= Received()
      ensures ok == old(free != [])
      ensures ok ==> Running(rest, timestamp) && current.Some? && current.value.valid == 0
                     && current.value.timestamp == timestamp && current.value.startFrame == old(nextFrame)
                     && |current.value.samples| == blockFrames * channels > 0
                     && unavailableBlocks == old(unavailableBlocks)
      ensures !ok ==> Idle() && unavailableBlocks == old(unavailableBlocks) + 1
                      && droppedFrames == old(droppedFrames) + |rest| / channels
    {
      hide Calls, Delivered, Run, Reached, Inv;
      hide Apply, Calls;
      InvIsSound(model);
      ContinueAcquires(model);
      ok := free != [];
      if ok {
        current := Some(free[0].(valid := 0, sequence := sequence, startFrame := nextFrame, timestamp := timestamp));
        free := free[1..];
      } else {
        unavailableBlocks := unavailableBlocks + 1;
        droppedFrames := droppedFrames + |rest| / channels;
        nextFrame := nextFrame + |rest| / channels;
      }
      Follow(Continue);
    }

    /** The bounded copy into the current block. */
    method Fill(rest: seq<Sample>, timestamp: Option<nat>) returns (count: nat)
      requires Running(rest, timestamp) && current.Some? && !Full(current.value) && rest != []
      modifies this
      ensures 0 < count <= |rest| && Running(rest[count..], timestamp) && Calls(steps) == Calls(old(steps))
      ensures Received() == old(Received()) && unavailableBlocks == old(unavailableBlocks)
      ensures current.Some? && current.value.valid == old(current.value.valid) + count
      ensures |current.value.samples| == old(|current.value.samples|)
      ensures count == |rest| || Full(current.value)
    {
      hide Calls, Delivered, Run, Reached, Inv;
      hide Apply;
      InvIsSound(model);
      ContinueCopies(model);
      var block := current.value;
      count := Min(|rest|, |block.samples| - block.valid);
      var samples := block.samples[..block.valid] + rest[..count] + block.samples[block.valid + count..];
      current := Some(block.(samples := samples, valid := block.valid + count));
      nextFrame := nextFrame + count / channels;
      Follow(Continue);
    }

    /** The push to the filled ring; it is never refused. */
    method Publish(rest: seq<Sample>, timestamp: Option<nat>)
      requires Running(rest, timestamp) && current.Some? && Full(current.value)
      modifies this
      ensures Running(rest, timestamp) && current.None? && Calls(steps) == Calls(old(steps))
      ensures Received() == old(Received()) && unavailableBlocks == old(unavailableBlocks)
    {
      hide Calls, Delivered, Run, Reached, InOrder, Positioned, Accounted, Lossless, Counted;
      PushKeeps(model);
      if |filled| < pool {
        filled, current, sequence := filled + [current.value], None, sequence + 1;
      } else {
        assert false;
      }
      Follow(Continue);
    }

    /** One round of the loop of capture: a block, unless there is none; a copy; a push of the full block. */
    method Round(rest: seq<Sample>, timestamp: Option<nat>) returns (ok: bool, left: seq<Sample>)
      requires Running(rest, timestamp) && rest != [] && (current.Some? ==> !Full(current.value))
      modifies this
      ensures Valid() && Calls(steps) == Calls(old(steps)) && old(Received()) <= Received()
      ensures !ok ==> Idle() && unavailableBlocks == old(unavailableBlocks) + 1
      ensures ok ==> Running(left, timestamp) && |left| < |rest| && unavailableBlocks == old(unavailableBlocks)
      ensures ok && left != [] ==> current.None?
      ensures ok && left != [] && old(current.None?) ==> |left| + blockFrames * channels == |rest|
      ensures ok && current.Some? ==> !Full(current.value)
    {
      hide Calls, Delivered, Run, Reached, Inv;
      ok, left := true, rest;
      Work();
      if current.None? {
        ok := Acquire(rest, timestamp);
        if !ok {
          return;
        }
      }
      Work();
      var count := Fill(rest, timestamp);
      left := rest[count..];
      Work();
      if Full(current.value) {
        Publish(left, timestamp);
      }
    }

    /** capture. However the worker is interleaved, the input is consumed whole, in a number of rounds that
        its length and the block size bound. */
    method Capture(input: seq<Sample>, timestamp: Option<nat>) returns (ghost rounds: nat)
      requires Idle()
      modifies this
      ensures Idle() && Calls(steps) == Calls(old(steps)) + [Step.Capture(input, timestamp)]
      ensures old(Received()) <= Received()
      ensures old(unavailableBlocks) <= unavailableBlocks <= old(unavailableBlocks) + 1
      ensures rounds * (blockFrames * channels) <= |input| + 2 * (blockFrames * channels)
    {
      hide Calls, Delivered, Run, Reached, Inv, Apply;
      ghost var size := blockFrames * channels;
      InvIsSound(model);
      Enter(input, timestamp);
      rounds := 0;
      if input == [] {
        return;
      }
      var rest := input;
      while rest != []
        invariant Running(rest, timestamp)
        invariant Calls(steps) == Calls(old(steps)) + [Step.Capture(input, timestamp)] && old(Received()) <= Received()
        invariant |rest| <= |input| && unavailableBlocks == old(unavailableBlocks)
        invariant current.Some? ==> !Full(current.value)
        invariant rest != [] && rounds > 0 ==> current.None?
        invariant rest != [] ==> rounds * size + |rest| <= |input| + size
        invariant rounds * size <= |input| + 2 * size
        decreases |rest|
      {
        assert (rounds + 1) * size == rounds * size + size;
        rounds := rounds + 1;
        var ok, left := Round(rest, timestamp);
        if !ok {
          return;
        }
        rest := left;
      }
      Leave(timestamp);
    }

    /** The call begins. */
    ghost method Enter(input: seq<Sample>, timestamp: Option<nat>)
      requires Idle()
      modifies `steps, `model
      ensures if input == [] then Idle() else Running(input, timestamp)
      ensures Calls(steps) == Calls(old(steps)) + [Step.Capture(input, timestamp)] && Received() == old(Received())
    {
      hide Calls, Delivered, Run, Reached, Inv;
      Follow(Step.Capture(input, timestamp));
    }

    /** The call returns with its input consumed. */
    ghost method Leave(timestamp: Option<nat>)
      requires Running([], timestamp) && (current.Some? ==> !Full(current.value))
      modifies `steps, `model
      ensures Idle() && Calls(steps) == Calls(old(steps)) && Received() == old(Received())
    {
      hide Calls, Delivered, Run, Reached, Inv;
      InvIsSound(model);
      Follow(Continue);
    }

    /** flush_partial: what has been captured so far is published, whatever its length. */
    method FlushPartial()
      requires Idle()
      modifies this
      ensures Idle() && Calls(steps) == Calls(old(steps)) + [Step.FlushPartial]
      ensures Received() == old(Received()) && unavailableBlocks == old(unavailableBlocks)
      ensures current.Some? ==> current.value.valid == 0
      ensures filled == old(filled) + if old(current.Some? && current.value.valid > 0) then [old(current).value] else []
    {
      hide Calls, Delivered, Run, Reached, InOrder, Positioned, Accounted, Lossless, Counted;
      if current.Some? {
        if current.value.valid > 0 {
          PushKeeps(model);
          if |filled| < pool {
            filled, current, sequence := filled + [current.value], None, sequence + 1;
          } else {
            assert false;
          }
        }
      }
      Follow(Step.FlushPartial);
    }
  }

  lemma ContinueAcquires(m: Machine)
    requires Sound(m) && m.call.Some? && m.call.value.rest != [] && m.current.None?
    ensures Apply(m, Continue) == HandoffMachine.Acquire(m)
  {
  }

  lemma ContinueCopies(m: Machine)
    requires Sound(m) && m.call.Some? && m.call.value.rest != [] && m.current.Some? && !Full(m.current.value)
    ensures Apply(m, Continue) == Copy(m)
  {
  }

  lemma InvIsSound(m: Machine)
    requires Inv(m)
    ensures Sound(m) && m.capacity > 0
    ensures m.current.Some? && m.call.None? ==> !Full(m.current.value)
    ensures m.current.Some? ==> |m.current.value.samples| == m.capacity
    ensures forall b <- m.free :: |b.samples| == m.capacity
  {
  }
}
