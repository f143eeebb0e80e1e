/** The recorder's states and the transitions between them. */
module State {
  import opened Wrappers

  datatype RecorderState =
    | Idle
    | Configured
    | Armed
    | Recording
    | Paused
    | Stopping
    | Finalizing
    | Completed
    | Faulted
    | Recovering

  datatype StateError = StateError(from: RecorderState, to: RecorderState)

  predicate Allowed(from: RecorderState, to: RecorderState) {
    match from
    case Idle => to == Configured
    case Configured => to == Armed || to == Idle
    case Armed => to == Recording || to == Configured
    case Recording => to == Paused || to == Stopping || to == Faulted
    case Paused => to == Recording || to == Stopping || to == Faulted
    case Stopping => to == Finalizing || to == Faulted
    case Finalizing => to == Completed || to == Faulted
    case Faulted => to == Recovering
    case Recovering => to == Completed || to == Faulted
    case Completed => to == Configured || to == Recovering
  }

  function Transition(from: RecorderState, to: RecorderState): Result<RecorderState, StateError> {
    if Allowed(from, to) then Ok(to) else Err(StateError(from, to))
  }

  /** The same relation, told by where each state can be entered from. */
  lemma EnteredFrom(from: RecorderState)
    ensures Allowed(from, Idle) <==> from == Configured
    ensures Allowed(from, Configured) <==> from == Idle || from == Armed || from == Completed
    ensures Allowed(from, Armed) <==> from == Configured
    ensures Allowed(from, Recording) <==> from == Armed || from == Paused
    ensures Allowed(from, Paused) <==> from == Recording
    ensures Allowed(from, Stopping) <==> from == Recording || from == Paused
    ensures Allowed(from, Finalizing) <==> from == Stopping
    ensures Allowed(from, Completed) <==> from == Finalizing || from == Recovering
    ensures Allowed(from, Recovering) <==> from == Faulted || from == Completed
    ensures Allowed(from, Faulted)
            <==> from == Recording || from == Paused || from == Stopping || from == Finalizing || from == Recovering
  {
  }

  predicate Path(states: seq<RecorderState>) {
    forall i :: 0 < i < |states| ==> Allowed(states[i - 1], states[i])
  }

  /** The states of a take that has started and has neither been finalized nor recovered. */
  predicate Live(s: RecorderState) {
    s == Recording || s == Paused || s == Stopping || s == Faulted
  }

  predicate Closing(s: RecorderState) {
    s == Finalizing || s == Recovering
  }

  /** No run of transitions completes, or rearms, a started take without finalizing or recovering it. */
  lemma {:induction false} NoShortcutToCompleted(states: seq<RecorderState>)
    requires Path(states) && states != [] && Live(states[0])
    ensures (exists i :: 0 <= i < |states| && Closing(states[i])) || forall i :: 0 <= i < |states| ==> Live(states[i])
  {
    if |states| > 1 {
      var rest := states[1..];
      assert Allowed(states[0], states[1]);
      assert Path(rest) by {
        assert forall i :: 0 <= i < |rest| ==> rest[i] == states[i + 1];
        forall i | 0 < i < |rest|
          ensures Allowed(rest[i - 1], rest[i])
        {
          assert Allowed(states[i + 1 - 1], states[i + 1]);
        }
      }
      if Live(states[1]) {
        NoShortcutToCompleted(rest);
        if i :| 0 <= i < |rest| && Closing(rest[i]) {
          assert Closing(states[i + 1]);
        } else {
          assert forall i :: 0 < i < |states| ==> states[i] == rest[i - 1];
        }
      } else {
        assert Closing(states[1]);
      }
    }
  }
}
