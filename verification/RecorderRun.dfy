/** The recorder's methods, each tied to its step. */
module RecorderRun {
  import opened Basics
  import opened Events
  import opened Engine
  import opened EngineStream
  import opened Recorder

  class SessionRecorder {
    const sessionId: Token
    var phase: Phase
    var registered: bool
    var finalized: bool
    var nextSeq: nat
    var nextId: Token
    var timedOut: bool
    var terminateRequested: bool
    var seen: Seen
    var row: Status
    var store: seq<Event>
    var published: seq<Event>

    function Abstract(): State
      reads this
    {
      State(sessionId, phase, registered, finalized, nextSeq, nextId, timedOut, terminateRequested, seen, row, store, published)
    }

    constructor (sessionId: Token, id: Token)
      ensures Abstract() == CreatedState(sessionId, id)
    {
      this.sessionId := sessionId;
      phase, registered, finalized := Phase.Created, false, false;
      nextSeq, nextId := 1, id + 1;
      timedOut, terminateRequested := false, false;
      seen, row := NOTHING_SEEN, CREATED;
      store, published := [Event(id, sessionId, 0, ExecutionCreated, None, NO_FIELDS)], [];
    }

    method NewEvent(kind: EventType, pid: Option<int>, payload: Payload, sequence: int) returns (ev: Event)
      modifies this`nextId
      ensures ev == GatewayEvent(old(Abstract()), kind, pid, payload, sequence)
      ensures Abstract() == Taken(old(Abstract()))
    {
      ev := Event(nextId, sessionId, sequence, kind, pid, payload);
      nextId := nextId + 1;
    }

    method HoldsSequence(sequence: int) returns (held: bool)
      ensures held <==> !SequenceFree(store, sequence)
    {
      for i := 0 to |store|
        invariant SequenceFree(store[..i], sequence)
      {
        if store[i].sequence == sequence {
          return true;
        }
        assert store[..i + 1] == store[..i] + [store[i]];
      }
      assert store[..|store|] == store;
      return false;
    }

    // The database: it may fail, and it refuses a sequence it already holds.
    method Insert(ev: Event, ok: bool) returns (stored: bool)
      modifies this`store
      ensures stored == Accepts(old(store), ev, ok)
      ensures store == if stored then old(store) + [ev] else old(store)
    {
      var held := HoldsSequence(ev.sequence);
      stored := ok && !held;
      if stored {
        store := store + [ev];
      }
    }

    method Publish(ev: Event)
      modifies this`published
      ensures published == old(published) + [ev]
    {
      published := published + [ev];
    }

    method EmitEvent(ev0: Event, ok: bool)
      modifies this`nextSeq, this`store, this`published
      ensures Abstract() == Emit(old(Abstract()), ev0, ok)
    {
      var ev := ev0;
      if registered {
        ev := ev.(sequence := nextSeq);
        nextSeq := nextSeq + 1;
      }
      var stored := Insert(ev, ok);
      if !stored {
        return;
      }
      Publish(ev);
    }

    method ObserveEvent(ev: Event)
      modifies this`seen
      ensures Abstract() == Observe(old(Abstract()), ev)
    {
      if !registered {
        return;
      }
      match ev.kind {
        case ProcessStarted => seen := seen.(childPid := ev.pid);
        case SignalReceived =>
          if ev.payload.signal.Some? {
            seen := seen.(signal := ev.payload.signal);
          }
          LearnOutcome(ev.payload.outcome);
        case ProcessExited =>
          if ev.payload.exitCode.Some? {
            seen := seen.(exitCode := ev.payload.exitCode);
          }
          LearnOutcome(ev.payload.outcome);
        case ProcessExecError =>
          LearnOutcome(ev.payload.outcome);
          seen := seen.(execError := true);
        case ProcessWaitFailed =>
          LearnOutcome(ev.payload.outcome);
          seen := seen.(waitFailure := true);
        case ProcessLaunchFailed =>
          LearnOutcome(ev.payload.outcome);
          seen := seen.(launchFailure := true);
        case SessionSummary => seen := seen.(summary := true);
        case _ =>
      }
    }

    method LearnOutcome(outcome: Option<Outcome>)
      modifies this`seen
      ensures seen == old(seen).(outcome := Latest(outcome, old(seen).outcome))
    {
      if outcome.Some? {
        seen := seen.(outcome := outcome);
      }
    }

    method SpawnFor(ok: bool)
      modifies this
      ensures Abstract() == Spawned(old(Abstract()), ok)
    {
      phase, registered, nextSeq := Live, true, 1;
      var ev := NewEvent(ExecutionStarted, None, NO_FIELDS, 0);
      EmitEvent(ev, ok);
    }

    method FailBefore(ok: bool)
      modifies this
      ensures Abstract() == FailedBeforeStart(old(Abstract()), ok)
    {
      phase, row := Gone, FAILED;
      var ev := NewEvent(ExecutionFailed, None, LAUNCH_FAILURE, 1);
      var stored := Insert(ev, ok);
      if stored {
        Publish(ev);
      }
    }

    method RouteStderrLine(line: Line, ok: bool)
      modifies this
      ensures Abstract() == Routed(old(Abstract()), line, ok)
    {
      match line {
        case Garbled =>
        case Object(raw) =>
          var ev := Normalize(raw, nextId, sessionId, nextSeq);
          nextId := nextId + 1;
          EmitEvent(ev, ok);
          ObserveEvent(ev);
      }
    }

    method PublishSnapshot(pid: int, ok: bool)
      modifies this
      ensures Abstract() == Sampled(old(Abstract()), pid, ok)
    {
      if !registered || finalized {
        return;
      }
      var ev := NewEvent(ProcessSnapshot, Some(pid), NO_FIELDS, 0);
      EmitEvent(ev, ok);
    }

    method HandleTimeout()
      modifies this`timedOut
      ensures Abstract() == TimerFired(old(Abstract()))
    {
      if !registered || timedOut || finalized {
        return;
      }
      timedOut := true;
    }

    method RequestTerminate(sent: bool)
      modifies this`terminateRequested
      ensures Abstract() == TerminateAsked(old(Abstract()), sent)
    {
      if registered && sent {
        terminateRequested := true;
      }
    }

    method Finalize(code: Option<int>, ok: bool)
      modifies this
      ensures Abstract() == Finalized(old(Abstract()), code, ok)
    {
      phase := Gone;
      if finalized {
        return;
      }
      finalized := true;
      var status := DecideStatus(Abstract());
      var ev := NewEvent(TerminalTypeOf(status), seen.childPid, Payload(None, None, code, seen.signal, None, false), nextSeq);
      var persisted := PersistEnd(ev, status, ok);
      if persisted {
        Publish(ev);
      }
      registered := false;
    }

    // One transaction: when the insertion is refused the row stays as it was, and the number
    // taken for it is followed by one more.
    method PersistEnd(ev: Event, status: Status, ok: bool) returns (persisted: bool)
      modifies this`nextSeq, this`row, this`store
      ensures persisted == Accepts(old(store), ev, ok)
      ensures Abstract() == if persisted
        then old(Abstract()).(row := status, store := old(store) + [ev], nextSeq := old(nextSeq) + 1)
        else old(Abstract()).(nextSeq := old(nextSeq) + 2)
    {
      nextSeq := nextSeq + 1;
      persisted := Insert(ev, ok);
      if persisted {
        row := status;
      } else {
        nextSeq := nextSeq + 1;
      }
    }

    method FinalizeFailed(ok: bool)
      modifies this
      ensures Abstract() == FinalizedFailed(old(Abstract()), ok)
    {
      if finalized {
        return;
      }
      finalized := true;
      row := FAILED;
      var ev := NewEvent(ExecutionFailed, None, LAUNCH_FAILURE, 0);
      EmitEvent(ev, ok);
      registered := false;
    }

    method LargestSequence() returns (max: int)
      ensures max == MaxSequence(store)
    {
      max := -1;
      for i := 0 to |store|
        invariant max == MaxSequence(store[..i])
      {
        assert store[..i + 1][..i] == store[..i];
        max := if store[i].sequence > max then store[i].sequence else max;
      }
      assert store[..|store|] == store;
    }

    method FinalizeAbandoned(ok: bool)
      modifies this
      ensures Abstract() == Abandoned(old(Abstract()), ok)
    {
      if registered && !finalized {
        FinalizeFailed(ok);
        return;
      }
      if IsFinal(row) {
        return;
      }
      var max := LargestSequence();
      var ev := NewEvent(ExecutionFailed, None, LAUNCH_FAILURE, max + 1);
      var stored := Insert(ev, ok);
      if stored {
        row := FAILED;
        Publish(ev);
      }
    }
  }
}
