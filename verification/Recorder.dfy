/**
 * One session's recording, step by step: what the gateway keeps in memory, what is durable,
 * and what it has published.  The store answers each insertion; a false answer stands for
 * any failure to persist.
 */
module Recorder {
  import opened Basics
  import opened Events
  import opened Engine
  import opened EngineStream

  // Created: the row and its first event exist.  Live: the child may still produce lines.
  datatype Phase = Created | Live | Gone

  // What the engine's events have taught the session.
  datatype Seen = Seen(signal: Option<int>, exitCode: Option<int>, outcome: Option<Outcome>, execError: bool,
                       waitFailure: bool, launchFailure: bool, summary: bool, childPid: Option<int>)

  const NOTHING_SEEN := Seen(None, None, None, false, false, false, false, None)

  datatype State = State(
    sessionId: Token, phase: Phase, registered: bool, finalized: bool, nextSeq: nat, nextId: Token,
    timedOut: bool, terminateRequested: bool, seen: Seen, row: Status, store: seq<Event>, published: seq<Event>)

  const NO_FIELDS := Payload(None, None, None, None, None, false)

  const LAUNCH_FAILURE := NO_FIELDS.(outcome := Some(Outcome.LaunchFailed))

  function GatewayEvent(s: State, kind: EventType, pid: Option<int>, payload: Payload, sequence: int): Event {
    Event(s.nextId, s.sessionId, sequence, kind, pid, payload)
  }

  // The transaction that creates the session writes sequence 0 and publishes nothing.
  function CreatedState(sessionId: Token, id: Token): State {
    var first := Event(id, sessionId, 0, ExecutionCreated, None, NO_FIELDS);
    State(sessionId, Phase.Created, false, false, 1, id + 1, false, false, NOTHING_SEEN, CREATED, [first], [])
  }

  // ------------------------------------------------------------- insert and publish

  predicate SequenceFree(store: seq<Event>, sequence: int) {
    forall i {:trigger store[i]} :: 0 <= i < |store| ==> store[i].sequence != sequence
  }

  // The store refuses a sequence it already holds for the session.
  predicate Accepts(store: seq<Event>, ev: Event, ok: bool) {
    ok && SequenceFree(store, ev.sequence)
  }

  // An event that is not stored is not published.
  function Record(s: State, ev: Event, ok: bool): State {
    if Accepts(s.store, ev, ok) then s.(store := s.store + [ev], published := s.published + [ev]) else s
  }

  // A registered session numbers the event itself; otherwise the event keeps its number.
  function Emit(s: State, ev: Event, ok: bool): State {
    if s.registered then Record(s.(nextSeq := s.nextSeq + 1), ev.(sequence := s.nextSeq), ok) else Record(s, ev, ok)
  }

  // Making an event uses up an identifier.
  function Taken(s: State): State {
    s.(nextId := s.nextId + 1)
  }

  function Latest<T>(now: Option<T>, was: Option<T>): Option<T> {
    if now.Some? then now else was
  }

  function Learned(k: Seen, ev: Event): Seen {
    match ev.kind
    case ProcessStarted => k.(childPid := ev.pid)
    case SignalReceived =>
      k.(signal := Latest(ev.payload.signal, k.signal), outcome := Latest(ev.payload.outcome, k.outcome))
    case ProcessExited =>
      k.(exitCode := Latest(ev.payload.exitCode, k.exitCode), outcome := Latest(ev.payload.outcome, k.outcome))
    case ProcessExecError => k.(outcome := Latest(ev.payload.outcome, k.outcome), execError := true)
    case ProcessWaitFailed => k.(outcome := Latest(ev.payload.outcome, k.outcome), waitFailure := true)
    case ProcessLaunchFailed => k.(outcome := Latest(ev.payload.outcome, k.outcome), launchFailure := true)
    case SessionSummary => k.(summary := true)
    case _ => k
  }

  // An engine event is learned from whether or not it could be stored.
  function Observe(s: State, ev: Event): State {
    if s.registered then s.(seen := Learned(s.seen, ev)) else s
  }

  // ------------------------------------------------------------------ the steps

  function Spawned(s: State, ok: bool): State {
    Emit(Taken(s).(phase := Live, registered := true, nextSeq := 1), GatewayEvent(s, ExecutionStarted, None, NO_FIELDS, 0), ok)
  }

  function FailedBeforeStart(s: State, ok: bool): State {
    Record(Taken(s).(phase := Gone, row := FAILED), GatewayEvent(s, ExecutionFailed, None, LAUNCH_FAILURE, 1), ok)
  }

  // A line that is not an event of the engine becomes retained output and nothing else.
  function Routed(s: State, line: Line, ok: bool): State {
    match line
    case Garbled => s
    case Object(raw) =>
      var ev := Normalize(raw, s.nextId, s.sessionId, s.nextSeq);
      Observe(Emit(Taken(s), ev, ok), ev)
  }

  function Sampled(s: State, pid: int, ok: bool): State {
    if !s.registered || s.finalized then s
    else Emit(Taken(s), GatewayEvent(s, ProcessSnapshot, Some(pid), NO_FIELDS, 0), ok)
  }

  function TimerFired(s: State): State {
    if !s.registered || s.timedOut || s.finalized then s else s.(timedOut := true)
  }

  function TerminateAsked(s: State, sent: bool): State {
    if s.registered && sent then s.(terminateRequested := true) else s
  }

  function DecideStatus(s: State): Status {
    var k := s.seen;
    if s.timedOut then TIMED_OUT
    else if s.terminateRequested && k.signal.Some? then CANCELLED
    else if k.execError || k.waitFailure || k.launchFailure then FAILED
    else if k.outcome == Some(Signaled) || k.signal.Some? then FAILED
    else if k.outcome == Some(Completed) then COMPLETED
    else FAILED
  }

  function TerminalTypeOf(status: Status): EventType {
    match status
    case TIMED_OUT => ExecutionTimeout
    case CANCELLED => ExecutionCancelled
    case COMPLETED => ExecutionCompleted
    case _ => ExecutionFailed
  }

  function TerminalEvent(s: State, code: Option<int>): Event {
    GatewayEvent(s, TerminalTypeOf(DecideStatus(s)), s.seen.childPid, Payload(None, None, code, s.seen.signal, None, false), s.nextSeq)
  }

  // The row and the terminal event are written together or not at all.
  function Finalized(s: State, code: Option<int>, ok: bool): State {
    if s.finalized then s.(phase := Gone)
    else
      var ev := TerminalEvent(s, code);
      var over := Taken(s).(phase := Gone, registered := false, finalized := true);
      if Accepts(s.store, ev, ok)
      then Record(over.(row := DecideStatus(s), nextSeq := s.nextSeq + 1), ev, ok)
      else over.(nextSeq := s.nextSeq + 2)
  }

  function FinalizedFailed(s: State, ok: bool): State {
    if s.finalized then s
    else
      var ev := GatewayEvent(s, ExecutionFailed, None, LAUNCH_FAILURE, 0);
      Emit(Taken(s).(finalized := true, row := FAILED), ev, ok).(registered := false)
  }

  function MaxSequence(store: seq<Event>): int {
    if store == [] then -1
    else var rest := MaxSequence(store[..|store| - 1]); var last := store[|store| - 1].sequence; if last > rest then last else rest
  }

  function Abandoned(s: State, ok: bool): State {
    if s.registered && !s.finalized then FinalizedFailed(s, ok)
    else if IsFinal(s.row) then s
    else
      var ev := GatewayEvent(s, ExecutionFailed, None, LAUNCH_FAILURE, MaxSequence(s.store) + 1);
      if Accepts(s.store, ev, ok) then Record(Taken(s).(row := FAILED), ev, ok) else Taken(s)
  }

  // A process that dies keeps nothing but the database.
  function Crashed(s: State): State {
    s.(phase := Gone, registered := false)
  }

  datatype Action =
    | Spawn(ok: bool)
    | FailBeforeStart(ok: bool)
    | EngineLine(line: Line, ok: bool)
    | Output
    | Snapshot(pid: int, ok: bool)
    | Timeout
    | Terminate(sent: bool)
    | ChildError(ok: bool)
    | Close(code: Option<int>, ok: bool)
    | Abandon(ok: bool)
    | Crash

  predicate Enabled(s: State, a: Action) {
    match a
    case Spawn(_) | FailBeforeStart(_) => s.phase == Phase.Created
    case EngineLine(_, _) | Output | ChildError(_) | Close(_, _) => s.phase == Live
    case Abandon(_) => s.phase != Phase.Created
    case _ => true
  }

  function Step(s: State, a: Action): State {
    match a
    case Spawn(ok) => Spawned(s, ok)
    case FailBeforeStart(ok) => FailedBeforeStart(s, ok)
    case EngineLine(line, ok) => Routed(s, line, ok)
    // The program's own output, diagnostics, and a last line cut off in the middle are
    // retained as text, which is not modelled.
    case Output => s
    case Snapshot(pid, ok) => Sampled(s, pid, ok)
    case Timeout => TimerFired(s)
    case Terminate(sent) => TerminateAsked(s, sent)
    case ChildError(ok) => FinalizedFailed(s, ok)
    case Close(code, ok) => Finalized(s, code, ok)
    case Abandon(ok) => Abandoned(s, ok)
    case Crash => Crashed(s)
  }

  // The states a session can be in after some run of enabled steps.
  function After(s: State, actions: seq<Action>): Option<State>
    decreases |actions|
  {
    if actions == [] then Some(s)
    else if !Enabled(s, actions[0]) then None
    else After(Step(s, actions[0]), actions[1..])
  }
}
