/** The canonical event contract shared by the recorder, the stream and the validator. */
module Events {
  import opened Basics

  datatype EventType =
    | ExecutionCreated | ExecutionStarted | ExecutionCompleted | ExecutionFailed | ExecutionTimeout | ExecutionCancelled
    | CommandReceived | CommandParsed | CommandParseError
    | RedirectionOpened | RedirectionFailed
    | ProcessStarted | ProcessSnapshot | ProcessExited | ProcessExecError | ProcessWaitFailed
    | PipelineParsed | PipelineStarted | PipelineCompleted
    | ProcessLaunchFailed | SignalReceived | SessionSummary

  datatype Outcome = Completed | Exited | Signaled | ExecFailed | LaunchFailed | WaitFailed

  // The payload fields that some rule or decision reads; a field that is not a number is None.
  datatype Payload = Payload(
    stage: Option<int>, stages: Option<int>, exitCode: Option<int>, signal: Option<int>,
    outcome: Option<Outcome>, corrupt: bool)

  // Identifiers are opaque tokens; only their equality matters.
  type Token = nat

  datatype Event = Event(id: Token, sessionId: Token, sequence: int, kind: EventType, pid: Option<int>, payload: Payload)

  datatype Status = CREATED | STARTING | RUNNING | COMPLETED | FAILED | TIMED_OUT | CANCELLED

  predicate IsTerminalType(k: EventType) {
    k == ExecutionCompleted || k == ExecutionFailed || k == ExecutionTimeout || k == ExecutionCancelled
  }

  predicate IsTerminal(e: Event) {
    IsTerminalType(e.kind)
  }

  predicate IsFinal(s: Status) {
    s == COMPLETED || s == FAILED || s == TIMED_OUT || s == CANCELLED
  }

  // The events that end one process.
  predicate IsLifecycle(e: Event) {
    e.kind == ProcessExited || e.kind == ProcessExecError || e.kind == ProcessWaitFailed
  }

  // The stage a reader takes the event to be about; -1 stands for none.
  function StageOf(e: Event): int {
    e.payload.stage.GetOr(-1)
  }
}
