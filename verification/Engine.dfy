/**
 * What the engine reports while it runs a pipeline: which notes it hands to the monitor, in
 * which order, and the exit status it returns.  What the kernel answers (each fork, each
 * failed exec, each wait) is given as a plan, so the results hold for every answer.
 */
module Engine {
  import opened Basics
  import opened Events

  const EXIT_FAILURE: int := 1
  const EACCES: int := 13

  datatype NoteName =
    | COMMAND_RECEIVED | PARSED | COMMAND_PARSE_ERROR | PIPELINE_PARSED | REDIRECTION_OPENED | REDIRECTION_FAILED
    | PROCESS_STARTED | PROCESS_EXITED | SIGNAL_RECEIVED | EXEC_ERROR | WAIT_FAILED | EXECUTION_FAILED
    | PIPELINE_STARTED | PIPELINE_COMPLETED | SESSION_SUMMARY

  // An event as it reaches the monitor.  `bytes` is the length of its command text.
  datatype Note = Note(name: NoteName, pid: int, status: int, stage: int, stages: int, duration: int, outcome: Outcome, bytes: nat)

  // ---------------------------------------------------------------- the plan

  type ExitCode = c: int | 0 <= c < 256
  type Signal = s: int | 0 < s < 128 witness 1
  type Pid = p: int | p > 0 witness 1

  datatype WaitAnswer = ExitedWith(code: ExitCode) | KilledBy(sig: Signal) | NoAnswer

  datatype Launch = Forked(pid: Pid) | RedirectionRefused | StatusPipeRefused | ForkRefused

  // One stage as the kernel treats it; execErrno is what the child reports when exec fails.
  datatype StagePlan = StagePlan(redirected: bool, launch: Launch, execErrno: Option<int>, wait: WaitAnswer, duration: int)

  type Plan = seq<StagePlan>

  // The stages before the first one that could not be launched.
  function Launched(plan: Plan): (k: nat)
    ensures k <= |plan|
  {
    if plan == [] || !plan[0].launch.Forked? then 0 else 1 + Launched(plan[1..])
  }

  predicate AllLaunched(plan: Plan) {
    Launched(plan) == |plan|
  }

  lemma {:induction false} LaunchedAreForked(plan: Plan, i: nat)
    requires i < Launched(plan)
    ensures plan[i].launch.Forked?
  {
    if i > 0 {
      LaunchedAreForked(plan[1..], i - 1);
    }
  }

  lemma {:induction false} LaunchStops(plan: Plan)
    requires Launched(plan) < |plan|
    ensures !plan[Launched(plan)].launch.Forked?
  {
    if plan[0].launch.Forked? {
      LaunchStops(plan[1..]);
    }
  }

  // ------------------------------------------------------------ the notes of a run

  function Simple(name: NoteName, bytes: nat): Note {
    Note(name, 0, 0, 0, 0, 0, Completed, bytes)
  }

  function StartNote(pid: int, stage: nat, n: nat): Note {
    Note(PROCESS_STARTED, pid, 0, stage, n, 0, Completed, 0)
  }

  function OpenedNotes(s: StagePlan, stage: nat, n: nat): seq<Note> {
    if s.redirected then [Note(REDIRECTION_OPENED, 0, 0, stage, n, 0, Exited, 0)] else []
  }

  function LaunchNotes(s: StagePlan, i: nat, n: nat): seq<Note> {
    match s.launch
    case RedirectionRefused => [Note(REDIRECTION_FAILED, 0, 0, i, n, 0, Exited, 0)]
    case StatusPipeRefused | ForkRefused => OpenedNotes(s, i, n)
    case Forked(pid) =>
      OpenedNotes(s, i, n) + (if i == 0 then [Note(PIPELINE_STARTED, pid, 0, 0, n, 0, Completed, 0)] else [])
      + [StartNote(pid, i, n)]
  }

  // The launch loop from stage i on; it stops at the first stage that cannot be launched.
  function LaunchFrom(plan: Plan, i: nat): seq<Note>
    requires i <= |plan|
    decreases |plan| - i
  {
    if i == |plan| then []
    else LaunchNotes(plan[i], i, |plan|) + (if plan[i].launch.Forked? then LaunchFrom(plan, i + 1) else [])
  }

  function ExecStatus(err: int): int {
    if err == EACCES then 126 else 127
  }

  function ExitNote(pid: int, status: int, outcome: Outcome, duration: int, stage: int, n: int): Note {
    Note(PROCESS_EXITED, pid, status, stage, n, duration, outcome, 0)
  }

  function ExecErrorNote(pid: int, err: int, duration: int, stage: int, n: int): Note {
    Note(EXEC_ERROR, pid, ExecStatus(err), stage, n, duration, ExecFailed, 0)
  }

  function NeverLaunched(stage: nat, n: nat): Note {
    ExitNote(0, EXIT_FAILURE, Outcome.LaunchFailed, 0, stage, n)
  }

  // The signal notice of a single command leaves the number of stages at zero.
  function NoticeStages(n: int): int {
    if n == 1 then 0 else n
  }

  function SignalNote(pid: int, sig: int, stage: int, n: int): Note {
    Note(SIGNAL_RECEIVED, pid, sig, stage, NoticeStages(n), 0, Signaled, 0)
  }

  // What a stage that was forked ends with.
  function EndNotes(s: StagePlan, stage: nat, n: nat, waitDuration: int): seq<Note>
    requires s.launch.Forked?
  {
    var pid := s.launch.pid;
    match s.wait
    case NoAnswer => [Note(WAIT_FAILED, pid, 0, 0, 0, waitDuration, Outcome.WaitFailed, 0)]
    case ExitedWith(code) =>
      if s.execErrno.Some? then [ExecErrorNote(pid, s.execErrno.value, s.duration, stage, n)]
      else [ExitNote(pid, code, if code == 0 then Completed else Exited, s.duration, stage, n)]
    case KilledBy(sig) =>
      if s.execErrno.Some? then [ExecErrorNote(pid, s.execErrno.value, s.duration, stage, n)]
      else [SignalNote(pid, sig, stage, n), ExitNote(pid, 128 + sig, Signaled, s.duration, stage, n)]
  }

  function ReapNotes(plan: Plan, i: nat): seq<Note>
    requires i < |plan|
  {
    if i < Launched(plan) && plan[i].launch.Forked? then EndNotes(plan[i], i, |plan|, 0) else [NeverLaunched(i, |plan|)]
  }

  function ReapFrom(plan: Plan, i: nat): seq<Note>
    requires i <= |plan|
    decreases |plan| - i
  {
    if i == |plan| then [] else ReapNotes(plan, i) + ReapFrom(plan, i + 1)
  }

  // waitpid leaves the status word as it was, zero, when it gives no answer.
  predicate ExitsNormally(s: StagePlan) {
    !s.wait.KilledBy?
  }

  function ExitValue(s: StagePlan): int
    requires ExitsNormally(s)
  {
    if s.wait.ExitedWith? then s.wait.code else 0
  }

  function CompletedNote(plan: Plan): Note
    requires plan != []
  {
    var n, last := |plan|, plan[|plan| - 1];
    var leader := if plan[0].launch.Forked? then plan[0].launch.pid else -1;
    if AllLaunched(plan)
    then Note(PIPELINE_COMPLETED, leader, if ExitsNormally(last) then ExitValue(last) else EXIT_FAILURE, -1, n, 0, Completed, 0)
    else Note(PIPELINE_COMPLETED, leader, EXIT_FAILURE, -1, n, 0, Outcome.LaunchFailed, 0)
  }

  function PipelineNotes(plan: Plan): seq<Note>
    requires |plan| >= 2
  {
    LaunchFrom(plan, 0) + ReapFrom(plan, 0) + [CompletedNote(plan)]
  }

  // The status of a pipeline whose pipes could be opened.
  function PipelineStatus(plan: Plan): int
    requires |plan| >= 2
  {
    var last := plan[|plan| - 1];
    if !AllLaunched(plan) then EXIT_FAILURE
    else if ExitsNormally(last) then ExitValue(last)
    else 128 + last.wait.sig
  }

  // A pipeline of one stage takes its own path: no envelope, and a failed launch says so.
  function SingleNotes(s: StagePlan): seq<Note> {
    match s.launch
    case RedirectionRefused => [Note(REDIRECTION_FAILED, 0, 0, 0, 1, 0, Exited, 0)]
    case StatusPipeRefused | ForkRefused =>
      OpenedNotes(s, 0, 1) + [Note(EXECUTION_FAILED, 0, 0, 0, 0, 0, Outcome.LaunchFailed, 0)]
    case Forked(pid) => OpenedNotes(s, 0, 1) + [StartNote(pid, 0, 1)] + EndNotes(s, 0, 1, s.duration)
  }

  function SingleStatus(s: StagePlan): int {
    if !s.launch.Forked? || s.wait.NoAnswer? then EXIT_FAILURE
    else if s.execErrno.Some? then ExecStatus(s.execErrno.value)
    else if s.wait.ExitedWith? then s.wait.code
    else 128 + s.wait.sig
  }

  // --------------------------------------------------------------- a whole run

  // A command line as the engine meets it: refused by the parser, or a plan to carry out.
  datatype Run = Refused(bytes: nat) | Accepted(bytes: nat, plan: Plan, pipesOpen: bool)

  predicate ValidRun(run: Run) {
    run.Accepted? ==> run.plan != []
  }

  function ExecNotes(plan: Plan, pipesOpen: bool): seq<Note>
    requires plan != []
  {
    if |plan| == 1 then SingleNotes(plan[0]) else if !pipesOpen then [] else PipelineNotes(plan)
  }

  function ExecResult(plan: Plan, pipesOpen: bool): int
    requires plan != []
  {
    if |plan| == 1 then SingleStatus(plan[0]) else if !pipesOpen then EXIT_FAILURE else PipelineStatus(plan)
  }

  function Preamble(bytes: nat, n: nat): seq<Note> {
    [Simple(COMMAND_RECEIVED, bytes), Simple(PARSED, 0)]
    + (if n > 1 then [Note(PIPELINE_PARSED, 0, 0, -1, n, 0, Completed, 0)] else [])
  }

  function RunNotes(run: Run): seq<Note>
    requires ValidRun(run)
  {
    match run
    case Refused(bytes) => [Simple(COMMAND_PARSE_ERROR, bytes), Simple(SESSION_SUMMARY, 0)]
    case Accepted(bytes, plan, pipesOpen) =>
      Preamble(bytes, |plan|) + ExecNotes(plan, pipesOpen) + [Simple(SESSION_SUMMARY, 0)]
  }

  function RunStatus(run: Run): int
    requires ValidRun(run)
  {
    if run.Refused? then 2 else ExecResult(run.plan, run.pipesOpen)
  }

  // ------------------------------------------------------------- what is printed

  // The fields of a printed line that a reader of the stream uses.
  datatype Raw = Raw(name: NoteName, pid: Option<int>, stage: Option<int>, stages: Option<int>,
                     exitCode: Option<int>, signal: Option<int>, outcome: Option<Outcome>)

  // A line of the monitor stream: an object, or text that is not JSON.
  datatype Line = Object(raw: Raw) | Garbled

  const LINE_BUDGET: nat := 400

  // Each kind of event prints its own fields.  A command text over the budget is cut, and the
  // dots that mark the cut fall outside the quotes.
  function Printed(e: Note): Line {
    match e.name
    case COMMAND_RECEIVED =>
      if e.bytes > LINE_BUDGET then Garbled else Object(Raw(e.name, None, None, None, None, None, None))
    case PARSED | COMMAND_PARSE_ERROR | REDIRECTION_OPENED | REDIRECTION_FAILED | SESSION_SUMMARY =>
      Object(Raw(e.name, None, None, None, None, None, None))
    case PROCESS_STARTED => Object(Raw(e.name, Some(e.pid), Some(e.stage), Some(e.stages), None, None, None))
    case PROCESS_EXITED =>
      Object(Raw(e.name, Some(e.pid), Some(e.stage), Some(e.stages), Some(e.status), None, Some(e.outcome)))
    case PIPELINE_PARSED | PIPELINE_STARTED | PIPELINE_COMPLETED =>
      Object(Raw(e.name, Some(e.pid), Some(e.stage), Some(e.stages), None, None, Some(e.outcome)))
    case SIGNAL_RECEIVED =>
      Object(Raw(e.name, Some(e.pid), Some(e.stage), Some(e.stages), None, Some(e.status), Some(e.outcome)))
    case EXEC_ERROR => Object(Raw(e.name, Some(e.pid), None, None, Some(e.status), None, Some(e.outcome)))
    case WAIT_FAILED | EXECUTION_FAILED => Object(Raw(e.name, Some(e.pid), None, None, None, None, Some(e.outcome)))
  }

  function PrintedAll(notes: seq<Note>): seq<Line> {
    seq(|notes|, i requires 0 <= i < |notes| => Printed(notes[i]))
  }

  // ---------------------------------------------------------------- the counters

  datatype Counters = Counters(commands: nat, succeeded: nat, failed: nat, signals: nat, execErrors: nat, launchErrors: nat,
                               timed: nat, totalDuration: int)

  const ZERO := Counters(0, 0, 0, 0, 0, 0, 0, 0)

  function Counted(c: Counters, e: Note): Counters {
    match e.name
    case PROCESS_STARTED => c.(commands := c.commands + 1)
    case PROCESS_EXITED =>
      var t := if e.duration >= 0 then c.(timed := c.timed + 1, totalDuration := c.totalDuration + e.duration) else c;
      if e.status == 0 then t.(succeeded := t.succeeded + 1) else t.(failed := t.failed + 1)
    case SIGNAL_RECEIVED => c.(signals := c.signals + 1)
    case EXEC_ERROR => c.(failed := c.failed + 1, execErrors := c.execErrors + 1)
    case WAIT_FAILED | EXECUTION_FAILED => c.(failed := c.failed + 1, launchErrors := c.launchErrors + 1)
    case _ => c
  }

  function Tally(c: Counters, notes: seq<Note>): Counters
    decreases |notes|
  {
    if notes == [] then c else Tally(Counted(c, notes[0]), notes[1..])
  }
}
