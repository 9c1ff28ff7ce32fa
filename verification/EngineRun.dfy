/** The engine's own steps: the monitor with its counters, the launch loop and the reap loop. */
module EngineRun {
  import opened Basics
  import opened Events
  import opened Engine

  lemma {:induction false} TallyAppend(c: Counters, notes: seq<Note>, e: Note)
    ensures Tally(c, notes + [e]) == Counted(Tally(c, notes), e)
    decreases |notes|
  {
    if notes == [] {
      assert ([] + [e])[1..] == [];
    } else {
      TallyAppend(Counted(c, notes[0]), notes[1..], e);
      assert (notes + [e])[1..] == notes[1..] + [e];
    }
  }

  class Monitor {
    var commands: nat
    var succeeded: nat
    var failed: nat
    var signals: nat
    var execErrors: nat
    var launchErrors: nat
    var timed: nat
    var totalDuration: int
    var lines: seq<Line>
    ghost var notes: seq<Note>

    function State(): Counters
      reads this
    {
      Counters(commands, succeeded, failed, signals, execErrors, launchErrors, timed, totalDuration)
    }

    // The counters and the printed lines are what the notes say.
    ghost predicate Valid()
      reads this
    {
      State() == Tally(ZERO, notes) && lines == PrintedAll(notes)
    }

    constructor ()
      ensures Valid() && notes == []
    {
      commands, succeeded, failed, signals := 0, 0, 0, 0;
      execErrors, launchErrors, timed, totalDuration := 0, 0, 0, 0;
      lines, notes := [], [];
    }

    method Count(e: Note)
      modifies this`commands, this`succeeded, this`failed, this`signals, this`execErrors, this`launchErrors,
        this`timed, this`totalDuration
      ensures State() == Counted(old(State()), e)
    {
      match e.name {
        case PROCESS_STARTED => commands := commands + 1;
        case PROCESS_EXITED =>
          if e.duration >= 0 {
            timed := timed + 1;
            totalDuration := totalDuration + e.duration;
          }
          if e.status == 0 {
            succeeded := succeeded + 1;
          } else {
            failed := failed + 1;
          }
        case SIGNAL_RECEIVED => signals := signals + 1;
        case EXEC_ERROR =>
          failed := failed + 1;
          execErrors := execErrors + 1;
        case WAIT_FAILED | EXECUTION_FAILED =>
          failed := failed + 1;
          launchErrors := launchErrors + 1;
        case _ =>
      }
    }

    method Emit(e: Note)
      requires Valid()
      modifies this
      ensures Valid() && notes == old(notes) + [e]
    {
      Count(e);
      TallyAppend(ZERO, notes, e);
      lines := lines + [Printed(e)];
      notes := notes + [e];
    }
  }

  // The notes so far, and those a loop still has to add, make up the whole account.
  ghost predicate Telling(whole: seq<Note>, told: seq<Note>, rest: seq<Note>) {
    whole == told + rest
  }

  lemma Told(whole: seq<Note>, told: seq<Note>, now: seq<Note>, rest: seq<Note>)
    requires Telling(whole, told, now + rest)
    ensures Telling(whole, told + now, rest)
  {
    assert told + (now + rest) == (told + now) + rest;
  }

  lemma ToldAll(whole: seq<Note>, told: seq<Note>)
    requires Telling(whole, told, [])
    ensures told == whole
  {
    assert told + [] == told;
  }

  // ------------------------------------------------------------- the launch loop

  method EmitOpened(mon: Monitor, s: StagePlan, i: nat, n: nat)
    requires mon.Valid()
    modifies mon
    ensures mon.Valid() && mon.notes == old(mon.notes) + OpenedNotes(s, i, n)
  {
    if s.redirected {
      mon.Emit(Note(REDIRECTION_OPENED, 0, 0, i, n, 0, Exited, 0));
    }
  }

  // One turn of the launch loop; true when the stage could not be launched.
  method LaunchStage(mon: Monitor, plan: Plan, i: nat, pids: array<int>) returns (failed: bool)
    requires mon.Valid() && i < |plan| == pids.Length
    modifies mon, pids
    ensures mon.Valid() && mon.notes == old(mon.notes) + LaunchNotes(plan[i], i, |plan|)
    ensures failed <==> !plan[i].launch.Forked?
    ensures pids[..] == if failed then old(pids[..]) else old(pids[..])[i := plan[i].launch.pid]
  {
    var n, s := |plan|, plan[i];
    if s.launch.RedirectionRefused? {
      mon.Emit(Note(REDIRECTION_FAILED, 0, 0, i, n, 0, Exited, 0));
      return true;
    }
    EmitOpened(mon, s, i, n);
    if !s.launch.Forked? {
      return true;
    }
    pids[i] := s.launch.pid;
    if i == 0 {
      mon.Emit(Note(PIPELINE_STARTED, s.launch.pid, 0, 0, n, 0, Completed, 0));
    }
    mon.Emit(StartNote(s.launch.pid, i, n));
    return false;
  }

  lemma {:induction false} LaunchedPrefix(plan: Plan, i: nat)
    requires i <= |plan| && forall k :: 0 <= k < i ==> plan[k].launch.Forked?
    ensures i <= Launched(plan) && (i < |plan| && !plan[i].launch.Forked? ==> Launched(plan) == i)
  {
    if i > 0 {
      LaunchedPrefix(plan[1..], i - 1);
    }
  }

  // The process ids of the stages that were launched, -1 for the others.
  predicate PidsOf(plan: Plan, pids: seq<int>) {
    && |pids| == |plan|
    && forall k :: 0 <= k < |plan| ==>
         pids[k] == if k < Launched(plan) && plan[k].launch.Forked? then plan[k].launch.pid else -1
  }

  predicate ForkedAs(plan: Plan, k: nat, pid: int)
    requires k < |plan|
  {
    plan[k].launch.Forked? && pid == plan[k].launch.pid
  }

  predicate PidsSoFar(plan: Plan, pids: seq<int>, i: nat) {
    && |pids| == |plan|
    && (forall k {:trigger ForkedAs(plan, k, pids[k])} :: 0 <= k < i && k < |plan| ==> ForkedAs(plan, k, pids[k]))
    && (forall k {:trigger pids[k]} :: i <= k < |plan| ==> pids[k] == -1)
  }

  lemma PidsStop(plan: Plan, pids: seq<int>, i: nat)
    requires i <= |plan| && PidsSoFar(plan, pids, i) && (i < |plan| ==> !plan[i].launch.Forked?)
    ensures Launched(plan) == i && PidsOf(plan, pids)
  {
    forall k | 0 <= k < i ensures plan[k].launch.Forked? && pids[k] == plan[k].launch.pid {
      assert ForkedAs(plan, k, pids[k]);
    }
    LaunchedPrefix(plan, i);
  }

  lemma PidsStep(plan: Plan, pids: seq<int>, i: nat)
    requires i < |plan| && PidsSoFar(plan, pids, i) && plan[i].launch.Forked?
    ensures PidsSoFar(plan, pids[i := plan[i].launch.pid], i + 1)
  {
    assert ForkedAs(plan, i, plan[i].launch.pid);
  }

  lemma LaunchUnfold(plan: Plan, i: nat)
    requires i < |plan|
    ensures LaunchFrom(plan, i)
      == LaunchNotes(plan[i], i, |plan|) + (if plan[i].launch.Forked? then LaunchFrom(plan, i + 1) else [])
  {}

  method LaunchAll(mon: Monitor, plan: Plan, pids: array<int>) returns (failed: bool)
    requires mon.Valid() && PidsSoFar(plan, pids[..], 0)
    modifies mon, pids
    ensures mon.Valid() && mon.notes == old(mon.notes) + LaunchFrom(plan, 0)
    ensures failed <==> !AllLaunched(plan)
    ensures PidsOf(plan, pids[..])
  {
    ghost var whole := mon.notes + LaunchFrom(plan, 0);
    var i := 0;
    while i < |plan|
      invariant 0 <= i <= |plan| && mon.Valid()
      invariant Telling(whole, mon.notes, LaunchFrom(plan, i))
      invariant PidsSoFar(plan, pids[..], i)
    {
      ghost var before, beforePids := mon.notes, pids[..];
      failed := LaunchStage(mon, plan, i, pids);
      LaunchUnfold(plan, i);
      Told(whole, before, LaunchNotes(plan[i], i, |plan|), if failed then [] else LaunchFrom(plan, i + 1));
      if failed {
        PidsStop(plan, pids[..], i);
        ToldAll(whole, mon.notes);
        return;
      }
      PidsStep(plan, beforePids, i);
      i := i + 1;
    }
    PidsStop(plan, pids[..], |plan|);
    ToldAll(whole, mon.notes);
    return false;
  }

  // --------------------------------------------------------------- the reap loop

  // waitpid: the status word is written only when there is an answer.
  method WaitChild(answer: WaitAnswer, statuses: array<WaitAnswer>, i: nat) returns (ok: bool)
    requires i < statuses.Length
    modifies statuses
    ensures ok <==> !answer.NoAnswer?
    ensures statuses[..] == if ok then old(statuses[..])[i := answer] else old(statuses[..])
  {
    if answer.NoAnswer? {
      return false;
    }
    statuses[i] := answer;
    return true;
  }

  // The notes for a child that was waited for.
  method ReportEnd(mon: Monitor, pid: Pid, status: WaitAnswer, execErrno: Option<int>, duration: int, i: nat, n: nat)
    requires mon.Valid() && !status.NoAnswer?
    modifies mon
    ensures mon.Valid()
    ensures mon.notes == old(mon.notes) + EndNotes(StagePlan(false, Forked(pid), execErrno, status, duration), i, n, 0)
  {
    if execErrno.Some? {
      mon.Emit(ExecErrorNote(pid, execErrno.value, duration, i, n));
    } else if status.ExitedWith? {
      mon.Emit(ExitNote(pid, status.code, if status.code == 0 then Completed else Exited, duration, i, n));
    } else {
      mon.Emit(SignalNote(pid, status.sig, i, n));
      mon.Emit(ExitNote(pid, 128 + status.sig, Signaled, duration, i, n));
    }
  }

  method ReapStage(mon: Monitor, plan: Plan, i: nat, pids: array<int>, statuses: array<WaitAnswer>)
    requires mon.Valid() && i < |plan| == pids.Length == statuses.Length && PidsOf(plan, pids[..])
    modifies mon, statuses
    ensures mon.Valid() && mon.notes == old(mon.notes) + ReapNotes(plan, i)
    ensures statuses[..] == if i < Launched(plan) && !plan[i].wait.NoAnswer? then old(statuses[..])[i := plan[i].wait]
                            else old(statuses[..])
  {
    var n := |plan|;
    assert pids[..][i] == pids[i];
    if i < Launched(plan) {
      LaunchedAreForked(plan, i);
    }
    if pids[i] <= 0 {
      mon.Emit(NeverLaunched(i, n));
      return;
    }
    var s := plan[i];
    var ok := WaitChild(s.wait, statuses, i);
    if !ok {
      mon.Emit(Note(WAIT_FAILED, pids[i], 0, 0, 0, 0, Outcome.WaitFailed, 0));
      return;
    }
    ReportEnd(mon, pids[i], statuses[i], s.execErrno, s.duration, i, n);
  }

  // What the status words hold after the loop has passed stage i.
  predicate StatusesOf(plan: Plan, statuses: seq<WaitAnswer>, i: nat) {
    && |statuses| == |plan|
    && forall k :: 0 <= k < |plan| ==>
         statuses[k] == if k < i && k < Launched(plan) && !plan[k].wait.NoAnswer? then plan[k].wait else ExitedWith(0)
  }

  method ReapAll(mon: Monitor, plan: Plan, pids: array<int>, statuses: array<WaitAnswer>)
    requires mon.Valid() && pids.Length == statuses.Length == |plan| && PidsOf(plan, pids[..])
    requires StatusesOf(plan, statuses[..], 0)
    modifies mon, statuses
    ensures mon.Valid() && mon.notes == old(mon.notes) + ReapFrom(plan, 0)
    ensures StatusesOf(plan, statuses[..], |plan|)
  {
    ghost var whole := mon.notes + ReapFrom(plan, 0);
    for i := 0 to |plan|
      invariant mon.Valid() && Telling(whole, mon.notes, ReapFrom(plan, i))
      invariant StatusesOf(plan, statuses[..], i)
    {
      ghost var before := mon.notes;
      ReapStage(mon, plan, i, pids, statuses);
      Told(whole, before, ReapNotes(plan, i), ReapFrom(plan, i + 1));
    }
    ToldAll(whole, mon.notes);
  }

  // ---------------------------------------------------------------- one command line

  method ExecSingle(mon: Monitor, s: StagePlan) returns (status: int)
    requires mon.Valid()
    modifies mon
    ensures mon.Valid() && mon.notes == old(mon.notes) + SingleNotes(s)
    ensures status == SingleStatus(s)
  {
    if s.launch.RedirectionRefused? {
      mon.Emit(Note(REDIRECTION_FAILED, 0, 0, 0, 1, 0, Exited, 0));
      return EXIT_FAILURE;
    }
    EmitOpened(mon, s, 0, 1);
    if !s.launch.Forked? {
      mon.Emit(Note(EXECUTION_FAILED, 0, 0, 0, 0, 0, Outcome.LaunchFailed, 0));
      return EXIT_FAILURE;
    }
    var pid := s.launch.pid;
    mon.Emit(StartNote(pid, 0, 1));
    if s.wait.NoAnswer? {
      mon.Emit(Note(WAIT_FAILED, pid, 0, 0, 0, s.duration, Outcome.WaitFailed, 0));
      return EXIT_FAILURE;
    }
    ReportEnd(mon, pid, s.wait, s.execErrno, s.duration, 0, 1);
    if s.execErrno.Some? {
      return ExecStatus(s.execErrno.value);
    }
    return if s.wait.ExitedWith? then s.wait.code else 128 + s.wait.sig;
  }

  lemma LeaderPid(plan: Plan)
    requires plan != []
    ensures plan[0].launch.Forked? <==> 0 < Launched(plan)
  {}

  // The last note, from what the arrays hold when both loops are done.
  lemma LastNote(plan: Plan, leader: int, last: WaitAnswer)
    requires plan != [] && leader == (if 0 < Launched(plan) && plan[0].launch.Forked? then plan[0].launch.pid else -1)
    requires last == if AllLaunched(plan) && !plan[|plan| - 1].wait.NoAnswer? then plan[|plan| - 1].wait else ExitedWith(0)
    ensures var failed := !AllLaunched(plan);
      CompletedNote(plan) == Note(PIPELINE_COMPLETED, leader,
        if failed || !last.ExitedWith? then EXIT_FAILURE else last.code, -1, |plan|, 0,
        if failed then Outcome.LaunchFailed else Completed, 0)
  {
    LeaderPid(plan);
  }

  lemma NotesOfParts(start: seq<Note>, plan: Plan)
    requires |plan| >= 2
    ensures start + LaunchFrom(plan, 0) + ReapFrom(plan, 0) + [CompletedNote(plan)] == start + PipelineNotes(plan)
  {
    ThreeParts(start, LaunchFrom(plan, 0), ReapFrom(plan, 0), [CompletedNote(plan)]);
  }

  method ExecStages(mon: Monitor, plan: Plan) returns (status: int)
    requires mon.Valid() && |plan| >= 2
    modifies mon
    ensures mon.Valid() && mon.notes == old(mon.notes) + PipelineNotes(plan)
    ensures status == PipelineStatus(plan)
  {
    var n := |plan|;
    var pids := new int[n](_ => -1);
    var statuses := new WaitAnswer[n](_ => ExitedWith(0));
    var launchFailed := LaunchAll(mon, plan, pids);
    ReapAll(mon, plan, pids, statuses);
    var leader, last := pids[0], statuses[n - 1];
    assert leader == pids[..][0] && last == statuses[..][n - 1];
    LastNote(plan, leader, last);
    mon.Emit(Note(PIPELINE_COMPLETED, leader, if launchFailed || !last.ExitedWith? then EXIT_FAILURE else last.code, -1, n, 0,
                  if launchFailed then Outcome.LaunchFailed else Completed, 0));
    NotesOfParts(old(mon.notes), plan);
    if launchFailed {
      return EXIT_FAILURE;
    }
    return if last.ExitedWith? then last.code else 128 + last.sig;
  }

  method ExecPipeline(mon: Monitor, plan: Plan, pipesOpen: bool) returns (status: int)
    requires mon.Valid() && plan != []
    modifies mon
    ensures mon.Valid() && mon.notes == old(mon.notes) + ExecNotes(plan, pipesOpen)
    ensures status == ExecResult(plan, pipesOpen)
  {
    if |plan| == 1 {
      status := ExecSingle(mon, plan[0]);
    } else if !pipesOpen {
      status := EXIT_FAILURE;
    } else {
      status := ExecStages(mon, plan);
    }
  }

  method EmitPreamble(mon: Monitor, bytes: nat, n: nat)
    requires mon.Valid()
    modifies mon
    ensures mon.Valid() && mon.notes == old(mon.notes) + Preamble(bytes, n)
  {
    mon.Emit(Simple(COMMAND_RECEIVED, bytes));
    mon.Emit(Simple(PARSED, 0));
    if n > 1 {
      mon.Emit(Note(PIPELINE_PARSED, 0, 0, -1, n, 0, Completed, 0));
    }
  }

  /** One command line, from the parser's answer to the closing summary. */
  method RunLine(mon: Monitor, run: Run) returns (status: int)
    requires mon.Valid() && ValidRun(run)
    modifies mon
    ensures mon.Valid() && mon.notes == old(mon.notes) + RunNotes(run)
    ensures status == RunStatus(run)
  {
    match run {
      case Refused(bytes) =>
        mon.Emit(Simple(COMMAND_PARSE_ERROR, bytes));
        mon.Emit(Simple(SESSION_SUMMARY, 0));
        status := 2;
      case Accepted(bytes, plan, pipesOpen) =>
        EmitPreamble(mon, bytes, |plan|);
        status := ExecPipeline(mon, plan, pipesOpen);
        mon.Emit(Simple(SESSION_SUMMARY, 0));
        ThreeParts(old(mon.notes), Preamble(bytes, |plan|), ExecNotes(plan, pipesOpen), [Simple(SESSION_SUMMARY, 0)]);
    }
  }

  lemma ThreeParts(start: seq<Note>, a: seq<Note>, b: seq<Note>, c: seq<Note>)
    ensures start + a + b + c == start + (a + b + c)
  {}
}
