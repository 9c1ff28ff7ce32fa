/** Which runs of the engine leave a valid stream, and which leave a session COMPLETED. */
module RecorderVerdict {
  import opened Basics
  import opened Events
  import opened Engine
  import opened EngineSchedule
  import opened EngineStream
  import opened Recorder
  import opened RecorderValid
  import Validator

  // ----------------------------------------------------------- when endings pair up

  // The stage ran a program, and its end was observed.
  predicate Ended(s: StagePlan) {
    s.launch.Forked? && s.execErrno.None? && !s.wait.NoAnswer?
  }

  predicate AllEnded(plan: Plan) {
    forall i {:trigger Ended(plan[i])} :: 0 <= i < |plan| ==> Ended(plan[i])
  }

  predicate Untroubled(run: Run) {
    run.Accepted? ==>
      if |run.plan| == 1 then run.plan[0].launch.Forked? ==> Ended(run.plan[0])
      else run.pipesOpen ==> AllEnded(run.plan)
  }

  lemma {:induction false} AllForked(plan: Plan)
    requires forall i :: 0 <= i < |plan| ==> plan[i].launch.Forked?
    ensures AllLaunched(plan)
  {
    if plan != [] {
      AllForked(plan[1..]);
    }
  }

  lemma EndUnpairedIff(s: StagePlan, i: nat, n: nat, duration: int)
    requires s.launch.Forked?
    ensures var es := EndNotes(s, i, n, duration); es != [] && (!Unpaired(Printed(es[|es| - 1])) <==> Ended(s))
  {}

  lemma LaunchedEnds(plan: Plan, i: nat)
    requires i < Launched(plan)
    ensures plan[i].launch.Forked? && ReapNotes(plan, i) == EndNotes(plan[i], i, |plan|, 0)
  {
    LaunchedAreForked(plan, i);
  }

  lemma NeverLaunchedIsUnpaired(stage: nat, n: nat)
    ensures Unpaired(Printed(NeverLaunched(stage, n)))
  {}

  lemma EndingUnpairedIff(plan: Plan, i: nat)
    requires i < |plan|
    ensures !Unpaired(Printed(Ending(plan, i))) <==> i < Launched(plan) && Ended(plan[i])
  {
    var es := ReapNotes(plan, i);
    if i < Launched(plan) {
      LaunchedEnds(plan, i);
      EndUnpairedIff(plan[i], i, |plan|, 0);
    } else {
      assert es == [NeverLaunched(i, |plan|)];
      NeverLaunchedIsUnpaired(i, |plan|);
    }
  }

  lemma {:induction false} EndingMembers(notes: seq<Note>, e: Note)
    requires e in notes && IsEnding(e)
    ensures e in Endings(notes)
  {
    if notes[0] != e {
      EndingMembers(notes[1..], e);
    }
  }

  lemma {:induction false} EndingListMembers(plan: Plan, i: nat, e: Note) returns (s: nat)
    requires e in EndingList(plan, i)
    ensures i <= s < |plan| && e == Ending(plan, s)
    decreases |plan| - i
  {
    if e == Ending(plan, i) {
      s := i;
    } else {
      s := EndingListMembers(plan, i + 1, e);
    }
  }

  predicate NoteUnpaired(e: Note) {
    Unpaired(Printed(e))
  }

  predicate NoneUnpaired(notes: seq<Note>) {
    forall e {:trigger NoteUnpaired(e)} :: e in notes ==> !NoteUnpaired(e)
  }

  lemma LinesUnpaired(notes: seq<Note>)
    ensures NoUnpaired(PrintedAll(notes), |notes|) <==> NoneUnpaired(notes)
  {
    var lines := PrintedAll(notes);
    if NoUnpaired(lines, |notes|) {
      forall e | e in notes ensures !NoteUnpaired(e) {
        var k :| 0 <= k < |notes| && notes[k] == e;
        assert !Unpaired(lines[k]);
      }
    }
    if NoneUnpaired(notes) {
      forall k {:trigger Unpaired(lines[k])} | 0 <= k < |notes| ensures !Unpaired(lines[k]) {
        assert notes[k] in notes && !NoteUnpaired(notes[k]);
      }
    }
  }

  lemma AllEndedAreLaunched(plan: Plan)
    requires AllEnded(plan)
    ensures AllLaunched(plan)
  {
    assert forall i :: 0 <= i < |plan| ==> Ended(plan[i]);
    AllForked(plan);
  }

  lemma OnlyEndingsAreUnpaired(e: Note)
    ensures NoteUnpaired(e) ==> IsEnding(e)
  {}

  lemma AllEndedArePaired(plan: Plan, e: Note)
    requires |plan| >= 2 && AllEnded(plan) && e in PipelineNotes(plan)
    ensures !NoteUnpaired(e)
  {
    OnlyEndingsAreUnpaired(e);
    if IsEnding(e) {
      AllEndedAreLaunched(plan);
      OneStartAndOneEnding(plan);
      EndingMembers(PipelineNotes(plan), e);
      var i := EndingListMembers(plan, 0, e);
      assert Ended(plan[i]);
      EndingUnpairedIff(plan, i);
    }
  }

  lemma PairedHaveEnded(plan: Plan, i: nat)
    requires |plan| >= 2 && NoneUnpaired(PipelineNotes(plan)) && i < |plan|
    ensures Ended(plan[i])
  {
    OneStartAndOneEnding(plan);
    EndingListAt(plan, 0, i);
    FilteredAreMembers(PipelineNotes(plan), Ending(plan, i));
    assert !NoteUnpaired(Ending(plan, i));
    EndingUnpairedIff(plan, i);
  }

  lemma PipelinePairedIff(plan: Plan)
    requires |plan| >= 2
    ensures NoneUnpaired(PipelineNotes(plan)) <==> AllEnded(plan)
  {
    if AllEnded(plan) {
      forall e {:trigger NoteUnpaired(e)} | e in PipelineNotes(plan) ensures !NoteUnpaired(e) {
        AllEndedArePaired(plan, e);
      }
    }
    if NoneUnpaired(PipelineNotes(plan)) {
      forall i {:trigger Ended(plan[i])} | 0 <= i < |plan| ensures Ended(plan[i]) {
        PairedHaveEnded(plan, i);
      }
    }
  }

  lemma NoneAround(pre: seq<Note>, notes: seq<Note>, post: seq<Note>)
    requires NoneUnpaired(pre) && NoneUnpaired(post)
    ensures NoneUnpaired(pre + notes + post) <==> NoneUnpaired(notes)
  {
    var all := pre + notes + post;
    assert forall e :: e in all <==> e in pre || e in notes || e in post;
  }

  lemma SinglePairedIff(s: StagePlan)
    ensures NoneUnpaired(SingleNotes(s)) <==> (s.launch.Forked? ==> Ended(s))
  {
    var notes := SingleNotes(s);
    if s.launch.Forked? {
      var last := notes[|notes| - 1];
      assert last in notes;
      assert NoteUnpaired(last) <==> !Ended(s);
    }
  }

  lemma ExecPairedIff(plan: Plan, pipesOpen: bool)
    requires plan != []
    ensures NoneUnpaired(ExecNotes(plan, pipesOpen)) <==>
      if |plan| == 1 then plan[0].launch.Forked? ==> Ended(plan[0]) else pipesOpen ==> AllEnded(plan)
  {
    if |plan| == 1 {
      SinglePairedIff(plan[0]);
    } else if pipesOpen {
      PipelinePairedIff(plan);
    }
  }

  lemma FrameIsPaired(bytes: nat, n: nat)
    ensures NoneUnpaired(Preamble(bytes, n)) && NoneUnpaired([Simple(SESSION_SUMMARY, 0)])
  {}

  lemma RunPairedIff(run: Run)
    requires ValidRun(run)
    ensures NoUnpaired(PrintedAll(RunNotes(run)), |RunNotes(run)|) <==> Untroubled(run)
  {
    LinesUnpaired(RunNotes(run));
    match run {
      case Refused(_) =>
      case Accepted(bytes, plan, pipesOpen) =>
        FrameIsPaired(bytes, |plan|);
        NoneAround(Preamble(bytes, |plan|), ExecNotes(plan, pipesOpen), [Simple(SESSION_SUMMARY, 0)]);
        ExecPairedIff(plan, pipesOpen);
    }
  }

  /**
   * A session that records a whole run of the engine passes the validator exactly when every
   * stage ran a program whose end was observed (or nothing was started at all).
   */
  lemma WholeRunIsValidIff(run: Run, sessionId: Token, id: Token, actions: seq<Action>, code: Option<int>)
    requires ValidRun(run) && AllOrdinary(actions) && LinesOf(actions) == PrintedAll(RunNotes(run))
    ensures var s := After(CreatedState(sessionId, id), Session(actions, code));
      s.Some? && (Validator.Report(s.value.store, Some(s.value.row)).valid <==> Untroubled(run))
  {
    var lines := PrintedAll(RunNotes(run));
    assert lines[..|lines|] == lines;
    EngineRunIsValidIff(run, |lines|, sessionId, id, actions, code);
    RunPairedIff(run);
  }

  // -------------------------------------------------------- when a session COMPLETES

  function LearnAll(k: Seen, notes: seq<Note>): Seen
    decreases |notes|
  {
    if notes == [] then k else LearnAll(Learn(k, Printed(notes[0])), notes[1..])
  }

  lemma {:induction false} LearnAppend(k: Seen, a: seq<Note>, b: seq<Note>)
    ensures LearnAll(k, a + b) == LearnAll(LearnAll(k, a), b)
    decreases |a|
  {
    if a == [] {
      assert a + b == b;
    } else {
      LearnAppend(Learn(k, Printed(a[0])), a[1..], b);
      assert (a + b)[0] == a[0] && (a + b)[1..] == a[1..] + b;
    }
  }

  lemma LearnOne(k: Seen, e: Note)
    ensures LearnAll(k, [e]) == Learn(k, Printed(e))
  {
    assert [e][1..] == [];
  }

  lemma {:induction false} LessonIsFold(notes: seq<Note>)
    ensures Lesson(PrintedAll(notes)) == LearnAll(NOTHING_SEEN, notes)
    decreases |notes|
  {
    if notes != [] {
      var init, last := notes[..|notes| - 1], notes[|notes| - 1];
      LessonIsFold(init);
      assert PrintedAll(notes) == PrintedAll(init) + [Printed(last)];
      LessonAppend(PrintedAll(init), Printed(last));
      LearnAppend(NOTHING_SEEN, init, [last]);
      LearnOne(LearnAll(NOTHING_SEEN, init), last);
      assert init + [last] == notes;
    }
  }

  // Nothing seen so far speaks against success.
  predicate Unblemished(k: Seen) {
    !k.execError && !k.waitFailure && !k.launchFailure && k.signal.None?
  }

  // Notes that leave the verdict as it is.
  predicate Mute(e: Note) {
    match e.name
    case PROCESS_EXITED | SIGNAL_RECEIVED | EXEC_ERROR | WAIT_FAILED | EXECUTION_FAILED => false
    case _ => true
  }

  predicate SameVerdict(k: Seen, l: Seen) {
    Unblemished(k) == Unblemished(l) && k.outcome == l.outcome
  }

  predicate AllMute(notes: seq<Note>) {
    forall i {:trigger Mute(notes[i])} :: 0 <= i < |notes| ==> Mute(notes[i])
  }

  lemma {:induction false} MuteLearns(k: Seen, notes: seq<Note>)
    requires AllMute(notes)
    ensures SameVerdict(LearnAll(k, notes), k)
    decreases |notes|
  {
    if notes != [] {
      assert Mute(notes[0]);
      forall i {:trigger Mute(notes[1..][i])} | 0 <= i < |notes| - 1 ensures Mute(notes[1..][i]) {
        assert Mute(notes[i + 1]);
      }
      MuteLearns(Learn(k, Printed(notes[0])), notes[1..]);
    }
  }

  lemma MuteAppend(a: seq<Note>, b: seq<Note>)
    requires AllMute(a) && AllMute(b)
    ensures AllMute(a + b)
  {
    forall i {:trigger Mute((a + b)[i])} | 0 <= i < |a + b| ensures Mute((a + b)[i]) {
      assert if i < |a| then Mute(a[i]) else Mute(b[i - |a|]);
    }
  }

  lemma LaunchStageMute(s: StagePlan, i: nat, n: nat)
    ensures AllMute(LaunchNotes(s, i, n))
  {}

  lemma {:induction false} LaunchMute(plan: Plan, i: nat)
    requires i <= |plan|
    ensures AllMute(LaunchFrom(plan, i))
    decreases |plan| - i
  {
    if i < |plan| {
      LaunchStageMute(plan[i], i, |plan|);
      if plan[i].launch.Forked? {
        LaunchMute(plan, i + 1);
        MuteAppend(LaunchNotes(plan[i], i, |plan|), LaunchFrom(plan, i + 1));
      } else {
        MuteAppend(LaunchNotes(plan[i], i, |plan|), []);
      }
    }
  }

  // The stage's report leaves no blemish: it exited by itself, or was never launched.
  predicate LeavesNoBlemish(plan: Plan, i: nat)
    requires i < |plan|
  {
    i < Launched(plan) ==> Ended(plan[i]) && plan[i].wait.ExitedWith?
  }

  lemma LearnTwo(k: Seen, a: Note, b: Note)
    ensures LearnAll(k, [a, b]) == Learn(Learn(k, Printed(a)), Printed(b))
  {
    assert [a, b][1..] == [b];
    LearnOne(Learn(k, Printed(a)), b);
  }

  predicate ReportsSuccess(k: Seen, l: Seen, s: StagePlan) {
    && (Unblemished(l) <==> Unblemished(k) && Ended(s) && s.wait.ExitedWith?)
    && (l.outcome == Some(Completed) <==> Ended(s) && s.wait == ExitedWith(0))
  }

  lemma SignalLearns(k: Seen, s: StagePlan, sig: Signal, i: nat, n: nat)
    requires s.launch.Forked? && s.wait == KilledBy(sig)
    ensures ReportsSuccess(k, LearnAll(k, [SignalNote(s.launch.pid, sig, i, n),
                                           ExitNote(s.launch.pid, 128 + sig, Signaled, s.duration, i, n)]), s)
  {
    LearnTwo(k, SignalNote(s.launch.pid, sig, i, n), ExitNote(s.launch.pid, 128 + sig, Signaled, s.duration, i, n));
  }

  lemma EndLearns(k: Seen, s: StagePlan, i: nat, n: nat, duration: int)
    requires s.launch.Forked?
    ensures ReportsSuccess(k, LearnAll(k, EndNotes(s, i, n, duration)), s)
  {
    var es := EndNotes(s, i, n, duration);
    if s.wait.KilledBy? && s.execErrno.None? {
      SignalLearns(k, s, s.wait.sig, i, n);
    } else {
      assert es == [es[0]];
      LearnOne(k, es[0]);
    }
  }

  lemma StageLearns(k: Seen, plan: Plan, i: nat)
    requires i < |plan|
    ensures var l := LearnAll(k, ReapNotes(plan, i));
      && (Unblemished(l) <==> Unblemished(k) && LeavesNoBlemish(plan, i))
      && (l.outcome == Some(Completed) <==> i < Launched(plan) && Ended(plan[i]) && plan[i].wait == ExitedWith(0))
  {
    if i < Launched(plan) {
      LaunchedAreForked(plan, i);
      EndLearns(k, plan[i], i, |plan|, 0);
    } else {
      LearnOne(k, NeverLaunched(i, |plan|));
    }
  }

  lemma {:induction false} ReapLearns(k: Seen, plan: Plan, i: nat)
    requires i < |plan|
    ensures var l, n := LearnAll(k, ReapFrom(plan, i)), |plan| - 1;
      && (Unblemished(l) <==> Unblemished(k) && NoBlemishFrom(plan, i))
      && (l.outcome == Some(Completed) <==> n < Launched(plan) && Ended(plan[n]) && plan[n].wait == ExitedWith(0))
    decreases |plan| - i
  {
    var now := LearnAll(k, ReapNotes(plan, i));
    StageLearns(k, plan, i);
    LearnAppend(k, ReapNotes(plan, i), ReapFrom(plan, i + 1));
    if i + 1 < |plan| {
      ReapLearns(now, plan, i + 1);
    } else {
      assert LearnAll(now, []) == now;
    }
  }

  predicate AllExited(plan: Plan) {
    forall i {:trigger Ended(plan[i])} :: 0 <= i < |plan| ==> Ended(plan[i]) && plan[i].wait.ExitedWith?
  }

  predicate NoBlemishFrom(plan: Plan, i: nat) {
    forall j {:trigger LeavesNoBlemish(plan, j)} :: i <= j < |plan| ==> LeavesNoBlemish(plan, j)
  }

  lemma ExitsAreLaunched(plan: Plan)
    requires AllExited(plan)
    ensures AllLaunched(plan) && NoBlemishFrom(plan, 0)
  {
    assert forall i :: 0 <= i < |plan| ==> Ended(plan[i]);
    AllForked(plan);
  }

  lemma LaunchedExits(plan: Plan)
    requires AllLaunched(plan) && NoBlemishFrom(plan, 0)
    ensures AllExited(plan)
  {
    forall i {:trigger Ended(plan[i])} | 0 <= i < |plan| ensures Ended(plan[i]) && plan[i].wait.ExitedWith? {
      assert LeavesNoBlemish(plan, i);
    }
  }

  // Which pipelines the recorder reads as a success.
  lemma PipelineLearns(plan: Plan, k: Seen)
    requires |plan| >= 2 && Unblemished(k)
    ensures var l := LearnAll(k, PipelineNotes(plan));
      Unblemished(l) && l.outcome == Some(Completed) <==> AllExited(plan) && plan[|plan| - 1].wait == ExitedWith(0)
  {
    var launch, reap, last := LaunchFrom(plan, 0), ReapFrom(plan, 0), [CompletedNote(plan)];
    LearnAppend(k, launch + reap, last);
    LearnAppend(k, launch, reap);
    LaunchMute(plan, 0);
    MuteLearns(k, launch);
    ReapLearns(LearnAll(k, launch), plan, 0);
    MuteLearns(LearnAll(LearnAll(k, launch), reap), last);
    if AllExited(plan) {
      ExitsAreLaunched(plan);
    }
    if AllLaunched(plan) && NoBlemishFrom(plan, 0) {
      LaunchedExits(plan);
    }
  }

  // The row a close writes, from what was learned.
  lemma CompletedRowIff(s: State)
    ensures DecideStatus(s) == COMPLETED <==> !s.timedOut && Unblemished(s.seen) && s.seen.outcome == Some(Completed)
  {}

  // Which requests a run of ordinary steps leaves behind.
  lemma {:induction false} RequestsMade(s: State, actions: seq<Action>)
    requires s.registered && !s.finalized && s.phase == Live && AllOrdinary(actions)
    ensures var r := After(s, actions);
      && r.Some? && (r.value.timedOut <==> s.timedOut || Timeout in actions)
      && (r.value.terminateRequested <==> s.terminateRequested || Terminate(true) in actions)
    decreases |actions|
  {
    if actions != [] {
      OrdinaryTail(actions);
      RequestsMade(Step(s, actions[0]), actions[1..]);
      assert actions == [actions[0]] + actions[1..];
    }
  }

  lemma PreambleLearns(bytes: nat, n: nat)
    ensures SameVerdict(LearnAll(NOTHING_SEEN, Preamble(bytes, n)), NOTHING_SEEN)
  {
    assert AllMute(Preamble(bytes, n));
    MuteLearns(NOTHING_SEEN, Preamble(bytes, n));
  }

  lemma FailedLaunchLearns(k: Seen, s: StagePlan)
    requires !s.launch.Forked? && k.outcome != Some(Completed)
    ensures var l := LearnAll(k, SingleNotes(s)); !(Unblemished(l) && l.outcome == Some(Completed))
  {
    if s.launch.RedirectionRefused? {
      assert AllMute(SingleNotes(s));
      MuteLearns(k, SingleNotes(s));
    } else {
      var failed := Note(EXECUTION_FAILED, 0, 0, 0, 0, 0, Outcome.LaunchFailed, 0);
      LearnAppend(k, OpenedNotes(s, 0, 1), [failed]);
      LearnOne(LearnAll(k, OpenedNotes(s, 0, 1)), failed);
    }
  }

  lemma SingleLearns(k: Seen, s: StagePlan)
    requires Unblemished(k) && k.outcome != Some(Completed)
    ensures var l := LearnAll(k, SingleNotes(s));
      Unblemished(l) && l.outcome == Some(Completed) <==> Ended(s) && s.wait == ExitedWith(0)
  {
    if s.launch.Forked? {
      var head, ends := OpenedNotes(s, 0, 1) + [StartNote(s.launch.pid, 0, 1)], EndNotes(s, 0, 1, s.duration);
      assert AllMute(head);
      LearnAppend(k, head, ends);
      MuteLearns(k, head);
      EndLearns(LearnAll(k, head), s, 0, 1, s.duration);
    } else {
      FailedLaunchLearns(k, s);
    }
  }

  // Every stage ran a program that exited by itself, and the last one with 0.
  predicate Succeeds(run: Run)
    requires ValidRun(run)
  {
    run.Accepted? && (|run.plan| > 1 ==> run.pipesOpen) && AllExited(run.plan) && run.plan[|run.plan| - 1].wait == ExitedWith(0)
  }

  lemma ExecLearns(k: Seen, plan: Plan, pipesOpen: bool)
    requires plan != [] && Unblemished(k) && k.outcome != Some(Completed)
    ensures var l := LearnAll(k, ExecNotes(plan, pipesOpen));
      Unblemished(l) && l.outcome == Some(Completed) <==> Succeeds(Accepted(0, plan, pipesOpen))
  {
    if |plan| == 1 {
      SingleLearns(k, plan[0]);
      assert AllExited(plan) <==> Ended(plan[0]) && plan[0].wait.ExitedWith?;
    } else if pipesOpen {
      PipelineLearns(plan, k);
    }
  }

  lemma RunLearns(run: Run)
    requires ValidRun(run)
    ensures var l := LearnAll(NOTHING_SEEN, RunNotes(run));
      Unblemished(l) && l.outcome == Some(Completed) <==> Succeeds(run)
  {
    match run {
      case Refused(_) =>
        assert AllMute(RunNotes(run));
        MuteLearns(NOTHING_SEEN, RunNotes(run));
      case Accepted(bytes, plan, pipesOpen) =>
        var pre, notes, post := Preamble(bytes, |plan|), ExecNotes(plan, pipesOpen), [Simple(SESSION_SUMMARY, 0)];
        PreambleLearns(bytes, |plan|);
        LearnAppend(NOTHING_SEEN, pre + notes, post);
        LearnAppend(NOTHING_SEEN, pre, notes);
        ExecLearns(LearnAll(NOTHING_SEEN, pre), plan, pipesOpen);
        MuteLearns(LearnAll(LearnAll(NOTHING_SEEN, pre), notes), post);
    }
  }

  // The row of a session that recorded a whole run, and what was learned by then.
  lemma RowOfRun(run: Run, sessionId: Token, id: Token, actions: seq<Action>, code: Option<int>) returns (s: State)
    requires ValidRun(run) && AllOrdinary(actions) && LinesOf(actions) == PrintedAll(RunNotes(run))
    ensures var r := After(CreatedState(sessionId, id), Session(actions, code)); r.Some? && r.value.row == DecideStatus(s)
    ensures s.seen == LearnAll(NOTHING_SEEN, RunNotes(run))
    ensures (s.timedOut <==> Timeout in actions) && (s.terminateRequested <==> Terminate(true) in actions)
  {
    var s0 := CreatedState(sessionId, id);
    var s1 := Spawned(s0, true);
    var lines := LinesOf(actions);
    SpawnRecorded(sessionId, id);
    var origin := RunRecorded(s1, [], [-1, -1], actions);
    assert [] + lines == lines;
    s := After(s1, actions).value;
    RequestsMade(s1, actions);
    LessonIsFold(RunNotes(run));
    ClosedSession(s0, s1, s, lines, origin, actions, code);
  }

  /**
   * The session of a whole run is COMPLETED exactly when the timer never fired, every stage
   * exited by itself, and the last one exited with 0.
   */
  lemma SessionCompletedIff(run: Run, sessionId: Token, id: Token, actions: seq<Action>, code: Option<int>)
    requires ValidRun(run) && AllOrdinary(actions) && LinesOf(actions) == PrintedAll(RunNotes(run))
    ensures var s := After(CreatedState(sessionId, id), Session(actions, code));
      s.Some? && (s.value.row == COMPLETED <==> Timeout !in actions && Succeeds(run))
  {
    var s := RowOfRun(run, sessionId, id, actions, code);
    RunLearns(run);
    CompletedRowIff(s);
  }

  lemma ClosedSession(s0: State, s1: State, s2: State, lines: seq<Line>, origin: seq<int>, actions: seq<Action>, code: Option<int>)
    requires s0.phase == Phase.Created && s1 == Spawned(s0, true) && After(s1, actions) == Some(s2) && Recording(s2, lines, origin)
    ensures var s := After(s0, Session(actions, code));
      s.Some? && s.value.row == DecideStatus(s2) && s.value.store == s2.store + [TerminalEvent(s2, code)]
  {
    NumberedAppend(s2.store, TerminalEvent(s2, code), s2.sessionId, s2.nextId);
    CloseAppends(s2, code);
    AfterAppend(s1, actions, [Close(code, true)]);
    LastStep(s2, Close(code, true), Finalized(s2, code, true));
    FirstStep(s0, Spawn(true), s1, actions + [Close(code, true)]);
  }

  /**
   * A producer stopped by a signal when its reader left: the engine returns 0, and yet the
   * session is FAILED, unless it timed out or was asked to terminate.
   */
  lemma SignalledProducer(bytes: nat, plan: Plan, i: nat, sessionId: Token, id: Token, actions: seq<Action>, code: Option<int>)
    requires |plan| >= 2 && AllLaunched(plan) && plan[|plan| - 1].wait == ExitedWith(0)
    requires i < |plan| && plan[i].wait.KilledBy?
    requires AllOrdinary(actions) && LinesOf(actions) == PrintedAll(RunNotes(Accepted(bytes, plan, true)))
    ensures RunStatus(Accepted(bytes, plan, true)) == 0
    ensures var s := After(CreatedState(sessionId, id), Session(actions, code));
      s.Some? && s.value.row != COMPLETED
      && (Timeout !in actions && Terminate(true) !in actions ==> s.value.row == FAILED)
  {
    var run := Accepted(bytes, plan, true);
    assert !(Ended(plan[i]) && plan[i].wait.ExitedWith?);
    var s := RowOfRun(run, sessionId, id, actions, code);
    RunLearns(run);
    CompletedRowIff(s);
  }

  // ------------------------------------------------------------ the command text

  predicate NoCommand(notes: seq<Note>) {
    forall e <- notes :: e.name != COMMAND_RECEIVED
  }

  lemma NoCommandAppend(a: seq<Note>, b: seq<Note>)
    requires NoCommand(a) && NoCommand(b)
    ensures NoCommand(a + b)
  {}

  lemma LaunchStageNoCommand(s: StagePlan, i: nat, n: nat)
    ensures NoCommand(LaunchNotes(s, i, n))
  {}

  lemma {:induction false} LaunchNoCommand(plan: Plan, i: nat)
    requires i <= |plan|
    ensures NoCommand(LaunchFrom(plan, i))
    decreases |plan| - i
  {
    if i < |plan| {
      LaunchStageNoCommand(plan[i], i, |plan|);
      if plan[i].launch.Forked? {
        LaunchNoCommand(plan, i + 1);
        NoCommandAppend(LaunchNotes(plan[i], i, |plan|), LaunchFrom(plan, i + 1));
      } else {
        NoCommandAppend(LaunchNotes(plan[i], i, |plan|), []);
      }
    }
  }

  lemma {:induction false} ReapNoCommand(plan: Plan, i: nat)
    requires i <= |plan|
    ensures NoCommand(ReapFrom(plan, i))
    decreases |plan| - i
  {
    if i < |plan| {
      assert NoCommand(ReapNotes(plan, i));
      ReapNoCommand(plan, i + 1);
      NoCommandAppend(ReapNotes(plan, i), ReapFrom(plan, i + 1));
    }
  }

  lemma ExecNoCommand(plan: Plan, pipesOpen: bool)
    requires plan != []
    ensures NoCommand(ExecNotes(plan, pipesOpen))
  {
    LaunchNoCommand(plan, 0);
    ReapNoCommand(plan, 0);
    if |plan| > 1 && pipesOpen {
      NoCommandAppend(LaunchFrom(plan, 0), ReapFrom(plan, 0));
    }
  }

  lemma CommandNotes(run: Run, e: Note)
    requires ValidRun(run) && e in RunNotes(run) && e.name == COMMAND_RECEIVED
    ensures run.Accepted? && e == Simple(COMMAND_RECEIVED, run.bytes)
  {
    if run.Accepted? {
      ExecNoCommand(run.plan, run.pipesOpen);
    }
  }

  /** The record of a whole run says which command it ran exactly when its text is within the budget. */
  lemma CommandRecordedIff(run: Run, sessionId: Token, id: Token, actions: seq<Action>, code: Option<int>)
    requires ValidRun(run) && AllOrdinary(actions) && LinesOf(actions) == PrintedAll(RunNotes(run))
    ensures var s := After(CreatedState(sessionId, id), Session(actions, code));
      s.Some? && ((exists e :: e in s.value.store && e.kind == CommandReceived) <==> run.Accepted? && run.bytes <= LINE_BUDGET)
  {
    var s0 := CreatedState(sessionId, id);
    var s1 := Spawned(s0, true);
    var lines := LinesOf(actions);
    SpawnRecorded(sessionId, id);
    var origin := RunRecorded(s1, [], [-1, -1], actions);
    assert [] + lines == lines;
    var s2 := After(s1, actions).value;
    ClosedSession(s0, s1, s2, lines, origin, actions, code);
    CommandInRecord(run, s2.store, lines, origin);
  }

  lemma CommandInRecord(run: Run, es: seq<Event>, lines: seq<Line>, origin: seq<int>)
    requires ValidRun(run) && lines == PrintedAll(RunNotes(run)) && Tells(es, lines, origin)
    ensures (exists e :: e in es && e.kind == CommandReceived) <==> run.Accepted? && run.bytes <= LINE_BUDGET
  {
    if run.Accepted? && run.bytes <= LINE_BUDGET {
      assert RunNotes(run)[0] == Simple(COMMAND_RECEIVED, run.bytes);
      var i := PlaceOf(es, lines, origin, 0);
      assert es[i] in es;
    }
    forall e | e in es && e.kind == CommandReceived ensures run.Accepted? && run.bytes <= LINE_BUDGET {
      var i :| 0 <= i < |es| && es[i] == e;
      assert TellsAt(es[i], lines, origin[i]);
      CommandNotes(run, RunNotes(run)[origin[i]]);
    }
  }

  // --------------------------------------------------------------- runs on the other side

  // The session that records some lines and nothing else.
  function Replay(lines: seq<Line>): seq<Action> {
    if lines == [] then [] else [EngineLine(lines[0], true)] + Replay(lines[1..])
  }

  lemma {:induction false} ReplayRecords(lines: seq<Line>)
    ensures AllOrdinary(Replay(lines)) && LinesOf(Replay(lines)) == lines
    ensures Timeout !in Replay(lines) && Terminate(true) !in Replay(lines)
  {
    if lines != [] {
      var rest := Replay(lines[1..]);
      ReplayRecords(lines[1..]);
      assert Replay(lines)[1..] == rest && [lines[0]] + lines[1..] == lines;
      forall i {:trigger Ordinary(Replay(lines)[i])} | 0 <= i < |Replay(lines)| ensures Ordinary(Replay(lines)[i]) {
        assert i > 0 ==> Ordinary(rest[i - 1]);
      }
    }
  }

  function RecordOf(run: Run, sessionId: Token, id: Token): Option<State>
    requires ValidRun(run)
  {
    After(CreatedState(sessionId, id), Session(Replay(PrintedAll(RunNotes(run))), Some(RunStatus(run))))
  }

  // A command that is not found (errno 2) leaves a record the validator refuses.
  lemma FailedExecIsRefused(sessionId: Token, id: Token)
    ensures var r := RecordOf(Accepted(3, [StagePlan(false, Forked(7), Some(2), ExitedWith(127), 1)], true), sessionId, id);
      r.Some? && !Validator.Report(r.value.store, Some(r.value.row)).valid
  {
    var run := Accepted(3, [StagePlan(false, Forked(7), Some(2), ExitedWith(127), 1)], true);
    var lines := PrintedAll(RunNotes(run));
    ReplayRecords(lines);
    WholeRunIsValidIff(run, sessionId, id, Replay(lines), Some(RunStatus(run)));
    assert !Untroubled(run);
  }

  // A command line of 401 bytes that runs and succeeds: no event of the record names it.
  lemma LongCommandIsNotRecorded(sessionId: Token, id: Token)
    ensures var r := RecordOf(Accepted(401, [StagePlan(false, Forked(7), None, ExitedWith(0), 1)], true), sessionId, id);
      r.Some? && r.value.row == COMPLETED && forall e :: e in r.value.store ==> e.kind != CommandReceived
  {
    var plan := [StagePlan(false, Forked(7), None, ExitedWith(0), 1)];
    var run := Accepted(401, plan, true);
    var lines := PrintedAll(RunNotes(run));
    ReplayRecords(lines);
    CommandRecordedIff(run, sessionId, id, Replay(lines), Some(RunStatus(run)));
    SessionCompletedIff(run, sessionId, id, Replay(lines), Some(RunStatus(run)));
    assert AllExited(plan);
  }

  // The first of two stages dies of SIGPIPE, the second exits 0: status 0, session FAILED.
  lemma BrokenPipeFailsTheSession(sessionId: Token, id: Token)
    ensures var first, second := StagePlan(false, Forked(7), None, KilledBy(13), 1), StagePlan(false, Forked(8), None, ExitedWith(0), 1);
      var run := Accepted(8, [first, second], true);
      RunStatus(run) == 0 && RecordOf(run, sessionId, id).Some? && RecordOf(run, sessionId, id).value.row == FAILED
  {
    var first, second := StagePlan(false, Forked(7), None, KilledBy(13), 1), StagePlan(false, Forked(8), None, ExitedWith(0), 1);
    var plan := [first, second];
    var lines := PrintedAll(RunNotes(Accepted(8, plan, true)));
    AllForked(plan);
    ReplayRecords(lines);
    SignalledProducer(8, plan, 0, sessionId, id, Replay(lines), Some(RunStatus(Accepted(8, plan, true))));
  }
}
