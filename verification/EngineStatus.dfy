/**
 * What a run returns, against what it reports: the status of a single command, the ending of
 * each stage, how often each stage is told of, and the counters of the monitor.
 */
module EngineStatus {
  import opened Basics
  import opened Events
  import opened Engine
  import opened EngineSchedule

  // ----------------------------------------------------------------- a single command

  // The last word on how a program ended.
  predicate IsVerdict(e: Note) {
    e.name == PROCESS_EXITED || e.name == EXEC_ERROR
  }

  function LastVerdict(notes: seq<Note>): Option<Note> {
    if notes == [] then None
    else var last := notes[|notes| - 1]; if IsVerdict(last) then Some(last) else LastVerdict(notes[..|notes| - 1])
  }

  lemma VerdictAppend(notes: seq<Note>, e: Note)
    ensures LastVerdict(notes + [e]) == if IsVerdict(e) then Some(e) else LastVerdict(notes)
  {
    assert (notes + [e])[..|notes|] == notes;
  }

  lemma {:induction false} NoVerdict(notes: seq<Note>)
    requires forall i {:trigger IsVerdict(notes[i])} :: 0 <= i < |notes| ==> !IsVerdict(notes[i])
    ensures LastVerdict(notes) == None
  {
    if notes != [] {
      var init := notes[..|notes| - 1];
      assert !IsVerdict(notes[|notes| - 1]);
      forall i {:trigger IsVerdict(init[i])} | 0 <= i < |init| ensures !IsVerdict(init[i]) {
        assert !IsVerdict(notes[i]);
      }
      NoVerdict(init);
    }
  }

  // What the kernel's answers come to, in the numbers a caller sees.
  predicate Returns(s: StagePlan, status: int) {
    if !s.launch.Forked? || s.wait.NoAnswer? then status == 1
    else if s.execErrno.Some? then status == if s.execErrno.value == 13 then 126 else 127
    else match s.wait
      case ExitedWith(code) => status == code
      case KilledBy(sig) => status == 128 + sig
  }

  lemma SingleVerdict(pre: seq<Note>, s: StagePlan)
    requires LastVerdict(pre) == None
    ensures match LastVerdict(pre + SingleNotes(s))
      case Some(e) => s.launch.Forked? && !s.wait.NoAnswer? && Returns(s, e.status)
      case None => !s.launch.Forked? || s.wait.NoAnswer?
  {
    var notes := SingleNotes(s);
    if s.launch.Forked? {
      var init, last := notes[..|notes| - 1], notes[|notes| - 1];
      assert pre + notes == (pre + init) + [last];
      VerdictAppend(pre + init, last);
      if s.wait.NoAnswer? {
        OpeningVerdict(pre, s, [StartNote(s.launch.pid, 0, 1)]);
        assert init == OpenedNotes(s, 0, 1) + [StartNote(s.launch.pid, 0, 1)];
      }
    } else if s.launch.RedirectionRefused? {
      VerdictAppend(pre, notes[0]);
    } else {
      OpeningVerdict(pre, s, [Note(EXECUTION_FAILED, 0, 0, 0, 0, 0, Outcome.LaunchFailed, 0)]);
    }
  }

  lemma OpeningVerdict(pre: seq<Note>, s: StagePlan, more: seq<Note>)
    requires LastVerdict(pre) == None && |more| == 1 && !IsVerdict(more[0])
    ensures LastVerdict(pre + (OpenedNotes(s, 0, 1) + more)) == None
  {
    var files := OpenedNotes(s, 0, 1);
    assert pre + (files + more) == (pre + files) + [more[0]];
    VerdictAppend(pre + files, more[0]);
    if s.redirected {
      VerdictAppend(pre, files[0]);
    } else {
      assert pre + files == pre;
    }
  }

  /**
   * A single command, whatever the kernel answers: the run returns the status of the last
   * exit or exec error that it reports, and 1 when it reports none; that is the program's own
   * code, 128 plus the signal that ended it, 126 or 127 when it could not be executed; and it
   * is 0 exactly when the program ran and exited with 0.
   */
  lemma SingleStatusIsReported(bytes: nat, s: StagePlan, pipesOpen: bool)
    ensures var run := Accepted(bytes, [s], pipesOpen);
      && RunStatus(run) == (match LastVerdict(RunNotes(run)) case Some(e) => e.status case None => 1)
      && Returns(s, RunStatus(run))
      && (RunStatus(run) == 0 <==> s.launch.Forked? && s.execErrno.None? && s.wait == ExitedWith(0))
  {
    var run, pre, summary := Accepted(bytes, [s], pipesOpen), Preamble(bytes, 1), Simple(SESSION_SUMMARY, 0);
    NoVerdict(pre);
    SingleVerdict(pre, s);
    VerdictAppend(pre + SingleNotes(s), summary);
    assert RunNotes(run) == pre + SingleNotes(s) + [summary];
    SingleReturns(s, pipesOpen);
  }

  lemma SingleReturns(s: StagePlan, pipesOpen: bool)
    ensures Returns(s, ExecResult([s], pipesOpen))
  {}

  predicate IsNotice(e: Note) {
    e.name == SIGNAL_RECEIVED
  }

  // A single command was ended by a signal exactly when the run says so.
  lemma SingleSignalIff(bytes: nat, s: StagePlan, pipesOpen: bool, sig: int)
    ensures var run := Accepted(bytes, [s], pipesOpen);
      (exists e {:trigger IsNotice(e)} :: e in RunNotes(run) && IsNotice(e) && e.status == sig)
        <==> s.launch.Forked? && s.execErrno.None? && s.wait.KilledBy? && s.wait.sig == sig
  {
    var notes := RunNotes(Accepted(bytes, [s], pipesOpen));
    if s.launch.Forked? && s.execErrno.None? && s.wait.KilledBy? && s.wait.sig == sig {
      var notice := SignalNote(s.launch.pid, sig, 0, 1);
      assert notice in EndNotes(s, 0, 1, s.duration);
      assert notice in notes && IsNotice(notice);
    }
  }

  // ------------------------------------------------------------------ every status

  predicate AnyUnlaunched(plan: Plan) {
    exists i :: 0 <= i < |plan| && !plan[i].launch.Forked?
  }

  lemma {:induction false} UnlaunchedIff(plan: Plan)
    ensures AllLaunched(plan) <==> !AnyUnlaunched(plan)
  {
    if plan != [] {
      UnlaunchedIff(plan[1..]);
      if AnyUnlaunched(plan) && plan[0].launch.Forked? {
        var i :| 0 <= i < |plan| && !plan[i].launch.Forked?;
        assert !plan[1..][i - 1].launch.Forked?;
      }
      if AnyUnlaunched(plan[1..]) {
        var i :| 0 <= i < |plan| - 1 && !plan[1..][i].launch.Forked?;
        assert !plan[i + 1].launch.Forked?;
      }
    }
  }

  /** The status of every other run: a refused line, pipes that do not open, and a pipeline. */
  lemma StatusOfOtherRuns(run: Run)
    requires ValidRun(run) && (run.Accepted? ==> |run.plan| >= 2)
    ensures run.Refused? ==> RunStatus(run) == 2
    ensures run.Accepted? && (!run.pipesOpen || AnyUnlaunched(run.plan)) ==> RunStatus(run) == 1
    ensures run.Accepted? && run.pipesOpen && !AnyUnlaunched(run.plan) ==>
      match run.plan[|run.plan| - 1].wait
      case ExitedWith(code) => RunStatus(run) == code
      case KilledBy(sig) => RunStatus(run) == 128 + sig
      case NoAnswer => RunStatus(run) == 0
  {
    if run.Accepted? {
      UnlaunchedIff(run.plan);
    }
  }

  // ------------------------------------------------------------- the ending of each stage

  // How stage i ends, as it must be told.
  predicate EndsAs(e: Note, s: StagePlan, launched: bool, i: nat, n: nat) {
    if !launched then
      e.name == PROCESS_EXITED && e.pid == 0 && e.status == 1 && e.outcome == Outcome.LaunchFailed && e.stage == i && e.stages == n
    else if s.wait.NoAnswer? then
      s.launch.Forked? && e.name == WAIT_FAILED && e.pid == s.launch.pid && e.outcome == Outcome.WaitFailed
    else
      && s.launch.Forked? && e.pid == s.launch.pid && e.stage == i && e.stages == n && e.duration == s.duration
      && if s.execErrno.Some? then
           e.name == EXEC_ERROR && e.outcome == ExecFailed && e.status == if s.execErrno.value == 13 then 126 else 127
         else
           e.name == PROCESS_EXITED
           && match s.wait
              case ExitedWith(code) => e.status == code && e.outcome == if code == 0 then Completed else Exited
              case KilledBy(sig) => e.status == 128 + sig && e.outcome == Signaled
  }

  lemma EndingAs(plan: Plan, i: nat)
    requires i < |plan|
    ensures EndsAs(Ending(plan, i), plan[i], i < Launched(plan), i, |plan|)
  {
    if i < Launched(plan) {
      LaunchedAreForked(plan, i);
    }
  }

  lemma ListedEnding(plan: Plan, i: nat)
    requires i < |plan|
    ensures |EndingList(plan, 0)| == |plan| && EndingList(plan, 0)[i] == Ending(plan, i)
  {
    EndingListAt(plan, 0, i);
  }

  lemma SameAt(a: seq<Note>, b: seq<Note>, i: nat, e: Note)
    requires a == b && i < |b| && b[i] == e
    ensures i < |a| && a[i] == e
  {}

  lemma EndingAt(plan: Plan, i: nat)
    requires |plan| >= 2 && i < |plan|
    ensures |Endings(PipelineNotes(plan))| == |plan| && Endings(PipelineNotes(plan))[i] == Ending(plan, i)
  {
    OneStartAndOneEnding(plan);
    ListedEnding(plan, i);
    SameAt(Endings(PipelineNotes(plan)), EndingList(plan, 0), i, Ending(plan, i));
  }

  lemma EndsTheSame(e: Note, f: Note, s: StagePlan, launched: bool, i: nat, n: nat)
    requires e == f && EndsAs(f, s, launched, i, n)
    ensures EndsAs(e, s, launched, i, n)
  {}

  /** In every pipeline the i-th ending told is that of stage i, with its process, status and outcome. */
  lemma EndingsTellEachStage(plan: Plan, i: nat)
    requires |plan| >= 2 && i < |plan|
    ensures var es := Endings(PipelineNotes(plan));
      |es| == |plan| && EndsAs(es[i], plan[i], i < Launched(plan), i, |plan|)
  {
    EndingAt(plan, i);
    EndingAs(plan, i);
    EndsTheSame(Endings(PipelineNotes(plan))[i], Ending(plan, i), plan[i], i < Launched(plan), i, |plan|);
  }

  // --------------------------------------------------------- how often a stage is told of

  function CountOf(notes: seq<Note>, name: NoteName, stage: int): nat {
    if notes == [] then 0
    else (if notes[0].name == name && notes[0].stage == stage then 1 else 0) + CountOf(notes[1..], name, stage)
  }

  lemma {:induction false} CountAppend(a: seq<Note>, b: seq<Note>, name: NoteName, stage: int)
    ensures CountOf(a + b, name, stage) == CountOf(a, name, stage) + CountOf(b, name, stage)
  {
    if a == [] {
      assert a + b == b;
    } else {
      CountAppend(a[1..], b, name, stage);
      assert (a + b)[0] == a[0] && (a + b)[1..] == a[1..] + b;
    }
  }

  function One(e: Note, name: NoteName, stage: int): nat {
    if e.name == name && e.stage == stage then 1 else 0
  }

  lemma CountOne(e: Note, name: NoteName, stage: int)
    ensures CountOf([e], name, stage) == One(e, name, stage)
  {
    assert [e][1..] == [];
  }

  function If(b: bool): nat {
    if b then 1 else 0
  }

  // How often a launched, or refused, stage k is told of before anything ends.
  function ToldAtLaunch(s: StagePlan, name: NoteName, k: nat): nat {
    match name
    case REDIRECTION_OPENED => If(s.redirected && !s.launch.RedirectionRefused?)
    case REDIRECTION_FAILED => If(s.launch.RedirectionRefused?)
    case PIPELINE_STARTED => If(k == 0 && s.launch.Forked?)
    case PROCESS_STARTED => If(s.launch.Forked?)
    case _ => 0
  }

  lemma OpenedCounts(s: StagePlan, i: nat, n: nat, name: NoteName, k: nat)
    ensures CountOf(OpenedNotes(s, i, n), name, k) == If(s.redirected && name == REDIRECTION_OPENED && i == k)
  {
    if s.redirected {
      CountOne(OpenedNotes(s, i, n)[0], name, k);
    }
  }

  lemma LaunchStageCounts(s: StagePlan, i: nat, n: nat, name: NoteName, k: nat)
    ensures CountOf(LaunchNotes(s, i, n), name, k) == if i == k then ToldAtLaunch(s, name, k) else 0
  {
    OpenedCounts(s, i, n, name, k);
    match s.launch {
      case RedirectionRefused => CountOne(LaunchNotes(s, i, n)[0], name, k);
      case Forked(pid) =>
        var files, start, envelope := OpenedNotes(s, i, n), StartNote(pid, i, n), Note(PIPELINE_STARTED, pid, 0, 0, n, 0, Completed, 0);
        CountOne(start, name, k);
        CountOne(envelope, name, k);
        CountAppend(files + (if i == 0 then [envelope] else []), [start], name, k);
        CountAppend(files, if i == 0 then [envelope] else [], name, k);
      case _ =>
    }
  }

  function LaunchedCount(plan: Plan, i: nat, name: NoteName, k: nat): nat {
    if i <= k <= Launched(plan) && k < |plan| then ToldAtLaunch(plan[k], name, k) else 0
  }

  lemma LaunchCountsStep(plan: Plan, i: nat, name: NoteName, k: nat, rest: nat)
    requires i < |plan| && i <= Launched(plan)
    requires rest == if i < Launched(plan) then LaunchedCount(plan, i + 1, name, k) else 0
    ensures (if i == k then ToldAtLaunch(plan[i], name, k) else 0) + rest == LaunchedCount(plan, i, name, k)
  {}

  lemma LaunchCountsStopped(plan: Plan, i: nat, name: NoteName, k: nat)
    requires i == Launched(plan) < |plan|
    ensures CountOf(LaunchFrom(plan, i), name, k) == LaunchedCount(plan, i, name, k)
  {
    var now, rest := LaunchParts(plan, i);
    LaunchStops(plan);
    LaunchStageCounts(plan[i], i, |plan|, name, k);
    CountAppend(now, rest, name, k);
    LaunchCountsStep(plan, i, name, k, 0);
  }

  lemma LaunchCountsOn(plan: Plan, i: nat, name: NoteName, k: nat)
    requires i < Launched(plan) && CountOf(LaunchFrom(plan, i + 1), name, k) == LaunchedCount(plan, i + 1, name, k)
    ensures CountOf(LaunchFrom(plan, i), name, k) == LaunchedCount(plan, i, name, k)
  {
    var now, rest := LaunchParts(plan, i);
    LaunchedAreForked(plan, i);
    LaunchStageCounts(plan[i], i, |plan|, name, k);
    CountAppend(now, rest, name, k);
    LaunchCountsStep(plan, i, name, k, CountOf(rest, name, k));
  }

  lemma {:induction false} LaunchCounts(plan: Plan, i: nat, name: NoteName, k: nat)
    requires i <= Launched(plan)
    ensures CountOf(LaunchFrom(plan, i), name, k) == LaunchedCount(plan, i, name, k)
    decreases |plan| - i
  {
    if i < Launched(plan) {
      LaunchCounts(plan, i + 1, name, k);
      LaunchCountsOn(plan, i, name, k);
    } else if i < |plan| {
      LaunchCountsStopped(plan, i, name, k);
    }
  }

  // How often stage k is told of once the launching is over.
  function ToldAtReap(s: StagePlan, launched: bool, name: NoteName): nat {
    match name
    case SIGNAL_RECEIVED => If(launched && s.wait.KilledBy? && s.execErrno.None?)
    case EXEC_ERROR => If(launched && !s.wait.NoAnswer? && s.execErrno.Some?)
    case PROCESS_EXITED => If(!launched || (!s.wait.NoAnswer? && s.execErrno.None?))
    case _ => 0
  }

  lemma CountTwo(a: Note, b: Note, name: NoteName, stage: int)
    ensures CountOf([a, b], name, stage) == One(a, name, stage) + One(b, name, stage)
  {
    assert [a, b] == [a] + [b];
    CountAppend([a], [b], name, stage);
    CountOne(a, name, stage);
    CountOne(b, name, stage);
  }

  lemma EndingCounts(e: Note, i: nat, name: NoteName, k: nat, told: NoteName)
    requires e.name == told && e.stage == i
    ensures One(e, name, k) == if i == k then If(name == told) else 0
  {}

  lemma EndCounts(s: StagePlan, i: nat, n: nat, name: NoteName, k: nat)
    requires s.launch.Forked? && name != WAIT_FAILED
    ensures CountOf(EndNotes(s, i, n, 0), name, k) == if i == k then ToldAtReap(s, true, name) else 0
  {
    var es := EndNotes(s, i, n, 0);
    if s.wait.NoAnswer? {
      CountOne(es[0], name, k);
    } else if s.execErrno.Some? {
      CountOne(es[0], name, k);
      EndingCounts(es[0], i, name, k, EXEC_ERROR);
    } else if s.wait.ExitedWith? {
      CountOne(es[0], name, k);
      EndingCounts(es[0], i, name, k, PROCESS_EXITED);
    } else {
      CountTwo(es[0], es[1], name, k);
      EndingCounts(es[0], i, name, k, SIGNAL_RECEIVED);
      EndingCounts(es[1], i, name, k, PROCESS_EXITED);
    }
  }

  lemma ReapStageCounts(plan: Plan, i: nat, name: NoteName, k: nat)
    requires i < |plan| && name != WAIT_FAILED
    ensures CountOf(ReapNotes(plan, i), name, k) == if i == k then ToldAtReap(plan[i], i < Launched(plan), name) else 0
  {
    if i < Launched(plan) {
      LaunchedAreForked(plan, i);
      EndCounts(plan[i], i, |plan|, name, k);
    } else {
      CountOne(NeverLaunched(i, |plan|), name, k);
    }
  }

  function ReapedCount(plan: Plan, i: nat, name: NoteName, k: nat): nat {
    if i <= k < |plan| then ToldAtReap(plan[k], k < Launched(plan), name) else 0
  }

  lemma ReapCountsStep(plan: Plan, i: nat, name: NoteName, k: nat)
    requires i < |plan|
    ensures (if i == k then ToldAtReap(plan[i], i < Launched(plan), name) else 0) + ReapedCount(plan, i + 1, name, k)
      == ReapedCount(plan, i, name, k)
  {}

  lemma {:induction false} ReapCounts(plan: Plan, i: nat, name: NoteName, k: nat)
    requires i <= |plan| && name != WAIT_FAILED
    ensures CountOf(ReapFrom(plan, i), name, k) == ReapedCount(plan, i, name, k)
    decreases |plan| - i
  {
    if i < |plan| {
      ReapStageCounts(plan, i, name, k);
      CountAppend(ReapNotes(plan, i), ReapFrom(plan, i + 1), name, k);
      ReapCounts(plan, i + 1, name, k);
      ReapCountsStep(plan, i, name, k);
    }
  }

  /**
   * How often a pipeline tells of a stage, name by name: its redirections once if it came to
   * be launched, its start once if it was, a signal or an exec error once if that is how it
   * ended, and an exit once unless something else was told of its end.
   */
  lemma EachStageIsTold(plan: Plan, name: NoteName, k: nat)
    requires |plan| >= 2 && k < |plan| && name != WAIT_FAILED
    ensures CountOf(PipelineNotes(plan), name, k) ==
      (if k <= Launched(plan) then ToldAtLaunch(plan[k], name, k) else 0) + ToldAtReap(plan[k], k < Launched(plan), name)
  {
    LaunchCounts(plan, 0, name, k);
    ReapCounts(plan, 0, name, k);
    CountOne(CompletedNote(plan), name, k);
    CountAppend(LaunchFrom(plan, 0) + ReapFrom(plan, 0), [CompletedNote(plan)], name, k);
    CountAppend(LaunchFrom(plan, 0), ReapFrom(plan, 0), name, k);
  }

  // ------------------------------------------------------------- what the others carry

  // The process and the place that a note of the launch, or a signal notice, gives.
  predicate Placed(plan: Plan, e: Note) {
    match e.name
    case PIPELINE_STARTED =>
      plan != [] && plan[0].launch.Forked? && e.pid == plan[0].launch.pid && e.stages == |plan| && e.outcome == Completed
    case REDIRECTION_OPENED | REDIRECTION_FAILED => e.pid == 0 && 0 <= e.stage < |plan| == e.stages
    case PROCESS_STARTED =>
      0 <= e.stage < |plan| == e.stages && plan[e.stage].launch.Forked? && e.pid == plan[e.stage].launch.pid
    case SIGNAL_RECEIVED =>
      && 0 <= e.stage < |plan| == e.stages && plan[e.stage].launch.Forked? && e.pid == plan[e.stage].launch.pid
      && plan[e.stage].wait.KilledBy? && plan[e.stage].wait.sig == e.status && e.outcome == Signaled
    case _ => true
  }

  predicate AllPlaced(plan: Plan, notes: seq<Note>) {
    forall i {:trigger Placed(plan, notes[i])} :: 0 <= i < |notes| ==> Placed(plan, notes[i])
  }

  lemma PlacedAppend(plan: Plan, a: seq<Note>, b: seq<Note>)
    requires AllPlaced(plan, a) && AllPlaced(plan, b)
    ensures AllPlaced(plan, a + b)
  {
    forall i {:trigger Placed(plan, (a + b)[i])} | 0 <= i < |a + b| ensures Placed(plan, (a + b)[i]) {
      assert if i < |a| then Placed(plan, a[i]) else Placed(plan, b[i - |a|]);
    }
  }

  lemma LaunchStagePlaced(plan: Plan, i: nat)
    requires i < |plan|
    ensures AllPlaced(plan, LaunchNotes(plan[i], i, |plan|))
  {}

  lemma {:induction false} LaunchPlaced(plan: Plan, i: nat)
    requires i <= |plan|
    ensures AllPlaced(plan, LaunchFrom(plan, i))
    decreases |plan| - i
  {
    if i < |plan| {
      var now, rest := LaunchParts(plan, i);
      LaunchStagePlaced(plan, i);
      if plan[i].launch.Forked? {
        LaunchPlaced(plan, i + 1);
      }
      PlacedAppend(plan, now, rest);
    }
  }

  lemma ReapStagePlaced(plan: Plan, i: nat)
    requires i < |plan| && |plan| >= 2
    ensures AllPlaced(plan, ReapNotes(plan, i))
  {}

  lemma {:induction false} ReapPlaced(plan: Plan, i: nat)
    requires i <= |plan| && |plan| >= 2
    ensures AllPlaced(plan, ReapFrom(plan, i))
    decreases |plan| - i
  {
    if i < |plan| {
      ReapStagePlaced(plan, i);
      ReapPlaced(plan, i + 1);
      PlacedAppend(plan, ReapNotes(plan, i), ReapFrom(plan, i + 1));
    }
  }

  /** Every start, signal notice, redirection and envelope of a pipeline gives its own process and place. */
  lemma EachNoteIsPlaced(plan: Plan, i: nat)
    requires |plan| >= 2 && i < |PipelineNotes(plan)|
    ensures Placed(plan, PipelineNotes(plan)[i])
  {
    LaunchPlaced(plan, 0);
    ReapPlaced(plan, 0);
    PlacedAppend(plan, LaunchFrom(plan, 0), ReapFrom(plan, 0));
    assert AllPlaced(plan, [CompletedNote(plan)]);
    PlacedAppend(plan, LaunchFrom(plan, 0) + ReapFrom(plan, 0), [CompletedNote(plan)]);
  }

  // ------------------------------------------------------------------- the envelope

  predicate NoneNamed(notes: seq<Note>, name: NoteName) {
    forall i {:trigger notes[i]} :: 0 <= i < |notes| ==> notes[i].name != name
  }

  lemma NoneNamedAppend(a: seq<Note>, b: seq<Note>, name: NoteName)
    requires NoneNamed(a, name) && NoneNamed(b, name)
    ensures NoneNamed(a + b, name)
  {}

  lemma LaunchStageUnclosed(s: StagePlan, i: nat, n: nat)
    ensures NoneNamed(LaunchNotes(s, i, n), PIPELINE_COMPLETED)
  {}

  lemma {:induction false} LaunchUnclosed(plan: Plan, i: nat)
    requires i <= |plan|
    ensures NoneNamed(LaunchFrom(plan, i), PIPELINE_COMPLETED)
    decreases |plan| - i
  {
    if i < |plan| {
      var now, rest := LaunchParts(plan, i);
      LaunchStageUnclosed(plan[i], i, |plan|);
      if plan[i].launch.Forked? {
        LaunchUnclosed(plan, i + 1);
      }
      NoneNamedAppend(now, rest, PIPELINE_COMPLETED);
    }
  }

  lemma {:induction false} ReapUnclosed(plan: Plan, i: nat)
    requires i <= |plan|
    ensures NoneNamed(ReapFrom(plan, i), PIPELINE_COMPLETED)
    decreases |plan| - i
  {
    if i < |plan| {
      ReapUnclosed(plan, i + 1);
      NoneNamedAppend(ReapNotes(plan, i), ReapFrom(plan, i + 1), PIPELINE_COMPLETED);
    }
  }

  // The last word of a pipeline: its leader, its last stage's own exit code, and its outcome.
  predicate Closes(e: Note, plan: Plan)
    requires plan != []
  {
    var last := plan[|plan| - 1];
    && e.name == PIPELINE_COMPLETED && e.stage == -1 && e.stages == |plan|
    && e.pid == (if plan[0].launch.Forked? then plan[0].launch.pid else -1)
    && if AnyUnlaunched(plan) then e.outcome == Outcome.LaunchFailed && e.status == 1
       else e.outcome == Completed
            && e.status == match last.wait case ExitedWith(code) => code case KilledBy(_) => 1 case NoAnswer => 0
  }

  /** A pipeline is closed by its last note and by no other. */
  lemma ClosedOnceAtTheEnd(plan: Plan)
    requires |plan| >= 2
    ensures var notes := PipelineNotes(plan);
      notes != [] && Closes(notes[|notes| - 1], plan) && NoneNamed(notes[..|notes| - 1], PIPELINE_COMPLETED)
  {
    var launch, reap := LaunchFrom(plan, 0), ReapFrom(plan, 0);
    LaunchUnclosed(plan, 0);
    ReapUnclosed(plan, 0);
    NoneNamedAppend(launch, reap, PIPELINE_COMPLETED);
    UnlaunchedIff(plan);
    assert PipelineNotes(plan)[..|launch + reap|] == launch + reap;
  }

  // -------------------------------------------------------------------- the counters

  predicate Exits(e: Note, clean: bool) {
    e.name == PROCESS_EXITED && (e.status == 0 <==> clean)
  }

  function ExitsIn(notes: seq<Note>, clean: bool): nat {
    if notes == [] then 0 else If(Exits(notes[0], clean)) + ExitsIn(notes[1..], clean)
  }

  function NamedIn(notes: seq<Note>, name: NoteName): nat {
    if notes == [] then 0 else If(notes[0].name == name) + NamedIn(notes[1..], name)
  }

  predicate IsTimed(e: Note) {
    e.name == PROCESS_EXITED && e.duration >= 0
  }

  function TimedIn(notes: seq<Note>): nat {
    if notes == [] then 0 else If(IsTimed(notes[0])) + TimedIn(notes[1..])
  }

  function TimeIn(notes: seq<Note>): nat {
    if notes == [] then 0 else (if IsTimed(notes[0]) then notes[0].duration else 0) + TimeIn(notes[1..])
  }

  // The counters after some notes, from those before.
  predicate Counts(t: Counters, c: Counters, notes: seq<Note>) {
    && t.commands == c.commands + NamedIn(notes, PROCESS_STARTED)
    && t.succeeded == c.succeeded + ExitsIn(notes, true)
    && t.signals == c.signals + NamedIn(notes, SIGNAL_RECEIVED)
    && t.execErrors == c.execErrors + NamedIn(notes, EXEC_ERROR)
    && t.launchErrors == c.launchErrors + NamedIn(notes, WAIT_FAILED) + NamedIn(notes, EXECUTION_FAILED)
    && t.failed == c.failed + ExitsIn(notes, false) + NamedIn(notes, EXEC_ERROR)
                   + NamedIn(notes, WAIT_FAILED) + NamedIn(notes, EXECUTION_FAILED)
    && t.timed == c.timed + TimedIn(notes) && t.totalDuration == c.totalDuration + TimeIn(notes)
  }

  lemma CountsOne(c: Counters, e: Note, rest: seq<Note>, t: Counters)
    requires Counts(t, Counted(c, e), rest)
    ensures Counts(t, c, [e] + rest)
  {
    assert ([e] + rest)[1..] == rest;
  }

  /** After any notes each counter of the monitor is the number of the notes it stands for. */
  lemma {:induction false} CountersTell(c: Counters, notes: seq<Note>)
    ensures Counts(Tally(c, notes), c, notes)
    decreases |notes|
  {
    if notes != [] {
      CountersTell(Counted(c, notes[0]), notes[1..]);
      CountsOne(c, notes[0], notes[1..], Tally(c, notes));
      assert notes == [notes[0]] + notes[1..];
    }
  }

  // ----------------------------------------------------------------- the whole stream

  /** Every run opens with its command, or the refusal of it, and closes with one summary. */
  lemma RunIsFramed(run: Run)
    requires ValidRun(run)
    ensures var notes := RunNotes(run);
      && |notes| >= 2 && notes[|notes| - 1].name == SESSION_SUMMARY && notes[0].bytes == run.bytes
      && (run.Refused? ==> |notes| == 2 && notes[0].name == COMMAND_PARSE_ERROR)
      && (run.Accepted? ==> notes[0].name == COMMAND_RECEIVED && notes[1].name == PARSED)
      && (run.Accepted? && |run.plan| >= 2 ==>
            |notes| >= 4 && notes[2].name == PIPELINE_PARSED && notes[2].stages == |run.plan| && notes[2].stage == -1)
      && (run.Accepted? && |run.plan| >= 2 && !run.pipesOpen ==> |notes| == 4)
      && (run.Accepted? && |run.plan| >= 2 && run.pipesOpen ==> notes[3..|notes| - 1] == PipelineNotes(run.plan))
  {}
}
