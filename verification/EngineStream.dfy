/** The engine's lines as the gateway reads them, and what every such stream guarantees. */
module EngineStream {
  import opened Basics
  import opened Events
  import opened Engine
  import opened EngineSchedule

  // ---------------------------------------------------------------- normalising

  function TypeOf(name: NoteName): EventType {
    match name
    case COMMAND_RECEIVED => CommandReceived
    case PARSED => CommandParsed
    case COMMAND_PARSE_ERROR => CommandParseError
    case PIPELINE_PARSED => PipelineParsed
    case REDIRECTION_OPENED => RedirectionOpened
    case REDIRECTION_FAILED => RedirectionFailed
    case PROCESS_STARTED => ProcessStarted
    case PROCESS_EXITED => ProcessExited
    case SIGNAL_RECEIVED => SignalReceived
    case EXEC_ERROR => ProcessExecError
    case WAIT_FAILED => ProcessWaitFailed
    case EXECUTION_FAILED => ProcessLaunchFailed
    case PIPELINE_STARTED => EventType.PipelineStarted
    case PIPELINE_COMPLETED => PipelineCompleted
    case SESSION_SUMMARY => SessionSummary
  }

  predicate StageScoped(name: NoteName) {
    match name
    case PROCESS_STARTED | PROCESS_EXITED | SIGNAL_RECEIVED | EXEC_ERROR | WAIT_FAILED
      | PIPELINE_PARSED | PIPELINE_STARTED | PIPELINE_COMPLETED => true
    case _ => false
  }

  // A stage-scoped event without the fields gets stage -1 of 0.
  function PayloadOf(raw: Raw): Payload {
    if StageScoped(raw.name)
    then Payload(Some(raw.stage.GetOr(-1)), Some(raw.stages.GetOr(0)), raw.exitCode, raw.signal, raw.outcome, false)
    else Payload(None, None, raw.exitCode, raw.signal, raw.outcome, false)
  }

  function Normalize(raw: Raw, id: Token, sessionId: Token, sequence: int): Event {
    Event(id, sessionId, sequence, TypeOf(raw.name), raw.pid, PayloadOf(raw))
  }

  // ------------------------------------------------- what a stream of lines keeps

  predicate StartLine(l: Line) {
    l.Object? && l.raw.name == PROCESS_STARTED
  }

  predicate EndLine(l: Line) {
    l.Object? && (l.raw.name == PROCESS_EXITED || l.raw.name == EXEC_ERROR || l.raw.name == WAIT_FAILED)
  }

  // Endings that cannot be paired with a start: two kinds print no stage, and a stage that
  // was never launched has no process.
  predicate Unpaired(l: Line) {
    && l.Object?
    && (l.raw.name == EXEC_ERROR || l.raw.name == WAIT_FAILED || (l.raw.name == PROCESS_EXITED && l.raw.pid == Some(0)))
  }

  predicate Shaped(l: Line) {
    l.Object? ==>
      var r := l.raw;
      && (r.stage.Some? ==> r.stages.Some? && r.stage.value >= -1) && (r.stages.Some? ==> StageScoped(r.name))
      && (r.name == PROCESS_STARTED ==> r.pid.Some? && r.pid.value > 0 && r.stage.Some? && r.stage.value >= 0)
      && (r.name == PROCESS_EXITED ==> r.pid.Some? && r.stage.Some? && (r.outcome == Some(Completed) ==> r.exitCode == Some(0)))
      && (r.name == EXEC_ERROR || r.name == WAIT_FAILED ==> r.pid.Some? && r.stage.None? && r.stages.None?)
      && (r.name == PIPELINE_COMPLETED ==> r.stages.Some?)
      && (r.name == SIGNAL_RECEIVED || r.name == EXEC_ERROR || r.name == WAIT_FAILED || r.name == EXECUTION_FAILED ==>
            r.outcome != Some(Completed))
  }

  predicate SameProcess(a: Line, b: Line)
    requires a.Object? && b.Object?
  {
    a.raw.pid == b.raw.pid && a.raw.stage == b.raw.stage
  }

  ghost predicate PairedAt(lines: seq<Line>, j: nat)
    requires j < |lines|
  {
    EndLine(lines[j]) && !Unpaired(lines[j]) ==>
      exists k {:trigger StartLine(lines[k])} :: 0 <= k < j && StartLine(lines[k]) && SameProcess(lines[k], lines[j])
  }

  ghost predicate NoUnpaired(lines: seq<Line>, j: nat)
    requires j <= |lines|
  {
    forall k {:trigger Unpaired(lines[k])} :: 0 <= k < j ==> !Unpaired(lines[k])
  }

  ghost predicate StageEndsBefore(lines: seq<Line>, j: nat, stage: int)
    requires j <= |lines|
  {
    exists k {:trigger EndLine(lines[k])} :: 0 <= k < j && EndLine(lines[k]) && lines[k].raw.stage == Some(stage)
  }

  ghost predicate AccountedAt(lines: seq<Line>, j: nat)
    requires j < |lines|
  {
    lines[j].Object? && lines[j].raw.name == PIPELINE_COMPLETED && NoUnpaired(lines, j) ==>
      forall stage {:trigger StageEndsBefore(lines, j, stage)} ::
        0 <= stage < lines[j].raw.stages.GetOr(0) ==> StageEndsBefore(lines, j, stage)
  }

  predicate Declares(l: Line, stage: int) {
    l.Object? && l.raw.stages.Some? && stage < l.raw.stages.value
  }

  // A line's stage lies in a pipeline that it declares itself, or a line before it.
  ghost predicate RangedAt(lines: seq<Line>, j: nat)
    requires j < |lines|
  {
    lines[j].Object? && lines[j].raw.stage.Some? ==>
      exists k {:trigger Declares(lines[k], lines[j].raw.stage.value)} ::
        0 <= k <= j && Declares(lines[k], lines[j].raw.stage.value)
  }

  ghost predicate SoundAt(lines: seq<Line>, j: nat)
    requires j < |lines|
  {
    Shaped(lines[j]) && RangedAt(lines, j) && PairedAt(lines, j) && AccountedAt(lines, j)
  }

  // Whatever holds of a sound stream holds of each of its beginnings.
  ghost predicate Sound(lines: seq<Line>) {
    forall j {:trigger SoundAt(lines, j)} :: 0 <= j < |lines| ==> SoundAt(lines, j)
  }

  lemma SoundPrefix(lines: seq<Line>, n: nat)
    requires Sound(lines) && n <= |lines|
    ensures Sound(lines[..n])
  {
    var head := lines[..n];
    forall j {:trigger SoundAt(head, j)} | 0 <= j < |head| ensures SoundAt(head, j) {
      assert SoundAt(lines, j);
      RangedInPrefix(lines, n, j);
      PairedInPrefix(lines, n, j);
      AccountedInPrefix(lines, n, j);
    }
  }

  lemma RangedInPrefix(lines: seq<Line>, n: nat, j: nat)
    requires j < n <= |lines| && RangedAt(lines, j)
    ensures RangedAt(lines[..n], j)
  {
    if lines[j].Object? && lines[j].raw.stage.Some? {
      var stage := lines[j].raw.stage.value;
      var k :| 0 <= k <= j && Declares(lines[k], stage);
      assert Declares(lines[..n][k], stage);
    }
  }

  lemma PairedInPrefix(lines: seq<Line>, n: nat, j: nat)
    requires j < n <= |lines| && PairedAt(lines, j)
    ensures PairedAt(lines[..n], j)
  {
    var head := lines[..n];
    if EndLine(lines[j]) && !Unpaired(lines[j]) {
      var k :| 0 <= k < j && StartLine(lines[k]) && SameProcess(lines[k], lines[j]);
      assert StartLine(head[k]);
    }
  }

  lemma AccountedInPrefix(lines: seq<Line>, n: nat, j: nat)
    requires j < n <= |lines| && AccountedAt(lines, j)
    ensures AccountedAt(lines[..n], j)
  {
    var head := lines[..n];
    if head[j].Object? && head[j].raw.name == PIPELINE_COMPLETED && NoUnpaired(head, j) {
      forall k {:trigger Unpaired(lines[k])} | 0 <= k < j ensures !Unpaired(lines[k]) {
        assert !Unpaired(head[k]);
      }
      forall stage {:trigger StageEndsBefore(head, j, stage)} | 0 <= stage < head[j].raw.stages.GetOr(0)
        ensures StageEndsBefore(head, j, stage)
      {
        assert StageEndsBefore(lines, j, stage);
        var k :| 0 <= k < j && EndLine(lines[k]) && lines[k].raw.stage == Some(stage);
        assert EndLine(head[k]);
      }
    }
  }

  // ---------------------------------------------------------- every run is sound

  // The line declares the pipeline its stage lies in.
  predicate OwnRange(l: Line) {
    l.Object? && l.raw.stage.Some? ==> Declares(l, l.raw.stage.value)
  }

  predicate NoteInRange(e: Note) {
    OwnRange(Printed(e))
  }

  ghost predicate NotesInRange(notes: seq<Note>) {
    forall e {:trigger NoteInRange(e)} :: e in notes ==> NoteInRange(e)
  }

  ghost predicate Ranged(lines: seq<Line>) {
    forall j {:trigger RangedAt(lines, j)} :: 0 <= j < |lines| ==> RangedAt(lines, j)
  }

  lemma RangeAppend(a: seq<Note>, b: seq<Note>)
    ensures NotesInRange(a + b) <==> NotesInRange(a) && NotesInRange(b)
  {
    assert forall e :: e in a + b <==> e in a || e in b;
  }

  lemma LaunchStageInRange(s: StagePlan, i: nat, n: nat)
    requires i < n
    ensures NotesInRange(LaunchNotes(s, i, n))
  {}

  lemma {:induction false} LaunchInRange(plan: Plan, i: nat)
    requires i <= |plan|
    ensures NotesInRange(LaunchFrom(plan, i))
    decreases |plan| - i
  {
    if i < |plan| {
      LaunchStageInRange(plan[i], i, |plan|);
      RangeAppend(LaunchNotes(plan[i], i, |plan|), if plan[i].launch.Forked? then LaunchFrom(plan, i + 1) else []);
      if plan[i].launch.Forked? {
        LaunchInRange(plan, i + 1);
      }
    }
  }

  // Only the notice of a signalled single command is out of the range it declares.
  lemma EndsInRangeIff(s: StagePlan, i: nat, n: nat, duration: int)
    requires s.launch.Forked? && i < n
    ensures NotesInRange(EndNotes(s, i, n, duration)) <==> !(n == 1 && s.execErrno.None? && s.wait.KilledBy?)
  {
    if s.execErrno.None? && s.wait.KilledBy? {
      var notice := EndNotes(s, i, n, duration)[0];
      assert notice in EndNotes(s, i, n, duration) && (NoteInRange(notice) <==> n > 1);
    }
  }

  lemma {:induction false} ReapInRange(plan: Plan, i: nat)
    requires i <= |plan| && |plan| >= 2
    ensures NotesInRange(ReapFrom(plan, i))
    decreases |plan| - i
  {
    if i < |plan| {
      ReapInRange(plan, i + 1);
      RangeAppend(ReapNotes(plan, i), ReapFrom(plan, i + 1));
      if i < Launched(plan) && plan[i].launch.Forked? {
        EndsInRangeIff(plan[i], i, |plan|, 0);
      }
    }
  }

  lemma PipelineInRange(plan: Plan)
    requires |plan| >= 2
    ensures NotesInRange(PipelineNotes(plan))
  {
    LaunchInRange(plan, 0);
    ReapInRange(plan, 0);
    RangeAppend(LaunchFrom(plan, 0), ReapFrom(plan, 0));
    RangeAppend(LaunchFrom(plan, 0) + ReapFrom(plan, 0), [CompletedNote(plan)]);
  }

  // A single command that a signal ended.
  predicate SignalledSingle(s: StagePlan) {
    s.launch.Forked? && s.execErrno.None? && s.wait.KilledBy?
  }

  lemma SingleInRangeIff(s: StagePlan)
    ensures NotesInRange(SingleNotes(s)) <==> !SignalledSingle(s)
  {
    if s.launch.Forked? {
      var ends := EndNotes(s, 0, 1, s.duration);
      EndsInRangeIff(s, 0, 1, s.duration);
      RangeAppend(OpenedNotes(s, 0, 1) + [StartNote(s.launch.pid, 0, 1)], ends);
      assert NotesInRange(OpenedNotes(s, 0, 1) + [StartNote(s.launch.pid, 0, 1)]);
    }
  }

  predicate BreaksOwnRange(run: Run)
    requires ValidRun(run)
  {
    run.Accepted? && |run.plan| == 1 && SignalledSingle(run.plan[0])
  }

  lemma RunInRangeIff(run: Run)
    requires ValidRun(run)
    ensures NotesInRange(RunNotes(run)) <==> !BreaksOwnRange(run)
  {
    match run {
      case Refused(_) =>
      case Accepted(bytes, plan, pipesOpen) =>
        var pre, notes, post := Preamble(bytes, |plan|), ExecNotes(plan, pipesOpen), [Simple(SESSION_SUMMARY, 0)];
        assert NotesInRange(pre) && NotesInRange(post);
        RangeAppend(pre, notes);
        RangeAppend(pre + notes, post);
        if |plan| == 1 {
          SingleInRangeIff(plan[0]);
        } else if pipesOpen {
          PipelineInRange(plan);
        }
    }
  }

  /** Every line declares the pipeline its stage lies in, except in the run of a signalled single command. */
  lemma StageBelowStagesIff(run: Run)
    requires ValidRun(run)
    ensures (forall l {:trigger OwnRange(l)} :: l in PrintedAll(RunNotes(run)) ==> OwnRange(l)) <==> !BreaksOwnRange(run)
  {
    var notes, lines := RunNotes(run), PrintedAll(RunNotes(run));
    RunInRangeIff(run);
    forall e {:trigger NoteInRange(e)} | e in notes ensures Printed(e) in lines {
      var k :| 0 <= k < |notes| && notes[k] == e;
      assert lines[k] == Printed(e);
    }
    forall l {:trigger OwnRange(l)} | l in lines ensures exists e :: e in notes && l == Printed(e) {
      var k :| 0 <= k < |lines| && lines[k] == l;
      assert notes[k] in notes;
    }
    if !BreaksOwnRange(run) {
      forall l {:trigger OwnRange(l)} | l in lines ensures OwnRange(l) {
        var e :| e in notes && l == Printed(e);
        assert NoteInRange(e);
      }
    } else {
      var e :| e in notes && !NoteInRange(e);
      assert !OwnRange(Printed(e));
    }
  }

  // One command killed by signal 9: its signal notice claims stage 0 of 0.
  lemma SignalledCommandIsOutOfRange()
    ensures var run := Accepted(3, [StagePlan(false, Forked(7), None, KilledBy(9), 1)], true);
      var notice := Object(Raw(SIGNAL_RECEIVED, Some(7), Some(0), Some(0), None, Some(9), Some(Signaled)));
      |RunNotes(run)| == 6 && PrintedAll(RunNotes(run))[3] == notice && !OwnRange(notice)
  {
    var s := StagePlan(false, Forked(7), None, KilledBy(9), 1);
    var run := Accepted(3, [s], true);
    assert SingleNotes(s) == [StartNote(7, 0, 1), SignalNote(7, 9, 0, 1), ExitNote(7, 137, Signaled, 1, 0, 1)];
    assert RunNotes(run)[3] == SignalNote(7, 9, 0, 1);
  }

  lemma InRangeIsRanged(notes: seq<Note>)
    requires NotesInRange(notes)
    ensures Ranged(PrintedAll(notes))
  {
    var lines := PrintedAll(notes);
    forall j {:trigger RangedAt(lines, j)} | 0 <= j < |lines| ensures RangedAt(lines, j) {
      assert NoteInRange(notes[j]);
    }
  }

  // A note that prints well and does not close a pipeline.
  predicate InnerNote(e: Note) {
    Shaped(Printed(e)) && e.name != PIPELINE_COMPLETED
  }

  predicate InnerNotes(notes: seq<Note>) {
    forall i {:trigger InnerNote(notes[i])} :: 0 <= i < |notes| ==> InnerNote(notes[i])
  }

  lemma InnerAppend(a: seq<Note>, b: seq<Note>)
    requires InnerNotes(a) && InnerNotes(b)
    ensures InnerNotes(a + b)
  {
    forall i {:trigger InnerNote((a + b)[i])} | 0 <= i < |a + b| ensures InnerNote((a + b)[i]) {
      if i < |a| {
        assert InnerNote(a[i]);
      } else {
        assert InnerNote(b[i - |a|]);
      }
    }
  }

  lemma LaunchStageInner(s: StagePlan, i: nat, n: nat)
    requires i < n
    ensures InnerNotes(LaunchNotes(s, i, n))
  {}

  lemma {:induction false} LaunchInner(plan: Plan, i: nat)
    requires i <= |plan|
    ensures InnerNotes(LaunchFrom(plan, i))
    decreases |plan| - i
  {
    if i < |plan| {
      LaunchStageInner(plan[i], i, |plan|);
      if plan[i].launch.Forked? {
        LaunchInner(plan, i + 1);
        InnerAppend(LaunchNotes(plan[i], i, |plan|), LaunchFrom(plan, i + 1));
      } else {
        InnerAppend(LaunchNotes(plan[i], i, |plan|), []);
      }
    }
  }

  lemma EndInner(s: StagePlan, i: nat, n: nat, duration: int)
    requires s.launch.Forked? && i < n
    ensures InnerNotes(EndNotes(s, i, n, duration))
  {}

  lemma {:induction false} ReapInner(plan: Plan, i: nat)
    requires i <= |plan|
    ensures InnerNotes(ReapFrom(plan, i))
    decreases |plan| - i
  {
    if i < |plan| {
      assert InnerNotes(ReapNotes(plan, i)) by {
        if i < Launched(plan) && plan[i].launch.Forked? {
          EndInner(plan[i], i, |plan|, 0);
        }
      }
      ReapInner(plan, i + 1);
      InnerAppend(ReapNotes(plan, i), ReapFrom(plan, i + 1));
    }
  }

  // An ending with a process has its start among `head`.
  ghost predicate Matched(e: Note, head: seq<Note>) {
    IsEnding(e) && !Unpaired(Printed(e)) ==> exists b :: b in head && IsStart(b) && b.pid == e.pid && b.stage == e.stage
  }

  ghost predicate AllMatched(notes: seq<Note>, head: seq<Note>) {
    forall i {:trigger Matched(notes[i], head)} :: 0 <= i < |notes| ==> Matched(notes[i], head)
  }

  lemma {:induction false} FilteredAreMembers(notes: seq<Note>, e: Note)
    requires e in Starts(notes) || e in Endings(notes)
    ensures e in notes
  {
    if notes != [] && notes[0] != e {
      FilteredAreMembers(notes[1..], e);
    }
  }

  lemma LaunchHasStart(plan: Plan, s: nat)
    requires s < Launched(plan)
    ensures plan[s].launch.Forked? && Start(plan, s) in LaunchFrom(plan, 0)
  {
    LaunchLists(plan, 0);
    StartListAt(plan, 0, s);
    FilteredAreMembers(LaunchFrom(plan, 0), Start(plan, s));
  }

  lemma ReapHasEnding(plan: Plan, s: nat)
    requires s < |plan|
    ensures Ending(plan, s) in ReapFrom(plan, 0)
  {
    ReapLists(plan, 0);
    EndingListAt(plan, 0, s);
    FilteredAreMembers(ReapFrom(plan, 0), Ending(plan, s));
  }

  lemma ReapNoteOf(plan: Plan, i: nat, k: nat)
    requires i < |plan| && k < |ReapNotes(plan, i)|
    requires IsEnding(ReapNotes(plan, i)[k]) && !Unpaired(Printed(ReapNotes(plan, i)[k]))
    ensures i < Launched(plan) && plan[i].launch.Forked?
    ensures ReapNotes(plan, i)[k].pid == plan[i].launch.pid && ReapNotes(plan, i)[k].stage == i
  {}

  lemma ReapStageMatched(plan: Plan, i: nat, head: seq<Note>)
    requires i < |plan| && head == LaunchFrom(plan, 0)
    ensures AllMatched(ReapNotes(plan, i), head)
  {
    var es := ReapNotes(plan, i);
    forall k {:trigger Matched(es[k], head)} | 0 <= k < |es| ensures Matched(es[k], head) {
      if IsEnding(es[k]) && !Unpaired(Printed(es[k])) {
        ReapNoteOf(plan, i, k);
        LaunchHasStart(plan, i);
        assert Start(plan, i) in head && IsStart(Start(plan, i));
      }
    }
  }

  lemma MatchedAppend(a: seq<Note>, b: seq<Note>, head: seq<Note>)
    requires AllMatched(a, head) && AllMatched(b, head)
    ensures AllMatched(a + b, head)
  {
    forall i {:trigger Matched((a + b)[i], head)} | 0 <= i < |a + b| ensures Matched((a + b)[i], head) {
      if i < |a| {
        assert Matched(a[i], head);
      } else {
        assert Matched(b[i - |a|], head);
      }
    }
  }

  lemma {:induction false} ReapMatched(plan: Plan, i: nat)
    requires i <= |plan|
    ensures AllMatched(ReapFrom(plan, i), LaunchFrom(plan, 0))
    decreases |plan| - i
  {
    if i < |plan| {
      ReapStageMatched(plan, i, LaunchFrom(plan, 0));
      ReapMatched(plan, i + 1);
      MatchedAppend(ReapNotes(plan, i), ReapFrom(plan, i + 1), LaunchFrom(plan, 0));
    }
  }

  lemma EndingIsStaged(plan: Plan, s: nat)
    requires s < |plan| && !Unpaired(Printed(Ending(plan, s)))
    ensures Ending(plan, s).name == PROCESS_EXITED && Ending(plan, s).stage == s
  {}

  // -------------------------------------------------- from notes to printed lines

  lemma PairedAfter(head: seq<Note>, tail: seq<Note>, lines: seq<Line>)
    requires NoEndings(head) && AllMatched(tail, head) && lines == PrintedAll(head + tail)
    ensures forall j {:trigger PairedAt(lines, j)} :: 0 <= j < |lines| ==> PairedAt(lines, j)
  {
    forall j {:trigger PairedAt(lines, j)} | 0 <= j < |lines| ensures PairedAt(lines, j) {
      var e := (head + tail)[j];
      if EndLine(lines[j]) && !Unpaired(lines[j]) {
        assert j < |head| ==> !IsEnding(head[j]);
        assert Matched(tail[j - |head|], head);
        var b :| b in head && IsStart(b) && b.pid == e.pid && b.stage == e.stage;
        var k :| 0 <= k < |head| && head[k] == b;
        assert lines[k] == Printed(b) && StartLine(lines[k]);
      }
    }
  }

  lemma MatchedMore(notes: seq<Note>, head: seq<Note>, more: seq<Note>)
    requires AllMatched(notes, head)
    ensures AllMatched(notes, more + head)
  {
    forall i {:trigger Matched(notes[i], more + head)} | 0 <= i < |notes| ensures Matched(notes[i], more + head) {
      assert Matched(notes[i], head);
    }
  }

  lemma NoEndingsAppend(a: seq<Note>, b: seq<Note>)
    requires NoEndings(a) && NoEndings(b)
    ensures NoEndings(a + b)
  {
    forall i {:trigger IsEnding((a + b)[i])} | 0 <= i < |a + b| ensures !IsEnding((a + b)[i]) {
      assert if i < |a| then !IsEnding(a[i]) else !IsEnding(b[i - |a|]);
    }
  }

  // A run that never closes a pipeline.
  lemma SoundWithoutCompletion(head: seq<Note>, tail: seq<Note>)
    requires NoEndings(head) && AllMatched(tail, head) && InnerNotes(head + tail) && Ranged(PrintedAll(head + tail))
    ensures Sound(PrintedAll(head + tail))
  {
    var notes, lines := head + tail, PrintedAll(head + tail);
    PairedAfter(head, tail, lines);
    forall j {:trigger SoundAt(lines, j)} | 0 <= j < |lines| ensures SoundAt(lines, j) {
      assert InnerNote(notes[j]) && PairedAt(lines, j) && RangedAt(lines, j);
    }
  }

  lemma StageEnds(plan: Plan, before: seq<Note>, j: nat, stage: nat)
    requires stage < |plan| && j == |before| + |ReapFrom(plan, 0)|
    requires NoUnpaired(PrintedAll(before + ReapFrom(plan, 0)), j)
    ensures StageEndsBefore(PrintedAll(before + ReapFrom(plan, 0)), j, stage)
  {
    var notes := before + ReapFrom(plan, 0);
    var lines, e := PrintedAll(notes), Ending(plan, stage);
    ReapHasEnding(plan, stage);
    var k :| 0 <= k < |ReapFrom(plan, 0)| && ReapFrom(plan, 0)[k] == e;
    assert lines[|before| + k] == Printed(e) && !Unpaired(lines[|before| + k]);
    EndingIsStaged(plan, stage);
    assert EndLine(lines[|before| + k]);
  }

  lemma UnpairedInPrefix(notes: seq<Note>, more: seq<Note>)
    requires NoUnpaired(PrintedAll(notes + more), |notes|)
    ensures NoUnpaired(PrintedAll(notes), |notes|)
  {
    forall k {:trigger Unpaired(PrintedAll(notes)[k])} | 0 <= k < |notes| ensures !Unpaired(PrintedAll(notes)[k]) {
      assert !Unpaired(PrintedAll(notes + more)[k]);
    }
  }

  lemma EndsBeforeMore(notes: seq<Note>, more: seq<Note>, stage: int)
    requires StageEndsBefore(PrintedAll(notes), |notes|, stage)
    ensures StageEndsBefore(PrintedAll(notes + more), |notes|, stage)
  {
    var lines := PrintedAll(notes);
    var k :| 0 <= k < |notes| && EndLine(lines[k]) && lines[k].raw.stage == Some(stage);
    assert EndLine(PrintedAll(notes + more)[k]);
  }

  lemma AccountedAtCompletion(plan: Plan, before: seq<Note>, after: seq<Note>)
    requires plan != []
    ensures var notes := before + ReapFrom(plan, 0);
      AccountedAt(PrintedAll(notes + ([CompletedNote(plan)] + after)), |notes|)
  {
    var notes, more := before + ReapFrom(plan, 0), [CompletedNote(plan)] + after;
    var lines := PrintedAll(notes + more);
    assert lines[|notes|] == Printed(CompletedNote(plan));
    if NoUnpaired(lines, |notes|) {
      UnpairedInPrefix(notes, more);
      forall stage {:trigger StageEndsBefore(lines, |notes|, stage)} | 0 <= stage < |plan|
        ensures StageEndsBefore(lines, |notes|, stage)
      {
        StageEnds(plan, before, |notes|, stage);
        EndsBeforeMore(notes, more, stage);
      }
    }
  }

  lemma InnerIsSound(lines: seq<Line>, notes: seq<Note>, j: nat)
    requires j < |notes| && lines == PrintedAll(notes) && InnerNote(notes[j]) && PairedAt(lines, j) && RangedAt(lines, j)
    ensures SoundAt(lines, j)
  {}

  lemma CompletionIsSound(lines: seq<Line>, plan: Plan, j: nat)
    requires |plan| >= 2 && j < |lines| && lines[j] == Printed(CompletedNote(plan)) && AccountedAt(lines, j) && RangedAt(lines, j)
    ensures SoundAt(lines, j)
  {}

  lemma {:induction false} SoundAround(plan: Plan, before: seq<Note>, after: seq<Note>, lines: seq<Line>)
    requires |plan| >= 2 && InnerNotes(before) && InnerNotes(after)
    requires lines == PrintedAll(before + [CompletedNote(plan)] + after)
    requires forall j {:trigger PairedAt(lines, j)} :: 0 <= j < |lines| ==> PairedAt(lines, j)
    requires AccountedAt(lines, |before|) && Ranged(lines)
    ensures Sound(lines)
  {
    var notes := before + [CompletedNote(plan)] + after;
    forall j {:trigger SoundAt(lines, j)} | 0 <= j < |lines| ensures SoundAt(lines, j) {
      assert RangedAt(lines, j);
      if j == |before| {
        CompletionIsSound(lines, plan, j);
      } else {
        assert InnerNote(if j < |before| then before[j] else after[j - |before| - 1]);
        assert PairedAt(lines, j);
        InnerIsSound(lines, notes, j);
      }
    }
  }

  lemma Group(a: seq<Note>, b: seq<Note>, c: seq<Note>, d: seq<Note>)
    ensures a + b + c + d == a + (b + (c + d)) == (a + b) + (c + d)
  {}

  lemma SoundWithCompletion(plan: Plan, before: seq<Note>, after: seq<Note>)
    requires |plan| >= 2 && InnerNotes(before) && InnerNotes(after) && NoEndings(before) && NoEndings(after)
    requires AllMatched(ReapFrom(plan, 0), before)
    requires Ranged(PrintedAll(before + ReapFrom(plan, 0) + [CompletedNote(plan)] + after))
    ensures Sound(PrintedAll(before + ReapFrom(plan, 0) + [CompletedNote(plan)] + after))
  {
    var reap, more := ReapFrom(plan, 0), [CompletedNote(plan)] + after;
    var lines := PrintedAll(before + reap + [CompletedNote(plan)] + after);
    CompletionMatched(plan, after, before);
    MatchedAppend(reap, more, before);
    Group(before, reap, [CompletedNote(plan)], after);
    PairedAfter(before, reap + more, lines);
    AccountedAtCompletion(plan, before, after);
    ReapInner(plan, 0);
    InnerAppend(before, reap);
    SoundAround(plan, before + reap, after, lines);
  }

  lemma CompletionMatched(plan: Plan, after: seq<Note>, head: seq<Note>)
    requires plan != [] && NoEndings(after)
    ensures AllMatched([CompletedNote(plan)] + after, head)
  {
    var notes := [CompletedNote(plan)] + after;
    forall i {:trigger Matched(notes[i], head)} | 0 <= i < |notes| ensures Matched(notes[i], head) {
      assert i > 0 ==> !IsEnding(after[i - 1]);
    }
  }

  function SingleHead(bytes: nat, s: StagePlan): seq<Note>
    requires s.launch.Forked?
  {
    Preamble(bytes, 1) + (OpenedNotes(s, 0, 1) + [StartNote(s.launch.pid, 0, 1)])
  }

  lemma SingleHeadIsInner(bytes: nat, s: StagePlan)
    requires s.launch.Forked?
    ensures InnerNotes(SingleHead(bytes, s)) && NoEndings(SingleHead(bytes, s))
    ensures StartNote(s.launch.pid, 0, 1) in SingleHead(bytes, s) && NotesInRange(SingleHead(bytes, s))
  {
    var head := SingleHead(bytes, s);
    assert head[|head| - 1] == StartNote(s.launch.pid, 0, 1);
  }

  // The start declares the one stage, for the notice that does not.
  lemma SingleIsRanged(s: StagePlan, head: seq<Note>, after: seq<Note>)
    requires s.launch.Forked? && NotesInRange(head) && NotesInRange(after) && StartNote(s.launch.pid, 0, 1) in head
    ensures Ranged(PrintedAll(head + (EndNotes(s, 0, 1, s.duration) + after)))
  {
    var ends := EndNotes(s, 0, 1, s.duration);
    var notes := head + (ends + after);
    var lines := PrintedAll(notes);
    var k :| 0 <= k < |head| && head[k] == StartNote(s.launch.pid, 0, 1);
    assert Declares(lines[k], 0);
    forall j {:trigger RangedAt(lines, j)} | 0 <= j < |lines| ensures RangedAt(lines, j) {
      if |head| <= j < |head| + |ends| {
        assert notes[j] == ends[j - |head|];
      } else {
        assert NoteInRange(notes[j]);
      }
    }
  }

  lemma SingleUnlaunchedIsSound(bytes: nat, s: StagePlan)
    requires !s.launch.Forked?
    ensures Sound(PrintedAll(Preamble(bytes, 1) + SingleNotes(s) + [Simple(SESSION_SUMMARY, 0)]))
  {
    var notes := Preamble(bytes, 1) + SingleNotes(s) + [Simple(SESSION_SUMMARY, 0)];
    assert InnerNotes(notes) && NoEndings(notes) && AllMatched([], notes) && notes + [] == notes;
    SingleInRangeIff(s);
    RangeAppend(Preamble(bytes, 1), SingleNotes(s));
    RangeAppend(Preamble(bytes, 1) + SingleNotes(s), [Simple(SESSION_SUMMARY, 0)]);
    InRangeIsRanged(notes);
    SoundWithoutCompletion(notes, []);
  }

  lemma SingleIsSound(bytes: nat, s: StagePlan)
    ensures Sound(PrintedAll(Preamble(bytes, 1) + SingleNotes(s) + [Simple(SESSION_SUMMARY, 0)]))
  {
    if s.launch.Forked? {
      var head, summary := SingleHead(bytes, s), [Simple(SESSION_SUMMARY, 0)];
      var ends := EndNotes(s, 0, 1, s.duration);
      SingleHeadIsInner(bytes, s);
      EndInner(s, 0, 1, s.duration);
      SingleEnds(s, head);
      assert InnerNotes(summary) && AllMatched(summary, head);
      MatchedAppend(ends, summary, head);
      InnerAppend(ends, summary);
      InnerAppend(head, ends + summary);
      SingleIsRanged(s, head, summary);
      SoundWithoutCompletion(head, ends + summary);
      GroupSingle(Preamble(bytes, 1), OpenedNotes(s, 0, 1), [StartNote(s.launch.pid, 0, 1)], ends, summary);
    } else {
      SingleUnlaunchedIsSound(bytes, s);
    }
  }

  lemma GroupSingle(a: seq<Note>, b: seq<Note>, c: seq<Note>, d: seq<Note>, e: seq<Note>)
    ensures a + (b + c + d) + e == (a + (b + c)) + (d + e)
  {}

  lemma SingleEnds(s: StagePlan, head: seq<Note>)
    requires s.launch.Forked? && StartNote(s.launch.pid, 0, 1) in head
    ensures AllMatched(EndNotes(s, 0, 1, s.duration), head)
  {
    assert IsStart(StartNote(s.launch.pid, 0, 1));
  }

  lemma GroupPipeline(a: seq<Note>, b: seq<Note>, c: seq<Note>, d: seq<Note>, e: seq<Note>)
    ensures a + (b + c + d) + e == (a + b) + c + d + e
  {}

  lemma PipelineIsSound(bytes: nat, plan: Plan)
    requires |plan| >= 2
    ensures Sound(PrintedAll(Preamble(bytes, |plan|) + PipelineNotes(plan) + [Simple(SESSION_SUMMARY, 0)]))
  {
    var pre, summary := Preamble(bytes, |plan|), [Simple(SESSION_SUMMARY, 0)];
    var launch, reap := LaunchFrom(plan, 0), ReapFrom(plan, 0);
    LaunchInner(plan, 0);
    HeadHasNoEndings(plan);
    assert InnerNotes(pre) && NoEndings(pre) && InnerNotes(summary) && NoEndings(summary);
    InnerAppend(pre, launch);
    NoEndingsAppend(pre, launch);
    ReapMatched(plan, 0);
    MatchedMore(reap, launch, pre);
    RunInRangeIff(Accepted(bytes, plan, true));
    InRangeIsRanged(RunNotes(Accepted(bytes, plan, true)));
    GroupPipeline(pre, launch, reap, [CompletedNote(plan)], summary);
    SoundWithCompletion(plan, pre + launch, summary);
  }

  // A run that starts nothing.
  lemma QuietRunIsSound(run: Run)
    requires ValidRun(run) && (run.Accepted? ==> |run.plan| >= 2 && !run.pipesOpen)
    ensures Sound(PrintedAll(RunNotes(run)))
  {
    var notes := RunNotes(run);
    assert InnerNotes(notes) && NoEndings(notes) && AllMatched([], notes) && notes + [] == notes;
    RunInRangeIff(run);
    InRangeIsRanged(notes);
    SoundWithoutCompletion(notes, []);
  }

  /** The lines of every run are sound, whatever the kernel answered along the way. */
  lemma RunIsSound(run: Run)
    requires ValidRun(run)
    ensures Sound(PrintedAll(RunNotes(run)))
  {
    if run.Accepted? && |run.plan| == 1 {
      SingleIsSound(run.bytes, run.plan[0]);
    } else if run.Accepted? && run.pipesOpen {
      PipelineIsSound(run.bytes, run.plan);
    } else {
      QuietRunIsSound(run);
    }
  }
}
