/**
 * How a session ends, told from its steps and its lines: the row, the event that closes the
 * record, and what the record holds in front of it.
 */
module RecorderStatus {
  import opened Basics
  import opened Events
  import opened Engine
  import opened EngineStream
  import opened Recorder
  import opened RecorderSafety
  import opened RecorderValid
  import RecorderVerdict
  import StreamRules

  // ------------------------------------------------------------ what the lines report

  predicate ReportsSignal(l: Line) {
    l.Object? && l.raw.name == SIGNAL_RECEIVED && l.raw.signal.Some?
  }

  // No program ran, its end is unknown, or there was nothing to launch.
  predicate ReportsTrouble(l: Line) {
    l.Object? && (l.raw.name == EXEC_ERROR || l.raw.name == WAIT_FAILED || l.raw.name == EXECUTION_FAILED)
  }

  predicate ReportsOutcome(l: Line) {
    l.Object? && l.raw.outcome.Some? && (l.raw.name == PROCESS_EXITED || l.raw.name == SIGNAL_RECEIVED || ReportsTrouble(l))
  }

  predicate AnySignal(lines: seq<Line>) {
    exists l :: l in lines && ReportsSignal(l)
  }

  predicate AnyTrouble(lines: seq<Line>) {
    exists l :: l in lines && ReportsTrouble(l)
  }

  function LastSignal(lines: seq<Line>): Option<int> {
    if lines == [] then None
    else var last := lines[|lines| - 1]; if ReportsSignal(last) then last.raw.signal else LastSignal(lines[..|lines| - 1])
  }

  function LastOutcome(lines: seq<Line>): Option<Outcome> {
    if lines == [] then None
    else var last := lines[|lines| - 1]; if ReportsOutcome(last) then last.raw.outcome else LastOutcome(lines[..|lines| - 1])
  }

  function LastStarted(lines: seq<Line>): Option<int> {
    if lines == [] then None
    else var last := lines[|lines| - 1]; if StartLine(last) then last.raw.pid else LastStarted(lines[..|lines| - 1])
  }

  predicate Taught(k: Seen, lines: seq<Line>) {
    && k.signal == LastSignal(lines) && k.outcome == LastOutcome(lines) && k.childPid == LastStarted(lines)
    && (k.execError || k.waitFailure || k.launchFailure <==> AnyTrouble(lines))
  }

  lemma AnySignalAppend(lines: seq<Line>, l: Line)
    ensures AnySignal(lines + [l]) <==> AnySignal(lines) || ReportsSignal(l)
    ensures AnyTrouble(lines + [l]) <==> AnyTrouble(lines) || ReportsTrouble(l)
  {
    assert forall m :: m in lines + [l] <==> m in lines || m == l;
  }

  lemma {:induction false} SignalIsReported(lines: seq<Line>)
    ensures LastSignal(lines).Some? <==> AnySignal(lines)
  {
    if lines != [] {
      var init, last := lines[..|lines| - 1], lines[|lines| - 1];
      SignalIsReported(init);
      AnySignalAppend(init, last);
      assert lines == init + [last];
    }
  }

  // What one line changes.
  lemma LearnedSignal(k: Seen, l: Line)
    ensures Learn(k, l).signal == if ReportsSignal(l) then l.raw.signal else k.signal
  {}

  predicate TellsOutcome(kind: EventType) {
    || kind == ProcessExited || kind == SignalReceived || kind == ProcessExecError || kind == ProcessWaitFailed
    || kind == ProcessLaunchFailed
  }

  lemma LearnedFrom(k: Seen, ev: Event)
    ensures Learned(k, ev).outcome == if TellsOutcome(ev.kind) then Latest(ev.payload.outcome, k.outcome) else k.outcome
  {}

  lemma NamesTellOutcome(raw: Raw)
    ensures TellsOutcome(TypeOf(raw.name)) <==>
      raw.name == PROCESS_EXITED || raw.name == SIGNAL_RECEIVED || ReportsTrouble(Object(raw))
  {}

  lemma LearnedOutcome(k: Seen, l: Line)
    ensures Learn(k, l).outcome == if ReportsOutcome(l) then l.raw.outcome else k.outcome
  {
    if l.Object? {
      LearnedFrom(k, Normalize(l.raw, 0, 0, 0));
      NamesTellOutcome(l.raw);
    }
  }

  lemma LearnedPid(k: Seen, l: Line)
    ensures Learn(k, l).childPid == if StartLine(l) then l.raw.pid else k.childPid
  {}

  predicate Troubled(k: Seen) {
    k.execError || k.waitFailure || k.launchFailure
  }

  lemma LearnedTrouble(k: Seen, l: Line)
    ensures Troubled(Learn(k, l)) <==> Troubled(k) || ReportsTrouble(l)
  {}

  lemma LastAppend(init: seq<Line>, l: Line)
    ensures LastSignal(init + [l]) == if ReportsSignal(l) then l.raw.signal else LastSignal(init)
    ensures LastOutcome(init + [l]) == if ReportsOutcome(l) then l.raw.outcome else LastOutcome(init)
    ensures LastStarted(init + [l]) == if StartLine(l) then l.raw.pid else LastStarted(init)
  {
    assert (init + [l])[..|init|] == init;
  }

  lemma TaughtByLine(k: Seen, init: seq<Line>, last: Line)
    requires Taught(k, init)
    ensures Taught(Learn(k, last), init + [last])
  {
    AnySignalAppend(init, last);
    LearnedSignal(k, last);
    LearnedOutcome(k, last);
    LearnedPid(k, last);
    LearnedTrouble(k, last);
    LastAppend(init, last);
  }

  lemma {:induction false} LessonIsTaught(lines: seq<Line>)
    ensures Taught(Lesson(lines), lines)
  {
    if lines != [] {
      var init, last := lines[..|lines| - 1], lines[|lines| - 1];
      LessonIsTaught(init);
      TaughtByLine(Lesson(init), init, last);
      assert lines == init + [last];
    }
  }

  // ---------------------------------------------------------- the row and the last event

  // Which closing event goes with which row.
  predicate Belongs(kind: EventType, row: Status) {
    && (kind == ExecutionTimeout <==> row == TIMED_OUT)
    && (kind == ExecutionCancelled <==> row == CANCELLED)
    && (kind == ExecutionCompleted <==> row == COMPLETED)
    && (kind == ExecutionFailed <==> row == FAILED)
  }

  predicate Cancels(actions: seq<Action>) {
    Timeout !in actions && Terminate(true) in actions && AnySignal(LinesOf(actions))
  }

  predicate Completes(actions: seq<Action>) {
    var lines := LinesOf(actions);
    Timeout !in actions && !AnySignal(lines) && !AnyTrouble(lines) && LastOutcome(lines) == Some(Completed)
  }

  lemma DecidedRow(s: State, actions: seq<Action>)
    requires Taught(s.seen, LinesOf(actions))
    requires (s.timedOut <==> Timeout in actions) && (s.terminateRequested <==> Terminate(true) in actions)
    ensures var row := DecideStatus(s);
      && (row == TIMED_OUT <==> Timeout in actions) && (row == CANCELLED <==> Cancels(actions))
      && (row == COMPLETED <==> Completes(actions))
      && (row == FAILED <==> Timeout !in actions && !Cancels(actions) && !Completes(actions))
    ensures Belongs(TerminalTypeOf(DecideStatus(s)), DecideStatus(s))
  {
    SignalIsReported(LinesOf(actions));
  }

  /**
   * The row of a closed session, whatever its lines said and however the steps fell: timed
   * out exactly when the timer fired; cancelled exactly when it did not, a terminate request
   * was sent and a signal was reported; completed exactly when neither that nor trouble was
   * and the last outcome told is success; failed otherwise.  The last event of the record is
   * the one of its kind for that row, and carries the exit code, the last signal reported and
   * the process last started.
   */
  lemma SessionRowIff(sessionId: Token, id: Token, actions: seq<Action>, code: Option<int>)
    requires AllOrdinary(actions)
    ensures var r := After(CreatedState(sessionId, id), Session(actions, code));
      r.Some? && var row, store := r.value.row, r.value.store;
      && (row == TIMED_OUT <==> Timeout in actions)
      && (row == CANCELLED <==> Cancels(actions))
      && (row == COMPLETED <==> Completes(actions))
      && (row == FAILED <==> Timeout !in actions && !Cancels(actions) && !Completes(actions))
      && store != [] && var last := store[|store| - 1];
      && Belongs(last.kind, row) && last.pid == LastStarted(LinesOf(actions))
      && last.payload.exitCode == code && last.payload.signal == LastSignal(LinesOf(actions))
  {
    var s0 := CreatedState(sessionId, id);
    var s1 := Spawned(s0, true);
    var lines := LinesOf(actions);
    SpawnRecorded(sessionId, id);
    var origin := RunRecorded(s1, [], [-1, -1], actions);
    assert [] + lines == lines;
    var s2 := After(s1, actions).value;
    RecorderVerdict.RequestsMade(s1, actions);
    LessonIsTaught(lines);
    DecidedRow(s2, actions);
    RecorderVerdict.ClosedSession(s0, s1, s2, lines, origin, actions, code);
  }

  // ------------------------------------------------------------------- in every run

  // Every terminal event that is stored goes with the row.
  ghost predicate RowAgrees(s: State) {
    forall i {:trigger IsTerminal(s.store[i])} :: 0 <= i < |s.store| && IsTerminal(s.store[i]) ==> Belongs(s.store[i].kind, s.row)
  }

  lemma AppendedAgrees(s: State, ev: Event, t: State)
    requires t.store == s.store + [ev] && (IsTerminal(ev) ==> Belongs(ev.kind, t.row))
    requires NoTerminal(s.store) || (RowAgrees(s) && t.row == s.row)
    ensures RowAgrees(t)
  {
    forall i {:trigger IsTerminal(t.store[i])} | 0 <= i < |t.store| && IsTerminal(t.store[i]) ensures Belongs(t.store[i].kind, t.row) {
      if i < |s.store| {
        assert t.store[i] == s.store[i] && IsTerminal(s.store[i]);
      }
    }
  }

  lemma EmittedAgrees(s: State, ev: Event, ok: bool)
    requires RowAgrees(s) && !IsTerminal(ev)
    ensures RowAgrees(Emit(s, ev, ok))
  {
    AppendedAgrees(s, ev.(sequence := s.nextSeq), s.(store := s.store + [ev.(sequence := s.nextSeq)]));
    AppendedAgrees(s, ev, s.(store := s.store + [ev]));
  }

  lemma RoutedAgrees(s: State, line: Line, ok: bool)
    requires RowAgrees(s)
    ensures RowAgrees(Routed(s, line, ok))
  {
    if line.Object? {
      var ev := Normalize(line.raw, s.nextId, s.sessionId, s.nextSeq);
      EmittedAgrees(Taken(s), ev, ok);
    }
  }

  predicate EndsSession(a: Action) {
    a.FailBeforeStart? || a.ChildError? || a.Close? || a.Abandon?
  }

  // A step that ends a session writes the row and its event, or only the row, or nothing.
  predicate Ends(s: State, t: State) {
    || (t.store == s.store && (t.row == s.row || NoTerminal(s.store)))
    || (|t.store| == |s.store| + 1 && t.store == s.store + [t.store[|s.store|]] && NoTerminal(s.store)
        && Belongs(t.store[|s.store|].kind, t.row))
  }

  lemma DecidedBelongs(s: State)
    ensures Belongs(TerminalTypeOf(DecideStatus(s)), DecideStatus(s))
  {}

  lemma CloseEndsIt(s: State, code: Option<int>, ok: bool)
    requires Inv(s) && s.phase == Live
    ensures Ends(s, Finalized(s, code, ok))
  {
    DecidedBelongs(s);
  }

  lemma EarlyEndEndsIt(s: State, ok: bool)
    requires Inv(s) && s.phase == Live
    ensures Ends(s, FinalizedFailed(s, ok))
  {}

  lemma FailedStartEndsIt(s: State, ok: bool)
    requires Inv(s) && s.phase == Phase.Created
    ensures Ends(s, FailedBeforeStart(s, ok))
  {}

  lemma RecoveryEndsIt(s: State, ok: bool)
    requires Inv(s) && s.phase != Phase.Created
    ensures Ends(s, Abandoned(s, ok))
  {
    if s.registered {
      EarlyEndEndsIt(s, ok);
    }
  }

  lemma Ending(s: State, a: Action)
    requires Inv(s) && Enabled(s, a) && EndsSession(a)
    ensures Ends(s, Step(s, a))
  {
    match a {
      case Close(code, ok) => CloseEndsIt(s, code, ok);
      case ChildError(ok) => EarlyEndEndsIt(s, ok);
      case FailBeforeStart(ok) => FailedStartEndsIt(s, ok);
      case Abandon(ok) => RecoveryEndsIt(s, ok);
    }
  }

  lemma EndAgrees(s: State, a: Action)
    requires Inv(s) && RowAgrees(s) && Enabled(s, a) && EndsSession(a)
    ensures RowAgrees(Step(s, a))
  {
    var t := Step(s, a);
    Ending(s, a);
    if t.store != s.store {
      AppendedAgrees(s, t.store[|s.store|], t);
    }
  }

  lemma StepAgrees(s: State, a: Action)
    requires Inv(s) && RowAgrees(s) && Enabled(s, a)
    ensures RowAgrees(Step(s, a))
  {
    if EndsSession(a) {
      EndAgrees(s, a);
    } else if a.EngineLine? {
      RoutedAgrees(s, a.line, a.ok);
    } else if a.Spawn? {
      EmittedAgrees(Taken(s).(phase := Live, registered := true, nextSeq := 1), GatewayEvent(s, ExecutionStarted, None, NO_FIELDS, 0), a.ok);
    } else if a.Snapshot? {
      EmittedAgrees(Taken(s), GatewayEvent(s, ProcessSnapshot, Some(a.pid), NO_FIELDS, 0), a.ok);
    }
  }

  lemma {:induction false} RunAgrees(s: State, actions: seq<Action>)
    requires Inv(s) && RowAgrees(s) && After(s, actions).Some?
    ensures RowAgrees(After(s, actions).value)
    decreases |actions|
  {
    if actions != [] {
      StepKeeps(s, actions[0]);
      StepAgrees(s, actions[0]);
      RunAgrees(Step(s, actions[0]), actions[1..]);
    }
  }

  /** In every run, with any insertions failing, a stored terminal event is the one of the row. */
  lemma TerminalTellsTheRow(sessionId: Token, id: Token, actions: seq<Action>, i: nat)
    requires After(CreatedState(sessionId, id), actions).Some?
    requires i < |After(CreatedState(sessionId, id), actions).value.store|
    ensures var s := After(CreatedState(sessionId, id), actions).value;
      IsTerminal(s.store[i]) ==> Belongs(s.store[i].kind, s.row)
  {
    var s := CreatedState(sessionId, id);
    Initially(sessionId, id);
    RunAgrees(s, actions);
    assert RowAgrees(After(s, actions).value);
  }

  lemma FinalStep(s: State, a: Action)
    requires Inv(s) && IsFinal(s.row) && Enabled(s, a)
    ensures Step(s, a).row == s.row
  {}

  // Once a row is final no step changes it.
  lemma {:induction false} FinalRowStays(s: State, actions: seq<Action>)
    requires Inv(s) && IsFinal(s.row) && After(s, actions).Some?
    ensures After(s, actions).value.row == s.row
    decreases |actions|
  {
    if actions != [] {
      StepKeeps(s, actions[0]);
      FinalStep(s, actions[0]);
      FinalRowStays(Step(s, actions[0]), actions[1..]);
    }
  }

  // ------------------------------------------------------------- ends without a close

  predicate NoClose(actions: seq<Action>) {
    forall a <- actions :: !a.Close?
  }

  // The child never came to be, failed, or the gateway gave the session up; a session that
  // has lost its gateway is given up by an insertion that the database accepts.
  predicate GivenUp(actions: seq<Action>, lost: bool) {
    if actions == [] then false
    else match actions[0]
      case FailBeforeStart(_) | ChildError(_) => true
      case Abandon(ok) => ok || !lost || GivenUp(actions[1..], lost)
      case Crash => GivenUp(actions[1..], true)
      case _ => GivenUp(actions[1..], lost)
  }

  lemma AboveAll(s: State)
    requires Inv(s)
    ensures SequenceFree(s.store, MaxSequence(s.store) + 1)
  {
    forall i {:trigger s.store[i]} | 0 <= i < |s.store| ensures s.store[i].sequence != MaxSequence(s.store) + 1 {
      MaxIsAbove(s.store, i);
    }
  }

  predicate Unended(s: State, lost: bool) {
    Inv(s) && s.row == CREATED && (lost <==> s.phase == Gone)
  }

  lemma UnendedStep(s: State, lost: bool, a: Action)
    requires Unended(s, lost) && Enabled(s, a) && !a.Close?
    ensures var t := Step(s, a);
      if a.FailBeforeStart? || a.ChildError? || (a.Abandon? && (a.ok || !lost)) then t.row == FAILED
      else Unended(t, lost || a.Crash?)
  {
    StepKeeps(s, a);
    if a.Abandon? {
      UnendedAbandon(s, lost, a.ok);
    }
  }

  lemma UnendedAbandon(s: State, lost: bool, ok: bool)
    requires Unended(s, lost) && s.phase != Phase.Created
    ensures Abandoned(s, ok).row == if ok || !lost then FAILED else CREATED
    ensures Abandoned(s, ok).phase == s.phase
  {
    AboveAll(s);
  }

  lemma {:induction false} GivenUpFrom(s: State, lost: bool, actions: seq<Action>)
    requires Unended(s, lost) && NoClose(actions) && After(s, actions).Some?
    ensures After(s, actions).value.row == if GivenUp(actions, lost) then FAILED else CREATED
    decreases |actions|
  {
    if actions != [] {
      var a, t := actions[0], Step(s, actions[0]);
      UnendedStep(s, lost, a);
      StepKeeps(s, a);
      if t.row == FAILED {
        FinalRowStays(t, actions[1..]);
      } else {
        GivenUpFrom(t, lost || a.Crash?, actions[1..]);
      }
    }
  }

  /** A session that is never closed is FAILED when it is given up, and else not ended at all. */
  lemma GivenUpIsFailed(sessionId: Token, id: Token, actions: seq<Action>)
    requires NoClose(actions) && After(CreatedState(sessionId, id), actions).Some?
    ensures After(CreatedState(sessionId, id), actions).value.row == if GivenUp(actions, false) then FAILED else CREATED
  {
    Initially(sessionId, id);
    GivenUpFrom(CreatedState(sessionId, id), false, actions);
  }

  // ------------------------------------------------------------- numbers of early ends

  lemma {:induction false} LargestNumber(es: seq<Event>)
    requires StreamRules.Numbered(es)
    ensures MaxSequence(es) == |es| - 1
  {
    if es != [] {
      var init := es[..|es| - 1];
      assert forall i {:trigger init[i]} :: 0 <= i < |init| ==> init[i] == es[i];
      LargestNumber(init);
    }
  }

  // The session's own early end, or recovery after a crash: the next number, and a failure.
  predicate EndsNumbered(s: State, t: State) {
    && |t.store| == |s.store| + 1 && t.store[..|s.store|] == s.store && StreamRules.Numbered(t.store)
    && t.store[|s.store|].kind == ExecutionFailed && t.store[|s.store|].payload.outcome == Some(Outcome.LaunchFailed)
    && t.row == FAILED && t.published == s.published + [t.store[|s.store|]]
  }

  lemma FailsNumbered(s: State, lines: seq<Line>, origin: seq<int>, a: Action)
    requires Recording(s, lines, origin) && (a == ChildError(true) || a == Abandon(true))
    ensures Enabled(s, a) && EndsNumbered(s, Step(s, a))
  {
    var e := GatewayEvent(s, ExecutionFailed, None, LAUNCH_FAILURE, s.nextSeq);
    NumberedAppend(s.store, e, s.sessionId, s.nextId);
  }

  lemma RecoversNumbered(s: State, lines: seq<Line>, origin: seq<int>)
    requires Recording(s, lines, origin)
    ensures Enabled(Step(s, Crash), Abandon(true)) && EndsNumbered(s, Step(Step(s, Crash), Abandon(true)))
  {
    LargestNumber(s.store);
    NumberedAppend(s.store, GatewayEvent(s, ExecutionFailed, None, LAUNCH_FAILURE, |s.store|), s.sessionId, s.nextId);
  }

  lemma TwoSteps(s: State, a: Action, b: Action)
    requires Enabled(s, a) && Enabled(Step(s, a), b)
    ensures After(s, [a, b]) == Some(Step(Step(s, a), b))
  {
    LastStep(Step(s, a), b, Step(Step(s, a), b));
    FirstStep(s, a, Step(s, a), [b]);
    assert [a] + [b] == [a, b];
  }

  /**
   * However a running session is given up, by a child error, by the gateway or by recovery
   * after a crash, its record goes on without a gap and ends in execution.failed.
   */
  lemma GivenUpRecordHasNoGap(sessionId: Token, id: Token, actions: seq<Action>)
    requires AllOrdinary(actions)
    ensures var r := After(CreatedState(sessionId, id), [Spawn(true)] + actions);
      r.Some? && var s := r.value;
      && (forall a {:trigger Step(s, a)} :: a == ChildError(true) || a == Abandon(true) ==> Enabled(s, a) && EndsNumbered(s, Step(s, a)))
      && After(s, [Crash, Abandon(true)]).Some? && EndsNumbered(s, After(s, [Crash, Abandon(true)]).value)
  {
    var s0 := CreatedState(sessionId, id);
    var s1 := Spawned(s0, true);
    var lines := LinesOf(actions);
    SpawnRecorded(sessionId, id);
    var origin := RunRecorded(s1, [], [-1, -1], actions);
    assert [] + lines == lines;
    FirstStep(s0, Spawn(true), s1, actions);
    var s := After(s1, actions).value;
    FailsNumbered(s, lines, origin, ChildError(true));
    FailsNumbered(s, lines, origin, Abandon(true));
    RecoversNumbered(s, lines, origin);
    TwoSteps(s, Crash, Abandon(true));
  }

  // A session whose child never came to be has two events, numbered 0 and 1.
  lemma FailedStartHasTwoEvents(sessionId: Token, id: Token)
    ensures var r := After(CreatedState(sessionId, id), [FailBeforeStart(true)]);
      r.Some? && EndsNumbered(CreatedState(sessionId, id), r.value)
  {
    var s := CreatedState(sessionId, id);
    LastStep(s, FailBeforeStart(true), FailedBeforeStart(s, true));
  }

  // ------------------------------------------------------------ what the record holds

  datatype Mark = Mark(kind: EventType, pid: Option<int>)

  function Marks(es: seq<Event>): seq<Mark> {
    seq(|es|, i requires 0 <= i < |es| => Mark(es[i].kind, es[i].pid))
  }

  // A step's event: a sample of a process, or what a line of the engine says.
  function MarkOf(a: Action): seq<Mark> {
    match a
    case Snapshot(pid, _) => [Mark(ProcessSnapshot, Some(pid))]
    case EngineLine(Object(raw), _) => [Mark(TypeOf(raw.name), raw.pid)]
    case _ => []
  }

  function MarksOf(actions: seq<Action>): seq<Mark> {
    if actions == [] then [] else MarkOf(actions[0]) + MarksOf(actions[1..])
  }

  lemma MarksAppend(es: seq<Event>, e: Event)
    ensures Marks(es + [e]) == Marks(es) + [Mark(e.kind, e.pid)]
  {}

  lemma StepMarks(s: State, lines: seq<Line>, origin: seq<int>, a: Action)
    requires Recording(s, lines, origin) && Ordinary(a)
    ensures Marks(Step(s, a).store) == Marks(s.store) + MarkOf(a)
  {
    var t := Step(s, a);
    if a.Snapshot? || (a.EngineLine? && a.line.Object?) {
      assert SequenceFree(s.store, s.nextSeq);
      var e := t.store[|s.store|];
      assert t.store == s.store + [e];
      MarksAppend(s.store, e);
    } else {
      assert Marks(s.store) + [] == Marks(s.store);
    }
  }

  lemma ThreeMarks(a: seq<Mark>, b: seq<Mark>, c: seq<Mark>)
    ensures (a + b) + c == a + (b + c)
  {}

  lemma {:induction false} RunMarks(s: State, lines: seq<Line>, origin: seq<int>, actions: seq<Action>)
    requires Recording(s, lines, origin) && AllOrdinary(actions) && After(s, actions).Some?
    ensures Marks(After(s, actions).value.store) == Marks(s.store) + MarksOf(actions)
    decreases |actions|
  {
    if actions == [] {
      assert Marks(s.store) + [] == Marks(s.store);
    } else {
      var a := actions[0];
      OrdinaryTail(actions);
      var next := StepRecorded(s, lines, origin, a);
      StepMarks(s, lines, origin, a);
      RunMarks(Step(s, a), lines + LinesOf([a]), next, actions[1..]);
      ThreeMarks(Marks(s.store), MarkOf(a), MarksOf(actions[1..]));
    }
  }

  /**
   * The record of a closed session is the creation, the start, then one event for each sample
   * and each line that is an event, in the order of the steps, and the closing event.
   */
  lemma RecordHoldsTheSteps(sessionId: Token, id: Token, actions: seq<Action>, code: Option<int>)
    requires AllOrdinary(actions)
    ensures var r := After(CreatedState(sessionId, id), Session(actions, code));
      r.Some? && var store := r.value.store;
      && store != [] && IsTerminal(store[|store| - 1])
      && Marks(store[..|store| - 1]) == [Mark(ExecutionCreated, None), Mark(ExecutionStarted, None)] + MarksOf(actions)
  {
    var s0 := CreatedState(sessionId, id);
    var s1 := Spawned(s0, true);
    var lines := LinesOf(actions);
    SpawnRecorded(sessionId, id);
    var origin := RunRecorded(s1, [], [-1, -1], actions);
    assert [] + lines == lines;
    var s2 := After(s1, actions).value;
    RunMarks(s1, [], [-1, -1], actions);
    RecorderVerdict.ClosedSession(s0, s1, s2, lines, origin, actions, code);
    var store := After(s0, Session(actions, code)).value.store;
    assert store[..|store| - 1] == s2.store;
  }

  // --------------------------------------------------------- what a run leaves in it

  predicate Plain(e: Event, kind: EventType) {
    e.kind == kind && e.pid == None && e.payload == Payload(None, None, None, None, None, false)
  }

  // The event has this place in a pipeline, or none: then it reads as stage -1 of 0.
  predicate Placed(e: Event, kind: EventType, pid: int, stage: int, stages: int) {
    e.kind == kind && e.pid == Some(pid) && e.payload.stage == Some(stage) && e.payload.stages == Some(stages) && !e.payload.corrupt
  }

  predicate Carries(e: Event, exitCode: Option<int>, signal: Option<int>, outcome: Option<Outcome>) {
    e.payload.exitCode == exitCode && e.payload.signal == signal && e.payload.outcome == outcome
  }

  // A stored event shows a note of the engine.
  predicate Shows(e: Event, n: Note) {
    match n.name
    case COMMAND_RECEIVED => Plain(e, CommandReceived)
    case PARSED => Plain(e, CommandParsed)
    case COMMAND_PARSE_ERROR => Plain(e, CommandParseError)
    case REDIRECTION_OPENED => Plain(e, RedirectionOpened)
    case REDIRECTION_FAILED => Plain(e, RedirectionFailed)
    case SESSION_SUMMARY => Plain(e, SessionSummary)
    case PIPELINE_PARSED => Placed(e, PipelineParsed, n.pid, n.stage, n.stages) && Carries(e, None, None, Some(n.outcome))
    case PIPELINE_STARTED => Placed(e, EventType.PipelineStarted, n.pid, n.stage, n.stages) && Carries(e, None, None, Some(n.outcome))
    case PIPELINE_COMPLETED => Placed(e, PipelineCompleted, n.pid, n.stage, n.stages) && Carries(e, None, None, Some(n.outcome))
    case PROCESS_STARTED => Placed(e, ProcessStarted, n.pid, n.stage, n.stages) && Carries(e, None, None, None)
    case PROCESS_EXITED => Placed(e, ProcessExited, n.pid, n.stage, n.stages) && Carries(e, Some(n.status), None, Some(n.outcome))
    case SIGNAL_RECEIVED => Placed(e, SignalReceived, n.pid, n.stage, n.stages) && Carries(e, None, Some(n.status), Some(n.outcome))
    case EXEC_ERROR => Placed(e, ProcessExecError, n.pid, -1, 0) && Carries(e, Some(n.status), None, Some(n.outcome))
    case WAIT_FAILED => Placed(e, ProcessWaitFailed, n.pid, -1, 0) && Carries(e, None, None, Some(n.outcome))
    case EXECUTION_FAILED =>
      e.kind == ProcessLaunchFailed && e.pid == Some(n.pid) && e.payload == Payload(None, None, None, None, Some(n.outcome), false)
  }

  // A command text of more than 400 bytes breaks the line that carries it.
  predicate Readable(n: Note) {
    n.name == COMMAND_RECEIVED ==> n.bytes <= 400
  }

  lemma PrintedReadable(n: Note)
    ensures Printed(n).Object? <==> Readable(n)
  {}

  lemma PrintedShows(n: Note, e: Event)
    ensures Printed(n).Object? <==> Readable(n)
    ensures Readable(n) && e == Normalize(Printed(n).raw, e.id, e.sessionId, e.sequence) ==> Shows(e, n)
  {}

  // Where a stored event comes from: a note, or -1 for the gateway.
  predicate ShowsAt(e: Event, notes: seq<Note>, from: int) {
    if from == -1 then Quiet(e) else 0 <= from < |notes| && Readable(notes[from]) && Shows(e, notes[from])
  }

  ghost predicate ShowsAll(es: seq<Event>, notes: seq<Note>, origin: seq<int>) {
    && |origin| == |es| && InLineOrder(origin)
    && (forall i {:trigger ShowsAt(es[i], notes, origin[i])} :: 0 <= i < |es| ==> ShowsAt(es[i], notes, origin[i]))
    && (forall k {:trigger Told(origin, k)} :: 0 <= k < |notes| && Readable(notes[k]) ==> Told(origin, k))
  }

  lemma TellsShows(es: seq<Event>, notes: seq<Note>, origin: seq<int>)
    requires Tells(es, PrintedAll(notes), origin)
    ensures ShowsAll(es, notes, origin)
  {
    var lines := PrintedAll(notes);
    forall i {:trigger ShowsAt(es[i], notes, origin[i])} | 0 <= i < |es| ensures ShowsAt(es[i], notes, origin[i]) {
      assert TellsAt(es[i], lines, origin[i]);
      if origin[i] != -1 {
        PrintedShows(notes[origin[i]], es[i]);
      }
    }
    forall k {:trigger Told(origin, k)} | 0 <= k < |notes| && Readable(notes[k]) ensures Told(origin, k) {
      PrintedReadable(notes[k]);
      assert lines[k].Object?;
    }
  }

  /**
   * The record of a run: in front of the closing event there is one event for each note of the
   * engine, in order, that shows its process, place, code, signal and outcome; and whatever
   * else is there comes from the gateway itself.
   */
  lemma RecordShowsTheRun(run: Run, sessionId: Token, id: Token, actions: seq<Action>, code: Option<int>) returns (origin: seq<int>)
    requires ValidRun(run) && AllOrdinary(actions) && LinesOf(actions) == PrintedAll(RunNotes(run))
    ensures var r := After(CreatedState(sessionId, id), Session(actions, code));
      r.Some? && r.value.store != [] && ShowsAll(r.value.store[..|r.value.store| - 1], RunNotes(run), origin)
  {
    var s0 := CreatedState(sessionId, id);
    var s1 := Spawned(s0, true);
    var lines := LinesOf(actions);
    SpawnRecorded(sessionId, id);
    origin := RunRecorded(s1, [], [-1, -1], actions);
    assert [] + lines == lines;
    var s2 := After(s1, actions).value;
    RecorderVerdict.ClosedSession(s0, s1, s2, lines, origin, actions, code);
    TellsShows(s2.store, RunNotes(run), origin);
    var store := After(s0, Session(actions, code)).value.store;
    assert store[..|store| - 1] == s2.store;
  }
}
