/**
 * The writer against the checker: which recorded streams the validator accepts, for every
 * run of the engine and every interleaving of samples, a timeout and terminate requests.
 */
module RecorderValid {
  import opened Basics
  import opened Events
  import opened Engine
  import opened EngineStream
  import opened Recorder
  import opened StreamRules
  import opened Validator

  // ------------------------------------------------- a stored stream tells its lines

  // An event of the gateway itself says nothing about a command, a stage or a process's life.
  predicate Quiet(e: Event) {
    && e.payload.stage.None? && e.payload.stages.None? && !IsLifecycle(e)
    && e.kind != ProcessStarted && e.kind != PipelineCompleted && e.kind != CommandReceived
  }

  // Where a stored event comes from: a line, or -1 for the gateway.
  predicate TellsAt(e: Event, lines: seq<Line>, from: int) {
    if from == -1 then Quiet(e)
    else 0 <= from < |lines| && lines[from].Object?
         && e == Normalize(lines[from].raw, e.id, e.sessionId, e.sequence)
  }

  predicate InLineOrder(origin: seq<int>) {
    forall i, k {:trigger origin[i], origin[k]} :: 0 <= i < k < |origin| && origin[i] >= 0 && origin[k] >= 0 ==>
      origin[i] < origin[k]
  }

  ghost predicate Told(origin: seq<int>, j: nat) {
    exists i {:trigger origin[i]} :: 0 <= i < |origin| && origin[i] == j
  }

  ghost predicate AllTold(lines: seq<Line>, origin: seq<int>) {
    forall j {:trigger Told(origin, j)} :: 0 <= j < |lines| && lines[j].Object? ==> Told(origin, j)
  }

  ghost predicate Tells(es: seq<Event>, lines: seq<Line>, origin: seq<int>) {
    && |origin| == |es|
    && (forall i {:trigger TellsAt(es[i], lines, origin[i])} :: 0 <= i < |es| ==> TellsAt(es[i], lines, origin[i]))
    && InLineOrder(origin) && AllTold(lines, origin)
  }

  // The stored event of a line, and its place.
  lemma PlaceOf(es: seq<Event>, lines: seq<Line>, origin: seq<int>, j: nat) returns (i: nat)
    requires Tells(es, lines, origin) && j < |lines| && lines[j].Object?
    ensures i < |es| && origin[i] == j && es[i] == Normalize(lines[j].raw, es[i].id, es[i].sessionId, es[i].sequence)
  {
    assert Told(origin, j);
    i :| 0 <= i < |origin| && origin[i] == j;
    assert TellsAt(es[i], lines, origin[i]);
  }

  lemma LineOf(es: seq<Event>, lines: seq<Line>, origin: seq<int>, e: Event) returns (i: nat)
    requires Tells(es, lines, origin) && Numbered(es) && e in multiset(es)
    ensures i < |es| && es[i] == e && e.sequence == i && TellsAt(e, lines, origin[i])
  {
    At(es, e);
    i := e.sequence;
    assert TellsAt(es[i], lines, origin[i]);
  }

  // ------------------------------------------------------------------- the rules

  lemma PairedIsStarted(es: seq<Event>, lines: seq<Line>, origin: seq<int>, a: Event)
    requires Tells(es, lines, origin) && Numbered(es) && Sound(lines)
    requires a in multiset(es) && Ends(a) && NoUnpaired(lines, |lines|)
    ensures StartedBefore(multiset(es), a)
  {
    var i := LineOf(es, lines, origin, a);
    var j := origin[i];
    assert SoundAt(lines, j) && !Unpaired(lines[j]);
    var k :| 0 <= k < j && StartLine(lines[k]) && SameProcess(lines[k], lines[j]);
    var p := PlaceOf(es, lines, origin, k);
    Member(es, p);
    assert origin[p] < origin[i];
    assert p < i;
    assert Starts(es[p]) && KeyOf(es[p]) == KeyOf(a);
  }

  lemma UnpairedIsOrphan(es: seq<Event>, lines: seq<Line>, origin: seq<int>, j: nat)
    requires Tells(es, lines, origin) && Numbered(es) && Sound(lines) && j < |lines| && Unpaired(lines[j])
    ensures !NoOrphans(multiset(es))
  {
    var i := PlaceOf(es, lines, origin, j);
    Member(es, i);
    assert SoundAt(lines, j) && Ends(es[i]);
    forall b: Event | b in multiset(es) && Starts(b) ensures KeyOf(b) != KeyOf(es[i]) {
      var p := LineOf(es, lines, origin, b);
      assert SoundAt(lines, origin[p]);
    }
    assert !StartedBefore(multiset(es), es[i]);
  }

  lemma OrphansIff(es: seq<Event>, lines: seq<Line>, origin: seq<int>)
    requires Tells(es, lines, origin) && Numbered(es) && Sound(lines)
    ensures NoOrphans(multiset(es)) <==> NoUnpaired(lines, |lines|)
  {
    if NoUnpaired(lines, |lines|) {
      forall a: Event | a in multiset(es) && Ends(a) ensures StartedBefore(multiset(es), a) {
        PairedIsStarted(es, lines, origin, a);
      }
    } else {
      var j :| 0 <= j < |lines| && Unpaired(lines[j]);
      UnpairedIsOrphan(es, lines, origin, j);
    }
  }

  lemma StageIsAccounted(es: seq<Event>, lines: seq<Line>, origin: seq<int>, a: Event, stage: int)
    requires Tells(es, lines, origin) && Numbered(es) && Sound(lines) && NoUnpaired(lines, |lines|)
    requires a in multiset(es) && a.kind == PipelineCompleted && 0 <= stage < a.payload.stages.GetOr(0)
    ensures EndsStage(multiset(es), stage)
  {
    var i := LineOf(es, lines, origin, a);
    var j := origin[i];
    assert lines[j].raw.name == PIPELINE_COMPLETED;
    assert SoundAt(lines, j) && NoUnpaired(lines, j);
    assert StageEndsBefore(lines, j, stage);
    var k :| 0 <= k < j && EndLine(lines[k]) && lines[k].raw.stage == Some(stage);
    var p := PlaceOf(es, lines, origin, k);
    Member(es, p);
  }

  lemma AccountedFor(es: seq<Event>, lines: seq<Line>, origin: seq<int>)
    requires Tells(es, lines, origin) && Numbered(es) && Sound(lines) && NoUnpaired(lines, |lines|)
    ensures StagesAccounted(multiset(es))
  {
    forall a: Event, stage: int | FirstCompletionIs(multiset(es), a) && 0 <= stage < a.payload.stages.GetOr(0)
      ensures EndsStage(multiset(es), stage)
    {
      StageIsAccounted(es, lines, origin, a, stage);
    }
  }

  lemma StageIsDeclared(es: seq<Event>, lines: seq<Line>, origin: seq<int>, j: nat)
    requires Tells(es, lines, origin) && j < |lines| && RangedAt(lines, j) && lines[j].Object? && lines[j].raw.stage.Some?
    requires Sound(lines)
    ensures DeclaresMoreThan(multiset(es), lines[j].raw.stage.value)
  {
    var stage := lines[j].raw.stage.value;
    var k :| 0 <= k <= j && Declares(lines[k], stage);
    assert SoundAt(lines, k);
    var p := PlaceOf(es, lines, origin, k);
    Member(es, p);
    assert es[p].payload.stages.value > stage;
  }

  lemma InRange(es: seq<Event>, lines: seq<Line>, origin: seq<int>)
    requires Tells(es, lines, origin) && Numbered(es) && Sound(lines)
    ensures StagesInRange(multiset(es))
  {
    var m := multiset(es);
    forall a: Event | a in m && a.payload.stage.Some? && DeclaresMoreThan(m, 0)
      ensures a.payload.stage.value >= -1 && DeclaresMoreThan(m, a.payload.stage.value)
    {
      var i := LineOf(es, lines, origin, a);
      assert SoundAt(lines, origin[i]);
      if lines[origin[i]].raw.stage.Some? {
        StageIsDeclared(es, lines, origin, origin[i]);
      } else {
        var b :| b in m && b.payload.stages.Some? && b.payload.stages.value > 0;
        assert b.payload.stages.value > -1;
      }
    }
  }

  // --------------------------------------------------------------- what was learned

  function Learn(k: Seen, line: Line): Seen {
    match line
    case Garbled => k
    case Object(raw) => Learned(k, Normalize(raw, 0, 0, 0))
  }

  function Lesson(lines: seq<Line>): Seen {
    if lines == [] then NOTHING_SEEN else Learn(Lesson(lines[..|lines| - 1]), lines[|lines| - 1])
  }

  lemma LessonAppend(lines: seq<Line>, line: Line)
    ensures Lesson(lines + [line]) == Learn(Lesson(lines), line)
  {
    assert (lines + [line])[..|lines|] == lines;
  }

  predicate CleanExitLine(l: Line) {
    l.Object? && l.raw.name == PROCESS_EXITED && l.raw.exitCode == Some(0)
  }

  // The verdict COMPLETED is only ever learned from an exit with code 0.
  lemma {:induction false} SuccessWasSeen(lines: seq<Line>) returns (j: nat)
    requires Lesson(lines).outcome == Some(Completed) && forall k {:trigger Shaped(lines[k])} :: 0 <= k < |lines| ==> Shaped(lines[k])
    ensures j < |lines| && CleanExitLine(lines[j])
  {
    var n := |lines| - 1;
    assert Shaped(lines[n]);
    if Lesson(lines[..n]).outcome == Some(Completed) {
      forall k {:trigger Shaped(lines[..n][k])} | 0 <= k < n ensures Shaped(lines[..n][k]) {
        assert Shaped(lines[k]);
      }
      j := SuccessWasSeen(lines[..n]);
    } else {
      j := n;
    }
  }

  // -------------------------------------------------------------------- the trace

  predicate OwnIds(es: seq<Event>, sessionId: Token, next: Token) {
    && (forall i {:trigger es[i]} :: 0 <= i < |es| ==> es[i].sessionId == sessionId && es[i].id < next)
    && (forall i, k {:trigger es[i], es[k]} :: 0 <= i < k < |es| ==> es[i].id < es[k].id)
  }

  predicate NoTerminalYet(es: seq<Event>) {
    forall i {:trigger IsTerminal(es[i])} :: 0 <= i < |es| ==> !IsTerminal(es[i])
  }

  ghost predicate Recording(s: State, lines: seq<Line>, origin: seq<int>) {
    && s.registered && !s.finalized && s.phase == Live && !IsFinal(s.row)
    && s.nextSeq == |s.store| >= 2 && s.store[0].kind == ExecutionCreated
    && Numbered(s.store) && OwnIds(s.store, s.sessionId, s.nextId) && NoTerminalYet(s.store)
    && Tells(s.store, lines, origin)
    && s.seen == Lesson(lines)
  }

  lemma TellsQuiet(es: seq<Event>, lines: seq<Line>, origin: seq<int>, e: Event)
    requires Tells(es, lines, origin) && Quiet(e)
    ensures Tells(es + [e], lines, origin + [-1])
  {
    var more, from := es + [e], origin + [-1];
    forall i {:trigger TellsAt(more[i], lines, from[i])} | 0 <= i < |more| ensures TellsAt(more[i], lines, from[i]) {
      assert i < |es| ==> TellsAt(es[i], lines, origin[i]);
    }
    forall j {:trigger Told(from, j)} | 0 <= j < |lines| && lines[j].Object? ensures Told(from, j) {
      assert Told(origin, j);
      var i :| 0 <= i < |origin| && origin[i] == j;
      assert from[i] == j;
    }
    forall i, k {:trigger from[i], from[k]} | 0 <= i < k < |from| && from[i] >= 0 && from[k] >= 0 ensures from[i] < from[k] {
      assert from[i] == origin[i] && from[k] == origin[k];
    }
  }

  lemma TellsLine(es: seq<Event>, lines: seq<Line>, origin: seq<int>, e: Event, line: Line)
    requires Tells(es, lines, origin) && line.Object? && e == Normalize(line.raw, e.id, e.sessionId, e.sequence)
    ensures Tells(es + [e], lines + [line], origin + [|lines|])
  {
    var more, all, from := es + [e], lines + [line], origin + [|lines|];
    forall i {:trigger TellsAt(more[i], all, from[i])} | 0 <= i < |more| ensures TellsAt(more[i], all, from[i]) {
      if i < |es| {
        assert TellsAt(es[i], lines, origin[i]);
      }
    }
    forall j {:trigger Told(from, j)} | 0 <= j < |all| && all[j].Object? ensures Told(from, j) {
      if j < |lines| {
        assert Told(origin, j);
        var i :| 0 <= i < |origin| && origin[i] == j;
        assert from[i] == j;
      } else {
        assert from[|origin|] == j;
      }
    }
    forall i, k {:trigger from[i], from[k]} | 0 <= i < k < |from| && from[i] >= 0 && from[k] >= 0 ensures from[i] < from[k] {
      assert TellsAt(es[i], lines, origin[i]) && from[i] == origin[i];
      assert k < |origin| ==> from[k] == origin[k];
    }
  }

  lemma TellsGarbled(es: seq<Event>, lines: seq<Line>, origin: seq<int>)
    requires Tells(es, lines, origin)
    ensures Tells(es, lines + [Garbled], origin)
  {
    var all := lines + [Garbled];
    forall i {:trigger TellsAt(es[i], all, origin[i])} | 0 <= i < |es| ensures TellsAt(es[i], all, origin[i]) {
      assert TellsAt(es[i], lines, origin[i]);
    }
  }

  lemma NumberedAppend(es: seq<Event>, e: Event, sessionId: Token, next: Token)
    requires Numbered(es) && e.sequence == |es| && OwnIds(es, sessionId, next) && e.id == next && e.sessionId == sessionId
    ensures Numbered(es + [e]) && OwnIds(es + [e], sessionId, next + 1)
    ensures SequenceFree(es, e.sequence)
  {
    var more := es + [e];
    forall i, k {:trigger more[i], more[k]} | 0 <= i < k < |more| ensures more[i].id < more[k].id {
      assert more[i] == es[i] && (k < |es| ==> more[k] == es[k]);
    }
    forall i {:trigger more[i]} | 0 <= i < |more| ensures more[i].sequence == i && more[i].sessionId == sessionId && more[i].id < next + 1 {
      assert i < |es| ==> more[i] == es[i];
    }
  }

  lemma NoTerminalAppend(es: seq<Event>, e: Event)
    requires NoTerminalYet(es) && !IsTerminal(e)
    ensures NoTerminalYet(es + [e])
  {
    forall i {:trigger IsTerminal((es + [e])[i])} | 0 <= i < |es + [e]| ensures !IsTerminal((es + [e])[i]) {
      assert i < |es| ==> !IsTerminal(es[i]);
    }
  }

  // ---------------------------------------------------------- undisturbed recording

  // The steps of a session whose insertions succeed and which has not ended.
  predicate Ordinary(a: Action) {
    match a
    case EngineLine(_, ok) => ok
    case Snapshot(_, ok) => ok
    case Output | Timeout | Terminate(_) => true
    case _ => false
  }

  function LinesOf(actions: seq<Action>): seq<Line> {
    if actions == [] then []
    else (if actions[0].EngineLine? then [actions[0].line] else []) + LinesOf(actions[1..])
  }

  lemma GatewayEventRecorded(s: State, lines: seq<Line>, origin: seq<int>, e: Event)
    requires Recording(s, lines, origin) && Quiet(e) && !IsTerminal(e) && e.id == s.nextId && e.sessionId == s.sessionId
    ensures Recording(Emit(Taken(s), e, true), lines, origin + [-1])
  {
    var numbered := e.(sequence := s.nextSeq);
    NumberedAppend(s.store, numbered, s.sessionId, s.nextId);
    NoTerminalAppend(s.store, numbered);
    TellsQuiet(s.store, lines, origin, numbered);
  }

  lemma LineRecorded(s: State, lines: seq<Line>, origin: seq<int>, raw: Raw)
    requires Recording(s, lines, origin)
    ensures Recording(Routed(s, Object(raw), true), lines + [Object(raw)], origin + [|lines|])
  {
    var e := Normalize(raw, s.nextId, s.sessionId, s.nextSeq);
    NumberedAppend(s.store, e, s.sessionId, s.nextId);
    NoTerminalAppend(s.store, e);
    TellsLine(s.store, lines, origin, e, Object(raw));
    LessonAppend(lines, Object(raw));
  }

  lemma StepRecorded(s: State, lines: seq<Line>, origin: seq<int>, a: Action) returns (next: seq<int>)
    requires Recording(s, lines, origin) && Ordinary(a)
    ensures Enabled(s, a) && Recording(Step(s, a), lines + LinesOf([a]), next)
  {
    next := origin;
    assert [a][1..] == [] && lines + [] == lines;
    match a {
      case EngineLine(line, ok) =>
        assert LinesOf([a]) == [line];
        if line.Garbled? {
          TellsGarbled(s.store, lines, origin);
          LessonAppend(lines, line);
        } else {
          LineRecorded(s, lines, origin, line.raw);
          next := origin + [|lines|];
        }
      case Snapshot(pid, ok) =>
        GatewayEventRecorded(s, lines, origin, GatewayEvent(s, ProcessSnapshot, Some(pid), NO_FIELDS, 0));
        next := origin + [-1];
      case _ =>
    }
  }

  predicate AllOrdinary(actions: seq<Action>) {
    forall i {:trigger Ordinary(actions[i])} :: 0 <= i < |actions| ==> Ordinary(actions[i])
  }

  lemma LinesOfCons(a: Action, rest: seq<Action>, actions: seq<Action>)
    requires actions == [a] + rest
    ensures LinesOf(actions) == LinesOf([a]) + LinesOf(rest)
  {
    assert actions[1..] == rest && [a][1..] == [];
    assert (if a.EngineLine? then [a.line] else []) + [] == (if a.EngineLine? then [a.line] else []);
  }

  lemma OrdinaryTail(actions: seq<Action>)
    requires AllOrdinary(actions) && actions != []
    ensures Ordinary(actions[0]) && AllOrdinary(actions[1..])
  {
    assert Ordinary(actions[0]);
    forall i {:trigger Ordinary(actions[1..][i])} | 0 <= i < |actions| - 1 ensures Ordinary(actions[1..][i]) {
      assert Ordinary(actions[i + 1]);
    }
  }

  lemma JoinLines(lines: seq<Line>, a: Action, rest: seq<Action>, actions: seq<Action>)
    requires actions == [a] + rest
    ensures lines + LinesOf([a]) + LinesOf(rest) == lines + LinesOf(actions)
  {
    LinesOfCons(a, rest, actions);
  }

  lemma {:induction false} RunRecorded(s: State, lines: seq<Line>, origin: seq<int>, actions: seq<Action>) returns (last: seq<int>)
    requires Recording(s, lines, origin) && AllOrdinary(actions)
    ensures After(s, actions).Some? && Recording(After(s, actions).value, lines + LinesOf(actions), last)
    decreases |actions|
  {
    if actions == [] {
      assert lines + [] == lines;
      last := origin;
    } else {
      var a, rest := actions[0], actions[1..];
      OrdinaryTail(actions);
      var next := StepRecorded(s, lines, origin, a);
      last := RunRecorded(Step(s, a), lines + LinesOf([a]), next, rest);
      assert actions == [a] + rest;
      JoinLines(lines, a, rest, actions);
      FirstStep(s, a, Step(s, a), rest);
    }
  }

  lemma SpawnRecorded(sessionId: Token, id: Token)
    ensures Recording(Spawned(CreatedState(sessionId, id), true), [], [-1, -1])
  {
    var s := Spawned(CreatedState(sessionId, id), true);
    assert |s.store| == 2 && s.store[0].sequence == 0 && s.store[1].sequence == 1;
    var es, lines, origin := s.store, [], [-1, -1];
    assert TellsAt(es[0], lines, origin[0]) && TellsAt(es[1], lines, origin[1]);
    assert !IsTerminal(es[0]) && !IsTerminal(es[1]);
  }

  // ------------------------------------------------------------------- the ending

  lemma SuccessIsTold(es: seq<Event>, lines: seq<Line>, origin: seq<int>)
    requires Tells(es, lines, origin) && Sound(lines) && Lesson(lines).outcome == Some(Completed)
    ensures exists b :: b in multiset(es) && ExitsCleanly(b)
  {
    forall k {:trigger Shaped(lines[k])} | 0 <= k < |lines| ensures Shaped(lines[k]) {
      assert SoundAt(lines, k);
    }
    var j := SuccessWasSeen(lines);
    var i := PlaceOf(es, lines, origin, j);
    Member(es, i);
    assert ExitsCleanly(es[i]);
  }

  ghost predicate ClosedStream(es: seq<Event>, lines: seq<Line>, origin: seq<int>, sessionId: Token, row: Status) {
    && Tells(es, lines, origin) && Numbered(es) && es != [] && es[0].kind == ExecutionCreated
    && (exists next :: OwnIds(es, sessionId, next))
    && NoTerminalYet(es[..|es| - 1]) && IsTerminal(es[|es| - 1]) && IsFinal(row)
    && (es[|es| - 1].kind == ExecutionCompleted ==> Lesson(lines).outcome == Some(Completed))
  }

  lemma EnvelopeHolds(es: seq<Event>, lines: seq<Line>, origin: seq<int>, sessionId: Token, row: Status)
    requires ClosedStream(es, lines, origin, sessionId, row)
    ensures var m := multiset(es); OneSession(m) && DistinctIds(m) && NumberedFromZero(m) && StartsWithCreation(m)
  {
    var m := multiset(es);
    var next :| OwnIds(es, sessionId, next);
    NumberedMembers(es);
    forall a: Event | a in m ensures 0 <= a.sequence < |es| && es[a.sequence] == a && a.sessionId == sessionId {
      At(es, a);
    }
  }

  lemma TerminalIsAtEnd(es: seq<Event>, i: nat)
    requires i < |es| && NoTerminalYet(es[..|es| - 1]) && IsTerminal(es[i])
    ensures i == |es| - 1
  {
    assert forall k {:trigger es[k]} :: 0 <= k < |es| - 1 ==> es[..|es| - 1][k] == es[k] && !IsTerminal(es[..|es| - 1][k]);
  }

  lemma EndingHolds(es: seq<Event>, lines: seq<Line>, origin: seq<int>, sessionId: Token, row: Status)
    requires ClosedStream(es, lines, origin, sessionId, row) && Sound(lines)
    ensures var m := multiset(es); TerminalOnlyLast(m) && StatusAgrees(m, Some(row)) && SuccessIsWitnessed(m)
  {
    var m, n := multiset(es), |es| - 1;
    Member(es, n);
    forall a: Event | a in m && IsTerminal(a) ensures a == es[n] && a.sequence == n {
      At(es, a);
      TerminalIsAtEnd(es, a.sequence);
    }
    if Lesson(lines).outcome == Some(Completed) {
      SuccessIsTold(es, lines, origin);
    }
  }

  lemma ClosedIsWellFormed(es: seq<Event>, lines: seq<Line>, origin: seq<int>, sessionId: Token, row: Status)
    requires ClosedStream(es, lines, origin, sessionId, row) && Sound(lines)
    ensures WellFormed(multiset(es), Some(row)) <==> NoUnpaired(lines, |lines|)
  {
    EnvelopeHolds(es, lines, origin, sessionId, row);
    EndingHolds(es, lines, origin, sessionId, row);
    OrphansIff(es, lines, origin);
    InRange(es, lines, origin);
    if NoUnpaired(lines, |lines|) {
      AccountedFor(es, lines, origin);
    }
  }

  lemma CloseAppends(s: State, code: Option<int>)
    requires !s.finalized && SequenceFree(s.store, s.nextSeq)
    ensures var t := Finalized(s, code, true);
      t.store == s.store + [TerminalEvent(s, code)] && t.row == DecideStatus(s) && t.store[..|t.store| - 1] == s.store
  {}

  lemma CloseEnds(s: State, lines: seq<Line>, origin: seq<int>, code: Option<int>)
    requires Recording(s, lines, origin)
    ensures var t := Finalized(s, code, true);
      ClosedStream(t.store, lines, origin + [-1], s.sessionId, t.row)
  {
    var e, t := TerminalEvent(s, code), Finalized(s, code, true);
    NumberedAppend(s.store, e, s.sessionId, s.nextId);
    TellsQuiet(s.store, lines, origin, e);
    CloseAppends(s, code);
    assert OwnIds(t.store, s.sessionId, s.nextId + 1);
  }

  lemma {:induction false} AfterAppend(s: State, a: seq<Action>, b: seq<Action>)
    requires After(s, a).Some?
    ensures After(s, a + b) == After(After(s, a).value, b)
    decreases |a|
  {
    if a == [] {
      assert a + b == b;
    } else {
      AfterAppend(Step(s, a[0]), a[1..], b);
      assert (a + b)[0] == a[0] && (a + b)[1..] == a[1..] + b;
    }
  }

  function Session(actions: seq<Action>, code: Option<int>): seq<Action> {
    [Spawn(true)] + (actions + [Close(code, true)])
  }

  /**
   * The writer against the checker.  Whatever sound lines the engine printed, and however
   * samples, program output, a timeout and terminate requests fell between them, the closed
   * stream and the session's row pass the validator exactly when no line reported an ending
   * that cannot be paired with a start.
   */
  lemma RecordedStreamIsValidIff(sessionId: Token, id: Token, actions: seq<Action>, code: Option<int>)
    requires AllOrdinary(actions) && Sound(LinesOf(actions))
    ensures var s := After(CreatedState(sessionId, id), Session(actions, code));
      s.Some? && (Report(s.value.store, Some(s.value.row)).valid <==> NoUnpaired(LinesOf(actions), |LinesOf(actions)|))
  {
    var s0 := CreatedState(sessionId, id);
    var s1 := Spawned(s0, true);
    var lines := LinesOf(actions);
    SpawnRecorded(sessionId, id);
    var origin := RunRecorded(s1, [], [-1, -1], actions);
    assert [] + lines == lines;
    var s2 := After(s1, actions).value;
    CloseEnds(s2, lines, origin, code);
    var s3 := Finalized(s2, code, true);
    ClosedIsWellFormed(s3.store, lines, origin + [-1], s2.sessionId, s3.row);
    ValidIffWellFormed(s3.store, Some(s3.row));
    AfterAppend(s1, actions, [Close(code, true)]);
    LastStep(s2, Close(code, true), s3);
    FirstStep(s0, Spawn(true), s1, actions + [Close(code, true)]);
  }

  lemma LastStep(s: State, a: Action, t: State)
    requires Enabled(s, a) && t == Step(s, a)
    ensures After(s, [a]) == Some(t)
  {
    assert [a][1..] == [];
  }

  lemma FirstStep(s: State, a: Action, t: State, rest: seq<Action>)
    requires Enabled(s, a) && t == Step(s, a)
    ensures After(s, [a] + rest) == After(t, rest)
  {
    assert ([a] + rest)[1..] == rest;
  }

  // The same for the lines of a run of the engine, or for as many of them as it printed.
  lemma EngineRunIsValidIff(run: Run, printed: nat, sessionId: Token, id: Token, actions: seq<Action>, code: Option<int>)
    requires ValidRun(run) && printed <= |RunNotes(run)|
    requires AllOrdinary(actions) && LinesOf(actions) == PrintedAll(RunNotes(run))[..printed]
    ensures var s := After(CreatedState(sessionId, id), Session(actions, code));
      s.Some? && (Report(s.value.store, Some(s.value.row)).valid <==> NoUnpaired(PrintedAll(RunNotes(run)), printed))
  {
    var lines := PrintedAll(RunNotes(run));
    RunIsSound(run);
    SoundPrefix(lines, printed);
    RecordedStreamIsValidIff(sessionId, id, actions, code);
    forall k {:trigger Unpaired(lines[k])} | 0 <= k < printed ensures Unpaired(lines[k]) <==> Unpaired(lines[..printed][k]) {
    }
    assert NoUnpaired(lines, printed) <==> NoUnpaired(lines[..printed], printed);
  }
}