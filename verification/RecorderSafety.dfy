/** What every interleaving of the recorder's steps keeps, with any insertions failing. */
module RecorderSafety {
  import opened Basics
  import opened Events
  import opened Engine
  import opened EngineStream
  import opened Recorder

  predicate Ascending(es: seq<Event>) {
    forall i, j {:trigger es[i], es[j]} :: 0 <= i < j < |es| ==> es[i].sequence < es[j].sequence
  }

  predicate AllBelow(es: seq<Event>, n: int) {
    forall i {:trigger es[i]} :: 0 <= i < |es| ==> es[i].sequence < n
  }

  predicate NoTerminal(es: seq<Event>) {
    forall i {:trigger IsTerminal(es[i])} :: 0 <= i < |es| ==> !IsTerminal(es[i])
  }

  // A terminal event is last, except that one line may still be stored after a child error.
  predicate TerminalTail(s: State) {
    var n := |s.store|;
    && (n >= 2 ==> NoTerminal(s.store[..n - 2]))
    && (n >= 2 && IsTerminal(s.store[n - 2]) ==>
          !IsTerminal(s.store[n - 1]) && s.store[n - 1].sequence == s.nextSeq && !s.registered)
  }

  predicate Inv(s: State) {
    && s.store != [] && s.store[0].kind == ExecutionCreated && s.store[0].sequence == 0
    && s.published == s.store[1..]
    && Ascending(s.store)
    && (s.phase == Phase.Created ==> |s.store| == 1 && !s.registered && !s.finalized && s.nextSeq == 1 && !IsFinal(s.row))
    && (s.registered ==> s.phase == Live && !s.finalized && AllBelow(s.store, s.nextSeq))
    && (s.phase == Live && !s.registered ==> s.finalized && AllBelow(s.store, s.nextSeq + 1) && IsFinal(s.row))
    && (s.registered || !IsFinal(s.row) ==> NoTerminal(s.store) && !IsFinal(s.row))
    && TerminalTail(s)
  }

  lemma Initially(sessionId: Token, id: Token)
    ensures Inv(CreatedState(sessionId, id))
  {}

  // Appending an event with a larger sequence keeps the order and the mirror in the bus.
  lemma AppendKeepsOrder(store: seq<Event>, ev: Event)
    requires store != [] && Ascending(store) && AllBelow(store, ev.sequence)
    ensures Ascending(store + [ev]) && AllBelow(store + [ev], ev.sequence + 1) && (store + [ev])[1..] == store[1..] + [ev]
    ensures SequenceFree(store, ev.sequence)
  {
    var more := store + [ev];
    forall i, j {:trigger more[i], more[j]} | 0 <= i < j < |more| ensures more[i].sequence < more[j].sequence {
      assert more[i] == store[i] && (j < |store| ==> more[j] == store[j]);
    }
    forall i {:trigger more[i]} | 0 <= i < |more| ensures more[i].sequence < ev.sequence + 1 {
      assert i < |store| ==> more[i] == store[i];
    }
  }

  lemma AppendKeepsTail(s: State, ev: Event, after: State)
    requires NoTerminal(s.store) && after.store == s.store + [ev]
    ensures TerminalTail(after)
    ensures !IsTerminal(ev) ==> NoTerminal(after.store)
  {
    var n := |after.store|;
    forall i {:trigger IsTerminal(after.store[i])} | 0 <= i < n - 1 ensures !IsTerminal(after.store[i]) {
      assert !IsTerminal(s.store[i]);
    }
    if n >= 2 {
      forall i {:trigger IsTerminal(after.store[..n - 2][i])} | 0 <= i < n - 2 ensures !IsTerminal(after.store[..n - 2][i]) {
        assert !IsTerminal(after.store[i]);
      }
    }
  }

  // The part of the state the invariant speaks of.
  predicate SameRecord(s: State, t: State) {
    && s.store == t.store && s.published == t.published && s.row == t.row && s.phase == t.phase
    && s.registered == t.registered && s.finalized == t.finalized && s.nextSeq == t.nextSeq
  }

  lemma SameKeeps(s: State, t: State)
    requires Inv(s) && SameRecord(s, t)
    ensures Inv(t)
  {}

  lemma ObserveKeeps(s: State, ev: Event)
    ensures SameRecord(s, Observe(s, ev))
  {}

  // While the session is registered, an event takes the next number.
  lemma EmitRegistered(s: State, ev: Event, ok: bool)
    requires Inv(s) && s.registered && !IsTerminal(ev)
    ensures Inv(Emit(s, ev, ok))
  {
    var numbered, t := ev.(sequence := s.nextSeq), Emit(s, ev, ok);
    AppendKeepsOrder(s.store, numbered);
    if ok {
      AppendKeepsTail(s, numbered, t);
    }
  }

  // After a child error a late line keeps the number that was next, so one fits at most.
  lemma EmitLate(s: State, ev: Event, ok: bool)
    requires Inv(s) && s.phase == Live && !s.registered && !IsTerminal(ev) && ev.sequence == s.nextSeq
    ensures Inv(Emit(s, ev, ok))
  {
    if Accepts(s.store, ev, ok) {
      LateBelow(s.store, s.nextSeq);
      AppendKeepsOrder(s.store, ev);
      LateTail(s, ev, Emit(s, ev, ok));
    }
  }

  lemma LateBelow(store: seq<Event>, n: int)
    requires AllBelow(store, n + 1) && SequenceFree(store, n)
    ensures AllBelow(store, n)
  {}

  lemma LateTail(s: State, ev: Event, t: State)
    requires TerminalTail(s) && SequenceFree(s.store, s.nextSeq) && !IsTerminal(ev) && ev.sequence == s.nextSeq
    requires s.store != [] && !s.registered && !t.registered && t.store == s.store + [ev] && t.nextSeq == s.nextSeq
    ensures TerminalTail(t)
    ensures NoTerminal(s.store) ==> NoTerminal(t.store)
  {
    var n := |s.store|;
    if n >= 2 {
      assert s.store[n - 1].sequence != s.nextSeq;
      assert !IsTerminal(s.store[n - 2]);
    }
    forall i {:trigger IsTerminal(t.store[..n - 1][i])} | 0 <= i < n - 1 ensures !IsTerminal(t.store[..n - 1][i]) {
      if i < n - 2 {
        assert !IsTerminal(s.store[..n - 2][i]);
      }
    }
    if NoTerminal(s.store) {
      forall i {:trigger IsTerminal(t.store[i])} | 0 <= i < n + 1 ensures !IsTerminal(t.store[i]) {
        assert i < n ==> !IsTerminal(s.store[i]);
      }
    }
  }

  lemma RoutedKeeps(s: State, line: Line, ok: bool)
    requires Inv(s) && s.phase == Live
    ensures Inv(Routed(s, line, ok))
  {
    match line {
      case Garbled =>
      case Object(raw) =>
        var ev := Normalize(raw, s.nextId, s.sessionId, s.nextSeq);
        var t := Emit(Taken(s), ev, ok);
        SameKeeps(s, Taken(s));
        if s.registered {
          EmitRegistered(Taken(s), ev, ok);
        } else {
          EmitLate(Taken(s), ev, ok);
        }
        ObserveKeeps(t, ev);
        SameKeeps(t, Observe(t, ev));
    }
  }

  // A terminal event on a store that holds none, with the row final.
  lemma TerminalAppended(s: State, ev: Event, t: State)
    requires Inv(s) && NoTerminal(s.store) && AllBelow(s.store, ev.sequence)
    requires t.store == s.store + [ev] && t.published == s.published + [ev] && !t.registered && IsFinal(t.row)
    requires t.phase != Phase.Created && (t.phase == Live ==> t.finalized && ev.sequence < t.nextSeq + 1)
    ensures Inv(t)
  {
    AppendKeepsOrder(s.store, ev);
    AppendKeepsTail(s, ev, t);
    assert t.published == t.store[1..];
  }

  lemma SpawnedKeeps(s: State, ok: bool)
    requires Inv(s) && s.phase == Phase.Created
    ensures Inv(Spawned(s, ok))
  {
    var first := Taken(s).(phase := Live, registered := true, nextSeq := 1);
    assert AllBelow(s.store, 1) && NoTerminal(s.store);
    EmitRegistered(first, GatewayEvent(s, ExecutionStarted, None, NO_FIELDS, 0), ok);
  }

  lemma FailedBeforeStartKeeps(s: State, ok: bool)
    requires Inv(s) && s.phase == Phase.Created
    ensures Inv(FailedBeforeStart(s, ok))
  {
    var ev := GatewayEvent(s, ExecutionFailed, None, LAUNCH_FAILURE, 1);
    if Accepts(s.store, ev, ok) {
      TerminalAppended(s, ev, FailedBeforeStart(s, ok));
    }
  }

  lemma FinalizedKeeps(s: State, code: Option<int>, ok: bool)
    requires Inv(s) && s.phase == Live
    ensures Inv(Finalized(s, code, ok))
  {
    if !s.finalized {
      var ev := TerminalEvent(s, code);
      if Accepts(s.store, ev, ok) {
        TerminalAppended(s, ev, Finalized(s, code, ok));
      }
    }
  }

  lemma FinalizedFailedKeeps(s: State, ok: bool)
    requires Inv(s) && s.phase == Live
    ensures Inv(FinalizedFailed(s, ok))
  {
    if !s.finalized {
      var ev := GatewayEvent(s, ExecutionFailed, None, LAUNCH_FAILURE, 0);
      var numbered := ev.(sequence := s.nextSeq);
      AppendKeepsOrder(s.store, numbered);
      if ok {
        TerminalAppended(s, numbered, FinalizedFailed(s, ok));
      }
    }
  }

  lemma {:induction false} MaxIsAbove(store: seq<Event>, i: nat)
    requires i < |store|
    ensures store[i].sequence <= MaxSequence(store)
  {
    if i < |store| - 1 {
      MaxIsAbove(store[..|store| - 1], i);
    }
  }

  lemma RecoveredKeeps(s: State, ok: bool)
    requires Inv(s) && s.phase == Gone && !IsFinal(s.row)
    ensures Inv(Abandoned(s, ok))
  {
    var ev := GatewayEvent(s, ExecutionFailed, None, LAUNCH_FAILURE, MaxSequence(s.store) + 1);
    if Accepts(s.store, ev, ok) {
      forall i {:trigger s.store[i]} | 0 <= i < |s.store| ensures s.store[i].sequence < ev.sequence {
        MaxIsAbove(s.store, i);
      }
      TerminalAppended(s, ev, Abandoned(s, ok));
    }
  }

  lemma AbandonedKeeps(s: State, ok: bool)
    requires Inv(s) && s.phase != Phase.Created
    ensures Inv(Abandoned(s, ok))
  {
    if s.registered {
      FinalizedFailedKeeps(s, ok);
    } else if !IsFinal(s.row) {
      RecoveredKeeps(s, ok);
    }
  }

  lemma StepKeeps(s: State, a: Action)
    requires Inv(s) && Enabled(s, a)
    ensures Inv(Step(s, a))
  {
    match a {
      case Spawn(ok) => SpawnedKeeps(s, ok);
      case FailBeforeStart(ok) => FailedBeforeStartKeeps(s, ok);
      case EngineLine(line, ok) => RoutedKeeps(s, line, ok);
      case Snapshot(pid, ok) =>
        if s.registered {
          SameKeeps(s, Taken(s));
          EmitRegistered(Taken(s), GatewayEvent(s, ProcessSnapshot, Some(pid), NO_FIELDS, 0), ok);
        }
      case ChildError(ok) => FinalizedFailedKeeps(s, ok);
      case Close(code, ok) => FinalizedKeeps(s, code, ok);
      case Abandon(ok) => AbandonedKeeps(s, ok);
      case Crash =>
      case _ => SameKeeps(s, Step(s, a));
    }
  }

  lemma {:induction false} RunKeeps(s: State, actions: seq<Action>)
    requires Inv(s)
    ensures After(s, actions).Some? ==> Inv(After(s, actions).value)
    decreases |actions|
  {
    if actions != [] && Enabled(s, actions[0]) {
      StepKeeps(s, actions[0]);
      RunKeeps(Step(s, actions[0]), actions[1..]);
    }
  }

  function Terminals(es: seq<Event>): seq<Event> {
    if es == [] then [] else (if IsTerminal(es[0]) then [es[0]] else []) + Terminals(es[1..])
  }

  lemma {:induction false} NoneIsNone(es: seq<Event>)
    requires NoTerminal(es)
    ensures Terminals(es) == []
  {
    if es != [] {
      assert !IsTerminal(es[0]);
      forall i {:trigger IsTerminal(es[1..][i])} | 0 <= i < |es| - 1 ensures !IsTerminal(es[1..][i]) {
        assert !IsTerminal(es[i + 1]);
      }
      NoneIsNone(es[1..]);
    }
  }

  lemma Regroup(now: seq<Event>, a: seq<Event>, b: seq<Event>, both: seq<Event>)
    requires both == a + b
    ensures now + both == now + a + b
  {}

  lemma {:induction false} TerminalsAppend(a: seq<Event>, b: seq<Event>)
    ensures Terminals(a + b) == Terminals(a) + Terminals(b)
  {
    if a == [] {
      assert a + b == b;
    } else {
      TerminalsAppend(a[1..], b);
      assert (a + b)[0] == a[0] && (a + b)[1..] == a[1..] + b;
      Regroup(if IsTerminal(a[0]) then [a[0]] else [], Terminals(a[1..]), Terminals(b), Terminals(a[1..] + b));
    }
  }

  lemma PairHasOne(a: Event, b: Event)
    requires !IsTerminal(a) || !IsTerminal(b)
    ensures |Terminals([a, b])| <= 1
  {
    var rest := [a, b][1..];
    assert rest == [b] && rest[1..] == [];
    assert Terminals(rest) == if IsTerminal(b) then [b] else [];
  }

  lemma TailHasOne(s: State)
    requires TerminalTail(s)
    ensures |Terminals(s.store)| <= 1
  {
    var n := |s.store|;
    if n >= 2 {
      var tail := [s.store[n - 2], s.store[n - 1]];
      NoneIsNone(s.store[..n - 2]);
      assert s.store == s.store[..n - 2] + tail;
      TerminalsAppend(s.store[..n - 2], tail);
      PairHasOne(s.store[n - 2], s.store[n - 1]);
    } else if n == 1 {
      assert s.store[1..] == [];
    }
  }

  lemma TerminalIsLate(s: State, i: nat)
    requires TerminalTail(s) && i < |s.store| && IsTerminal(s.store[i])
    ensures i >= |s.store| - 2
  {
    if |s.store| >= 2 {
      var head := s.store[..|s.store| - 2];
      assert forall k {:trigger s.store[k]} :: 0 <= k < |head| ==> head[k] == s.store[k] && !IsTerminal(head[k]);
    }
  }

  /**
   * In every run, with any insertions failing: what was published is exactly what was stored
   * after the creating transaction, in the same order; sequences strictly increase; and at
   * most one terminal event exists, with at most one event after it.
   */
  lemma PublishedIsStored(sessionId: Token, id: Token, actions: seq<Action>)
    requires After(CreatedState(sessionId, id), actions).Some?
    ensures var s := After(CreatedState(sessionId, id), actions).value;
      && s.store != [] && s.published == s.store[1..]
      && Ascending(s.store) && |Terminals(s.store)| <= 1
      && (forall i {:trigger IsTerminal(s.store[i])} :: 0 <= i < |s.store| && IsTerminal(s.store[i]) ==> i >= |s.store| - 2)
  {
    Initially(sessionId, id);
    RunKeeps(CreatedState(sessionId, id), actions);
    var s := After(CreatedState(sessionId, id), actions).value;
    TailHasOne(s);
    forall i {:trigger IsTerminal(s.store[i])} | 0 <= i < |s.store| && IsTerminal(s.store[i]) ensures i >= |s.store| - 2 {
      TerminalIsLate(s, i);
    }
  }

  // ------------------------------------------------------ when the terminal event is last

  predicate TerminalIsLast(store: seq<Event>) {
    forall i {:trigger IsTerminal(store[i])} :: 0 <= i < |store| && IsTerminal(store[i]) ==> i == |store| - 1
  }

  // A child error, or the gateway giving up, ends a live session while its child may still write.
  predicate EndsEarly(a: Action) {
    a.ChildError? || a.Abandon?
  }

  // A line that is an event of the engine and that the database accepts.
  predicate StoresLine(a: Action) {
    a.EngineLine? && a.line.Object? && a.ok
  }

  predicate AnyLine(actions: seq<Action>) {
    exists i {:trigger StoresLine(actions[i])} :: 0 <= i < |actions| && StoresLine(actions[i])
  }

  // The first early end is stored, and some line after it is.
  predicate LineAfterEarlyEnd(actions: seq<Action>) {
    if actions == [] then false
    else if EndsEarly(actions[0]) then actions[0].ok && AnyLine(actions[1..])
    else LineAfterEarlyEnd(actions[1..])
  }

  lemma AnyLineCons(actions: seq<Action>)
    requires actions != []
    ensures AnyLine(actions) <==> StoresLine(actions[0]) || AnyLine(actions[1..])
  {
    if AnyLine(actions) {
      var i :| 0 <= i < |actions| && StoresLine(actions[i]);
      assert i > 0 ==> StoresLine(actions[1..][i - 1]);
    }
    if AnyLine(actions[1..]) {
      var i :| 0 <= i < |actions[1..]| && StoresLine(actions[1..][i]);
      assert StoresLine(actions[i + 1]);
    }
  }

  lemma {:induction false} LineAfterNeedsLine(actions: seq<Action>)
    ensures LineAfterEarlyEnd(actions) ==> AnyLine(actions)
  {
    if actions != [] {
      AnyLineCons(actions);
      LineAfterNeedsLine(actions[1..]);
    }
  }

  // Once the child is gone no line is routed any more, and a final row keeps the store as it is.
  lemma {:induction false} GoneTakesNoLine(s: State, actions: seq<Action>)
    requires s.phase == Gone && !s.registered && After(s, actions).Some?
    ensures !AnyLine(actions)
    ensures IsFinal(s.row) ==> After(s, actions).value.store == s.store
    decreases |actions|
  {
    if actions != [] {
      AnyLineCons(actions);
      GoneTakesNoLine(Step(s, actions[0]), actions[1..]);
    }
  }

  lemma NoTerminalIsLast(store: seq<Event>)
    requires NoTerminal(store)
    ensures TerminalIsLast(store)
  {}

  lemma GoneStep(s: State, a: Action)
    requires Inv(s) && Enabled(s, a) && s.phase == Gone
    ensures var t := Step(s, a);
      t.phase == Gone && !t.registered && (t.store == s.store || (IsFinal(t.row) && t.store == s.store + [t.store[|t.store| - 1]]))
  {}

  // A session without a child whose end is still to be recorded, by recovery.
  lemma {:induction false} RecoveryIsLast(s: State, actions: seq<Action>)
    requires Inv(s) && s.phase == Gone && NoTerminal(s.store) && After(s, actions).Some?
    ensures TerminalIsLast(After(s, actions).value.store)
    decreases |actions|
  {
    if actions == [] {
      NoTerminalIsLast(s.store);
    } else {
      var t := Step(s, actions[0]);
      StepKeeps(s, actions[0]);
      GoneStep(s, actions[0]);
      if t.store == s.store {
        RecoveryIsLast(t, actions[1..]);
      } else {
        GoneTakesNoLine(t, actions[1..]);
        LastIsTerminal(s.store, t.store);
      }
    }
  }

  lemma LastIsTerminal(before: seq<Event>, store: seq<Event>)
    requires NoTerminal(before) && |store| == |before| + 1 && before == store[..|before|]
    ensures TerminalIsLast(store)
  {
    forall i {:trigger store[i]} | 0 <= i < |before| ensures !IsTerminal(store[i]) {
      assert store[i] == before[i] && !IsTerminal(before[i]);
    }
  }

  // After an early end: the terminal event was stored, the next number is free.
  predicate EndedEarly(s: State) {
    && s.phase == Live && !s.registered && s.finalized && IsFinal(s.row)
    && s.store != [] && IsTerminal(s.store[|s.store| - 1]) && TerminalIsLast(s.store) && AllBelow(s.store, s.nextSeq)
  }

  // A terminal event with an event after it.
  predicate Buried(store: seq<Event>, i: nat) {
    i + 1 < |store| && IsTerminal(store[i])
  }

  lemma RecordGrows(s: State, ev: Event, ok: bool)
    ensures s.store <= Record(s, ev, ok).store && s.store <= Emit(s, ev, ok).store
  {}

  lemma RoutedGrows(s: State, line: Line, ok: bool)
    ensures s.store <= Routed(s, line, ok).store
  {
    if line.Object? {
      RecordGrows(Taken(s), Normalize(line.raw, s.nextId, s.sessionId, s.nextSeq), ok);
    }
  }

  lemma StepGrows(s: State, a: Action)
    ensures s.store <= Step(s, a).store
  {
    if a.EngineLine? {
      RoutedGrows(s, a.line, a.ok);
    }
  }

  lemma {:induction false} StaysBuried(s: State, i: nat, actions: seq<Action>)
    requires Buried(s.store, i) && After(s, actions).Some?
    ensures Buried(After(s, actions).value.store, i)
    decreases |actions|
  {
    if actions != [] {
      StepGrows(s, actions[0]);
      StaysBuried(Step(s, actions[0]), i, actions[1..]);
    }
  }

  lemma {:induction false} EarlyEndIsLastIff(s: State, actions: seq<Action>)
    requires EndedEarly(s) && After(s, actions).Some?
    ensures TerminalIsLast(After(s, actions).value.store) <==> !AnyLine(actions)
    decreases |actions|
  {
    if actions != [] {
      var t, rest := Step(s, actions[0]), actions[1..];
      AnyLineCons(actions);
      if StoresLine(actions[0]) {
        assert t.store[..|s.store|] == s.store && Buried(t.store, |s.store| - 1);
        StaysBuried(t, |s.store| - 1, rest);
        var end := After(t, rest).value.store;
        assert IsTerminal(end[|s.store| - 1]);
      } else if t.phase == Gone {
        GoneTakesNoLine(t, rest);
      } else {
        EarlyEndIsLastIff(t, rest);
      }
    }
  }

  // An early end that could not be stored leaves a final row and no terminal event at all.
  lemma {:induction false} UnstoredEndHasNone(s: State, actions: seq<Action>)
    requires Inv(s) && s.phase != Phase.Created && !s.registered && IsFinal(s.row) && NoTerminal(s.store) && After(s, actions).Some?
    requires s.phase == Live ==> s.finalized
    ensures NoTerminal(After(s, actions).value.store)
    decreases |actions|
  {
    if actions != [] {
      StepKeeps(s, actions[0]);
      var t := Step(s, actions[0]);
      UnstoredStaysUnstored(s, actions[0]);
      UnstoredEndHasNone(t, actions[1..]);
    }
  }

  lemma NoTerminalAppend(store: seq<Event>, ev: Event)
    requires NoTerminal(store) && !IsTerminal(ev)
    ensures NoTerminal(store + [ev])
  {
    forall i {:trigger IsTerminal((store + [ev])[i])} | 0 <= i < |store + [ev]| ensures !IsTerminal((store + [ev])[i]) {
      assert i < |store| ==> !IsTerminal(store[i]);
    }
  }

  lemma RoutedIsQuiet(s: State, line: Line, ok: bool)
    requires NoTerminal(s.store)
    ensures NoTerminal(Routed(s, line, ok).store)
  {
    if line.Object? {
      var ev := Normalize(line.raw, s.nextId, s.sessionId, s.nextSeq);
      NoTerminalAppend(s.store, ev);
      NoTerminalAppend(s.store, ev.(sequence := s.nextSeq));
    }
  }

  lemma UnstoredStaysUnstored(s: State, a: Action)
    requires Inv(s) && Enabled(s, a) && s.phase != Phase.Created && !s.registered && IsFinal(s.row) && NoTerminal(s.store)
    requires s.phase == Live ==> s.finalized
    ensures var t := Step(s, a);
      t.phase != Phase.Created && !t.registered && IsFinal(t.row) && NoTerminal(t.store) && (t.phase == Live ==> t.finalized)
  {
    if a.EngineLine? {
      RoutedIsQuiet(s, a.line, a.ok);
    }
  }

  lemma EarlyEnd(s: State, a: Action)
    requires Inv(s) && Enabled(s, a) && s.registered && EndsEarly(a)
    ensures var t := Step(s, a);
      if a.ok then EndedEarly(t) else t.phase == Live && !t.registered && t.finalized && IsFinal(t.row) && t.store == s.store
  {
    var ev := GatewayEvent(s, ExecutionFailed, None, LAUNCH_FAILURE, 0).(sequence := s.nextSeq);
    AppendKeepsOrder(s.store, ev);
    if a.ok {
      LastIsTerminal(s.store, Step(s, a).store);
    }
  }

  // The session has not ended: nothing terminal is stored, and its child was not waited for.
  predicate Open(s: State) {
    s.phase == Phase.Created || s.registered
  }

  lemma OpenIsUnended(s: State)
    requires Inv(s) && Open(s)
    ensures NoTerminal(s.store)
  {}

  lemma CloseOrCrash(s: State, a: Action)
    requires Inv(s) && Enabled(s, a) && Open(s) && !Open(Step(s, a)) && !EndsEarly(a)
    ensures var t := Step(s, a);
      t.phase == Gone && !t.registered && (NoTerminal(t.store) || (IsFinal(t.row) && TerminalIsLast(t.store)))
  {
    var t := Step(s, a);
    OpenIsUnended(s);
    if t.store != s.store {
      LastIsTerminal(s.store, t.store);
    }
  }

  lemma {:induction false} OpenIsLastIff(s: State, actions: seq<Action>)
    requires Inv(s) && Open(s) && After(s, actions).Some?
    ensures TerminalIsLast(After(s, actions).value.store) <==> !LineAfterEarlyEnd(actions)
    decreases |actions|
  {
    if actions == [] {
      NoTerminalIsLast(s.store);
    } else {
      var a, t, rest := actions[0], Step(s, actions[0]), actions[1..];
      StepKeeps(s, a);
      if EndsEarly(a) {
        EarlyEnd(s, a);
        if a.ok {
          EarlyEndIsLastIff(t, rest);
        } else {
          UnstoredEndHasNone(t, rest);
          NoTerminalIsLast(After(t, rest).value.store);
        }
      } else if Open(t) {
        OpenIsLastIff(t, rest);
      } else {
        CloseOrCrash(s, a);
        GoneTakesNoLine(t, rest);
        LineAfterNeedsLine(rest);
        if NoTerminal(t.store) {
          RecoveryIsLast(t, rest);
        }
      }
    }
  }

  /**
   * Over whole runs: the terminal event is the last one stored if and only if no line is
   * accepted after a stored early end of the session.
   */
  lemma TerminalIsLastIff(sessionId: Token, id: Token, actions: seq<Action>)
    requires After(CreatedState(sessionId, id), actions).Some?
    ensures TerminalIsLast(After(CreatedState(sessionId, id), actions).value.store) <==> !LineAfterEarlyEnd(actions)
  {
    Initially(sessionId, id);
    OpenIsLastIff(CreatedState(sessionId, id), actions);
  }

  /**
   * On the closing path the terminal event is stored last and stays last, whatever happens to
   * the session afterwards.
   */
  lemma CloseIsLast(sessionId: Token, id: Token, actions: seq<Action>, code: Option<int>, more: seq<Action>)
    requires After(CreatedState(sessionId, id), actions).Some? && After(CreatedState(sessionId, id), actions).value.registered
    requires After(Finalized(After(CreatedState(sessionId, id), actions).value, code, true), more).Some?
    ensures var s := After(CreatedState(sessionId, id), actions).value;
      After(Finalized(s, code, true), more).value.store == s.store + [TerminalEvent(s, code)]
      && NoTerminal(s.store) && IsTerminal(TerminalEvent(s, code))
  {
    Initially(sessionId, id);
    RunKeeps(CreatedState(sessionId, id), actions);
    var s := After(CreatedState(sessionId, id), actions).value;
    AppendKeepsOrder(s.store, TerminalEvent(s, code));
    GoneTakesNoLine(Finalized(s, code, true), more);
  }

  // After a child error one late line is still stored, after the terminal event.
  lemma LateLineFollowsChildError(sessionId: Token, id: Token)
    ensures var s := After(CreatedState(sessionId, id),
                         [Spawn(true), ChildError(true), EngineLine(Object(Raw(SESSION_SUMMARY, None, None, None, None, None, None)), true)]);
      s.Some? && |s.value.store| == 4 && IsTerminal(s.value.store[2]) && !IsTerminal(s.value.store[3])
  {
    var line := Object(Raw(SESSION_SUMMARY, None, None, None, None, None, None));
    var s0 := CreatedState(sessionId, id);
    var s1 := Step(s0, Spawn(true));
    var s2 := Step(s1, ChildError(true));
    var s3 := Step(s2, EngineLine(line, true));
    assert [Spawn(true), ChildError(true), EngineLine(line, true)][1..] == [ChildError(true), EngineLine(line, true)];
    assert [ChildError(true), EngineLine(line, true)][1..] == [EngineLine(line, true)];
    assert [EngineLine(line, true)][1..] == [];
    assert |s1.store| == 2 && |s2.store| == 3 && |s3.store| == 4;
    assert After(s3, []) == Some(s3);
    assert After(s2, [EngineLine(line, true)]) == Some(s3);
    assert After(s1, [ChildError(true), EngineLine(line, true)]) == Some(s3);
  }
}
