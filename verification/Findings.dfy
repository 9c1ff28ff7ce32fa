/**
 * What the validator reports, finding by finding: which events break which rule, said of the
 * sorted stream alone, and what the summary holds.
 */
module Findings {
  import opened Basics
  import opened Events
  import opened Validator
  import opened StreamRules

  // The finding names the rule and cites these events.  Only I13 warns.
  predicate Says(v: Violation, rule: InvariantId, es: seq<Event>) {
    && v.invariantId == rule && (v.severity == Warning <==> rule == I13)
    && |v.sequences| == |es| && |v.eventIds| == |es|
    && forall i {:trigger es[i]} :: 0 <= i < |es| ==> v.sequences[i] == es[i].sequence && v.eventIds[i] == es[i].id
  }

  lemma FaultSays(v: Violation, rule: InvariantId, es: seq<Event>)
    requires rule != I13
    ensures v == Fault(rule, es) <==> Says(v, rule, es)
  {
    if Says(v, rule, es) {
      assert v.sequences == SequencesOf(es) && v.eventIds == IdsOf(es);
    }
  }

  lemma WarningSays(v: Violation, e: Event)
    ensures v == Fault(I13, [e]).(severity := Warning) <==> Says(v, I13, [e])
  {
    if Says(v, I13, [e]) {
      assert v.sequences == SequencesOf([e]) && v.eventIds == IdsOf([e]);
    }
  }

  // ------------------------------------------------------------------ the numbering

  predicate SequenceSeen(s: seq<Event>, j: nat)
    requires j < |s|
  {
    exists h {:trigger s[h]} :: 0 <= h < j && s[h].sequence == s[j].sequence
  }

  predicate IdSeen(s: seq<Event>, j: nat)
    requires j < |s|
  {
    exists h {:trigger s[h]} :: 0 <= h < j && s[h].id == s[j].id
  }

  predicate UniqueAt(s: seq<Event>, v: Violation, j: nat)
    requires j < |s|
  {
    (SequenceSeen(s, j) && Says(v, I2, [s[j]])) || (IdSeen(s, j) && Says(v, I8, [s[j]]))
  }

  ghost predicate UniqueFrom(s: seq<Event>, v: Violation, i: nat) {
    exists j: nat {:trigger UniqueAt(s, v, j)} :: i <= j < |s| && UniqueAt(s, v, j)
  }

  ghost predicate SeenSo(s: seq<Event>, i: nat, sequences: set<int>, ids: set<Token>) {
    && i <= |s|
    && (forall x :: x in sequences <==> exists h {:trigger s[h]} :: 0 <= h < i && s[h].sequence == x)
    && (forall x :: x in ids <==> exists h {:trigger s[h]} :: 0 <= h < i && s[h].id == x)
  }

  lemma SeenMore(s: seq<Event>, i: nat, sequences: set<int>, ids: set<Token>)
    requires SeenSo(s, i, sequences, ids) && i < |s|
    ensures SeenSo(s, i + 1, sequences + {s[i].sequence}, ids + {s[i].id})
  {}

  lemma UniqueNow(s: seq<Event>, i: nat, sequences: set<int>, ids: set<Token>, v: Violation)
    requires SeenSo(s, i, sequences, ids) && i < |s|
    ensures UniqueAt(s, v, i) <==>
      (s[i].sequence in sequences && v == Fault(I2, [s[i]])) || (s[i].id in ids && v == Fault(I8, [s[i]]))
  {
    FaultSays(v, I2, [s[i]]);
    FaultSays(v, I8, [s[i]]);
  }

  lemma {:induction false} UniqueFindings(s: seq<Event>, i: nat, sequences: set<int>, ids: set<Token>, v: Violation)
    requires SeenSo(s, i, sequences, ids)
    ensures v in CheckUnique(s, i, sequences, ids) <==> UniqueFrom(s, v, i)
    decreases |s| - i
  {
    if i < |s| {
      SeenMore(s, i, sequences, ids);
      UniqueFindings(s, i + 1, sequences + {s[i].sequence}, ids + {s[i].id}, v);
      UniqueNow(s, i, sequences, ids, v);
      assert UniqueFrom(s, v, i) <==> UniqueAt(s, v, i) || UniqueFrom(s, v, i + 1);
    }
  }

  predicate NotAbove(s: seq<Event>, v: Violation, j: nat)
    requires 1 <= j < |s|
  {
    s[j].sequence <= s[j - 1].sequence && Says(v, I3, [s[j - 1], s[j]])
  }

  ghost predicate NotAboveFrom(s: seq<Event>, v: Violation, i: nat)
    requires 1 <= i
  {
    exists j: nat {:trigger NotAbove(s, v, j)} :: i <= j < |s| && NotAbove(s, v, j)
  }

  lemma {:induction false} IncreasingFindings(s: seq<Event>, i: nat, v: Violation)
    requires 1 <= i
    ensures v in CheckIncreasing(s, i) <==> NotAboveFrom(s, v, i)
    decreases |s| - i
  {
    if i < |s| {
      IncreasingFindings(s, i + 1, v);
      FaultSays(v, I3, [s[i - 1], s[i]]);
      assert NotAboveFrom(s, v, i) <==> NotAbove(s, v, i) || NotAboveFrom(s, v, i + 1);
    }
  }

  predicate InPlace(s: seq<Event>, j: nat)
    requires j < |s|
  {
    s[j].sequence == j
  }

  // The first event that does not sit at its own number.
  predicate FirstGap(s: seq<Event>, v: Violation, j: nat, i: nat)
    requires j < |s|
  {
    !InPlace(s, j) && Says(v, I4, [s[j]]) && forall h: nat {:trigger InPlace(s, h)} :: i <= h < j ==> InPlace(s, h)
  }

  ghost predicate GapFrom(s: seq<Event>, v: Violation, i: nat) {
    exists j: nat {:trigger FirstGap(s, v, j, i)} :: i <= j < |s| && FirstGap(s, v, j, i)
  }

  lemma GapStep(s: seq<Event>, v: Violation, i: nat)
    requires i < |s|
    ensures InPlace(s, i) ==> (GapFrom(s, v, i) <==> GapFrom(s, v, i + 1))
    ensures !InPlace(s, i) ==> (GapFrom(s, v, i) <==> Says(v, I4, [s[i]]))
  {
    if InPlace(s, i) {
      if GapFrom(s, v, i) {
        var j: nat :| i <= j < |s| && FirstGap(s, v, j, i);
        assert FirstGap(s, v, j, i + 1);
      }
      if GapFrom(s, v, i + 1) {
        var j: nat :| i + 1 <= j < |s| && FirstGap(s, v, j, i + 1);
        assert FirstGap(s, v, j, i);
      }
    } else if Says(v, I4, [s[i]]) {
      assert FirstGap(s, v, i, i);
    }
  }

  lemma {:induction false} ContiguousFindings(s: seq<Event>, i: nat, v: Violation)
    requires i <= |s|
    ensures v in CheckContiguous(s, i) <==> GapFrom(s, v, i)
    decreases |s| - i
  {
    if i < |s| {
      FaultSays(v, I4, [s[i]]);
      GapStep(s, v, i);
      if InPlace(s, i) {
        ContiguousFindings(s, i + 1, v);
      }
    }
  }

  // ------------------------------------------------------------------- the envelope

  predicate Ended(e: Event) {
    e.kind == ExecutionCompleted || e.kind == ExecutionFailed || e.kind == ExecutionTimeout || e.kind == ExecutionCancelled
  }

  predicate FirstEnd(s: seq<Event>, k: nat) {
    k < |s| && Ended(s[k]) && forall h {:trigger s[h]} :: 0 <= h < k ==> !Ended(s[h])
  }

  predicate NeverEnds(s: seq<Event>) {
    forall e <- s :: !Ended(e)
  }

  function EndsOf(s: seq<Event>): seq<Event> {
    if s == [] then [] else EndsOf(s[..|s| - 1]) + (if Ended(s[|s| - 1]) then [s[|s| - 1]] else [])
  }

  function LateOne(e: Event, after: int): seq<Event> {
    if e.kind == ProcessSnapshot && after < e.sequence then [e] else []
  }

  function LateSamples(s: seq<Event>, after: int): seq<Event> {
    if s == [] then [] else LateSamples(s[..|s| - 1], after) + LateOne(s[|s| - 1], after)
  }

  lemma Fold(now: seq<Event>, a: seq<Event>, b: seq<Event>)
    ensures now + (a + b) == (now + a) + b
  {}

  lemma {:induction false} EndsOfCons(e: Event, rest: seq<Event>)
    ensures EndsOf([e] + rest) == (if Ended(e) then [e] else []) + EndsOf(rest)
  {
    var now := if Ended(e) then [e] else [];
    if rest == [] {
      assert [e] + rest == [e] && [e][..0] == rest && now + [] == now;
    } else {
      var init, last := rest[..|rest| - 1], rest[|rest| - 1];
      EndsOfCons(e, init);
      assert ([e] + rest)[..|rest|] == [e] + init;
      Fold(now, EndsOf(init), if Ended(last) then [last] else []);
    }
  }

  lemma {:induction false} EndsAreTerminals(s: seq<Event>)
    ensures EndsOf(s) == Terminals(s)
  {
    if s != [] {
      EndsAreTerminals(s[1..]);
      EndsOfCons(s[0], s[1..]);
      assert s == [s[0]] + s[1..];
    }
  }

  lemma LateSamplesAppend(s: seq<Event>, e: Event, after: int)
    ensures LateSamples(s + [e], after) == LateSamples(s, after) + LateOne(e, after)
  {
    assert (s + [e])[..|s|] == s;
  }

  lemma {:induction false} LateSamplesCons(e: Event, rest: seq<Event>, after: int)
    ensures LateSamples([e] + rest, after) == LateOne(e, after) + LateSamples(rest, after)
  {
    if rest == [] {
      LateSamplesAppend([], e, after);
      assert [e] + rest == [] + [e];
    } else {
      var init, last := rest[..|rest| - 1], rest[|rest| - 1];
      LateSamplesCons(e, init, after);
      assert rest == init + [last] && [e] + rest == ([e] + init) + [last];
      LateSamplesAppend(init, last, after);
      LateSamplesAppend([e] + init, last, after);
      Fold(LateOne(e, after), LateSamples(init, after), LateOne(last, after));
    }
  }

  lemma {:induction false} LateAreSnapshots(s: seq<Event>, after: int)
    ensures LateSamples(s, after) == SnapshotsAfter(s, after)
  {
    if s != [] {
      LateAreSnapshots(s[1..], after);
      LateSamplesCons(s[0], s[1..], after);
      assert s == [s[0]] + s[1..];
    }
  }

  lemma FirstEndIs(s: seq<Event>)
    ensures forall k: nat {:trigger FirstEnd(s, k)} :: FirstEnd(s, k) <==> k == FirstTerminal(s) < |s|
    ensures NeverEnds(s) <==> FirstTerminal(s) == |s|
  {
    BeforeFirstTerminal(s);
    var k := FirstTerminal(s);
    assert forall h {:trigger s[h]} :: 0 <= h < k ==> !IsTerminal(s[h]);
    if k < |s| {
      assert s[k] in s;
    }
  }

  // The stream's ending and its row.
  predicate EnvelopeAt(s: seq<Event>, status: Option<Status>, v: Violation, k: nat)
    requires k < |s|
  {
    || (k < |s| - 1 && Says(v, I6, [s[k], s[|s| - 1]]))
    || (LateSamples(s, s[k].sequence) != [] && Says(v, I7, LateSamples(s, s[k].sequence)))
    || (status.Some? && status.value in {CREATED, STARTING, RUNNING} && Says(v, I10, [s[k]]))
  }

  ghost predicate EnvelopeBroken(s: seq<Event>, status: Option<Status>, v: Violation) {
    || (|EndsOf(s)| > 1 && Says(v, I5, EndsOf(s)))
    || (exists k: nat {:trigger FirstEnd(s, k)} :: FirstEnd(s, k) && EnvelopeAt(s, status, v, k))
    || (s != [] && s[0].kind != ExecutionCreated && Says(v, I9, [s[0]]))
    || (NeverEnds(s) && status.Some? && status.value !in {CREATED, STARTING, RUNNING} && Says(v, I10, []))
  }

  lemma EnvelopeParts(s: seq<Event>, status: Option<Status>, v: Violation)
    ensures v in EnvelopeViolations(s, status) <==>
      v in CheckSingleTerminal(s) || v in CheckTerminalLast(s) || v in CheckLateSnapshots(s) || v in CheckOrigin(s)
      || v in CheckStatus(s, status)
  {}

  lemma StatusFindings(s: seq<Event>, status: Option<Status>, v: Violation, k: nat)
    requires k == FirstTerminal(s)
    ensures v in CheckStatus(s, status) <==>
      status.Some? && if status.value in {CREATED, STARTING, RUNNING} then k < |s| && Says(v, I10, [s[k]]) else k == |s| && Says(v, I10, [])
  {
    FaultSays(v, I10, []);
    if k < |s| {
      FaultSays(v, I10, [s[k]]);
    }
  }

  lemma EnvelopeFindings(s: seq<Event>, status: Option<Status>, v: Violation)
    ensures v in EnvelopeViolations(s, status) <==> EnvelopeBroken(s, status, v)
  {
    var k := FirstTerminal(s);
    EnvelopeParts(s, status, v);
    FirstEndIs(s);
    EndsAreTerminals(s);
    FaultSays(v, I5, EndsOf(s));
    StatusFindings(s, status, v, k);
    if s != [] {
      FaultSays(v, I9, [s[0]]);
    }
    if k < |s| {
      assert FirstEnd(s, k);
      LateAreSnapshots(s, s[k].sequence);
      FaultSays(v, I6, [s[k], s[|s| - 1]]);
      FaultSays(v, I7, LateSamples(s, s[k].sequence));
    }
  }

  // ------------------------------------------------------------------- the processes

  predicate EndsProcess(e: Event) {
    (e.kind == ProcessExited || e.kind == ProcessExecError || e.kind == ProcessWaitFailed) && e.pid.Some?
  }

  // Started at `h`: the same process, and the same stage, none of them read as -1.
  predicate StartedAt(s: seq<Event>, h: nat, e: Event) {
    && h < |s| && s[h].kind == ProcessStarted && s[h].pid == e.pid
    && s[h].payload.stage.GetOr(-1) == e.payload.stage.GetOr(-1)
  }

  predicate Orphan(s: seq<Event>, v: Violation, j: nat)
    requires j < |s|
  {
    && EndsProcess(s[j]) && Says(v, I11, [s[j]])
    && forall h: nat {:trigger StartedAt(s, h, s[j])} :: h < j ==> !StartedAt(s, h, s[j])
  }

  ghost predicate OrphanFrom(s: seq<Event>, v: Violation, i: nat) {
    exists j: nat {:trigger Orphan(s, v, j)} :: i <= j < |s| && Orphan(s, v, j)
  }

  ghost predicate KeysOf(s: seq<Event>, i: nat, started: set<Key>) {
    forall e: Event {:trigger KeyOf(e)} :: e.pid.Some? ==>
      (KeyOf(e) in started <==> exists h: nat {:trigger StartedAt(s, h, e)} :: h < i && StartedAt(s, h, e))
  }

  function StartedMore(started: set<Key>, e: Event): set<Key> {
    if Starts(e) then started + {KeyOf(e)} else started
  }

  lemma KeysMore(s: seq<Event>, i: nat, started: set<Key>)
    requires i < |s| && KeysOf(s, i, started)
    ensures KeysOf(s, i + 1, StartedMore(started, s[i]))
  {
    var now := StartedMore(started, s[i]);
    forall e: Event {:trigger KeyOf(e)} | e.pid.Some?
      ensures KeyOf(e) in now <==> exists h: nat {:trigger StartedAt(s, h, e)} :: h < i + 1 && StartedAt(s, h, e)
    {
      if KeyOf(e) in now && !StartedAt(s, i, e) {
        assert KeyOf(e) in started;
        var h: nat :| h < i && StartedAt(s, h, e);
      }
      if h: nat :| h < i + 1 && StartedAt(s, h, e) {
        assert h < i ==> KeyOf(e) in started;
      }
    }
  }

  lemma OrphanNow(s: seq<Event>, i: nat, now: set<Key>, v: Violation)
    requires i < |s| && KeysOf(s, i + 1, now)
    ensures v in (if Ends(s[i]) && KeyOf(s[i]) !in now then [Fault(I11, [s[i]])] else []) <==> Orphan(s, v, i)
  {
    FaultSays(v, I11, [s[i]]);
    if Ends(s[i]) {
      assert !StartedAt(s, i, s[i]);
      assert KeyOf(s[i]) in now <==> exists h: nat {:trigger StartedAt(s, h, s[i])} :: h < i + 1 && StartedAt(s, h, s[i]);
    }
  }

  lemma {:induction false} LifecycleFindings(s: seq<Event>, i: nat, started: set<Key>, v: Violation)
    requires i <= |s| && KeysOf(s, i, started)
    ensures v in CheckLifecycle(s, i, started) <==> OrphanFrom(s, v, i)
    decreases |s| - i
  {
    if i < |s| {
      var now := StartedMore(started, s[i]);
      KeysMore(s, i, started);
      OrphanNow(s, i, now, v);
      LifecycleFindings(s, i + 1, now, v);
      assert OrphanFrom(s, v, i) <==> Orphan(s, v, i) || OrphanFrom(s, v, i + 1);
    }
  }

  predicate FirstClosing(s: seq<Event>, k: nat) {
    k < |s| && s[k].kind == PipelineCompleted && forall h {:trigger s[h]} :: 0 <= h < k ==> s[h].kind != PipelineCompleted
  }

  // No process of the stage ends anywhere in the stream.
  predicate StageOpen(s: seq<Event>, stage: int) {
    forall e <- s :: e.kind == ProcessExited || e.kind == ProcessExecError || e.kind == ProcessWaitFailed ==>
      e.payload.stage != Some(stage)
  }

  ghost predicate StageMissing(s: seq<Event>, v: Violation, k: nat)
    requires k < |s|
  {
    && Says(v, I14, [s[k]]) && s[k].payload.stages.Some?
    && exists stage {:trigger StageOpen(s, stage)} :: 0 <= stage < s[k].payload.stages.value && StageOpen(s, stage)
  }

  lemma TerminatedIff(s: seq<Event>, stage: int)
    ensures stage in Terminated(s) <==> !StageOpen(s, stage)
  {
    TerminatedMember(s, stage);
  }

  lemma {:induction false} MissingFindings(completion: Event, declared: int, stage: nat, terminated: set<int>, v: Violation)
    ensures v in MissingStages(completion, declared, stage, terminated) <==>
      Says(v, I14, [completion]) && exists k :: stage <= k < declared && k !in terminated
    decreases declared - stage
  {
    if stage < declared {
      FaultSays(v, I14, [completion]);
      MissingFindings(completion, declared, stage + 1, terminated, v);
    }
  }

  lemma FirstClosingIs(s: seq<Event>)
    ensures forall k: nat {:trigger FirstClosing(s, k)} :: FirstClosing(s, k) <==> k == FirstCompletion(s) < |s|
  {
    BeforeFirstCompletion(s);
  }

  lemma AccountedFindings(s: seq<Event>, v: Violation)
    ensures v in CheckAccounted(s) <==> exists k: nat {:trigger FirstClosing(s, k)} :: FirstClosing(s, k) && StageMissing(s, v, k)
  {
    var k := FirstCompletion(s);
    FirstClosingIs(s);
    if k < |s| {
      assert FirstClosing(s, k);
      var declared := s[k].payload.stages.GetOr(0);
      MissingFindings(s[k], declared, 0, Terminated(s), v);
      forall stage: int ensures stage in Terminated(s) <==> !StageOpen(s, stage) {
        TerminatedIff(s, stage);
      }
    }
  }

  // The stage lies outside the largest pipeline that any event declares.
  predicate OutOfRange(s: seq<Event>, v: Violation, j: nat)
    requires j < |s|
  {
    && s[j].payload.stage.Some? && Says(v, I14, [s[j]])
    && (s[j].payload.stage.value < -1 || forall e <- s :: e.payload.stages.Some? ==> e.payload.stages.value <= s[j].payload.stage.value)
  }

  ghost predicate OutOfRangeFrom(s: seq<Event>, v: Violation, i: nat) {
    exists j: nat {:trigger OutOfRange(s, v, j)} :: i <= j < |s| && OutOfRange(s, v, j)
  }

  predicate DeclaresAny(s: seq<Event>) {
    exists e <- s :: e.payload.stages.Some? && e.payload.stages.value > 0
  }

  predicate IsLargest(s: seq<Event>, declared: int) {
    && (exists e <- s :: e.payload.stages == Some(declared))
    && (forall e <- s :: e.payload.stages.Some? ==> e.payload.stages.value <= declared)
  }

  lemma {:induction false} OutsideFindings(s: seq<Event>, i: nat, declared: int, v: Violation)
    requires i <= |s| && IsLargest(s, declared)
    ensures v in StagesOutside(s, i, declared) <==> OutOfRangeFrom(s, v, i)
    decreases |s| - i
  {
    if i < |s| {
      OutsideNow(s, i, declared, v);
      OutsideFindings(s, i + 1, declared, v);
      assert OutOfRangeFrom(s, v, i) <==> OutOfRange(s, v, i) || OutOfRangeFrom(s, v, i + 1);
    }
  }

  lemma OutsideNow(s: seq<Event>, i: nat, declared: int, v: Violation)
    requires i < |s| && IsLargest(s, declared)
    ensures OutOfRange(s, v, i) <==>
      s[i].payload.stage.Some? && (s[i].payload.stage.value < -1 || s[i].payload.stage.value >= declared) && v == Fault(I14, [s[i]])
  {
    FaultSays(v, I14, [s[i]]);
    var e :| e in s && e.payload.stages == Some(declared);
  }

  // What the largest number so far is, once everything up to `i` was read.
  predicate LargestUpTo(s: seq<Event>, i: nat, acc: Option<int>) {
    && i <= |s|
    && (acc.Some? ==> exists h {:trigger s[h]} :: 0 <= h < i && s[h].payload.stages == acc)
    && (forall h {:trigger s[h]} :: 0 <= h < i && s[h].payload.stages.Some? ==> acc.Some? && s[h].payload.stages.value <= acc.value)
  }

  lemma {:induction false} DeclaredIsLargest(s: seq<Event>, i: nat, acc: Option<int>)
    requires LargestUpTo(s, i, acc)
    ensures LargestUpTo(s, |s|, DeclaredStages(s, i, acc))
    decreases |s| - i
  {
    if i < |s| {
      var n := s[i].payload.stages;
      DeclaredIsLargest(s, i + 1, if n.None? then acc else if acc.None? || acc.value < n.value then n else acc);
    }
  }

  lemma RangeFindings(s: seq<Event>, v: Violation)
    ensures v in CheckStageRange(s) <==> DeclaresAny(s) && OutOfRangeFrom(s, v, 0)
  {
    var d := DeclaredStages(s, 0, None);
    DeclaredIsLargest(s, 0, None);
    assert DeclaresAny(s) <==> d.Some? && d.value > 0;
    if d.Some? {
      OutsideFindings(s, 0, d.value, v);
    }
  }

  // The first ending claims success, and no process exited with 0.
  predicate Unwitnessed(s: seq<Event>, v: Violation, k: nat)
    requires k < |s|
  {
    && s[k].kind == ExecutionCompleted && Says(v, I12, [s[k]])
    && forall e <- s :: e.kind == ProcessExited ==> e.payload.exitCode != Some(0)
  }

  lemma SuccessFindings(s: seq<Event>, v: Violation)
    ensures v in CheckSuccess(s) <==> exists k: nat {:trigger FirstEnd(s, k)} :: FirstEnd(s, k) && Unwitnessed(s, v, k)
  {
    var k := FirstTerminal(s);
    FirstEndIs(s);
    if k < |s| {
      assert FirstEnd(s, k);
      FaultSays(v, I12, [s[k]]);
      if !AnyCleanExit(s) {
        forall e | e in s && e.kind == ProcessExited ensures e.payload.exitCode != Some(0) {
          var i :| 0 <= i < |s| && s[i] == e;
          assert !ExitsCleanly(s[i]);
        }
      }
    }
  }

  // -------------------------------------------------------------------- the payloads

  predicate Corrupt(s: seq<Event>, v: Violation, j: nat)
    requires j < |s|
  {
    s[j].payload.corrupt && Says(v, I13, [s[j]])
  }

  ghost predicate CorruptFrom(s: seq<Event>, v: Violation, i: nat) {
    exists j: nat {:trigger Corrupt(s, v, j)} :: i <= j < |s| && Corrupt(s, v, j)
  }

  lemma {:induction false} PayloadFindings(s: seq<Event>, i: nat, v: Violation)
    requires i <= |s|
    ensures v in CheckPayloads(s, i) <==> CorruptFrom(s, v, i)
    decreases |s| - i
  {
    if i < |s| {
      WarningSays(v, s[i]);
      PayloadFindings(s, i + 1, v);
      assert CorruptFrom(s, v, i) <==> Corrupt(s, v, i) || CorruptFrom(s, v, i + 1);
    }
  }

  // ---------------------------------------------------------------- the whole report

  ghost predicate NumberingBroken(s: seq<Event>, v: Violation) {
    || (!OneSession(multiset(s)) && Says(v, I1, s)) || UniqueFrom(s, v, 0) || NotAboveFrom(s, v, 1) || GapFrom(s, v, 0)
  }

  ghost predicate ProcessBroken(s: seq<Event>, v: Violation) {
    || OrphanFrom(s, v, 0)
    || (exists k: nat {:trigger FirstClosing(s, k)} :: FirstClosing(s, k) && StageMissing(s, v, k))
    || (DeclaresAny(s) && OutOfRangeFrom(s, v, 0))
    || (exists k: nat {:trigger FirstEnd(s, k)} :: FirstEnd(s, k) && Unwitnessed(s, v, k))
  }

  // What there is to find in a sorted stream.
  ghost predicate Breach(s: seq<Event>, status: Option<Status>, v: Violation) {
    NumberingBroken(s, v) || EnvelopeBroken(s, status, v) || ProcessBroken(s, v) || CorruptFrom(s, v, 0)
  }

  lemma NumberingFindings(s: seq<Event>, v: Violation)
    ensures v in NumberingViolations(s) <==> NumberingBroken(s, v)
  {
    assert v in NumberingViolations(s) <==>
      v in CheckSession(s) || v in CheckUnique(s, 0, {}, {}) || v in CheckIncreasing(s, 1) || v in CheckContiguous(s, 0);
    SessionRule(s);
    FaultSays(v, I1, s);
    UniqueFindings(s, 0, {}, {}, v);
    IncreasingFindings(s, 1, v);
    ContiguousFindings(s, 0, v);
  }

  lemma ProcessFindings(s: seq<Event>, v: Violation)
    ensures v in ProcessViolations(s) <==> ProcessBroken(s, v)
  {
    assert v in ProcessViolations(s) <==>
      v in CheckLifecycle(s, 0, {}) || v in CheckAccounted(s) || v in CheckStageRange(s) || v in CheckSuccess(s);
    LifecycleFindings(s, 0, {}, v);
    AccountedFindings(s, v);
    RangeFindings(s, v);
    SuccessFindings(s, v);
  }

  /**
   * The report is exact: a finding is in it if and only if the sorted stream breaks the rule
   * it names at the events it cites.  I13 is a warning and every other finding an error.
   */
  lemma ReportedIffBroken(events: seq<Event>, status: Option<Status>, v: Violation)
    ensures v in Report(events, status).violations <==> Breach(Sorted(events), status, v)
  {
    var s := Sorted(events);
    NumberingFindings(s, v);
    EnvelopeFindings(s, status, v);
    ProcessFindings(s, v);
    PayloadFindings(s, 0, v);
    PartsOfReport(s, status, v);
  }

  lemma PartsOfReport(s: seq<Event>, status: Option<Status>, v: Violation)
    ensures v in Violations(s, status) <==>
      v in NumberingViolations(s) || v in EnvelopeViolations(s, status) || v in ProcessViolations(s) || v in CheckPayloads(s, 0)
  {}

  // ------------------------------------------------------------------- the sort

  // The events of one number, in order.
  function OfSequence(es: seq<Event>, n: int): seq<Event> {
    if es == [] then []
    else OfSequence(es[..|es| - 1], n) + (if es[|es| - 1].sequence == n then [es[|es| - 1]] else [])
  }

  lemma OfSequenceAppend(es: seq<Event>, e: Event, n: int)
    ensures OfSequence(es + [e], n) == OfSequence(es, n) + (if e.sequence == n then [e] else [])
  {
    assert (es + [e])[..|es|] == es;
  }

  lemma {:induction false} InsertIsStable(e: Event, sorted: seq<Event>, n: int)
    ensures OfSequence(InsertEvent(e, sorted), n) == OfSequence(sorted, n) + (if e.sequence == n then [e] else [])
    decreases |sorted|
  {
    if sorted == [] {
      OfSequenceAppend([], e, n);
      assert [] + [e] == [e];
    } else {
      var init, last := sorted[..|sorted| - 1], sorted[|sorted| - 1];
      if last.sequence <= e.sequence {
        OfSequenceAppend(sorted, e, n);
      } else {
        InsertIsStable(e, init, n);
        OfSequenceAppend(InsertEvent(e, init), last, n);
        assert sorted == init + [last];
        OfSequenceAppend(init, last, n);
      }
    }
  }

  // Events of one number stay in the order they were handed over.
  lemma {:induction false} SortIsStable(events: seq<Event>, n: int)
    ensures OfSequence(Sorted(events), n) == OfSequence(events, n)
  {
    if events != [] {
      SortIsStable(events[..|events| - 1], n);
      InsertIsStable(events[|events| - 1], Sorted(events[..|events| - 1]), n);
    }
  }

  // --------------------------------------------------------------------- the summary

  predicate IsFirst(s: seq<Event>, sequence: int) {
    (exists e <- s :: e.sequence == sequence) && forall e <- s :: sequence <= e.sequence
  }

  predicate IsLast(s: seq<Event>, sequence: int) {
    (exists e <- s :: e.sequence == sequence) && forall e <- s :: e.sequence <= sequence
  }

  // The lowest-numbered ending.
  predicate EarliestEnd(s: seq<Event>, kind: EventType, sequence: int) {
    && (exists e <- s :: Ended(e) && e.kind == kind && e.sequence == sequence)
    && forall e <- s :: Ended(e) ==> sequence <= e.sequence
  }

  lemma MembersOfSorted(events: seq<Event>)
    ensures forall e: Event :: e in Sorted(events) <==> e in events
  {
    SortedKeeps(events);
    forall e: Event ensures e in Sorted(events) <==> e in events {
      assert e in multiset(Sorted(events)) <==> e in multiset(events);
    }
  }

  lemma EdgesOfSorted(events: seq<Event>)
    requires events != []
    ensures var s := Sorted(events); s != [] && IsFirst(events, s[0].sequence) && IsLast(events, s[|s| - 1].sequence)
  {
    var s := Sorted(events);
    MembersOfSorted(events);
    SortedKeeps(events);
    assert s[0] in s && s[|s| - 1] in s;
    forall e | e in events ensures s[0].sequence <= e.sequence <= s[|s| - 1].sequence {
      assert e in s;
      var i :| 0 <= i < |s| && s[i] == e;
    }
  }

  lemma EarliestOfSorted(events: seq<Event>)
    ensures var s, k := Sorted(events), FirstTerminal(Sorted(events));
      if k < |s| then EarliestEnd(events, s[k].kind, s[k].sequence) else NeverEnds(events)
  {
    var s, k := Sorted(events), FirstTerminal(Sorted(events));
    MembersOfSorted(events);
    SortedKeeps(events);
    FirstEndIs(s);
    if k < |s| {
      assert FirstEnd(s, k) && s[k] in s;
      forall e | e in events && Ended(e) ensures s[k].sequence <= e.sequence {
        assert e in s;
        var i :| 0 <= i < |s| && s[i] == e;
        assert i >= k;
      }
    } else {
      forall e | e in events ensures !Ended(e) {
        assert e in s;
      }
    }
  }

  lemma SessionOfSorted(events: seq<Event>)
    ensures var s := Sorted(events); |SessionIds(s)| == 1 <==> events != [] && OneSession(multiset(events))
    ensures var s := Sorted(events); |SessionIds(s)| == 1 ==> s != [] && s[0] in events
  {
    var s := Sorted(events);
    MembersOfSorted(events);
    SortedKeeps(events);
    SessionRule(s);
    if s == [] {
      assert SessionIds(s) == {};
    } else {
      assert s[0] in s && s[0].sessionId in SessionIds(s);
    }
  }

  /** What the summary of a report holds, said of the events as they were handed over. */
  lemma SummaryTells(events: seq<Event>, status: Option<Status>)
    ensures var m := Report(events, status).summary;
      && m.eventCount == |events|
      && (m.sessionId.Some? <==> events != [] && OneSession(multiset(events)))
      && (m.sessionId.Some? ==> exists e <- events :: e.sessionId == m.sessionId.value)
      && (if events == [] then m.firstSequence == None && m.lastSequence == None
          else m.firstSequence.Some? && m.lastSequence.Some?
               && IsFirst(events, m.firstSequence.value) && IsLast(events, m.lastSequence.value))
      && (if NeverEnds(events) then m.terminalType == None && m.terminalSequence == None
          else m.terminalType.Some? && m.terminalSequence.Some?
               && EarliestEnd(events, m.terminalType.value, m.terminalSequence.value))
  {
    SortedKeeps(events);
    SessionOfSorted(events);
    EarliestOfSorted(events);
    if events != [] {
      EdgesOfSorted(events);
    }
    if !NeverEnds(events) {
      assert FirstTerminal(Sorted(events)) < |Sorted(events)|;
    }
  }

  function CorruptIn(events: seq<Event>): nat {
    if events == [] then 0 else (if events[0].payload.corrupt then 1 else 0) + CorruptIn(events[1..])
  }

  lemma {:induction false} PayloadCount(s: seq<Event>, i: nat)
    requires i <= |s|
    ensures |CheckPayloads(s, i)| == CorruptIn(s[i..])
    decreases |s| - i
  {
    if i < |s| {
      PayloadCount(s, i + 1);
      assert s[i..][1..] == s[i + 1..];
    }
  }

  // The counts: one warning for each event with an unreadable payload, and the rest are errors.
  lemma CountsAddUp(events: seq<Event>, status: Option<Status>)
    ensures var r := Report(events, status);
      r.warningCount == CorruptIn(Sorted(events)) && r.errorCount + r.warningCount == |r.violations|
  {
    var s := Sorted(events);
    RulesOnlyReportErrors(s, status);
    CountErrors(RuleViolations(s, status));
    PayloadsOnlyWarn(s, 0);
    CountAppend(RuleViolations(s, status), CheckPayloads(s, 0));
    PayloadCount(s, 0);
    assert s[0..] == s;
  }
}
