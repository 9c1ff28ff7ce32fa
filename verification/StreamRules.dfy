/** What a valid stream is, said of the events alone, and why the checks decide exactly that. */
module StreamRules {
  import opened Basics
  import opened Events
  import opened Validator

  ghost predicate OneSession(m: multiset<Event>) {
    forall a, b :: a in m && b in m ==> a.sessionId == b.sessionId
  }

  ghost predicate DistinctIds(m: multiset<Event>) {
    forall a, b :: a in m && b in m && a.id == b.id ==> a == b
  }

  // The sequence numbers are 0, 1, 2, ... and every event occurs once.
  ghost predicate NumberedFromZero(m: multiset<Event>) {
    && (forall a :: a in m ==> 0 <= a.sequence < |m| && m[a] == 1)
    && (forall a, b :: a in m && b in m && a.sequence == b.sequence ==> a == b)
  }

  ghost predicate TerminalOnlyLast(m: multiset<Event>) {
    forall a :: a in m && IsTerminal(a) ==> a.sequence == |m| - 1
  }

  ghost predicate StartsWithCreation(m: multiset<Event>) {
    forall a :: a in m && a.sequence == 0 ==> a.kind == ExecutionCreated
  }

  ghost predicate HasTerminal(m: multiset<Event>) {
    exists a :: a in m && IsTerminal(a)
  }

  ghost predicate StatusAgrees(m: multiset<Event>, status: Option<Status>) {
    status.Some? ==> (IsFinal(status.value) <==> HasTerminal(m))
  }

  ghost predicate StartedBefore(m: multiset<Event>, e: Event)
    requires e.pid.Some?
  {
    exists b :: b in m && b.sequence < e.sequence && Starts(b) && KeyOf(b) == KeyOf(e)
  }

  // Every ending names a process that was started earlier, at the same stage.
  ghost predicate NoOrphans(m: multiset<Event>) {
    forall a :: a in m && Ends(a) ==> StartedBefore(m, a)
  }

  ghost predicate EndsStage(m: multiset<Event>, stage: int) {
    exists b :: b in m && IsLifecycle(b) && b.payload.stage == Some(stage)
  }

  ghost predicate FirstCompletionIs(m: multiset<Event>, a: Event) {
    && a in m && a.kind == PipelineCompleted
    && forall b :: b in m && b.kind == PipelineCompleted ==> a.sequence <= b.sequence
  }

  // The first pipeline.completed vouches for an ending of each stage it declares.
  ghost predicate StagesAccounted(m: multiset<Event>) {
    forall a :: FirstCompletionIs(m, a) ==>
      forall stage :: 0 <= stage < a.payload.stages.GetOr(0) ==> EndsStage(m, stage)
  }

  ghost predicate DeclaresMoreThan(m: multiset<Event>, n: int) {
    exists b :: b in m && b.payload.stages.Some? && b.payload.stages.value > n
  }

  // No event sits at a stage outside the pipeline the stream declares.
  ghost predicate StagesInRange(m: multiset<Event>) {
    DeclaresMoreThan(m, 0) ==>
      forall a :: a in m && a.payload.stage.Some? ==> a.payload.stage.value >= -1 && DeclaresMoreThan(m, a.payload.stage.value)
  }

  ghost predicate SuccessIsWitnessed(m: multiset<Event>) {
    (exists a :: a in m && a.kind == ExecutionCompleted) ==> exists b :: b in m && ExitsCleanly(b)
  }

  ghost predicate WellFormed(m: multiset<Event>, status: Option<Status>) {
    && OneSession(m) && DistinctIds(m) && NumberedFromZero(m) && TerminalOnlyLast(m) && StartsWithCreation(m)
    && StatusAgrees(m, status) && NoOrphans(m) && StagesAccounted(m) && StagesInRange(m) && SuccessIsWitnessed(m)
  }

  // ------------------------------------------------ reading members by position

  predicate Numbered(s: seq<Event>) {
    forall i {:trigger s[i]} :: 0 <= i < |s| ==> s[i].sequence == i
  }

  lemma At(s: seq<Event>, e: Event)
    requires Numbered(s) && e in multiset(s)
    ensures 0 <= e.sequence < |s| && s[e.sequence] == e
  {
    var i :| 0 <= i < |s| && s[i] == e;
  }

  lemma Member(s: seq<Event>, i: nat)
    requires i < |s|
    ensures s[i] in multiset(s)
  {}

  lemma OccursTwice(s: seq<Event>, i: nat, j: nat)
    requires i < j < |s| && s[i] == s[j]
    ensures multiset(s)[s[i]] >= 2
  {
    assert s == s[..j] + s[j..];
    assert s[..j][i] == s[i] && s[j..][0] == s[j];
    assert multiset(s) == multiset(s[..j]) + multiset(s[j..]);
    assert s[i] in multiset(s[..j]) && s[i] in multiset(s[j..]);
  }

  lemma OccursOnce(s: seq<Event>, i: nat)
    requires Numbered(s) && i < |s|
    ensures multiset(s)[s[i]] == 1
  {
    var before, after := s[..i], s[i + 1..];
    assert s == before + [s[i]] + after;
    assert multiset(s) == multiset(before) + multiset([s[i]]) + multiset(after);
    assert s[i] !in before && s[i] !in after;
  }

  predicate StrictlyAscending(s: seq<Event>) {
    forall i {:trigger s[i]} :: 1 <= i < |s| ==> s[i - 1].sequence < s[i].sequence
  }

  lemma {:induction false} AtLeast(s: seq<Event>, i: nat)
    requires StrictlyAscending(s) && i < |s| && s[0].sequence >= 0
    ensures s[i].sequence >= i
  {
    if i > 0 {
      AtLeast(s, i - 1);
    }
  }

  lemma {:induction false} AtMost(s: seq<Event>, i: nat)
    requires StrictlyAscending(s) && i < |s| && s[|s| - 1].sequence < |s|
    ensures s[i].sequence <= i
    decreases |s| - i
  {
    if i < |s| - 1 {
      AtMost(s, i + 1);
    }
  }

  lemma NumberedMembers(s: seq<Event>)
    requires Numbered(s)
    ensures NumberedFromZero(multiset(s))
  {
    var m := multiset(s);
    forall a: Event | a in m ensures 0 <= a.sequence < |m| && m[a] == 1 && s[a.sequence] == a {
      At(s, a);
      OccursOnce(s, a.sequence);
    }
  }

  lemma StrictStep(s: seq<Event>, i: nat)
    requires Ascending(s) && NumberedFromZero(multiset(s)) && 1 <= i < |s|
    ensures s[i - 1].sequence < s[i].sequence
  {
    Member(s, i - 1);
    Member(s, i);
    if s[i - 1] == s[i] {
      OccursTwice(s, i - 1, i);
    }
  }

  lemma MembersNumbered(s: seq<Event>)
    requires Ascending(s) && NumberedFromZero(multiset(s))
    ensures Numbered(s)
  {
    forall i {:trigger s[i]} | 1 <= i < |s| ensures s[i - 1].sequence < s[i].sequence {
      StrictStep(s, i);
    }
    if s != [] {
      Member(s, 0);
      Member(s, |s| - 1);
    }
    forall i {:trigger s[i]} | 0 <= i < |s| ensures s[i].sequence == i {
      AtLeast(s, i);
      AtMost(s, i);
    }
  }

  // ------------------------------------------------------------ rule by rule

  lemma {:induction false} ContiguousIff(s: seq<Event>, i: nat)
    requires i <= |s|
    ensures CheckContiguous(s, i) == [] <==> forall j {:trigger s[j]} :: i <= j < |s| ==> s[j].sequence == j
    decreases |s| - i
  {
    if i < |s| {
      ContiguousIff(s, i + 1);
    }
  }

  // A stream without a gap has no repeated and no decreasing sequence either.
  lemma {:induction false} NoGapNoDecrease(s: seq<Event>, i: nat)
    requires Numbered(s) && 1 <= i
    ensures CheckIncreasing(s, i) == []
    decreases |s| - i
  {
    if i < |s| {
      NoGapNoDecrease(s, i + 1);
    }
  }

  predicate FreshIds(s: seq<Event>, i: nat, ids: set<Token>)
    requires i <= |s|
  {
    && (forall j {:trigger s[j]} :: i <= j < |s| ==> s[j].id !in ids)
    && (forall j, k {:trigger s[j], s[k]} :: i <= j < k < |s| ==> s[j].id != s[k].id)
  }

  lemma FreshIdsStep(s: seq<Event>, i: nat, ids: set<Token>)
    requires i < |s|
    ensures FreshIds(s, i, ids) <==> s[i].id !in ids && FreshIds(s, i + 1, ids + {s[i].id})
  {}

  // Among numbered events, only repeated identifiers are left to report.
  lemma {:induction false} UniqueIff(s: seq<Event>, i: nat, sequences: set<int>, ids: set<Token>)
    requires Numbered(s) && i <= |s| && forall x :: x in sequences ==> x < i
    ensures CheckUnique(s, i, sequences, ids) == [] <==> FreshIds(s, i, ids)
    decreases |s| - i
  {
    if i < |s| {
      UniqueIff(s, i + 1, sequences + {s[i].sequence}, ids + {s[i].id});
      FreshIdsStep(s, i, ids);
    }
  }

  lemma FreshIdsMembers(s: seq<Event>)
    requires Numbered(s)
    ensures FreshIds(s, 0, {}) <==> DistinctIds(multiset(s))
  {
    var m := multiset(s);
    if FreshIds(s, 0, {}) {
      forall a: Event, b: Event | a in m && b in m && a.id == b.id ensures a == b {
        At(s, a);
        At(s, b);
      }
    }
    if DistinctIds(m) {
      forall j, k {:trigger s[j], s[k]} | 0 <= j < k < |s| ensures s[j].id != s[k].id {
        Member(s, j);
        Member(s, k);
      }
    }
  }

  lemma IdRule(s: seq<Event>)
    requires Numbered(s)
    ensures CheckUnique(s, 0, {}, {}) == [] <==> DistinctIds(multiset(s))
  {
    UniqueIff(s, 0, {}, {});
    FreshIdsMembers(s);
  }

  lemma Smaller(a: set<Token>, b: set<Token>)
    requires a <= b
    ensures |a| <= |b|
  {
    assert b == a + (b - a);
  }

  lemma TwoMembers(ids: set<Token>, a: Token, b: Token)
    requires a in ids && b in ids && a != b
    ensures |ids| >= 2
  {
    Smaller({a, b}, ids);
  }

  lemma AtMostOne(ids: set<Token>, a: Token, b: Token)
    requires a in ids && b in ids && |ids| <= 1
    ensures a == b
  {
    if a != b {
      TwoMembers(ids, a, b);
    }
  }

  lemma SessionRule(s: seq<Event>)
    ensures CheckSession(s) == [] <==> OneSession(multiset(s))
  {
    var m, ids := multiset(s), SessionIds(s);
    if |ids| <= 1 {
      forall a: Event, b: Event | a in m && b in m ensures a.sessionId == b.sessionId {
        AtMostOne(ids, a.sessionId, b.sessionId);
      }
    }
    if OneSession(m) && s != [] {
      Member(s, 0);
      forall x | x in ids ensures x == s[0].sessionId {
        var e :| e in s && e.sessionId == x;
        assert e in m;
      }
      assert ids <= {s[0].sessionId};
      Smaller(ids, {s[0].sessionId});
    }
  }

  lemma {:induction false} BeforeFirstTerminal(s: seq<Event>)
    ensures forall i {:trigger s[i]} :: 0 <= i < FirstTerminal(s) ==> !IsTerminal(s[i])
  {
    if s != [] && !IsTerminal(s[0]) {
      BeforeFirstTerminal(s[1..]);
      forall i {:trigger s[i]} | 0 <= i < FirstTerminal(s) ensures !IsTerminal(s[i]) {
        if i > 0 {
          assert s[1..][i - 1] == s[i];
        }
      }
    }
  }

  lemma TerminalLastRule(s: seq<Event>)
    requires Numbered(s)
    ensures CheckTerminalLast(s) == [] <==> TerminalOnlyLast(multiset(s))
  {
    var m, k := multiset(s), FirstTerminal(s);
    BeforeFirstTerminal(s);
    if k >= |s| - 1 {
      forall a: Event | a in m && IsTerminal(a) ensures a.sequence == |m| - 1 {
        At(s, a);
      }
    } else {
      Member(s, k);
    }
  }

  lemma {:induction false} TerminalsAfter(s: seq<Event>)
    requires FirstTerminal(s) >= |s| - 1
    ensures |Terminals(s)| <= 1
  {
    if s != [] && IsTerminal(s[0]) {
      assert s[1..] == [];
    } else if s != [] {
      TerminalsAfter(s[1..]);
    }
  }

  lemma {:induction false} NoSnapshotAfter(s: seq<Event>, sequence: int)
    requires forall i {:trigger s[i]} :: 0 <= i < |s| ==> s[i].sequence <= sequence
    ensures SnapshotsAfter(s, sequence) == []
  {
    if s != [] {
      NoSnapshotAfter(s[1..], sequence);
    }
  }

  // Once the terminal event is last there can be neither a second one nor a snapshot after it.
  lemma LastTerminalIsOnly(s: seq<Event>)
    requires Ascending(s) && CheckTerminalLast(s) == []
    ensures CheckSingleTerminal(s) == [] && CheckLateSnapshots(s) == []
  {
    var k := FirstTerminal(s);
    TerminalsAfter(s);
    if k < |s| {
      NoSnapshotAfter(s, s[k].sequence);
    }
  }

  lemma OriginRule(s: seq<Event>)
    requires Numbered(s)
    ensures CheckOrigin(s) == [] <==> StartsWithCreation(multiset(s))
  {
    var m := multiset(s);
    if s != [] {
      Member(s, 0);
    }
    forall a: Event | a in m && a.sequence == 0 ensures a == s[0] {
      At(s, a);
    }
  }

  lemma TerminalMember(s: seq<Event>)
    ensures HasTerminal(multiset(s)) <==> FirstTerminal(s) < |s|
  {
    var k := FirstTerminal(s);
    BeforeFirstTerminal(s);
    if k < |s| {
      Member(s, k);
    }
  }

  lemma StatusRule(s: seq<Event>, status: Option<Status>)
    ensures CheckStatus(s, status) == [] <==> StatusAgrees(multiset(s), status)
  {
    TerminalMember(s);
  }

  lemma SuccessRule(s: seq<Event>)
    requires Numbered(s) && CheckTerminalLast(s) == []
    ensures CheckSuccess(s) == [] <==> SuccessIsWitnessed(multiset(s))
  {
    var m, k := multiset(s), FirstTerminal(s);
    BeforeFirstTerminal(s);
    if k < |s| {
      Member(s, k);
    }
    forall a: Event | a in m && a.kind == ExecutionCompleted ensures k < |s| && a == s[k] {
      At(s, a);
    }
    if AnyCleanExit(s) {
      var i :| 0 <= i < |s| && ExitsCleanly(s[i]);
      Member(s, i);
    }
    forall b: Event | b in m && ExitsCleanly(b) ensures AnyCleanExit(s) {
      At(s, b);
      assert ExitsCleanly(s[b.sequence]);
    }
  }

  predicate StartedIn(s: seq<Event>, i: nat, j: nat, key: Key)
    requires i <= j <= |s|
  {
    exists k {:trigger Starts(s[k])} :: i <= k < j && Starts(s[k]) && KeyOf(s[k]) == key
  }

  predicate EndingOk(s: seq<Event>, i: nat, j: nat, started: set<Key>)
    requires i <= j < |s|
  {
    Ends(s[j]) ==> KeyOf(s[j]) in started || StartedIn(s, i, j, KeyOf(s[j]))
  }

  predicate EndingsOk(s: seq<Event>, i: nat, started: set<Key>)
    requires i <= |s|
  {
    forall j {:trigger EndingOk(s, i, j, started)} :: i <= j < |s| ==> EndingOk(s, i, j, started)
  }

  lemma EndingStep(s: seq<Event>, i: nat, j: nat, started: set<Key>, now: set<Key>)
    requires i < j < |s| && now == if Starts(s[i]) then started + {KeyOf(s[i])} else started
    ensures EndingOk(s, i, j, started) <==> EndingOk(s, i + 1, j, now)
  {
    if Ends(s[j]) {
      var key := KeyOf(s[j]);
      if StartedIn(s, i, j, key) {
        var k :| i <= k < j && Starts(s[k]) && KeyOf(s[k]) == key;
        assert k > i ==> StartedIn(s, i + 1, j, key);
      }
      if StartedIn(s, i + 1, j, key) {
        var k :| i + 1 <= k < j && Starts(s[k]) && KeyOf(s[k]) == key;
        assert StartedIn(s, i, j, key);
      }
      if Starts(s[i]) && KeyOf(s[i]) == key {
        assert StartedIn(s, i, j, key);
      }
    }
  }

  lemma EndingsStep(s: seq<Event>, i: nat, started: set<Key>, now: set<Key>)
    requires i < |s| && now == if Starts(s[i]) then started + {KeyOf(s[i])} else started
    ensures EndingsOk(s, i, started) <==> (Ends(s[i]) ==> KeyOf(s[i]) in now) && EndingsOk(s, i + 1, now)
  {
    assert EndingOk(s, i, i, started) <==> (Ends(s[i]) ==> KeyOf(s[i]) in now);
    if EndingsOk(s, i, started) {
      forall j {:trigger EndingOk(s, i + 1, j, now)} | i + 1 <= j < |s| ensures EndingOk(s, i + 1, j, now) {
        EndingStep(s, i, j, started, now);
      }
    }
    if EndingsOk(s, i + 1, now) && (Ends(s[i]) ==> KeyOf(s[i]) in now) {
      forall j {:trigger EndingOk(s, i, j, started)} | i <= j < |s| ensures EndingOk(s, i, j, started) {
        if j > i {
          EndingStep(s, i, j, started, now);
        }
      }
    }
  }

  lemma {:induction false} LifecycleIff(s: seq<Event>, i: nat, started: set<Key>)
    requires i <= |s|
    ensures CheckLifecycle(s, i, started) == [] <==> EndingsOk(s, i, started)
    decreases |s| - i
  {
    if i < |s| {
      var now := if Starts(s[i]) then started + {KeyOf(s[i])} else started;
      LifecycleIff(s, i + 1, now);
      EndingsStep(s, i, started, now);
    }
  }

  lemma StartedBeforeAt(s: seq<Event>, j: nat)
    requires Numbered(s) && j < |s| && s[j].pid.Some?
    ensures StartedIn(s, 0, j, KeyOf(s[j])) <==> StartedBefore(multiset(s), s[j])
  {
    var m := multiset(s);
    if StartedIn(s, 0, j, KeyOf(s[j])) {
      var k :| 0 <= k < j && Starts(s[k]) && KeyOf(s[k]) == KeyOf(s[j]);
      Member(s, k);
    }
    if StartedBefore(m, s[j]) {
      var b :| b in m && b.sequence < s[j].sequence && Starts(b) && KeyOf(b) == KeyOf(s[j]);
      At(s, b);
      assert Starts(s[b.sequence]);
    }
  }

  lemma OrphanRule(s: seq<Event>)
    requires Numbered(s)
    ensures CheckLifecycle(s, 0, {}) == [] <==> NoOrphans(multiset(s))
  {
    var m := multiset(s);
    LifecycleIff(s, 0, {});
    if EndingsOk(s, 0, {}) {
      forall a: Event | a in m && Ends(a) ensures StartedBefore(m, a) {
        At(s, a);
        assert EndingOk(s, 0, a.sequence, {});
        StartedBeforeAt(s, a.sequence);
      }
    }
    if NoOrphans(m) {
      forall j {:trigger EndingOk(s, 0, j, {})} | 0 <= j < |s| ensures EndingOk(s, 0, j, {}) {
        Member(s, j);
        if Ends(s[j]) {
          StartedBeforeAt(s, j);
        }
      }
    }
  }

  lemma {:induction false} MissingIff(completion: Event, declared: int, stage: nat, terminated: set<int>)
    ensures MissingStages(completion, declared, stage, terminated) == [] <==>
      forall k :: stage <= k < declared ==> k in terminated
    decreases declared - stage
  {
    if stage < declared {
      MissingIff(completion, declared, stage + 1, terminated);
    }
  }

  lemma TerminatedMember(s: seq<Event>, stage: int)
    ensures stage in Terminated(s) <==> EndsStage(multiset(s), stage)
  {
    if EndsStage(multiset(s), stage) {
      var b :| b in multiset(s) && IsLifecycle(b) && b.payload.stage == Some(stage);
      assert b in s;
    }
    if stage in Terminated(s) {
      var e :| e in s && IsLifecycle(e) && e.payload.stage == Some(stage);
      assert e in multiset(s);
    }
  }

  lemma {:induction false} BeforeFirstCompletion(s: seq<Event>)
    ensures forall i {:trigger s[i]} :: 0 <= i < FirstCompletion(s) ==> s[i].kind != PipelineCompleted
  {
    if s != [] && s[0].kind != PipelineCompleted {
      BeforeFirstCompletion(s[1..]);
      forall i {:trigger s[i]} | 0 <= i < FirstCompletion(s) ensures s[i].kind != PipelineCompleted {
        if i > 0 {
          assert s[1..][i - 1] == s[i];
        }
      }
    }
  }

  lemma FirstCompletionMember(s: seq<Event>, a: Event)
    requires Numbered(s)
    ensures FirstCompletionIs(multiset(s), a) <==> FirstCompletion(s) < |s| && a == s[FirstCompletion(s)]
  {
    var m, k := multiset(s), FirstCompletion(s);
    BeforeFirstCompletion(s);
    if k < |s| {
      Member(s, k);
      forall b: Event | b in m && b.kind == PipelineCompleted ensures k <= b.sequence {
        At(s, b);
      }
    }
    if FirstCompletionIs(m, a) {
      At(s, a);
    }
  }

  lemma AccountedRule(s: seq<Event>)
    requires Numbered(s)
    ensures CheckAccounted(s) == [] <==> StagesAccounted(multiset(s))
  {
    var m, k := multiset(s), FirstCompletion(s);
    forall a: Event ensures FirstCompletionIs(m, a) <==> k < |s| && a == s[k] {
      FirstCompletionMember(s, a);
    }
    forall stage: int ensures stage in Terminated(s) <==> EndsStage(m, stage) {
      TerminatedMember(s, stage);
    }
    if k < |s| {
      MissingIff(s[k], s[k].payload.stages.GetOr(0), 0, Terminated(s));
      assert FirstCompletionIs(m, s[k]);
    }
  }

  predicate DeclaresAt(s: seq<Event>, j: nat, n: int)
    requires j < |s|
  {
    s[j].payload.stages.Some? && s[j].payload.stages.value > n
  }

  lemma {:induction false} DeclaredExceeds(s: seq<Event>, i: nat, acc: Option<int>, n: int)
    requires i <= |s|
    ensures var d := DeclaredStages(s, i, acc);
      (d.Some? && d.value > n) <==>
      (acc.Some? && acc.value > n) || exists j {:trigger DeclaresAt(s, j, n)} :: i <= j < |s| && DeclaresAt(s, j, n)
    decreases |s| - i
  {
    if i < |s| {
      var m := s[i].payload.stages;
      var next := if m.None? then acc else if acc.None? || acc.value < m.value then m else acc;
      DeclaredExceeds(s, i + 1, next, n);
      assert DeclaresAt(s, i, n) <==> m.Some? && m.value > n;
    }
  }

  lemma DeclaresMember(s: seq<Event>, n: int)
    ensures var d := DeclaredStages(s, 0, None); (d.Some? && d.value > n) <==> DeclaresMoreThan(multiset(s), n)
  {
    DeclaredExceeds(s, 0, None, n);
    if DeclaresMoreThan(multiset(s), n) {
      var b :| b in multiset(s) && b.payload.stages.Some? && b.payload.stages.value > n;
      var j :| 0 <= j < |s| && s[j] == b;
      assert DeclaresAt(s, j, n);
    }
    if j :| 0 <= j < |s| && DeclaresAt(s, j, n) {
      Member(s, j);
    }
  }

  predicate StageWithin(e: Event, declared: int) {
    e.payload.stage.Some? ==> -1 <= e.payload.stage.value < declared
  }

  lemma {:induction false} OutsideIff(s: seq<Event>, i: nat, declared: int)
    requires i <= |s|
    ensures StagesOutside(s, i, declared) == [] <==>
      forall j {:trigger StageWithin(s[j], declared)} :: i <= j < |s| ==> StageWithin(s[j], declared)
    decreases |s| - i
  {
    if i < |s| {
      OutsideIff(s, i + 1, declared);
      assert StagesOutside(s, i, declared) == [] <==> StageWithin(s[i], declared) && StagesOutside(s, i + 1, declared) == [];
    }
  }

  lemma StageRangeRule(s: seq<Event>)
    ensures CheckStageRange(s) == [] <==> StagesInRange(multiset(s))
  {
    var m, d := multiset(s), DeclaredStages(s, 0, None);
    DeclaresMember(s, 0);
    if d.Some? && d.value > 0 {
      OutsideIff(s, 0, d.value);
      forall a: Event | a in m && a.payload.stage.Some?
        ensures a.payload.stage.value < d.value <==> DeclaresMoreThan(m, a.payload.stage.value)
      {
        DeclaresMember(s, a.payload.stage.value);
      }
      if StagesInRange(m) {
        forall j {:trigger StageWithin(s[j], d.value)} | 0 <= j < |s| ensures StageWithin(s[j], d.value) {
          Member(s, j);
        }
      }
      if StagesOutside(s, 0, d.value) == [] {
        forall a: Event | a in m ensures StageWithin(a, d.value) {
          var j :| 0 <= j < |s| && s[j] == a;
          assert StageWithin(s[j], d.value);
        }
      }
    }
  }

  // ---------------------------------------------------------------- the verdict

  predicate AllErrors(vs: seq<Violation>) {
    forall i {:trigger vs[i]} :: 0 <= i < |vs| ==> vs[i].severity == Error
  }

  lemma {:induction false} CountErrors(vs: seq<Violation>)
    requires AllErrors(vs)
    ensures ErrorCount(vs) == |vs|
  {
    if vs != [] {
      CountErrors(vs[1..]);
    }
  }

  lemma {:induction false} CountAppend(a: seq<Violation>, b: seq<Violation>)
    ensures ErrorCount(a + b) == ErrorCount(a) + ErrorCount(b)
  {
    if a == [] {
      assert a + b == b;
    } else {
      CountAppend(a[1..], b);
      assert (a + b)[0] == a[0] && (a + b)[1..] == a[1..] + b;
    }
  }

  lemma {:induction false} PayloadsOnlyWarn(s: seq<Event>, i: nat)
    requires i <= |s|
    ensures ErrorCount(CheckPayloads(s, i)) == 0
    decreases |s| - i
  {
    if i < |s| {
      PayloadsOnlyWarn(s, i + 1);
      CountAppend(if s[i].payload.corrupt then [Fault(I13, [s[i]]).(severity := Warning)] else [], CheckPayloads(s, i + 1));
    }
  }

  lemma {:induction false} UniqueErrors(s: seq<Event>, i: nat, sequences: set<int>, ids: set<Token>)
    requires i <= |s|
    ensures AllErrors(CheckUnique(s, i, sequences, ids))
    decreases |s| - i
  {
    if i < |s| {
      UniqueErrors(s, i + 1, sequences + {s[i].sequence}, ids + {s[i].id});
    }
  }

  lemma {:induction false} IncreasingErrors(s: seq<Event>, i: nat)
    requires 1 <= i
    ensures AllErrors(CheckIncreasing(s, i))
    decreases |s| - i
  {
    if i < |s| {
      IncreasingErrors(s, i + 1);
    }
  }

  lemma {:induction false} ContiguousErrors(s: seq<Event>, i: nat)
    requires i <= |s|
    ensures AllErrors(CheckContiguous(s, i))
    decreases |s| - i
  {
    if i < |s| {
      ContiguousErrors(s, i + 1);
    }
  }

  lemma {:induction false} LifecycleErrors(s: seq<Event>, i: nat, started: set<Key>)
    requires i <= |s|
    ensures AllErrors(CheckLifecycle(s, i, started))
    decreases |s| - i
  {
    if i < |s| {
      LifecycleErrors(s, i + 1, if Starts(s[i]) then started + {KeyOf(s[i])} else started);
    }
  }

  lemma {:induction false} MissingErrors(completion: Event, declared: int, stage: nat, terminated: set<int>)
    ensures AllErrors(MissingStages(completion, declared, stage, terminated))
    decreases declared - stage
  {
    if stage < declared {
      MissingErrors(completion, declared, stage + 1, terminated);
    }
  }

  lemma {:induction false} OutsideErrors(s: seq<Event>, i: nat, declared: int)
    requires i <= |s|
    ensures AllErrors(StagesOutside(s, i, declared))
    decreases |s| - i
  {
    if i < |s| {
      OutsideErrors(s, i + 1, declared);
    }
  }

  lemma AppendErrors(a: seq<Violation>, b: seq<Violation>, c: seq<Violation>, d: seq<Violation>, e: seq<Violation>)
    requires AllErrors(a) && AllErrors(b) && AllErrors(c) && AllErrors(d) && AllErrors(e)
    ensures AllErrors(a + b + c + d) && AllErrors(a + b + c + d + e) && AllErrors(a + b + c)
  {}

  lemma NumberingErrors(s: seq<Event>)
    ensures AllErrors(NumberingViolations(s))
  {
    UniqueErrors(s, 0, {}, {});
    IncreasingErrors(s, 1);
    ContiguousErrors(s, 0);
    AppendErrors(CheckSession(s), CheckUnique(s, 0, {}, {}), CheckIncreasing(s, 1), CheckContiguous(s, 0), []);
  }

  lemma EnvelopeErrors(s: seq<Event>, status: Option<Status>)
    ensures AllErrors(EnvelopeViolations(s, status))
  {
    AppendErrors(CheckSingleTerminal(s), CheckTerminalLast(s), CheckLateSnapshots(s), CheckOrigin(s), CheckStatus(s, status));
  }

  lemma ProcessErrors(s: seq<Event>)
    ensures AllErrors(ProcessViolations(s))
  {
    LifecycleErrors(s, 0, {});
    var k := FirstCompletion(s);
    if k < |s| {
      MissingErrors(s[k], s[k].payload.stages.GetOr(0), 0, Terminated(s));
    }
    OutsideErrors(s, 0, DeclaredStages(s, 0, None).GetOr(0));
    AppendErrors(CheckLifecycle(s, 0, {}), CheckAccounted(s), CheckStageRange(s), CheckSuccess(s), []);
  }

  lemma RulesOnlyReportErrors(s: seq<Event>, status: Option<Status>)
    ensures AllErrors(RuleViolations(s, status))
  {
    NumberingErrors(s);
    EnvelopeErrors(s, status);
    ProcessErrors(s);
    AppendErrors(NumberingViolations(s), EnvelopeViolations(s, status), ProcessViolations(s), [], []);
  }

  lemma ValidIffNothingReported(s: seq<Event>, status: Option<Status>)
    ensures ErrorCount(Violations(s, status)) == 0 <==> RuleViolations(s, status) == []
  {
    RulesOnlyReportErrors(s, status);
    CountErrors(RuleViolations(s, status));
    PayloadsOnlyWarn(s, 0);
    CountAppend(RuleViolations(s, status), CheckPayloads(s, 0));
  }

  lemma RulesDecide(s: seq<Event>, status: Option<Status>)
    requires Ascending(s) && Numbered(s)
    ensures RuleViolations(s, status) == [] <==> WellFormed(multiset(s), status)
  {
    NumberedMembers(s);
    ContiguousIff(s, 0);
    NoGapNoDecrease(s, 1);
    SessionRule(s);
    IdRule(s);
    TerminalLastRule(s);
    OriginRule(s);
    StatusRule(s, status);
    OrphanRule(s);
    AccountedRule(s);
    StageRangeRule(s);
    if CheckTerminalLast(s) == [] {
      LastTerminalIsOnly(s);
      SuccessRule(s);
    }
  }

  lemma GapIsReported(s: seq<Event>, status: Option<Status>)
    requires !Numbered(s)
    ensures RuleViolations(s, status) != []
  {
    ContiguousIff(s, 0);
  }

  lemma VerdictOfSorted(s: seq<Event>, status: Option<Status>)
    requires Ascending(s)
    ensures ErrorCount(Violations(s, status)) == 0 <==> WellFormed(multiset(s), status)
  {
    ValidIffNothingReported(s, status);
    if Numbered(s) {
      RulesDecide(s, status);
    } else {
      GapIsReported(s, status);
      if NumberedFromZero(multiset(s)) {
        MembersNumbered(s);
      }
    }
  }

  /** The checks accept a list of events exactly when the events are a well-formed stream. */
  lemma ValidIffWellFormed(events: seq<Event>, status: Option<Status>)
    ensures Report(events, status).valid <==> WellFormed(multiset(events), status)
  {
    SortedKeeps(events);
    VerdictOfSorted(Sorted(events), status);
  }

  // The order in which a caller hands the events over never changes the verdict.
  lemma VerdictIgnoresOrder(a: seq<Event>, b: seq<Event>, status: Option<Status>)
    requires multiset(a) == multiset(b)
    ensures Report(a, status).valid == Report(b, status).valid
  {
    ValidIffWellFormed(a, status);
    ValidIffWellFormed(b, status);
  }

  predicate Mentions(vs: seq<Violation>, rule: InvariantId) {
    exists v <- vs :: v.invariantId == rule
  }

  lemma {:induction false} UniqueMentions(s: seq<Event>, i: nat, sequences: set<int>, ids: set<Token>)
    requires Numbered(s) && i <= |s| && forall x :: x in sequences ==> x < i
    ensures !Mentions(CheckUnique(s, i, sequences, ids), I2)
    decreases |s| - i
  {
    if i < |s| {
      UniqueMentions(s, i + 1, sequences + {s[i].sequence}, ids + {s[i].id});
    }
  }

  // A stream that passes I4 passes I2 and I3, and one that passes I6 passes I5 and I7.
  lemma ImpliedRules(events: seq<Event>)
    ensures var s := Sorted(events);
      && (CheckContiguous(s, 0) == [] ==> !Mentions(CheckUnique(s, 0, {}, {}), I2) && CheckIncreasing(s, 1) == [])
      && (CheckTerminalLast(s) == [] ==> CheckSingleTerminal(s) == [] && CheckLateSnapshots(s) == [])
  {
    var s := Sorted(events);
    SortedKeeps(events);
    ContiguousIff(s, 0);
    if CheckContiguous(s, 0) == [] {
      UniqueMentions(s, 0, {}, {});
      NoGapNoDecrease(s, 1);
    }
    if CheckTerminalLast(s) == [] {
      LastTerminalIsOnly(s);
    }
  }
}
