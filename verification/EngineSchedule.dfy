/** What every run of the engine keeps, whatever the kernel answers. */
module EngineSchedule {
  import opened Basics
  import opened Events
  import opened Engine

  // ----------------------------------------------------- notes of a given kind

  predicate IsStart(e: Note) {
    e.name == PROCESS_STARTED
  }

  predicate IsEnding(e: Note) {
    e.name == PROCESS_EXITED || e.name == EXEC_ERROR || e.name == WAIT_FAILED
  }

  function Starts(notes: seq<Note>): seq<Note> {
    if notes == [] then [] else (if IsStart(notes[0]) then [notes[0]] else []) + Starts(notes[1..])
  }

  function Endings(notes: seq<Note>): seq<Note> {
    if notes == [] then [] else (if IsEnding(notes[0]) then [notes[0]] else []) + Endings(notes[1..])
  }

  lemma Regroup(now: seq<Note>, a: seq<Note>, b: seq<Note>, both: seq<Note>)
    requires both == a + b
    ensures now + both == now + a + b
  {}

  lemma {:induction false} FilterAppend(a: seq<Note>, b: seq<Note>)
    ensures Starts(a + b) == Starts(a) + Starts(b) && Endings(a + b) == Endings(a) + Endings(b)
  {
    if a == [] {
      assert a + b == b;
    } else {
      FilterAppend(a[1..], b);
      assert (a + b)[0] == a[0] && (a + b)[1..] == a[1..] + b;
      Regroup(if IsStart(a[0]) then [a[0]] else [], Starts(a[1..]), Starts(b), Starts(a[1..] + b));
      Regroup(if IsEnding(a[0]) then [a[0]] else [], Endings(a[1..]), Endings(b), Endings(a[1..] + b));
    }
  }

  lemma FilterOne(e: Note)
    ensures Starts([e]) == if IsStart(e) then [e] else []
    ensures Endings([e]) == if IsEnding(e) then [e] else []
  {
    assert [e][1..] == [];
  }

  function Start(plan: Plan, i: nat): Note
    requires i < |plan| && plan[i].launch.Forked?
  {
    StartNote(plan[i].launch.pid, i, |plan|)
  }

  // The one note that ends stage i.
  function Ending(plan: Plan, i: nat): Note
    requires i < |plan|
  {
    var es := ReapNotes(plan, i);
    es[|es| - 1]
  }

  lemma FilterThree(a: seq<Note>, b: seq<Note>, c: seq<Note>)
    ensures Starts(a + b + c) == Starts(a) + Starts(b) + Starts(c)
    ensures Endings(a + b + c) == Endings(a) + Endings(b) + Endings(c)
  {
    FilterAppend(a + b, c);
    FilterAppend(a, b);
  }

  lemma OpenedFiltered(s: StagePlan, i: nat, n: nat)
    ensures Starts(OpenedNotes(s, i, n)) == [] && Endings(OpenedNotes(s, i, n)) == []
  {
    if s.redirected {
      FilterOne(OpenedNotes(s, i, n)[0]);
    }
  }

  lemma ForkFiltered(files: seq<Note>, leader: seq<Note>, start: Note)
    requires Starts(files) == [] && Endings(files) == [] && Starts(leader) == [] && Endings(leader) == [] && IsStart(start)
    ensures Starts(files + leader + [start]) == [start] && Endings(files + leader + [start]) == []
  {
    FilterThree(files, leader, [start]);
    FilterOne(start);
  }

  lemma LaunchFiltered(s: StagePlan, i: nat, n: nat)
    ensures Starts(LaunchNotes(s, i, n)) == if s.launch.Forked? then [StartNote(s.launch.pid, i, n)] else []
    ensures Endings(LaunchNotes(s, i, n)) == []
  {
    OpenedFiltered(s, i, n);
    match s.launch {
      case Forked(pid) =>
        var envelope := Note(PIPELINE_STARTED, pid, 0, 0, n, 0, Completed, 0);
        FilterOne(envelope);
        ForkFiltered(OpenedNotes(s, i, n), if i == 0 then [envelope] else [], StartNote(pid, i, n));
      case RedirectionRefused => FilterOne(LaunchNotes(s, i, n)[0]);
      case _ =>
    }
  }

  lemma ReapFiltered(plan: Plan, i: nat)
    requires i < |plan|
    ensures Starts(ReapNotes(plan, i)) == [] && Endings(ReapNotes(plan, i)) == [Ending(plan, i)]
  {
    var es := ReapNotes(plan, i);
    if |es| == 2 {
      assert es == [es[0]] + [es[1]];
      FilterAppend([es[0]], [es[1]]);
      FilterOne(es[0]);
      FilterOne(es[1]);
    } else {
      assert es == [es[0]];
      FilterOne(es[0]);
    }
  }

  // The starts from stage i on, and the endings from stage i on.
  function StartList(plan: Plan, i: nat): seq<Note>
    decreases |plan| - i
  {
    if i < Launched(plan) && plan[i].launch.Forked? then [Start(plan, i)] + StartList(plan, i + 1) else []
  }

  function EndingList(plan: Plan, i: nat): seq<Note>
    decreases |plan| - i
  {
    if i < |plan| then [Ending(plan, i)] + EndingList(plan, i + 1) else []
  }

  lemma {:induction false} StartListAt(plan: Plan, i: nat, k: nat)
    requires i <= k < Launched(plan)
    ensures |StartList(plan, i)| == Launched(plan) - i
    ensures plan[k].launch.Forked? && StartList(plan, i)[k - i] == Start(plan, k)
    decreases |plan| - i
  {
    LaunchedAreForked(plan, i);
    if i < k {
      StartListAt(plan, i + 1, k);
    } else {
      StartListLength(plan, i + 1);
    }
  }

  lemma {:induction false} StartListLength(plan: Plan, i: nat)
    requires i <= Launched(plan)
    ensures |StartList(plan, i)| == Launched(plan) - i
    decreases |plan| - i
  {
    if i < Launched(plan) {
      LaunchedAreForked(plan, i);
      StartListLength(plan, i + 1);
    }
  }

  lemma EndingListUnfold(plan: Plan, i: nat)
    requires i < |plan|
    ensures EndingList(plan, i) == [Ending(plan, i)] + EndingList(plan, i + 1)
  {}

  lemma {:induction false} EndingListLength(plan: Plan, i: nat)
    requires i <= |plan|
    ensures |EndingList(plan, i)| == |plan| - i
    decreases |plan| - i
  {
    if i < |plan| {
      EndingListUnfold(plan, i);
      EndingListLength(plan, i + 1);
    }
  }

  lemma {:induction false} EndingListAt(plan: Plan, i: nat, k: nat)
    requires i <= k < |plan|
    ensures |EndingList(plan, i)| == |plan| - i && EndingList(plan, i)[k - i] == Ending(plan, k)
    decreases |plan| - i
  {
    EndingListUnfold(plan, i);
    EndingListLength(plan, i);
    if i < k {
      EndingListAt(plan, i + 1, k);
    }
  }

  lemma LaunchStep(plan: Plan, i: nat, rest: seq<Note>)
    requires i < Launched(plan) && rest == LaunchFrom(plan, i + 1)
    requires Starts(rest) == StartList(plan, i + 1) && Endings(rest) == []
    ensures Starts(LaunchFrom(plan, i)) == StartList(plan, i) && Endings(LaunchFrom(plan, i)) == []
  {
    LaunchedAreForked(plan, i);
    LaunchFiltered(plan[i], i, |plan|);
    FilterAppend(LaunchNotes(plan[i], i, |plan|), rest);
  }

  lemma LaunchEnd(plan: Plan, i: nat)
    requires i == Launched(plan)
    ensures Starts(LaunchFrom(plan, i)) == [] && Endings(LaunchFrom(plan, i)) == []
  {
    if i < |plan| {
      LaunchStops(plan);
      LaunchFiltered(plan[i], i, |plan|);
      assert LaunchNotes(plan[i], i, |plan|) + [] == LaunchNotes(plan[i], i, |plan|);
    }
  }

  lemma {:induction false} LaunchLists(plan: Plan, i: nat)
    requires i <= Launched(plan)
    ensures Starts(LaunchFrom(plan, i)) == StartList(plan, i) && Endings(LaunchFrom(plan, i)) == []
    decreases |plan| - i
  {
    if i < Launched(plan) {
      var rest := LaunchFrom(plan, i + 1);
      LaunchLists(plan, i + 1);
      LaunchStep(plan, i, rest);
    } else {
      LaunchEnd(plan, i);
    }
  }

  lemma {:induction false} ReapLists(plan: Plan, i: nat)
    requires i <= |plan|
    ensures Endings(ReapFrom(plan, i)) == EndingList(plan, i) && Starts(ReapFrom(plan, i)) == []
    decreases |plan| - i
  {
    if i < |plan| {
      ReapFiltered(plan, i);
      FilterAppend(ReapNotes(plan, i), ReapFrom(plan, i + 1));
      ReapLists(plan, i + 1);
    }
  }

  /**
   * A pipeline reports one start for each stage it launched, in order, and one ending for
   * every stage, in order.
   */
  lemma OneStartAndOneEnding(plan: Plan)
    requires |plan| >= 2
    ensures Starts(PipelineNotes(plan)) == StartList(plan, 0)
    ensures Endings(PipelineNotes(plan)) == EndingList(plan, 0)
  {
    LaunchLists(plan, 0);
    ReapLists(plan, 0);
    PipelineFiltered(plan, LaunchFrom(plan, 0), ReapFrom(plan, 0));
  }

  lemma PipelineFiltered(plan: Plan, launch: seq<Note>, reap: seq<Note>)
    requires |plan| >= 2 && launch == LaunchFrom(plan, 0) && reap == ReapFrom(plan, 0)
    requires Endings(launch) == [] && Starts(reap) == []
    ensures Starts(PipelineNotes(plan)) == Starts(launch) && Endings(PipelineNotes(plan)) == Endings(reap)
  {
    Combine(launch, reap, CompletedNote(plan));
  }

  lemma Combine(a: seq<Note>, b: seq<Note>, last: Note)
    requires Endings(a) == [] && Starts(b) == [] && !IsStart(last) && !IsEnding(last)
    ensures Starts(a + b + [last]) == Starts(a) && Endings(a + b + [last]) == Endings(b)
  {
    FilterThree(a, b, [last]);
    FilterOne(last);
  }

  // Once every stage was launched, the two lists pair up: same process, same stage.
  lemma StartsPairWithEndings(plan: Plan, i: nat)
    requires |plan| >= 2 && AllLaunched(plan) && i < |plan|
    ensures |Starts(PipelineNotes(plan))| == |Endings(PipelineNotes(plan))| == |plan|
    ensures var s, e := Starts(PipelineNotes(plan))[i], Endings(PipelineNotes(plan))[i];
      s.pid == e.pid && (e.name != WAIT_FAILED ==> s.stage == e.stage == i)
  {
    OneStartAndOneEnding(plan);
    StartListAt(plan, 0, i);
    EndingListAt(plan, 0, i);
  }

  // ------------------------------------------------------ order within the stream

  predicate NoStarts(notes: seq<Note>) {
    forall i {:trigger IsStart(notes[i])} :: 0 <= i < |notes| ==> !IsStart(notes[i])
  }

  predicate NoEndings(notes: seq<Note>) {
    forall i {:trigger IsEnding(notes[i])} :: 0 <= i < |notes| ==> !IsEnding(notes[i])
  }

  lemma {:induction false} StartsEmpty(notes: seq<Note>)
    requires Starts(notes) == []
    ensures NoStarts(notes)
  {
    if notes != [] {
      StartsEmpty(notes[1..]);
      forall i {:trigger IsStart(notes[i])} | 0 <= i < |notes| ensures !IsStart(notes[i]) {
        if i > 0 {
          assert !IsStart(notes[1..][i - 1]);
        }
      }
    }
  }

  lemma {:induction false} EndingsEmpty(notes: seq<Note>)
    requires Endings(notes) == []
    ensures NoEndings(notes)
  {
    if notes != [] {
      EndingsEmpty(notes[1..]);
      forall i {:trigger IsEnding(notes[i])} | 0 <= i < |notes| ensures !IsEnding(notes[i]) {
        if i > 0 {
          assert !IsEnding(notes[1..][i - 1]);
        }
      }
    }
  }

  // No stage is reported ended before the last one is reported started.
  lemma StartsComeFirst(plan: Plan, i: nat, j: nat)
    requires |plan| >= 2 && i < |PipelineNotes(plan)| && j < |PipelineNotes(plan)|
    requires IsEnding(PipelineNotes(plan)[i]) && IsStart(PipelineNotes(plan)[j])
    ensures j < i
  {
    var a, b := LaunchFrom(plan, 0), ReapFrom(plan, 0) + [CompletedNote(plan)];
    HeadHasNoEndings(plan);
    TailHasNoStarts(plan);
    assert PipelineNotes(plan) == a + b;
    EndingIsInTail(a, b, i);
    StartIsInHead(a, b, j);
  }

  lemma HeadHasNoEndings(plan: Plan)
    ensures NoEndings(LaunchFrom(plan, 0))
  {
    LaunchLists(plan, 0);
    EndingsEmpty(LaunchFrom(plan, 0));
  }

  lemma TailHasNoStarts(plan: Plan)
    requires plan != []
    ensures NoStarts(ReapFrom(plan, 0) + [CompletedNote(plan)])
  {
    ReapLists(plan, 0);
    FilterAppend(ReapFrom(plan, 0), [CompletedNote(plan)]);
    FilterOne(CompletedNote(plan));
    StartsEmpty(ReapFrom(plan, 0) + [CompletedNote(plan)]);
  }

  lemma EndingIsInTail(a: seq<Note>, b: seq<Note>, i: nat)
    requires NoEndings(a) && i < |a + b| && IsEnding((a + b)[i])
    ensures |a| <= i
  {
    assert forall k :: 0 <= k < |a| ==> !IsEnding(a[k]);
  }

  lemma StartIsInHead(a: seq<Note>, b: seq<Note>, j: nat)
    requires NoStarts(b) && j < |a + b| && IsStart((a + b)[j])
    ensures j < |a|
  {
    assert forall k :: |a| <= k < |a + b| ==> (a + b)[k] == b[k - |a|] && !IsStart(b[k - |a|]);
  }

  // A signal notice is followed at once by the exit it explains.
  predicate Announces(e: Note, next: Note) {
    next.name == PROCESS_EXITED && next.pid == e.pid && next.stage == e.stage && next.status == 128 + e.status
    && next.outcome == Signaled
  }

  predicate SignalAt(notes: seq<Note>, k: nat)
    requires k < |notes|
  {
    notes[k].name == SIGNAL_RECEIVED ==> k + 1 < |notes| && Announces(notes[k], notes[k + 1])
  }

  predicate SignalsAnnounced(notes: seq<Note>) {
    forall k {:trigger SignalAt(notes, k)} :: 0 <= k < |notes| ==> SignalAt(notes, k)
  }

  lemma AnnouncedAppend(a: seq<Note>, b: seq<Note>)
    requires SignalsAnnounced(a) && SignalsAnnounced(b)
    ensures SignalsAnnounced(a + b)
  {
    forall k {:trigger SignalAt(a + b, k)} | 0 <= k < |a + b| ensures SignalAt(a + b, k) {
      if k < |a| {
        assert SignalAt(a, k);
      } else {
        assert SignalAt(b, k - |a|);
      }
    }
  }

  lemma {:induction false} LaunchAnnounced(plan: Plan, i: nat)
    requires i <= |plan|
    ensures SignalsAnnounced(LaunchFrom(plan, i))
    decreases |plan| - i
  {
    if i < |plan| {
      var now := LaunchNotes(plan[i], i, |plan|);
      assert SignalsAnnounced(now);
      if plan[i].launch.Forked? {
        LaunchAnnounced(plan, i + 1);
        AnnouncedAppend(now, LaunchFrom(plan, i + 1));
      }
    }
  }

  lemma {:induction false} ReapAnnounced(plan: Plan, i: nat)
    requires i <= |plan|
    ensures SignalsAnnounced(ReapFrom(plan, i))
    decreases |plan| - i
  {
    if i < |plan| {
      assert SignalsAnnounced(ReapNotes(plan, i));
      ReapAnnounced(plan, i + 1);
      AnnouncedAppend(ReapNotes(plan, i), ReapFrom(plan, i + 1));
    }
  }

  lemma SignalsPrecedeTheirExit(plan: Plan)
    requires |plan| >= 2
    ensures SignalsAnnounced(PipelineNotes(plan))
  {
    LaunchAnnounced(plan, 0);
    ReapAnnounced(plan, 0);
    AnnouncedAppend(LaunchFrom(plan, 0), ReapFrom(plan, 0));
    AnnouncedAppend(LaunchFrom(plan, 0) + ReapFrom(plan, 0), [CompletedNote(plan)]);
  }

  // ------------------------------------------------------------------ the counters

  // Endings, and launches that failed outright, all count as succeeded or failed.
  predicate Settles(e: Note) {
    IsEnding(e) || e.name == EXECUTION_FAILED
  }

  function Settled(notes: seq<Note>): nat {
    if notes == [] then 0 else (if Settles(notes[0]) then 1 else 0) + Settled(notes[1..])
  }

  lemma {:induction false} TallyCounts(c: Counters, notes: seq<Note>)
    ensures var t := Tally(c, notes);
      t.commands == c.commands + |Starts(notes)| && t.succeeded + t.failed == c.succeeded + c.failed + Settled(notes)
    decreases |notes|
  {
    if notes != [] {
      TallyCounts(Counted(c, notes[0]), notes[1..]);
    }
  }

  lemma {:induction false} SettledAppend(a: seq<Note>, b: seq<Note>)
    ensures Settled(a + b) == Settled(a) + Settled(b)
  {
    if a == [] {
      assert a + b == b;
    } else {
      SettledAppend(a[1..], b);
      assert (a + b)[0] == a[0] && (a + b)[1..] == a[1..] + b;
    }
  }

  lemma LaunchParts(plan: Plan, i: nat) returns (now: seq<Note>, rest: seq<Note>)
    requires i < |plan|
    ensures now == LaunchNotes(plan[i], i, |plan|) && LaunchFrom(plan, i) == now + rest
    ensures rest == if plan[i].launch.Forked? then LaunchFrom(plan, i + 1) else []
  {
    now := LaunchNotes(plan[i], i, |plan|);
    rest := if plan[i].launch.Forked? then LaunchFrom(plan, i + 1) else [];
  }

  lemma {:induction false} LaunchSettles(plan: Plan, i: nat)
    requires i <= |plan|
    ensures Settled(LaunchFrom(plan, i)) == 0
    decreases |plan| - i
  {
    if i < |plan| {
      var now, rest := LaunchParts(plan, i);
      LaunchStageSettles(plan[i], i, |plan|);
      SettledAppend(now, rest);
      if plan[i].launch.Forked? {
        LaunchSettles(plan, i + 1);
      }
    }
  }

  lemma {:induction false} NothingSettled(notes: seq<Note>)
    requires forall i {:trigger notes[i]} :: 0 <= i < |notes| ==> !Settles(notes[i])
    ensures Settled(notes) == 0
  {
    if notes != [] {
      NothingSettled(notes[1..]);
    }
  }

  lemma LaunchStageSettles(s: StagePlan, i: nat, n: nat)
    ensures Settled(LaunchNotes(s, i, n)) == 0
  {
    NothingSettled(LaunchNotes(s, i, n));
  }

  lemma ReapStageSettles(plan: Plan, i: nat)
    requires i < |plan|
    ensures Settled(ReapNotes(plan, i)) == 1
  {
    var es := ReapNotes(plan, i);
    if |es| == 2 {
      assert es == [es[0]] + [es[1]];
      SettledAppend([es[0]], [es[1]]);
      assert [es[0]][1..] == [] && [es[1]][1..] == [];
    } else {
      assert es == [es[0]] && es[1..] == [];
    }
  }

  lemma {:induction false} ReapSettles(plan: Plan, i: nat)
    requires i <= |plan|
    ensures Settled(ReapFrom(plan, i)) == |plan| - i
    decreases |plan| - i
  {
    if i < |plan| {
      ReapStageSettles(plan, i);
      ReapSettles(plan, i + 1);
      SettledAppend(ReapNotes(plan, i), ReapFrom(plan, i + 1));
    }
  }

  /**
   * After a pipeline, succeeded + failed exceeds commands by the stages that never started;
   * the two agree exactly when every stage was launched.
   */
  lemma CountersBalance(plan: Plan)
    requires |plan| >= 2
    ensures var t := Tally(ZERO, PipelineNotes(plan));
      && t.succeeded + t.failed == t.commands + (|plan| - Launched(plan))
      && (t.succeeded + t.failed == t.commands <==> AllLaunched(plan))
  {
    TallyCounts(ZERO, PipelineNotes(plan));
    OneStartAndOneEnding(plan);
    StartListLength(plan, 0);
    PipelineSettles(plan);
  }

  lemma PipelineSettles(plan: Plan)
    requires |plan| >= 2
    ensures Settled(PipelineNotes(plan)) == |plan|
  {
    LaunchSettles(plan, 0);
    ReapSettles(plan, 0);
    SettledAppend(LaunchFrom(plan, 0) + ReapFrom(plan, 0), [CompletedNote(plan)]);
    SettledAppend(LaunchFrom(plan, 0), ReapFrom(plan, 0));
    assert [CompletedNote(plan)][1..] == [];
  }

  // -------------------------------------------------------------------- the status

  /**
   * The returned status is the one the stream reports for the last stage, except where no
   * program's end was observed.
   */
  lemma StatusIsLastStages(plan: Plan)
    requires |plan| >= 2
    ensures var last := Endings(PipelineNotes(plan));
      last != [] && (last[|last| - 1].name == PROCESS_EXITED && AllLaunched(plan) ==>
        PipelineStatus(plan) == last[|last| - 1].status)
    ensures !AllLaunched(plan) ==> PipelineStatus(plan) == EXIT_FAILURE
  {
    var n := |plan|;
    OneStartAndOneEnding(plan);
    EndingListAt(plan, 0, n - 1);
    if AllLaunched(plan) {
      LaunchedAreForked(plan, n - 1);
    }
  }

  // Success means the last stage exited 0, or that waiting for it failed: the status word
  // starts as zero and only a successful wait writes it.
  lemma StatusZeroIff(plan: Plan)
    requires |plan| >= 2
    ensures PipelineStatus(plan) == 0 <==>
      AllLaunched(plan) && (plan[|plan| - 1].wait == ExitedWith(0) || plan[|plan| - 1].wait == NoAnswer)
  {
    var last := plan[|plan| - 1];
    if last.wait.KilledBy? {
      assert last.wait.sig > 0;
    }
  }

  // A single command that cannot be waited for reports failure; in a pipeline it does not.
  lemma UnansweredWaitDiffers(s: StagePlan)
    requires s.launch.Forked? && s.wait.NoAnswer?
    ensures SingleStatus(s) == EXIT_FAILURE && PipelineStatus([s, s]) == 0
  {
    assert [s, s][1..] == [s] && [s][1..] == [];
    assert Launched([s]) == 1 && Launched([s, s]) == 2;
  }
}