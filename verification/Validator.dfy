/**
 * The rules for a session's event stream.  The checks read a sorted copy of the stream one
 * after the other; WellFormed says what they amount to, as a property of the events alone.
 */
module Validator {
  import opened Basics
  import opened Events

  datatype InvariantId = I1 | I2 | I3 | I4 | I5 | I6 | I7 | I8 | I9 | I10 | I11 | I12 | I13 | I14

  datatype Severity = Error | Warning

  datatype Violation = Violation(invariantId: InvariantId, severity: Severity, sequences: seq<int>, eventIds: seq<Token>)

  datatype Summary = Summary(
    sessionId: Option<Token>, eventCount: nat, firstSequence: Option<int>, lastSequence: Option<int>,
    terminalType: Option<EventType>, terminalSequence: Option<int>)

  datatype ValidationResult = ValidationResult(
    valid: bool, errorCount: nat, warningCount: int, violations: seq<Violation>, summary: Summary)

  function SequencesOf(es: seq<Event>): seq<int> {
    seq(|es|, i requires 0 <= i < |es| => es[i].sequence)
  }

  function IdsOf(es: seq<Event>): seq<Token> {
    seq(|es|, i requires 0 <= i < |es| => es[i].id)
  }

  function Fault(rule: InvariantId, es: seq<Event>): Violation {
    Violation(rule, Error, SequencesOf(es), IdsOf(es))
  }

  // --------------------------------------------------------------- the stable sort

  // `e` goes after every event whose sequence is not larger.
  function InsertEvent(e: Event, sorted: seq<Event>): (r: seq<Event>)
    decreases |sorted|
  {
    if sorted == [] then [e]
    else if sorted[|sorted| - 1].sequence <= e.sequence then sorted + [e]
    else InsertEvent(e, sorted[..|sorted| - 1]) + [sorted[|sorted| - 1]]
  }

  function Sorted(es: seq<Event>): seq<Event> {
    if es == [] then [] else InsertEvent(es[|es| - 1], Sorted(es[..|es| - 1]))
  }

  predicate Ascending(s: seq<Event>) {
    forall i, j :: 0 <= i < j < |s| ==> s[i].sequence <= s[j].sequence
  }

  lemma AppendLargest(init: seq<Event>, last: Event)
    requires Ascending(init) && forall x: Event :: x in multiset(init) ==> x.sequence <= last.sequence
    ensures Ascending(init + [last]) && multiset(init + [last]) == multiset(init) + multiset{last}
  {
    assert forall i :: 0 <= i < |init| ==> init[i] in multiset(init);
  }

  lemma LastIsLargest(sorted: seq<Event>, x: Event)
    requires Ascending(sorted) && sorted != [] && x in multiset(sorted[..|sorted| - 1])
    ensures x.sequence <= sorted[|sorted| - 1].sequence
  {
    var i :| 0 <= i < |sorted| - 1 && sorted[i] == x;
  }

  lemma BelowLast(sorted: seq<Event>, init: seq<Event>, last: Event)
    requires Ascending(sorted) && sorted == init + [last]
    ensures Ascending(init) && forall x: Event :: x in multiset(init) ==> x.sequence <= last.sequence
  {
    assert init == sorted[..|sorted| - 1];
    forall x: Event | x in multiset(init) ensures x.sequence <= last.sequence {
      LastIsLargest(sorted, x);
    }
  }

  lemma {:induction false} InsertKeeps(e: Event, sorted: seq<Event>)
    requires Ascending(sorted)
    ensures Ascending(InsertEvent(e, sorted)) && multiset(InsertEvent(e, sorted)) == multiset(sorted) + multiset{e}
    decreases |sorted|
  {
    if sorted != [] {
      var last, init := sorted[|sorted| - 1], sorted[..|sorted| - 1];
      assert sorted == init + [last];
      BelowLast(sorted, init, last);
      if last.sequence <= e.sequence {
        AppendLargest(sorted, e);
      } else {
        InsertKeeps(e, init);
        AppendLargest(InsertEvent(e, init), last);
      }
    }
  }

  lemma {:induction false} SortedKeeps(es: seq<Event>)
    ensures Ascending(Sorted(es)) && multiset(Sorted(es)) == multiset(es) && |Sorted(es)| == |es|
  {
    if es != [] {
      SortedKeeps(es[..|es| - 1]);
      InsertKeeps(es[|es| - 1], Sorted(es[..|es| - 1]));
      assert es == es[..|es| - 1] + [es[|es| - 1]];
      assert |multiset(Sorted(es))| == |multiset(es)|;
    }
  }

  // ------------------------------------------------------- what each check reports

  function SessionIds(s: seq<Event>): set<Token> {
    set e <- s :: e.sessionId
  }

  function CheckSession(s: seq<Event>): seq<Violation> {
    if |SessionIds(s)| > 1 then [Fault(I1, s)] else []
  }

  // Sequences and identifiers already seen, from position i on.
  function CheckUnique(s: seq<Event>, i: nat, sequences: set<int>, ids: set<Token>): seq<Violation>
    requires i <= |s|
    decreases |s| - i
  {
    if i == |s| then []
    else (if s[i].sequence in sequences then [Fault(I2, [s[i]])] else [])
         + (if s[i].id in ids then [Fault(I8, [s[i]])] else [])
         + CheckUnique(s, i + 1, sequences + {s[i].sequence}, ids + {s[i].id})
  }

  function CheckIncreasing(s: seq<Event>, i: nat): seq<Violation>
    requires 1 <= i
    decreases |s| - i
  {
    if i >= |s| then []
    else (if s[i].sequence <= s[i - 1].sequence then [Fault(I3, [s[i - 1], s[i]])] else []) + CheckIncreasing(s, i + 1)
  }

  // Only the first gap is reported.
  function CheckContiguous(s: seq<Event>, i: nat): seq<Violation>
    requires i <= |s|
    decreases |s| - i
  {
    if i == |s| then []
    else if s[i].sequence != i then [Fault(I4, [s[i]])]
    else CheckContiguous(s, i + 1)
  }

  function Terminals(s: seq<Event>): seq<Event> {
    if s == [] then [] else (if IsTerminal(s[0]) then [s[0]] else []) + Terminals(s[1..])
  }

  function CheckSingleTerminal(s: seq<Event>): seq<Violation> {
    if |Terminals(s)| > 1 then [Fault(I5, Terminals(s))] else []
  }

  // The position of the first terminal event, or the length when there is none.
  function FirstTerminal(s: seq<Event>): (k: nat)
    ensures k <= |s|
    ensures k < |s| ==> IsTerminal(s[k])
  {
    if s == [] || IsTerminal(s[0]) then 0 else 1 + FirstTerminal(s[1..])
  }

  function CheckTerminalLast(s: seq<Event>): seq<Violation> {
    var k := FirstTerminal(s);
    if k < |s| && k != |s| - 1 then [Fault(I6, [s[k], s[|s| - 1]])] else []
  }

  function SnapshotsAfter(s: seq<Event>, sequence: int): seq<Event> {
    if s == [] then []
    else (if s[0].sequence > sequence && s[0].kind == ProcessSnapshot then [s[0]] else []) + SnapshotsAfter(s[1..], sequence)
  }

  function CheckLateSnapshots(s: seq<Event>): seq<Violation> {
    var k := FirstTerminal(s);
    if k == |s| then []
    else var late := SnapshotsAfter(s, s[k].sequence); if late != [] then [Fault(I7, late)] else []
  }

  function CheckOrigin(s: seq<Event>): seq<Violation> {
    if s != [] && s[0].kind != ExecutionCreated then [Fault(I9, [s[0]])] else []
  }

  function CheckStatus(s: seq<Event>, status: Option<Status>): seq<Violation> {
    var k := FirstTerminal(s);
    if status.None? then []
    else if IsFinal(status.value) && k == |s| then [Fault(I10, [])]
    else if !IsFinal(status.value) && k < |s| then [Fault(I10, [s[k]])]
    else []
  }

  type Key = (int, int)

  function KeyOf(e: Event): Key
    requires e.pid.Some?
  {
    (e.pid.value, StageOf(e))
  }

  predicate Starts(e: Event) {
    e.kind == ProcessStarted && e.pid.Some?
  }

  predicate Ends(e: Event) {
    IsLifecycle(e) && e.pid.Some?
  }

  function CheckLifecycle(s: seq<Event>, i: nat, started: set<Key>): seq<Violation>
    requires i <= |s|
    decreases |s| - i
  {
    if i == |s| then []
    else
      var now := if Starts(s[i]) then started + {KeyOf(s[i])} else started;
      (if Ends(s[i]) && KeyOf(s[i]) !in now then [Fault(I11, [s[i]])] else []) + CheckLifecycle(s, i + 1, now)
  }

  function FirstCompletion(s: seq<Event>): (k: nat)
    ensures k <= |s|
    ensures k < |s| ==> s[k].kind == PipelineCompleted
  {
    if s == [] || s[0].kind == PipelineCompleted then 0 else 1 + FirstCompletion(s[1..])
  }

  function Terminated(s: seq<Event>): set<int> {
    set e <- s | e.payload.stage.Some? && IsLifecycle(e) :: e.payload.stage.value
  }

  function MissingStages(completion: Event, declared: int, stage: nat, terminated: set<int>): seq<Violation>
    decreases declared - stage
  {
    if stage >= declared then []
    else (if stage !in terminated then [Fault(I14, [completion])] else [])
         + MissingStages(completion, declared, stage + 1, terminated)
  }

  function CheckAccounted(s: seq<Event>): seq<Violation> {
    var k := FirstCompletion(s);
    if k == |s| then [] else MissingStages(s[k], s[k].payload.stages.GetOr(0), 0, Terminated(s))
  }

  function DeclaredStages(s: seq<Event>, i: nat, acc: Option<int>): Option<int>
    requires i <= |s|
    decreases |s| - i
  {
    if i == |s| then acc
    else
      var n := s[i].payload.stages;
      DeclaredStages(s, i + 1, if n.None? then acc else if acc.None? || acc.value < n.value then n else acc)
  }

  function StagesOutside(s: seq<Event>, i: nat, declared: int): seq<Violation>
    requires i <= |s|
    decreases |s| - i
  {
    if i == |s| then []
    else
      var stage := s[i].payload.stage;
      (if stage.Some? && (stage.value < -1 || stage.value >= declared) then [Fault(I14, [s[i]])] else [])
      + StagesOutside(s, i + 1, declared)
  }

  function CheckStageRange(s: seq<Event>): seq<Violation> {
    var declared := DeclaredStages(s, 0, None);
    if declared.Some? && declared.value > 0 then StagesOutside(s, 0, declared.value) else []
  }

  predicate ExitsCleanly(e: Event) {
    e.kind == ProcessExited && e.payload.exitCode == Some(0)
  }

  predicate AnyCleanExit(s: seq<Event>) {
    exists i {:trigger ExitsCleanly(s[i])} :: 0 <= i < |s| && ExitsCleanly(s[i])
  }

  function CheckSuccess(s: seq<Event>): seq<Violation> {
    var k := FirstTerminal(s);
    if k < |s| && s[k].kind == ExecutionCompleted && !AnyCleanExit(s) then [Fault(I12, [s[k]])] else []
  }

  // The only rule that warns.
  function CheckPayloads(s: seq<Event>, i: nat): seq<Violation>
    requires i <= |s|
    decreases |s| - i
  {
    if i == |s| then []
    else (if s[i].payload.corrupt then [Fault(I13, [s[i]]).(severity := Warning)] else []) + CheckPayloads(s, i + 1)
  }

  function NumberingViolations(s: seq<Event>): seq<Violation> {
    CheckSession(s) + CheckUnique(s, 0, {}, {}) + CheckIncreasing(s, 1) + CheckContiguous(s, 0)
  }

  function EnvelopeViolations(s: seq<Event>, status: Option<Status>): seq<Violation> {
    CheckSingleTerminal(s) + CheckTerminalLast(s) + CheckLateSnapshots(s) + CheckOrigin(s) + CheckStatus(s, status)
  }

  function ProcessViolations(s: seq<Event>): seq<Violation> {
    CheckLifecycle(s, 0, {}) + CheckAccounted(s) + CheckStageRange(s) + CheckSuccess(s)
  }

  function RuleViolations(s: seq<Event>, status: Option<Status>): seq<Violation> {
    NumberingViolations(s) + EnvelopeViolations(s, status) + ProcessViolations(s)
  }

  function Violations(s: seq<Event>, status: Option<Status>): seq<Violation> {
    RuleViolations(s, status) + CheckPayloads(s, 0)
  }

  function ErrorCount(vs: seq<Violation>): nat {
    if vs == [] then 0 else (if vs[0].severity == Error then 1 else 0) + ErrorCount(vs[1..])
  }

  function SummaryOf(s: seq<Event>): Summary {
    var k := FirstTerminal(s);
    Summary(
      if |SessionIds(s)| == 1 then Some(s[0].sessionId) else None, |s|,
      if s == [] then None else Some(s[0].sequence), if s == [] then None else Some(s[|s| - 1].sequence),
      if k < |s| then Some(s[k].kind) else None, if k < |s| then Some(s[k].sequence) else None)
  }

  function Report(events: seq<Event>, status: Option<Status>): ValidationResult {
    var s := Sorted(events);
    var vs := Violations(s, status);
    ValidationResult(ErrorCount(vs) == 0, ErrorCount(vs), |vs| - ErrorCount(vs), vs, SummaryOf(s))
  }
}
