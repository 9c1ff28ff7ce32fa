/** The validator as the gateway runs it: one pass per rule over the sorted stream. */
module ValidateStream {
  import opened Basics
  import opened Events
  import opened Validator

  // Each pass adds what it finds to `found`; `all` is what the finished pass must give.
  ghost predicate Found(all: seq<Violation>, found: seq<Violation>, rest: seq<Violation>) {
    all == found + rest
  }

  lemma FoundMore(all: seq<Violation>, found: seq<Violation>, now: seq<Violation>, rest: seq<Violation>)
    requires Found(all, found, now + rest)
    ensures Found(all, found + now, rest)
  {
    assert found + (now + rest) == (found + now) + rest;
  }

  lemma FoundAll(all: seq<Violation>, found: seq<Violation>)
    requires Found(all, found, [])
    ensures found == all
  {
    assert found + [] == found;
  }

  method PassUnique(s: seq<Event>) returns (found: seq<Violation>)
    ensures found == CheckUnique(s, 0, {}, {})
  {
    ghost var all := CheckUnique(s, 0, {}, {});
    var seenSequences: set<int>, seenIds: set<Token> := {}, {};
    found := [];
    assert [] + all == all;
    for i := 0 to |s|
      invariant Found(all, found, CheckUnique(s, i, seenSequences, seenIds))
    {
      var now := if s[i].sequence in seenSequences then [Fault(I2, [s[i]])] else [];
      if s[i].id in seenIds {
        now := now + [Fault(I8, [s[i]])];
      }
      seenSequences := seenSequences + {s[i].sequence};
      seenIds := seenIds + {s[i].id};
      FoundMore(all, found, now, CheckUnique(s, i + 1, seenSequences, seenIds));
      found := found + now;
    }
    FoundAll(all, found);
  }

  method PassIncreasing(s: seq<Event>) returns (found: seq<Violation>)
    ensures found == CheckIncreasing(s, 1)
  {
    ghost var all := CheckIncreasing(s, 1);
    found := [];
    assert [] + all == all;
    var i := 1;
    while i < |s|
      invariant 1 <= i && Found(all, found, CheckIncreasing(s, i))
    {
      var now := if s[i].sequence <= s[i - 1].sequence then [Fault(I3, [s[i - 1], s[i]])] else [];
      FoundMore(all, found, now, CheckIncreasing(s, i + 1));
      found := found + now;
      i := i + 1;
    }
    FoundAll(all, found);
  }

  method PassContiguous(s: seq<Event>) returns (found: seq<Violation>)
    ensures found == CheckContiguous(s, 0)
  {
    for i := 0 to |s|
      invariant CheckContiguous(s, 0) == CheckContiguous(s, i)
    {
      if s[i].sequence != i {
        return [Fault(I4, [s[i]])];
      }
    }
    return [];
  }

  method PassLifecycle(s: seq<Event>) returns (found: seq<Violation>)
    ensures found == CheckLifecycle(s, 0, {})
  {
    ghost var all := CheckLifecycle(s, 0, {});
    var started: set<Key> := {};
    found := [];
    assert [] + all == all;
    for i := 0 to |s|
      invariant Found(all, found, CheckLifecycle(s, i, started))
    {
      var e := s[i];
      if Starts(e) {
        started := started + {KeyOf(e)};
      }
      var now := if Ends(e) && KeyOf(e) !in started then [Fault(I11, [e])] else [];
      FoundMore(all, found, now, CheckLifecycle(s, i + 1, started));
      found := found + now;
    }
    FoundAll(all, found);
  }

  method TerminatedStages(s: seq<Event>) returns (terminated: set<int>)
    ensures terminated == Terminated(s)
  {
    terminated := {};
    for i := 0 to |s|
      invariant terminated == Terminated(s[..i])
    {
      assert s[..i + 1] == s[..i] + [s[i]];
      if s[i].payload.stage.Some? && IsLifecycle(s[i]) {
        terminated := terminated + {s[i].payload.stage.value};
      }
    }
    assert s[..|s|] == s;
  }

  method PassAccounted(s: seq<Event>) returns (found: seq<Violation>)
    ensures found == CheckAccounted(s)
  {
    var k := FirstCompletion(s);
    found := [];
    if k < |s| {
      var declared := s[k].payload.stages.GetOr(0);
      var terminated := TerminatedStages(s);
      ghost var all := MissingStages(s[k], declared, 0, terminated);
      assert [] + all == all;
      var stage := 0;
      while stage < declared
        invariant 0 <= stage && Found(all, found, MissingStages(s[k], declared, stage, terminated))
      {
        var now := if stage !in terminated then [Fault(I14, [s[k]])] else [];
        FoundMore(all, found, now, MissingStages(s[k], declared, stage + 1, terminated));
        found := found + now;
        stage := stage + 1;
      }
      FoundAll(all, found);
    }
  }

  method LargestDeclared(s: seq<Event>) returns (declared: Option<int>)
    ensures declared == DeclaredStages(s, 0, None)
  {
    declared := None;
    for i := 0 to |s|
      invariant DeclaredStages(s, 0, None) == DeclaredStages(s, i, declared)
    {
      var n := s[i].payload.stages;
      if n.Some? {
        declared := if declared.None? || declared.value < n.value then n else declared;
      }
    }
  }

  method PassStageRange(s: seq<Event>) returns (found: seq<Violation>)
    ensures found == CheckStageRange(s)
  {
    var declared := LargestDeclared(s);
    found := [];
    if declared.Some? && declared.value > 0 {
      ghost var all := StagesOutside(s, 0, declared.value);
      assert [] + all == all;
      for i := 0 to |s|
        invariant Found(all, found, StagesOutside(s, i, declared.value))
      {
        var stage := s[i].payload.stage;
        var now := [];
        if stage.Some? && (stage.value < -1 || stage.value >= declared.value) {
          now := [Fault(I14, [s[i]])];
        }
        FoundMore(all, found, now, StagesOutside(s, i + 1, declared.value));
        found := found + now;
      }
      FoundAll(all, found);
    }
  }

  method HasCleanExit(s: seq<Event>) returns (found: bool)
    ensures found == AnyCleanExit(s)
  {
    for i := 0 to |s|
      invariant forall j {:trigger ExitsCleanly(s[j])} :: 0 <= j < i ==> !ExitsCleanly(s[j])
    {
      if ExitsCleanly(s[i]) {
        return true;
      }
    }
    return false;
  }

  method PassSuccess(s: seq<Event>) returns (found: seq<Violation>)
    ensures found == CheckSuccess(s)
  {
    var k := FirstTerminal(s);
    found := [];
    if k < |s| && s[k].kind == ExecutionCompleted {
      var clean := HasCleanExit(s);
      if !clean {
        found := [Fault(I12, [s[k]])];
      }
    }
  }

  method PassPayloads(s: seq<Event>) returns (found: seq<Violation>)
    ensures found == CheckPayloads(s, 0)
  {
    ghost var all := CheckPayloads(s, 0);
    found := [];
    assert [] + all == all;
    for i := 0 to |s|
      invariant Found(all, found, CheckPayloads(s, i))
    {
      var now := if s[i].payload.corrupt then [Fault(I13, [s[i]]).(severity := Warning)] else [];
      FoundMore(all, found, now, CheckPayloads(s, i + 1));
      found := found + now;
    }
    FoundAll(all, found);
  }

  method CountErrorsOf(vs: seq<Violation>) returns (n: nat)
    ensures n == ErrorCount(vs)
  {
    n := 0;
    for i := 0 to |vs|
      invariant n + ErrorCount(vs[i..]) == ErrorCount(vs)
    {
      assert vs[i..][1..] == vs[i + 1..];
      if vs[i].severity == Error {
        n := n + 1;
      }
    }
  }

  method PassNumbering(s: seq<Event>) returns (found: seq<Violation>)
    ensures found == NumberingViolations(s)
  {
    found := CheckSession(s);
    var unique := PassUnique(s);
    found := found + unique;
    var increasing := PassIncreasing(s);
    found := found + increasing;
    var contiguous := PassContiguous(s);
    found := found + contiguous;
  }

  // The envelope of the stream: its terminal event, its origin, and the session's status.
  method PassEnvelope(s: seq<Event>, status: Option<Status>) returns (found: seq<Violation>)
    ensures found == EnvelopeViolations(s, status)
  {
    var terminals := Terminals(s);
    found := if |terminals| > 1 then [Fault(I5, terminals)] else [];
    var k := FirstTerminal(s);
    found := found + (if k < |s| && k != |s| - 1 then [Fault(I6, [s[k], s[|s| - 1]])] else []);
    var late := if k < |s| then SnapshotsAfter(s, s[k].sequence) else [];
    found := found + (if late != [] then [Fault(I7, late)] else []);
    found := found + (if s != [] && s[0].kind != ExecutionCreated then [Fault(I9, [s[0]])] else []);
    found := found + CheckStatus(s, status);
  }

  method PassProcesses(s: seq<Event>) returns (found: seq<Violation>)
    ensures found == ProcessViolations(s)
  {
    found := PassLifecycle(s);
    var accounted := PassAccounted(s);
    found := found + accounted;
    var range := PassStageRange(s);
    found := found + range;
    var success := PassSuccess(s);
    found := found + success;
  }

  /** Everything the rules report about the stream, sorted first, and the verdict. */
  method ValidateEventStream(events: seq<Event>, status: Option<Status>) returns (r: ValidationResult)
    ensures r == Report(events, status)
  {
    var s := Sorted(events);
    var violations := PassNumbering(s);
    var envelope := PassEnvelope(s, status);
    violations := violations + envelope;
    var processes := PassProcesses(s);
    violations := violations + processes;
    var payloads := PassPayloads(s);
    violations := violations + payloads;
    var errors := CountErrorsOf(violations);
    return ValidationResult(errors == 0, errors, |violations| - errors, violations, SummaryOf(s));
  }
}
