/**
 * The engine's pipeline parser: the tokens are sliced per stage, each slice is compacted in
 * place, and the wiring is labelled in a second pass.
 */
module PipelineParser {
  import opened Basics
  import opened Pipeline
  import Lexer
  import Tokenizer

  // A C argument vector that holds `ts`: the pointers, then NULL.
  function Vector(ts: seq<string>): seq<Option<string>> {
    seq(|ts|, i requires 0 <= i < |ts| => Some(ts[i])) + [None]
  }

  // The validation pass: the first operator without a file name.
  method FindFault(ts: seq<string>) returns (nOps: nat, fault: Option<ParseError>)
    ensures fault == OpFault(ts)
    ensures fault == None ==> nOps == CountOps(ts)
  {
    nOps := 0;
    for i := 0 to |ts|
      invariant OpFault(ts) == OpFault(ts[i..])
      invariant nOps + CountOps(ts[i..]) == CountOps(ts)
    {
      assert ts[i..][0] == ts[i] && ts[i..][1..] == ts[i + 1..];
      if !IsOp(ts[i]) {
        continue;
      }
      nOps := nOps + 1;
      if i + 1 >= |ts| {
        return nOps, Some(MissingTarget(ts[i]));
      }
      assert ts[i..][1] == ts[i + 1];
      if IsOp(ts[i + 1]) {
        return nOps, Some(OperatorAsTarget(ts[i], ts[i + 1]));
      }
    }
    fault := None;
  }

  // The state of the compaction: `j` arguments kept, `r` redirections filled, `rest` to go.
  ghost predicate Compacting(ts: seq<string>, i: nat, kept: seq<string>, filled: seq<Redirection>) {
    && i <= |ts| && OpFault(ts[i..]) == None
    && Args(ts) == kept + Args(ts[i..])
    && Redirs(ts) == filled + Redirs(ts[i..])
  }

  lemma CompactStep(ts: seq<string>, i: nat, kept: seq<string>, filled: seq<Redirection>)
    requires Compacting(ts, i, kept, filled) && i < |ts|
    ensures !IsOp(ts[i]) ==> Compacting(ts, i + 1, kept + [ts[i]], filled)
    ensures IsOp(ts[i]) ==> i + 1 < |ts| && Compacting(ts, i + 2, kept, filled + [MakeRedirection(ts[i], ts[i + 1])])
  {
    var rest := ts[i..];
    assert rest[0] == ts[i] && rest[1..] == ts[i + 1..];
    if IsOp(ts[i]) {
      SkipsTarget(rest);
      assert rest[1] == ts[i + 1] && rest[2..] == ts[i + 2..];
      assert Redirs(ts) == filled + ([MakeRedirection(ts[i], ts[i + 1])] + Redirs(ts[i + 2..]));
    } else {
      assert Args(ts) == kept + ([ts[i]] + Args(ts[i + 1..]));
    }
  }

  lemma {:induction false} RedirsCounted(ts: seq<string>)
    requires OpFault(ts) == None
    ensures |Redirs(ts)| == CountOps(ts)
    decreases |ts|
  {
    if ts != [] && IsOp(ts[0]) {
      SkipsTarget(ts);
      assert ts[1..][0] == ts[1] && ts[1..][1..] == ts[2..];
      RedirsCounted(ts[2..]);
    } else if ts != [] {
      RedirsCounted(ts[1..]);
    }
  }

  /**
   * Pull the redirections out of an argument vector that holds `ts`.  A refusal leaves the
   * vector as it was; success compacts it in place and closes it with NULL again.
   */
  method SplitRedirections(argv: array<Option<string>>, argc: nat, ts: seq<string>)
    returns (fault: Option<ParseError>, argc': nat, redirs: array<Redirection>)
    requires argc == |ts| && argv[..] == Vector(ts)
    modifies argv
    ensures fault == OpFault(ts)
    ensures fault.Some? ==> argv[..] == old(argv[..]) && argc' == argc && redirs.Length == 0
    ensures fault.None? ==> argc' == |Args(ts)| <= argc && argv[..argc' + 1] == Vector(Args(ts)) && redirs[..] == Redirs(ts)
    ensures fresh(redirs)
  {
    var nOps;
    nOps, fault := FindFault(ts);
    argc' := argc;
    redirs := new Redirection[0];
    if fault.Some? {
      return;
    }
    RedirsCounted(ts);
    if nOps == 0 {
      NoOpsNoChange(ts);
      return;
    }
    argc', redirs := Compact(argv, argc, nOps, ts);
  }

  // The arguments kept at the front of the vector, and the tokens still to be read.
  ghost predicate Holds(argv: array<Option<string>>, ts: seq<string>, i: nat, kept: seq<string>)
    reads argv
  {
    && |kept| <= i <= |ts| < argv.Length
    && (forall k :: 0 <= k < |kept| ==> argv[k] == Some(kept[k]))
    && (forall k :: i <= k < |ts| ==> argv[k] == Some(ts[k]))
  }

  // One token of a validated vector: kept in place, or turned into a redirection.
  method PlaceToken(argv: array<Option<string>>, redirs: array<Redirection>, i: nat, ts: seq<string>,
                    ghost kept: seq<string>, ghost filled: seq<Redirection>, j: nat, r: nat)
    returns (i': nat, j': nat, r': nat, ghost kept': seq<string>, ghost filled': seq<Redirection>)
    requires i < |ts| && Compacting(ts, i, kept, filled) && Holds(argv, ts, i, kept)
    requires j == |kept| && r == |filled| && redirs.Length == |Redirs(ts)| && redirs[..r] == filled
    modifies argv, redirs
    ensures i < i' && Compacting(ts, i', kept', filled') && Holds(argv, ts, i', kept')
    ensures j' == |kept'| && r' == |filled'| <= redirs.Length && redirs[..r'] == filled'
  {
    CompactStep(ts, i, kept, filled);
    i', j', r', kept', filled' := i + 1, j, r, kept, filled;
    if IsOp(argv[i].value) {
      CompactRoom(ts, i, kept, filled);
      var made := MakeRedirection(argv[i].value, argv[i + 1].value);
      redirs[r] := made;
      i', r', filled' := i + 2, r + 1, filled + [made];
    } else {
      argv[j] := argv[i];
      j', kept' := j + 1, kept + [ts[i]];
    }
  }

  // The mutation pass over a validated vector.
  method Compact(argv: array<Option<string>>, argc: nat, nOps: nat, ts: seq<string>)
    returns (j: nat, redirs: array<Redirection>)
    requires argc == |ts| && argv[..] == Vector(ts) && OpFault(ts) == None && nOps == |Redirs(ts)|
    modifies argv
    ensures j == |Args(ts)| <= argc && argv[..j + 1] == Vector(Args(ts)) && redirs[..] == Redirs(ts)
    ensures fresh(redirs)
  {
    redirs := new Redirection[nOps];
    var i, r := 0, 0;
    j := 0;
    ghost var kept: seq<string>, filled: seq<Redirection> := [], [];
    CompactStart(ts);
    assert forall k :: 0 <= k < argc ==> argv[..][k] == argv[k];
    while i < argc
      invariant i <= argc && j == |kept| && r == |filled| <= redirs.Length == nOps
      invariant Compacting(ts, i, kept, filled) && Holds(argv, ts, i, kept) && redirs[..r] == filled
    {
      i, j, r, kept, filled := PlaceToken(argv, redirs, i, ts, kept, filled, j, r);
    }
    CompactEnd(ts, i, kept, filled);
    argv[j] := None;
    assert argv[..j + 1] == Vector(kept);
    assert redirs[..r] == redirs[..];
  }

  lemma CompactRoom(ts: seq<string>, i: nat, kept: seq<string>, filled: seq<Redirection>)
    requires Compacting(ts, i, kept, filled) && i < |ts| && IsOp(ts[i])
    ensures |filled| < |Redirs(ts)|
  {
    CompactStep(ts, i, kept, filled);
  }

  lemma CompactStart(ts: seq<string>)
    requires OpFault(ts) == None
    ensures Compacting(ts, 0, [], [])
  {
    assert ts[0..] == ts && [] + Args(ts) == Args(ts) && [] + Redirs(ts) == Redirs(ts);
  }

  lemma CompactEnd(ts: seq<string>, i: nat, kept: seq<string>, filled: seq<Redirection>)
    requires Compacting(ts, i, kept, filled) && i == |ts|
    ensures Args(ts) == kept && Redirs(ts) == filled
  {
    assert kept + [] == kept && filled + [] == filled;
  }

  lemma {:induction false} NoOpsNoChange(ts: seq<string>)
    requires CountOps(ts) == 0
    ensures Args(ts) == ts && Redirs(ts) == []
  {
    if ts != [] {
      NoOpsNoChange(ts[1..]);
      assert ts == [ts[0]] + ts[1..];
    }
  }

  // One stage's own copy of its tokens, split and checked for a command.
  method BuildStage(ts: seq<string>, index: nat) returns (r: StageResult)
    ensures r == StageOf(ts, index)
  {
    var argv := new Option<string>[|ts| + 1];
    for k := 0 to |ts|
      invariant forall i :: 0 <= i < k ==> argv[i] == Some(ts[i])
    {
      argv[k] := Some(ts[k]);
    }
    argv[|ts|] := None;
    assert argv[..] == Vector(ts);
    var fault, argc, redirs := SplitRedirections(argv, |ts|, ts);
    if fault.Some? {
      return Err(fault.value);
    }
    if argc == 0 {
      return Err(NoCommand(index));
    }
    var args: seq<string> := [];
    for k := 0 to argc
      invariant args == Args(ts)[..k]
    {
      assert argv[..argc + 1][k] == argv[k];
      args := args + [argv[k].value];
    }
    assert Args(ts)[..argc] == Args(ts);
    return Ok(Stage(args, redirs[..], "", ""));
  }

  method CountStages(ts: seq<string>) returns (n: nat)
    ensures n == 1 + CountPipes(ts)
  {
    n := 1;
    for i := 0 to |ts|
      invariant n + CountPipes(ts[i..]) == 1 + CountPipes(ts)
    {
      assert ts[i..][0] == ts[i] && ts[i..][1..] == ts[i + 1..];
      if IsPipe(ts[i]) {
        n := n + 1;
      }
    }
  }

  // The stages are those built so far, then those of the tokens from `start` on.
  ghost predicate Building(goal: Stages, built: seq<Stage>, ts: seq<string>, start: nat, n: nat) {
    && start <= |ts|
    && goal == PrependStages(built, StagesFrom(ts[start..], |built|))
    && |built| + 1 + CountPipes(ts[start..]) == n
  }

  lemma {:induction false} FirstPipeAt(ts: seq<string>, start: nat, i: nat)
    requires start <= i <= |ts| && forall k :: start <= k < i ==> !IsPipe(ts[k])
    requires i == |ts| || IsPipe(ts[i])
    ensures FirstPipe(ts[start..]) == i - start
    decreases i - start
  {
    if start < i {
      FirstPipeAt(ts, start + 1, i);
      assert ts[start..][0] == ts[start] && ts[start..][1..] == ts[start + 1..];
    } else if i < |ts| {
      assert ts[start..][0] == ts[i];
    }
  }

  lemma BuildEmpty(goal: Stages, built: seq<Stage>, ts: seq<string>, start: nat, n: nat)
    requires Building(goal, built, ts, start, n) && FirstPipe(ts[start..]) == 0
    ensures goal == Err(if |built| == 0 then LeadingPipe else EmptyStage)
  {}

  lemma BuildRefused(goal: Stages, built: seq<Stage>, ts: seq<string>, start: nat, i: nat, n: nat)
    requires Building(goal, built, ts, start, n) && start < i <= |ts| && FirstPipe(ts[start..]) == i - start
    requires StageOf(ts[start..i], |built|).Err?
    ensures goal == Err(StageOf(ts[start..i], |built|).error)
  {
    assert ts[start..][..i - start] == ts[start..i];
  }

  lemma BuildLast(goal: Stages, built: seq<Stage>, ts: seq<string>, start: nat, n: nat, stage: Stage)
    requires Building(goal, built, ts, start, n) && start < |ts| && FirstPipe(ts[start..]) == |ts| - start
    requires StageOf(ts[start..], |built|) == Ok(stage)
    ensures goal == Ok(built + [stage]) && |built| + 1 == n
  {
    CountPipesAfterFirst(ts[start..]);
    assert ts[start..][..|ts| - start] == ts[start..];
  }

  lemma StagesAfterPipe(ts: seq<string>, index: nat, k: nat, stage: Stage)
    requires 0 < k < |ts| && FirstPipe(ts) == k && StageOf(ts[..k], index) == Ok(stage)
    ensures StagesFrom(ts, index) == PrependStages([stage], StagesFrom(ts[k + 1..], index + 1))
    ensures CountPipes(ts) == 1 + CountPipes(ts[k + 1..])
  {
    CountPipesAfterFirst(ts);
  }

  lemma BuildMore(goal: Stages, built: seq<Stage>, ts: seq<string>, start: nat, i: nat, n: nat, stage: Stage)
    requires Building(goal, built, ts, start, n) && start < i < |ts| && FirstPipe(ts[start..]) == i - start
    requires StageOf(ts[start..i], |built|) == Ok(stage)
    ensures Building(goal, built + [stage], ts, i + 1, n)
  {
    var tail := ts[start..];
    assert tail[..i - start] == ts[start..i];
    StagesAfterPipe(tail, |built|, i - start, stage);
    assert tail[i - start + 1..] == ts[i + 1..];
    var rest := StagesFrom(ts[i + 1..], |built| + 1);
    PrependTwice(built, stage, rest);
    assert goal == PrependStages(built + [stage], rest);
  }

  lemma PrependTwice(built: seq<Stage>, stage: Stage, rest: Stages)
    ensures PrependStages(built, PrependStages([stage], rest)) == PrependStages(built + [stage], rest)
  {
    if rest.Ok? {
      assert built + ([stage] + rest.value) == built + [stage] + rest.value;
    }
  }

  // The tokens from `start` to a boundary at `i`, as the next stage.
  method CloseStage(ts: seq<string>, start: nat, i: nat, index: nat, n: nat, ghost goal: Stages, ghost built: seq<Stage>)
    returns (r: StageResult)
    requires index == |built| && start <= i <= |ts| && FirstPipe(ts[start..]) == i - start && Building(goal, built, ts, start, n)
    ensures match r
      case Err(e) => goal == Err(e)
      case Ok(stage) =>
        if i == |ts| then goal == Ok(built + [stage]) && |built| + 1 == n
        else Building(goal, built + [stage], ts, i + 1, n)
  {
    if i == start {
      BuildEmpty(goal, built, ts, start, n);
      return Err(if index == 0 then LeadingPipe else EmptyStage);
    }
    r := BuildStage(ts[start..i], index);
    if r.Err? {
      BuildRefused(goal, built, ts, start, i, n);
    } else if i == |ts| {
      assert ts[start..i] == ts[start..];
      BuildLast(goal, built, ts, start, n, r.value);
    } else {
      BuildMore(goal, built, ts, start, i, n, r.value);
    }
  }

  // The slicing loop before position `i`: every boundary so far has closed a stage.
  ghost predicate Slicing(goal: Stages, built: seq<Stage>, ts: seq<string>, start: nat, i: nat, n: nat) {
    if i <= |ts|
    then start <= i && |built| < n && Building(goal, built, ts, start, n) && forall k :: start <= k < i ==> !IsPipe(ts[k])
    else goal == Ok(built) && |built| == n
  }

  method StoreStage(stages: array<Stage>, ts: seq<string>, start: nat, i: nat, n: nat, stage: nat,
                    ghost goal: Stages, ghost built: seq<Stage>)
    returns (fault: Option<ParseError>, ghost built': seq<Stage>)
    requires i <= |ts| && (i < |ts| ==> IsPipe(ts[i])) && Slicing(goal, built, ts, start, i, n)
    requires stages.Length == n && stage == |built| && stages[..stage] == built
    modifies stages
    ensures fault.Some? ==> goal == Err(fault.value)
    ensures fault.None? ==> Slicing(goal, built', ts, i + 1, i + 1, n)
    ensures fault.None? ==> |built'| == stage + 1 && stages[..stage + 1] == built'
  {
    FirstPipeAt(ts, start, i);
    var next := CloseStage(ts, start, i, stage, n, goal, built);
    if next.Err? {
      return Some(next.error), built;
    }
    stages[stage] := next.value;
    built' := built + [next.value];
    fault := None;
    SlicedAt(goal, built', ts, i, n);
  }

  lemma SlicedAt(goal: Stages, built: seq<Stage>, ts: seq<string>, i: nat, n: nat)
    requires i <= |ts| && if i == |ts| then goal == Ok(built) && |built| == n else Building(goal, built, ts, i + 1, n)
    ensures Slicing(goal, built, ts, i + 1, i + 1, n)
  {
    if i < |ts| {
      BuildingRoom(goal, built, ts, i + 1, n);
    }
  }

  lemma BuildingRoom(goal: Stages, built: seq<Stage>, ts: seq<string>, start: nat, n: nat)
    requires Building(goal, built, ts, start, n)
    ensures |built| < n
  {}

  // Every separator and the end of the list close a stage.
  method SliceStages(ts: seq<string>, n: nat) returns (r: Result<array<Stage>, ParseError>)
    requires n == 1 + CountPipes(ts)
    ensures match r
      case Err(e) => StagesFrom(ts, 0) == Err(e)
      case Ok(stages) => fresh(stages) && StagesFrom(ts, 0) == Ok(stages[..]) && stages.Length == n
  {
    var stages := new Stage[n](_ => Stage([], [], "", ""));
    var stage, start := 0, 0;
    ghost var goal, built: seq<Stage> := StagesFrom(ts, 0), [];
    BuildStart(ts);
    for i := 0 to |ts| + 1
      invariant stage == |built| <= n && stages[..stage] == built
      invariant Slicing(goal, built, ts, start, i, n)
    {
      var boundary := i == |ts| || IsPipe(ts[i]);
      if boundary {
        var fault;
        fault, built := StoreStage(stages, ts, start, i, n, stage, goal, built);
        if fault.Some? {
          return Err(fault.value);
        }
        stage, start := stage + 1, i + 1;
      }
    }
    assert stages[..n] == stages[..];
    return Ok(stages);
  }

  lemma BuildStart(ts: seq<string>)
    ensures Building(StagesFrom(ts, 0), [], ts, 0, 1 + CountPipes(ts))
  {
    var goal := StagesFrom(ts, 0);
    assert ts[0..] == ts;
    if goal.Ok? {
      assert [] + goal.value == goal.value;
    }
  }

  // Describe the wiring of every stage.
  method LabelStages(stages: array<Stage>)
    modifies stages
    ensures stages[..] == LabelledAll(old(stages[..]))
  {
    var n := stages.Length;
    for s := 0 to n
      invariant forall k :: 0 <= k < s ==> stages[k] == Labelled(old(stages[k]), k, n)
      invariant forall k :: s <= k < n ==> stages[k] == old(stages[k])
    {
      var hasIn := HasKind(stages[s].redirs, {In});
      var hasOut := HasKind(stages[s].redirs, {Out, Append});
      stages[s] := stages[s].(
        stdinSource := if s == 0 then (if hasIn then "file" else "inherit") else "pipe",
        stdoutDest := if s == n - 1 then (if hasOut then "file" else "inherit") else "pipe");
    }
  }

  method HasKind(rs: seq<Redirection>, kinds: set<RedirKind>) returns (found: bool)
    ensures found <==> exists r <- rs :: r.kind in kinds
  {
    found := false;
    for i := 0 to |rs|
      invariant found <==> exists r <- rs[..i] :: r.kind in kinds
    {
      assert rs[..i + 1] == rs[..i] + [rs[i]];
      if rs[i].kind in kinds {
        found := true;
      }
    }
    assert rs[..|rs|] == rs;
  }

  /** The pipeline the line describes, exactly as the recursive definition gives it, or its error. */
  method ParsePipeline(line: Option<Lexer.CString>) returns (r: Stages)
    ensures r == if line.None? then Err(Lexical(Lexer.NoLine)) else ParseLine(line.value)
  {
    var lexed := Tokenizer.ParserTokenize(line);
    if lexed.Err? {
      return Err(Lexical(lexed.error));
    }
    var ts := lexed.value;
    var n := CountStages(ts);
    if n > MAX_STAGES {
      return Err(TooManyStages(n));
    }
    var sliced := SliceStages(ts, n);
    if sliced.Err? {
      return Err(sliced.error);
    }
    LabelStages(sliced.value);
    return Ok(sliced.value[..]);
  }
}
