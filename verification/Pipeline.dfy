/**
 * What a token list means as a pipeline: stages split on "|", redirections pulled out of
 * each stage, and the labels that describe the wiring.
 */
module Pipeline {
  import opened Basics
  import Lexer

  const MAX_STAGES: nat := 16

  datatype RedirKind = In | Out | Append | ErrOut | ErrAppend

  datatype Redirection = Redirection(kind: RedirKind, path: string, targetFd: nat)

  datatype Stage = Stage(argv: seq<string>, redirs: seq<Redirection>, stdinSource: string, stdoutDest: string)

  datatype ParseError =
    | Lexical(error: Lexer.LexError)
    | MissingTarget(op: string)
    | OperatorAsTarget(op: string, target: string)
    | TooManyStages(stages: nat)
    | LeadingPipe
    | EmptyStage
    | NoCommand(stage: nat)

  type StageResult = Result<Stage, ParseError>
  type Stages = Result<seq<Stage>, ParseError>

  // ------------------------------------------------------------ redirections

  // The redirection operators, compared byte by byte: < > >> 2> 2>>
  predicate IsOp(t: string) {
    || (|t| == 1 && (t[0] == '<' || t[0] == '>'))
    || (|t| == 2 && (t[0] == '>' || t[0] == '2') && t[1] == '>')
    || (|t| == 3 && t[0] == '2' && t[1] == '>' && t[2] == '>')
  }

  function KindOf(t: string): RedirKind {
    if |t| == 1 then (if t[0] == '<' then In else Out)
    else if |t| == 2 then (if t[0] == '>' then Append else ErrOut)
    else ErrAppend
  }

  // The token that separates stages.
  predicate IsPipe(t: string) {
    |t| == 1 && t[0] == '|'
  }

  function OpText(k: RedirKind): string {
    match k
    case In => "<"
    case Out => ">"
    case Append => ">>"
    case ErrOut => "2>"
    case ErrAppend => "2>>"
  }

  function TargetFd(k: RedirKind): nat {
    match k
    case In => 0
    case Out | Append => 1
    case ErrOut | ErrAppend => 2
  }

  function MakeRedirection(op: string, path: string): Redirection {
    Redirection(KindOf(op), path, TargetFd(KindOf(op)))
  }

  // The first operator that is not followed by a file name.
  function OpFault(ts: seq<string>): Option<ParseError> {
    if ts == [] then None
    else if IsOp(ts[0]) && |ts| == 1 then Some(MissingTarget(ts[0]))
    else if IsOp(ts[0]) && IsOp(ts[1]) then Some(OperatorAsTarget(ts[0], ts[1]))
    else OpFault(ts[1..])
  }

  function CountOps(ts: seq<string>): nat {
    if ts == [] then 0 else (if IsOp(ts[0]) then 1 else 0) + CountOps(ts[1..])
  }

  function Args(ts: seq<string>): seq<string>
    decreases |ts|
  {
    if ts == [] then []
    else if IsOp(ts[0]) then (if |ts| == 1 then [] else Args(ts[2..]))
    else [ts[0]] + Args(ts[1..])
  }

  function Redirs(ts: seq<string>): seq<Redirection>
    decreases |ts|
  {
    if ts == [] then []
    else if IsOp(ts[0]) then (if |ts| == 1 then [] else [MakeRedirection(ts[0], ts[1])] + Redirs(ts[2..]))
    else Redirs(ts[1..])
  }

  function Paths(rs: seq<Redirection>): seq<string> {
    seq(|rs|, i requires 0 <= i < |rs| => rs[i].path)
  }

  function OpTexts(rs: seq<Redirection>): seq<string> {
    seq(|rs|, i requires 0 <= i < |rs| => OpText(rs[i].kind))
  }

  lemma SkipsTarget(ts: seq<string>)
    requires OpFault(ts) == None && ts != [] && IsOp(ts[0])
    ensures |ts| >= 2 && !IsOp(ts[1]) && OpFault(ts[2..]) == None
  {
    assert ts[1..][0] == ts[1] && ts[1..][1..] == ts[2..];
  }

  lemma OpNames(t: string)
    ensures IsOp(t) <==> t in ["<", ">", ">>", "2>", "2>>"]
    ensures IsOp(t) ==> OpText(KindOf(t)) == t
    ensures IsPipe(t) <==> t == "|"
  {
    if IsOp(t) {
      assert t == OpText(KindOf(t));
    }
  }

  // What each operator does: it reads the standard input, or writes or adds to the standard
  // output or the standard error.
  lemma OperatorMeanings()
    ensures KindOf("<") == In && KindOf(">") == Out && KindOf(">>") == Append
    ensures KindOf("2>") == ErrOut && KindOf("2>>") == ErrAppend
    ensures TargetFd(In) == 0 && TargetFd(Out) == TargetFd(Append) == 1 && TargetFd(ErrOut) == TargetFd(ErrAppend) == 2
  {}

  lemma ConsTexts(r: Redirection, rest: seq<Redirection>)
    ensures OpTexts([r] + rest) == [OpText(r.kind)] + OpTexts(rest)
    ensures Paths([r] + rest) == [r.path] + Paths(rest)
  {}

  lemma OperatorConserved(a: string, b: string, rest: seq<string>, args: seq<string>, ops: seq<string>, paths: seq<string>)
    requires multiset(rest) == multiset(args) + (multiset(ops) + multiset(paths))
    ensures multiset([a] + ([b] + rest)) == multiset(args) + (multiset([a] + ops) + multiset([b] + paths))
  {}

  lemma ArgumentConserved(a: string, rest: seq<string>, args: seq<string>, others: multiset<string>)
    requires multiset(rest) == multiset(args) + others
    ensures multiset([a] + rest) == multiset([a] + args) + others
  {}

  lemma HeadOperator(ts: seq<string>)
    requires OpFault(ts) == None && ts != [] && IsOp(ts[0])
    ensures |ts| >= 2 && OpFault(ts[2..]) == None && ts == [ts[0]] + ([ts[1]] + ts[2..])
    ensures Args(ts) == Args(ts[2..]) && |Redirs(ts)| == 1 + |Redirs(ts[2..])|
    ensures OpTexts(Redirs(ts)) == [ts[0]] + OpTexts(Redirs(ts[2..]))
    ensures Paths(Redirs(ts)) == [ts[1]] + Paths(Redirs(ts[2..]))
  {
    SkipsTarget(ts);
    OpNames(ts[0]);
    ConsTexts(MakeRedirection(ts[0], ts[1]), Redirs(ts[2..]));
  }

  predicate Conserved(ts: seq<string>, args: seq<string>, rs: seq<Redirection>) {
    && multiset(ts) == multiset(args) + (multiset(OpTexts(rs)) + multiset(Paths(rs)))
    && |ts| == |args| + 2 * |rs|
  }

  /**
   * Nothing is lost or duplicated: the tokens are the arguments, the operators and the
   * targets.
   */
  lemma {:induction false} SplitConserves(ts: seq<string>)
    requires OpFault(ts) == None
    ensures Conserved(ts, Args(ts), Redirs(ts))
    decreases |ts|
  {
    if ts == [] {
    } else if IsOp(ts[0]) {
      HeadOperator(ts);
      var args, rs := Args(ts[2..]), Redirs(ts[2..]);
      SplitConserves(ts[2..]);
      OperatorConserved(ts[0], ts[1], ts[2..], args, OpTexts(rs), Paths(rs));
    } else {
      var args, rs := Args(ts[1..]), Redirs(ts[1..]);
      SplitConserves(ts[1..]);
      ArgumentConserved(ts[0], ts[1..], args, multiset(OpTexts(rs)) + multiset(Paths(rs)));
      assert ts == [ts[0]] + ts[1..];
    }
  }

  // Arguments and redirections keep the order they were written in.
  predicate Interleaves(ts: seq<string>, args: seq<string>, rs: seq<Redirection>)
    decreases |ts|
  {
    if ts == [] then args == [] && rs == []
    else || (args != [] && args[0] == ts[0] && Interleaves(ts[1..], args[1..], rs))
         || (rs != [] && |ts| > 1 && ts[0] == OpText(rs[0].kind) && ts[1] == rs[0].path
             && rs[0].targetFd == TargetFd(rs[0].kind) && Interleaves(ts[2..], args, rs[1..]))
  }

  lemma {:induction false} SplitKeepsOrder(ts: seq<string>)
    requires OpFault(ts) == None
    ensures Interleaves(ts, Args(ts), Redirs(ts))
    decreases |ts|
  {
    if ts != [] && IsOp(ts[0]) {
      SkipsTarget(ts);
      SplitKeepsOrder(ts[2..]);
      assert Redirs(ts)[1..] == Redirs(ts[2..]);
    } else if ts != [] {
      SplitKeepsOrder(ts[1..]);
      assert Args(ts)[1..] == Args(ts[1..]);
    }
  }

  // ------------------------------------------------------------------ stages

  function FirstPipe(ts: seq<string>): (k: nat)
    ensures k <= |ts|
  {
    if ts == [] || IsPipe(ts[0]) then 0 else 1 + FirstPipe(ts[1..])
  }

  // FirstPipe is the position of the first separator, or the length when there is none.
  lemma {:induction false} FirstPipeIsFirst(ts: seq<string>)
    ensures var k := FirstPipe(ts);
      (k < |ts| ==> IsPipe(ts[k])) && forall i :: 0 <= i < k ==> !IsPipe(ts[i])
  {
    if ts != [] && !IsPipe(ts[0]) {
      FirstPipeIsFirst(ts[1..]);
      assert forall i :: 1 <= i < |ts| ==> ts[i] == ts[1..][i - 1];
    }
  }

  function CountPipes(ts: seq<string>): nat {
    if ts == [] then 0 else (if IsPipe(ts[0]) then 1 else 0) + CountPipes(ts[1..])
  }

  // One stage's tokens, before the labels are known.
  function StageOf(ts: seq<string>, index: nat): StageResult {
    var fault := OpFault(ts);
    if fault.Some? then Err(fault.value)
    else if Args(ts) == [] then Err(NoCommand(index))
    else Ok(Stage(Args(ts), Redirs(ts), "", ""))
  }

  function PrependStages(ss: seq<Stage>, r: Stages): Stages {
    if r.Ok? then Ok(ss + r.value) else r
  }

  function StagesFrom(ts: seq<string>, index: nat): Stages
    decreases |ts|
  {
    var k := FirstPipe(ts);
    if k == 0 then Err(if index == 0 then LeadingPipe else EmptyStage)
    else match StageOf(ts[..k], index)
      case Err(e) => Err(e)
      case Ok(stage) => if k == |ts| then Ok([stage]) else PrependStages([stage], StagesFrom(ts[k + 1..], index + 1))
  }

  predicate Reads(rs: seq<Redirection>) {
    exists r <- rs :: r.kind == In
  }

  predicate Writes(rs: seq<Redirection>) {
    exists r <- rs :: r.kind == Out || r.kind == Append
  }

  function Labelled(stage: Stage, s: nat, n: nat): Stage {
    stage.(stdinSource := if s > 0 then "pipe" else if Reads(stage.redirs) then "file" else "inherit",
           stdoutDest := if s + 1 < n then "pipe" else if Writes(stage.redirs) then "file" else "inherit")
  }

  function LabelledAll(ss: seq<Stage>): seq<Stage> {
    seq(|ss|, s requires 0 <= s < |ss| => Labelled(ss[s], s, |ss|))
  }

  function ParseTokens(ts: seq<string>): Stages {
    var n := 1 + CountPipes(ts);
    if n > MAX_STAGES then Err(TooManyStages(n))
    else match StagesFrom(ts, 0)
      case Err(e) => Err(e)
      case Ok(ss) => Ok(LabelledAll(ss))
  }

  // The pipeline a command line describes, or the reason it is refused.
  function ParseLine(line: string): Stages {
    match Lexer.Tokenize(line)
    case Err(e) => Err(Lexical(e))
    case Ok(ts) => ParseTokens(ts)
  }

  lemma {:induction false} CountPipesAfterFirst(ts: seq<string>)
    ensures var k := FirstPipe(ts); CountPipes(ts) == if k == |ts| then 0 else 1 + CountPipes(ts[k + 1..])
  {
    if ts != [] && !IsPipe(ts[0]) {
      CountPipesAfterFirst(ts[1..]);
      var k := FirstPipe(ts[1..]);
      assert k < |ts[1..]| ==> ts[1..][k + 1..] == ts[k + 2..];
    }
  }

  lemma {:induction false} StageCount(ts: seq<string>, index: nat)
    ensures StagesFrom(ts, index).Ok? ==> |StagesFrom(ts, index).value| == 1 + CountPipes(ts)
    decreases |ts|
  {
    CountPipesAfterFirst(ts);
    var k := FirstPipe(ts);
    if 0 < k < |ts| {
      StageCount(ts[k + 1..], index + 1);
    }
  }
}
