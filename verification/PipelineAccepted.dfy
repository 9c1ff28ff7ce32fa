/** Which token lists are pipelines, told by positions, and what each refusal says of them. */
module PipelineAccepted {
  import opened Basics
  import opened Pipeline
  import Lexer

  // An operator has a word behind it.
  predicate Followed(ts: seq<string>, i: nat)
    requires i < |ts|
  {
    IsOp(ts[i]) ==> i + 1 < |ts| && !IsOp(ts[i + 1])
  }

  // A word that is no operator's target.
  predicate IsArgument(ts: seq<string>, i: nat)
    requires i < |ts|
  {
    !IsOp(ts[i]) && (i > 0 ==> !IsOp(ts[i - 1]))
  }

  predicate AllFollowed(ts: seq<string>) {
    forall i: nat {:trigger Followed(ts, i)} :: i < |ts| ==> Followed(ts, i)
  }

  predicate HasArgument(ts: seq<string>) {
    exists i: nat {:trigger IsArgument(ts, i)} :: i < |ts| && IsArgument(ts, i)
  }

  predicate StageFine(ts: seq<string>) {
    AllFollowed(ts) && HasArgument(ts)
  }

  // The tokens from a up to b are one stage: separators, or the ends, around them only.
  predicate Span(ts: seq<string>, a: nat, b: nat) {
    && a <= b <= |ts| && (a == 0 || IsPipe(ts[a - 1])) && (b == |ts| || IsPipe(ts[b]))
    && forall i {:trigger ts[i]} :: a <= i < b ==> !IsPipe(ts[i])
  }

  predicate FineAt(ts: seq<string>, a: nat, b: nat)
    requires a <= b <= |ts|
  {
    Span(ts, a, b) ==> StageFine(ts[a..b])
  }

  predicate SpansFine(ts: seq<string>) {
    forall a: nat, b: nat {:trigger FineAt(ts, a, b)} :: a <= b <= |ts| ==> FineAt(ts, a, b)
  }

  // ------------------------------------------------------------------- one stage

  lemma FollowedTail(ts: seq<string>)
    requires ts != []
    ensures AllFollowed(ts) <==> Followed(ts, 0) && AllFollowed(ts[1..])
  {
    var rest := ts[1..];
    forall i: nat {:trigger Followed(rest, i)} | i < |rest| ensures Followed(rest, i) <==> Followed(ts, i + 1) {}
    if Followed(ts, 0) && AllFollowed(rest) {
      forall i: nat {:trigger Followed(ts, i)} | i < |ts| ensures Followed(ts, i) {
        assert i > 0 ==> Followed(rest, i - 1);
      }
    }
    if AllFollowed(ts) {
      forall i: nat {:trigger Followed(rest, i)} | i < |rest| ensures Followed(rest, i) {
        assert Followed(ts, i + 1);
      }
    }
  }

  lemma {:induction false} FaultIff(ts: seq<string>)
    ensures OpFault(ts) == None <==> AllFollowed(ts)
  {
    if ts != [] {
      FollowedTail(ts);
      FaultIff(ts[1..]);
    }
  }

  lemma {:induction false} ArgumentIff(ts: seq<string>)
    requires OpFault(ts) == None
    ensures Args(ts) != [] <==> HasArgument(ts)
    decreases |ts|
  {
    if ts != [] && !IsOp(ts[0]) {
      assert IsArgument(ts, 0);
    } else if ts != [] {
      SkipsTarget(ts);
      var rest := ts[2..];
      ArgumentIff(rest);
      if HasArgument(ts) {
        var i: nat :| i < |ts| && IsArgument(ts, i);
        assert i >= 2 && IsArgument(rest, i - 2);
      }
      if HasArgument(rest) {
        var i: nat :| i < |rest| && IsArgument(rest, i);
        assert IsArgument(ts, i + 2);
      }
    }
  }

  lemma StageIff(ts: seq<string>, index: nat)
    ensures StageOf(ts, index).Ok? <==> StageFine(ts)
  {
    FaultIff(ts);
    if OpFault(ts) == None {
      ArgumentIff(ts);
    }
  }

  // ------------------------------------------------------------------ the stages

  // A stage behind a separator is a stage of what is behind it.
  lemma LaterSpan(ts: seq<string>, k: nat, a: nat, b: nat)
    requires k < |ts| && IsPipe(ts[k]) && k < a <= b <= |ts|
    ensures Span(ts, a, b) <==> Span(ts[k + 1..], a - k - 1, b - k - 1)
  {
    var rest := ts[k + 1..];
    if Span(rest, a - k - 1, b - k - 1) {
      forall i {:trigger ts[i]} | a <= i < b ensures !IsPipe(ts[i]) {
        assert rest[i - k - 1] == ts[i];
      }
    }
  }

  lemma LaterFine(ts: seq<string>, k: nat, a: nat, b: nat)
    requires k < |ts| && IsPipe(ts[k]) && k < a <= b <= |ts|
    ensures FineAt(ts, a, b) <==> FineAt(ts[k + 1..], a - k - 1, b - k - 1)
  {
    LaterSpan(ts, k, a, b);
    assert ts[k + 1..][a - k - 1..b - k - 1] == ts[a..b];
  }

  // The first separator, or the end.
  predicate FirstSeparator(ts: seq<string>, k: nat) {
    k <= |ts| && (k < |ts| ==> IsPipe(ts[k])) && forall i {:trigger ts[i]} :: 0 <= i < k ==> !IsPipe(ts[i])
  }

  lemma FirstFine(ts: seq<string>, k: nat, a: nat, b: nat)
    requires FirstSeparator(ts, k) && a <= b <= |ts| && a <= k && StageFine(ts[..k])
    ensures FineAt(ts, a, b)
  {
    if Span(ts, a, b) {
      assert a == 0;
      assert b == k;
      assert ts[0..k] == ts[..k];
    }
  }

  lemma FirstPart(ts: seq<string>, k: nat)
    requires FirstSeparator(ts, k) && SpansFine(ts)
    ensures StageFine(ts[..k])
  {
    assert Span(ts, 0, k);
    assert FineAt(ts, 0, k) && ts[0..k] == ts[..k];
  }

  lemma LaterPart(ts: seq<string>, k: nat, a: nat, b: nat)
    requires SpansFine(ts) && k < |ts| && IsPipe(ts[k]) && a <= b <= |ts[k + 1..]|
    ensures FineAt(ts[k + 1..], a, b)
  {
    LaterFine(ts, k, a + k + 1, b + k + 1);
    assert FineAt(ts, a + k + 1, b + k + 1);
  }

  lemma LaterParts(ts: seq<string>, k: nat)
    requires SpansFine(ts) && k < |ts| && IsPipe(ts[k])
    ensures SpansFine(ts[k + 1..])
  {
    var rest := ts[k + 1..];
    forall a: nat, b: nat {:trigger FineAt(rest, a, b)} | a <= b <= |rest| ensures FineAt(rest, a, b) {
      LaterPart(ts, k, a, b);
    }
  }

  lemma FineWhole(ts: seq<string>, k: nat)
    requires FirstSeparator(ts, k) && StageFine(ts[..k]) && (k < |ts| ==> SpansFine(ts[k + 1..]))
    ensures SpansFine(ts)
  {
    forall a: nat, b: nat {:trigger FineAt(ts, a, b)} | a <= b <= |ts| ensures FineAt(ts, a, b) {
      if a <= k {
        FirstFine(ts, k, a, b);
      } else {
        assert FineAt(ts[k + 1..], a - k - 1, b - k - 1);
        LaterFine(ts, k, a, b);
      }
    }
  }

  lemma SpansUnfold(ts: seq<string>, k: nat)
    requires FirstSeparator(ts, k)
    ensures SpansFine(ts) <==> StageFine(ts[..k]) && (k < |ts| ==> SpansFine(ts[k + 1..]))
  {
    if SpansFine(ts) {
      FirstPart(ts, k);
      if k < |ts| {
        LaterParts(ts, k);
      }
    } else if StageFine(ts[..k]) && (k < |ts| ==> SpansFine(ts[k + 1..])) {
      FineWhole(ts, k);
    }
  }

  lemma FirstIsSeparator(ts: seq<string>)
    ensures FirstSeparator(ts, FirstPipe(ts))
  {
    FirstPipeIsFirst(ts);
  }

  lemma {:induction false} StagesIff(ts: seq<string>, index: nat)
    ensures StagesFrom(ts, index).Ok? <==> SpansFine(ts)
    decreases |ts|
  {
    var k := FirstPipe(ts);
    FirstIsSeparator(ts);
    SpansUnfold(ts, k);
    StageIff(ts[..k], index);
    if 0 < k < |ts| {
      StagesIff(ts[k + 1..], index + 1);
    }
  }

  /**
   * A list of tokens is a pipeline if and only if it has at most fifteen separators, every
   * operator has a word behind it in its own stage, and every stage has a word that is no
   * operator's target.
   */
  lemma AcceptedTokensIff(ts: seq<string>)
    ensures ParseTokens(ts).Ok? <==> CountPipes(ts) <= 15 && SpansFine(ts)
  {
    StagesIff(ts, 0);
  }

  // --------------------------------------------------------------- what a refusal says

  predicate EndsWithOperator(ts: seq<string>, a: nat, b: nat, op: string) {
    Span(ts, a, b) && a < b && ts[b - 1] == op && IsOp(op)
  }

  predicate TwoOperators(ts: seq<string>, i: nat, op: string, target: string) {
    i + 1 < |ts| && ts[i] == op && ts[i + 1] == target && IsOp(op) && IsOp(target)
  }

  predicate OnlyRedirects(ts: seq<string>, a: nat, b: nat) {
    Span(ts, a, b) && a < b && !HasArgument(ts[a..b])
  }

  // Nothing between two separators, or behind the last.
  predicate EmptySpan(ts: seq<string>, a: nat) {
    a > 0 && Span(ts, a, a)
  }

  ghost predicate Explained(ts: seq<string>, e: ParseError) {
    match e
    case Lexical(_) => false
    case TooManyStages(n) => n == 1 + CountPipes(ts) && n > 16
    case LeadingPipe => ts == [] || IsPipe(ts[0])
    case EmptyStage => exists a: nat :: EmptySpan(ts, a)
    case NoCommand(_) => exists a: nat, b: nat :: OnlyRedirects(ts, a, b)
    case MissingTarget(op) => exists a: nat, b: nat :: EndsWithOperator(ts, a, b, op)
    case OperatorAsTarget(op, target) => exists i: nat :: TwoOperators(ts, i, op, target)
  }

  lemma {:induction false} FaultSays(ts: seq<string>)
    requires OpFault(ts).Some?
    ensures match OpFault(ts).value
      case MissingTarget(op) => ts != [] && ts[|ts| - 1] == op && IsOp(op)
      case OperatorAsTarget(op, target) => exists i: nat :: TwoOperators(ts, i, op, target)
      case _ => false
  {
    if IsOp(ts[0]) && (|ts| == 1 || IsOp(ts[1])) {
      assert |ts| > 1 ==> TwoOperators(ts, 0, ts[0], ts[1]);
    } else {
      FaultSays(ts[1..]);
      var e := OpFault(ts).value;
      if e.OperatorAsTarget? {
        var i: nat :| TwoOperators(ts[1..], i, e.op, e.target);
        assert TwoOperators(ts, i + 1, e.op, e.target);
      }
    }
  }

  lemma FirstStageSays(ts: seq<string>, index: nat)
    requires FirstPipe(ts) > 0 && StageOf(ts[..FirstPipe(ts)], index).Err?
    ensures Explained(ts, StageOf(ts[..FirstPipe(ts)], index).error)
  {
    var k := FirstPipe(ts);
    var stage := ts[..k];
    FirstPipeIsFirst(ts);
    assert Span(ts, 0, k);
    if OpFault(stage).Some? {
      FaultSays(stage);
      var e := OpFault(stage).value;
      if e.MissingTarget? {
        assert EndsWithOperator(ts, 0, k, e.op);
      } else {
        var i: nat :| TwoOperators(stage, i, e.op, e.target);
        assert TwoOperators(ts, i, e.op, e.target);
      }
    } else {
      ArgumentIff(stage);
      assert ts[0..k] == stage;
      assert OnlyRedirects(ts, 0, k);
    }
  }

  lemma LaterEmpty(ts: seq<string>, k: nat, a: nat)
    requires k < |ts| && IsPipe(ts[k]) && Span(ts[k + 1..], a, a)
    ensures EmptySpan(ts, a + k + 1)
  {
    LaterSpan(ts, k, a + k + 1, a + k + 1);
  }

  lemma LaterRedirects(ts: seq<string>, k: nat, a: nat, b: nat)
    requires k < |ts| && IsPipe(ts[k]) && OnlyRedirects(ts[k + 1..], a, b)
    ensures OnlyRedirects(ts, a + k + 1, b + k + 1)
  {
    LaterSpan(ts, k, a + k + 1, b + k + 1);
    assert ts[k + 1..][a..b] == ts[a + k + 1..b + k + 1];
  }

  lemma LaterOperator(ts: seq<string>, k: nat, a: nat, b: nat, op: string)
    requires k < |ts| && IsPipe(ts[k]) && EndsWithOperator(ts[k + 1..], a, b, op)
    ensures EndsWithOperator(ts, a + k + 1, b + k + 1, op)
  {
    LaterSpan(ts, k, a + k + 1, b + k + 1);
  }

  // What is so behind a separator is so of the whole.
  lemma LaterExplained(ts: seq<string>, k: nat, e: ParseError)
    requires k < |ts| && IsPipe(ts[k]) && Explained(ts[k + 1..], e) && !e.TooManyStages? && !e.LeadingPipe?
    ensures Explained(ts, e)
  {
    var rest := ts[k + 1..];
    match e {
      case EmptyStage =>
        var a: nat :| EmptySpan(rest, a);
        LaterEmpty(ts, k, a);
      case NoCommand(_) =>
        var a: nat, b: nat :| OnlyRedirects(rest, a, b);
        LaterRedirects(ts, k, a, b);
      case MissingTarget(op) =>
        var a: nat, b: nat :| EndsWithOperator(rest, a, b, op);
        LaterOperator(ts, k, a, b, op);
      case OperatorAsTarget(op, target) =>
        var i: nat :| TwoOperators(rest, i, op, target);
        assert TwoOperators(ts, i + k + 1, op, target);
    }
  }

  // Nothing in front of the next separator, or of the end.
  lemma EmptyAtOnce(ts: seq<string>)
    requires FirstPipe(ts) == 0
    ensures Span(ts, 0, 0)
  {
    FirstPipeIsFirst(ts);
  }

  lemma {:induction false} StagesSay(ts: seq<string>, index: nat)
    requires StagesFrom(ts, index).Err? && FirstPipe(ts) > 0
    ensures Explained(ts, StagesFrom(ts, index).error)
    ensures !StagesFrom(ts, index).error.TooManyStages? && !StagesFrom(ts, index).error.LeadingPipe?
    decreases |ts|
  {
    var k := FirstPipe(ts);
    if StageOf(ts[..k], index).Err? {
      FirstStageSays(ts, index);
      FirstErrorIsOfStage(ts[..k], index);
    } else {
      FirstPipeIsFirst(ts);
      if FirstPipe(ts[k + 1..]) == 0 {
        EmptyAtOnce(ts[k + 1..]);
        LaterEmpty(ts, k, 0);
      } else {
        StagesSay(ts[k + 1..], index + 1);
        LaterExplained(ts, k, StagesFrom(ts, index).error);
      }
    }
  }

  lemma FirstErrorIsOfStage(ts: seq<string>, index: nat)
    requires StageOf(ts, index).Err?
    ensures !StageOf(ts, index).error.TooManyStages? && !StageOf(ts, index).error.LeadingPipe?
  {
    if OpFault(ts).Some? {
      FaultSays(ts);
    }
  }

  /** Whatever a refusal of a token list says is so of that list. */
  lemma RefusalIsExplained(ts: seq<string>)
    requires ParseTokens(ts).Err?
    ensures Explained(ts, ParseTokens(ts).error)
  {
    if CountPipes(ts) <= 15 && FirstPipe(ts) > 0 {
      StagesSay(ts, 0);
    }
  }
}
