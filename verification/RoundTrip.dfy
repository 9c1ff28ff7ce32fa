/** When the engine reads the rebuilt line back as the pipeline that was validated. */
module RoundTrip {
  import opened Basics
  import opened Lexer
  import opened Pipeline
  import opened Rebuild

  // ------------------------------------------------ what every parsed pipeline satisfies

  predicate Operand(t: string) {
    !IsOp(t) && !IsPipe(t) && Fits(t)
  }

  predicate Operands(ts: seq<string>) {
    forall i {:trigger Operand(ts[i])} :: 0 <= i < |ts| ==> Operand(ts[i])
  }

  predicate CleanRedir(r: Redirection) {
    r.targetFd == TargetFd(r.kind) && Operand(r.path)
  }

  predicate CleanRedirs(rs: seq<Redirection>) {
    forall i {:trigger CleanRedir(rs[i])} :: 0 <= i < |rs| ==> CleanRedir(rs[i])
  }

  predicate CleanStage(s: Stage) {
    s.argv != [] && Operands(s.argv) && CleanRedirs(s.redirs)
  }

  predicate Clean(p: seq<Stage>) {
    p != [] && forall i {:trigger CleanStage(p[i])} :: 0 <= i < |p| ==> CleanStage(p[i])
  }

  predicate LabelsAgree(p: seq<Stage>) {
    forall i {:trigger Labelled(p[i], i, |p|)} :: 0 <= i < |p| ==> p[i] == Labelled(p[i], i, |p|)
  }

  predicate FilledStage(s: Stage) {
    Filled(s.argv) && Filled(Paths(s.redirs))
  }

  predicate EmptyOnlyLastStage(s: Stage) {
    EmptyOnlyLast(s.argv) && EmptyOnlyLast(Paths(s.redirs))
  }

  // Only the last stage can hold an empty token, as its last argument or its last target.
  predicate EmptiesAtEnd(p: seq<Stage>) {
    && (forall i {:trigger FilledStage(p[i])} :: 0 <= i < |p| - 1 ==> FilledStage(p[i]))
    && (p != [] ==> EmptyOnlyLastStage(p[|p| - 1]))
  }

  predicate WellParsed(p: seq<Stage>) {
    Clean(p) && |p| <= MAX_STAGES && LabelsAgree(p) && EmptiesAtEnd(p) && |TokensOf(p)| <= MAX_ARGS
  }

  predicate NoPipes(ts: seq<string>) {
    forall i {:trigger IsPipe(ts[i])} :: 0 <= i < |ts| ==> !IsPipe(ts[i])
  }

  lemma {:induction false} SplitIsClean(ts: seq<string>)
    requires OpFault(ts) == None && NoPipes(ts) && Bounded(ts)
    ensures Operands(Args(ts)) && CleanRedirs(Redirs(ts))
    decreases |ts|
  {
    if ts != [] && IsOp(ts[0]) {
      SkipsTarget(ts);
      SplitIsClean(ts[2..]);
    } else if ts != [] {
      SplitIsClean(ts[1..]);
    }
  }

  lemma {:induction false} SplitFilled(ts: seq<string>)
    requires OpFault(ts) == None && Filled(ts)
    ensures Filled(Args(ts)) && Filled(Paths(Redirs(ts)))
    decreases |ts|
  {
    if ts != [] && IsOp(ts[0]) {
      HeadOperator(ts);
      SplitFilled(ts[2..]);
    } else if ts != [] {
      SplitFilled(ts[1..]);
    }
  }

  lemma {:induction false} SplitEmptyOnlyLast(ts: seq<string>)
    requires OpFault(ts) == None && EmptyOnlyLast(ts)
    ensures EmptyOnlyLast(Args(ts)) && EmptyOnlyLast(Paths(Redirs(ts)))
    decreases |ts|
  {
    if ts == [] || Filled(ts) {
      SplitFilled(ts);
    } else if IsOp(ts[0]) {
      HeadOperator(ts);
      SplitEmptyOnlyLast(ts[2..]);
      if Paths(Redirs(ts[2..])) != [] {
        SplitConserves(ts[2..]);
        assert |ts| > 2 && ts[1] != "";
      }
    } else {
      SplitEmptyOnlyLast(ts[1..]);
      if Args(ts[1..]) != [] {
        SplitConserves(ts[1..]);
        assert |ts| > 1 && ts[0] != "";
      }
    }
  }

  lemma {:induction false} RedirTokensLength(rs: seq<Redirection>)
    ensures |RedirTokens(rs)| == 2 * |rs|
  {
    if rs != [] {
      RedirTokensLength(rs[1..]);
    }
  }

  lemma StageSize(ts: seq<string>, s: Stage)
    requires OpFault(ts) == None && s.argv == Args(ts) && s.redirs == Redirs(ts)
    ensures |StageTokens(s)| == |ts|
  {
    SplitConserves(ts);
    RedirTokensLength(s.redirs);
  }

  lemma StageIsClean(ts: seq<string>, index: nat)
    requires NoPipes(ts) && Bounded(ts) && EmptyOnlyLast(ts) && StageOf(ts, index).Ok?
    ensures var s := StageOf(ts, index).value;
      CleanStage(s) && EmptyOnlyLastStage(s) && (Filled(ts) ==> FilledStage(s)) && |StageTokens(s)| == |ts|
  {
    SplitIsClean(ts);
    SplitEmptyOnlyLast(ts);
    StageSize(ts, StageOf(ts, index).value);
    if Filled(ts) {
      SplitFilled(ts);
    }
  }

  // A list of stages that is accepted is its first stage, then the stages after the separator.
  lemma StagesUnfold(ts: seq<string>, index: nat)
    requires StagesFrom(ts, index).Ok?
    ensures var k := FirstPipe(ts);
      StageOf(ts[..k], index).Ok? &&
      if k == |ts| then StagesFrom(ts, index).value == [StageOf(ts[..k], index).value]
      else StagesFrom(ts[k + 1..], index + 1).Ok? &&
           StagesFrom(ts, index).value == [StageOf(ts[..k], index).value] + StagesFrom(ts[k + 1..], index + 1).value
  {}

  // The first stage of an accepted list.
  lemma HeadIsClean(ts: seq<string>, index: nat)
    requires Bounded(ts) && EmptyOnlyLast(ts) && StageOf(ts[..FirstPipe(ts)], index).Ok?
    ensures var k := FirstPipe(ts); var s := StageOf(ts[..k], index).value;
      CleanStage(s) && EmptyOnlyLastStage(s) && (k < |ts| ==> FilledStage(s)) && |StageTokens(s)| == k
  {
    FirstPipeIsFirst(ts);
    StageIsClean(ts[..FirstPipe(ts)], index);
  }

  lemma {:induction false} StagesAreClean(ts: seq<string>, index: nat)
    requires Bounded(ts) && EmptyOnlyLast(ts) && StagesFrom(ts, index).Ok?
    ensures var ss := StagesFrom(ts, index).value;
      Clean(ss) && EmptiesAtEnd(ss) && |TokensOf(ss)| == |ts|
    decreases |ts|
  {
    var k := FirstPipe(ts);
    StagesUnfold(ts, index);
    HeadIsClean(ts, index);
    var stage := StageOf(ts[..k], index).value;
    if k < |ts| {
      StagesAreClean(ts[k + 1..], index + 1);
      ConsStage(stage, StagesFrom(ts[k + 1..], index + 1).value);
    } else {
      LoneStage(stage);
    }
  }

  lemma LoneStage(stage: Stage)
    requires CleanStage(stage) && EmptyOnlyLastStage(stage)
    ensures Clean([stage]) && EmptiesAtEnd([stage]) && |TokensOf([stage])| == |StageTokens(stage)|
  {}

  lemma ConsStage(stage: Stage, rest: seq<Stage>)
    requires CleanStage(stage) && FilledStage(stage) && Clean(rest) && EmptiesAtEnd(rest)
    ensures Clean([stage] + rest) && EmptiesAtEnd([stage] + rest)
    ensures |TokensOf([stage] + rest)| == |StageTokens(stage)| + 1 + |TokensOf(rest)|
  {
    var p := [stage] + rest;
    assert p[1..] == rest;
    assert forall i :: 1 <= i < |p| ==> p[i] == rest[i - 1];
  }

  lemma {:induction false} TokensIgnoreLabels(p: seq<Stage>, q: seq<Stage>)
    requires |p| == |q| && forall i :: 0 <= i < |p| ==> p[i].argv == q[i].argv && p[i].redirs == q[i].redirs
    ensures TokensOf(p) == TokensOf(q)
  {
    if |p| > 1 {
      TokensIgnoreLabels(p[1..], q[1..]);
    }
  }

  lemma LabellingKeeps(ss: seq<Stage>)
    requires Clean(ss) && EmptiesAtEnd(ss)
    ensures var p := LabelledAll(ss);
      Clean(p) && EmptiesAtEnd(p) && LabelsAgree(p) && TokensOf(p) == TokensOf(ss)
  {
    var p := LabelledAll(ss);
    TokensIgnoreLabels(p, ss);
    forall i | 0 <= i < |p|
      ensures CleanStage(p[i]) && p[i] == Labelled(p[i], i, |p|) && (i < |p| - 1 ==> FilledStage(p[i]))
    {
      assert CleanStage(ss[i]) && (i < |p| - 1 ==> FilledStage(ss[i]));
    }
  }

  lemma ParsedIsWellParsed(line: string)
    requires ParseLine(line).Ok?
    ensures WellParsed(ParseLine(line).value)
  {
    var ts := Tokenize(line).value;
    TokenizeBounds(line);
    StagesAreClean(ts, 0);
    StageCount(ts, 0);
    LabellingKeeps(StagesFrom(ts, 0).value);
  }

  // ------------------------------------------------------- tokens back to a pipeline

  lemma {:induction false} SplitOfRedirTokens(rs: seq<Redirection>)
    requires CleanRedirs(rs)
    ensures OpFault(RedirTokens(rs)) == None && Args(RedirTokens(rs)) == [] && Redirs(RedirTokens(rs)) == rs
    ensures NoPipes(RedirTokens(rs)) && Bounded(RedirTokens(rs))
  {
    if rs != [] {
      var ts, rest := RedirTokens(rs), RedirTokens(rs[1..]);
      assert CleanRedir(rs[0]);
      SplitOfRedirTokens(rs[1..]);
      assert ts[2..] == rest && ts[1..] == [rs[0].path] + rest && ts[1..][1..] == rest;
      assert MakeRedirection(ts[0], ts[1]) == rs[0];
      assert [rs[0]] + rs[1..] == rs;
    }
  }

  lemma {:induction false} SplitOfStageTokens(args: seq<string>, rs: seq<Redirection>)
    requires Operands(args) && CleanRedirs(rs)
    ensures var ts := args + RedirTokens(rs);
      OpFault(ts) == None && Args(ts) == args && Redirs(ts) == rs && NoPipes(ts) && Bounded(ts)
  {
    var ts := args + RedirTokens(rs);
    SplitOfRedirTokens(rs);
    if args == [] {
      assert ts == RedirTokens(rs);
    } else {
      assert Operand(args[0]);
      SplitOfStageTokens(args[1..], rs);
      assert ts[0] == args[0] && ts[1..] == args[1..] + RedirTokens(rs);
      assert [args[0]] + args[1..] == args;
    }
  }

  lemma {:induction false} FirstPipeAfter(a: seq<string>, b: seq<string>)
    requires NoPipes(a)
    ensures FirstPipe(a) == |a| && CountPipes(a) == 0
    ensures FirstPipe(a + ["|"] + b) == |a|
    ensures CountPipes(a + ["|"] + b) == 1 + CountPipes(b)
  {
    var ts := a + ["|"] + b;
    if a == [] {
      assert ts == ["|"] + b && ts[1..] == b;
    } else {
      FirstPipeAfter(a[1..], b);
      assert ts[1..] == a[1..] + ["|"] + b;
    }
  }

  function BareStage(s: Stage): Stage {
    Stage(s.argv, s.redirs, "", "")
  }

  function Bare(p: seq<Stage>): seq<Stage> {
    seq(|p|, i requires 0 <= i < |p| => BareStage(p[i]))
  }

  lemma StageParsesBack(s: Stage, index: nat)
    requires CleanStage(s)
    ensures StageOf(StageTokens(s), index) == Ok(BareStage(s)) && NoPipes(StageTokens(s)) && StageTokens(s) != []
  {
    SplitOfStageTokens(s.argv, s.redirs);
  }

  lemma StagesAtPipe(head: seq<string>, rest: seq<string>, index: nat, stage: Stage)
    requires NoPipes(head) && head != [] && StageOf(head, index) == Ok(stage)
    ensures StagesFrom(head + ["|"] + rest, index) == PrependStages([stage], StagesFrom(rest, index + 1))
    ensures StagesFrom(head, index) == Ok([stage])
  {
    var ts, k := head + ["|"] + rest, |head|;
    FirstPipeAfter(head, rest);
    assert ts[..k] == head && ts[k + 1..] == rest && head[..k] == head;
  }

  lemma BareCons(p: seq<Stage>)
    requires p != []
    ensures Bare(p) == [BareStage(p[0])] + Bare(p[1..])
  {}

  lemma StagesOfMore(p: seq<Stage>, index: nat, rest: seq<string>)
    requires Clean(p) && |p| > 1 && rest == TokensOf(p[1..])
    requires StagesFrom(rest, index + 1) == Ok(Bare(p[1..])) && CountPipes(rest) == |p| - 2
    ensures StagesFrom(TokensOf(p), index) == Ok(Bare(p)) && CountPipes(TokensOf(p)) == |p| - 1
  {
    var head := StageTokens(p[0]);
    StageParsesBack(p[0], index);
    StagesAtPipe(head, rest, index, BareStage(p[0]));
    FirstPipeAfter(head, rest);
    BareCons(p);
    assert TokensOf(p) == head + ["|"] + rest;
  }

  lemma {:induction false} StagesOfTokens(p: seq<Stage>, index: nat)
    requires Clean(p)
    ensures StagesFrom(TokensOf(p), index) == Ok(Bare(p)) && CountPipes(TokensOf(p)) == |p| - 1
  {
    if |p| == 1 {
      var head := StageTokens(p[0]);
      StageParsesBack(p[0], index);
      StagesAtPipe(head, [], index, BareStage(p[0]));
      FirstPipeAfter(head, []);
      assert [BareStage(p[0])] == Bare(p);
    } else {
      StagesOfTokens(p[1..], index + 1);
      StagesOfMore(p, index, TokensOf(p[1..]));
    }
  }

  lemma LabelsOfBare(p: seq<Stage>)
    requires LabelsAgree(p)
    ensures LabelledAll(Bare(p)) == p
  {
    forall i | 0 <= i < |p| ensures LabelledAll(Bare(p))[i] == p[i] {
      assert Labelled(BareStage(p[i]), i, |p|) == Labelled(p[i], i, |p|);
    }
  }

  lemma TokensParseBack(p: seq<Stage>)
    requires Clean(p) && |p| <= MAX_STAGES && LabelsAgree(p)
    ensures ParseTokens(TokensOf(p)) == Ok(p)
  {
    StagesOfTokens(p, 0);
    LabelsOfBare(p);
  }

  // ------------------------------------------------------- the words spell the tokens

  predicate Resolved(path: string) {
    path != "" && path[0] == '/' && |path| <= MAX_TOKEN
  }

  predicate AllResolved(paths: seq<string>) {
    forall i {:trigger Resolved(paths[i])} :: 0 <= i < |paths| ==> Resolved(paths[i])
  }

  lemma SpellsAppend(a: seq<string>, ta: seq<string>, b: seq<string>, tb: seq<string>)
    requires SpellsAll(a, ta) && SpellsAll(b, tb)
    ensures SpellsAll(a + b, ta + tb)
  {}

  lemma QuoteAllSpells(ts: seq<string>)
    ensures SpellsAll(QuoteAll(ts), ts)
  {
    forall i | 0 <= i < |ts| ensures Spells(QuoteAll(ts)[i], ts[i]) {
      QuoteSpells(ts[i]);
    }
  }

  lemma {:induction false} RedirWordsSpell(rs: seq<Redirection>)
    ensures SpellsAll(RedirWords(rs), RedirTokens(rs))
  {
    if rs != [] {
      RedirWordsSpell(rs[1..]);
      QuoteSpells(rs[0].path);
      SpellsAppend([OpText(rs[0].kind), QuoteForLexer(rs[0].path)], [OpText(rs[0].kind), rs[0].path],
                   RedirWords(rs[1..]), RedirTokens(rs[1..]));
    }
  }

  lemma StageWordsSpell(s: Stage, path: string)
    requires s.argv != []
    ensures SpellsAll(StageWords(s, path), [path] + s.argv[1..] + RedirTokens(s.redirs))
  {
    QuoteSpells(path);
    QuoteAllSpells(s.argv[1..]);
    RedirWordsSpell(s.redirs);
    SpellsAppend([QuoteForLexer(path)], [path], QuoteAll(s.argv[1..]), s.argv[1..]);
    SpellsAppend([QuoteForLexer(path)] + QuoteAll(s.argv[1..]), [path] + s.argv[1..], RedirWords(s.redirs), RedirTokens(s.redirs));
  }

  lemma {:induction false} WordsSpellTokens(p: seq<Stage>, paths: seq<string>)
    requires Runnable(p, paths)
    ensures SpellsAll(WordsOf(p, paths), TokensOf(Resolve(p, paths)))
    ensures |TokensOf(Resolve(p, paths))| == |TokensOf(p)|
  {
    if p != [] {
      StageWordsSpell(p[0], paths[0]);
      if |p| > 1 {
        WordsSpellTokens(p[1..], paths[1..]);
        assert Resolve(p, paths)[1..] == Resolve(p[1..], paths[1..]);
        var q := Resolve(p, paths);
        SpellsAppend(StageWords(p[0], paths[0]), StageTokens(q[0]), ["|"], ["|"]);
        SpellsAppend(StageWords(p[0], paths[0]) + ["|"], StageTokens(q[0]) + ["|"], WordsOf(p[1..], paths[1..]), TokensOf(q[1..]));
      }
    }
  }

  lemma {:induction false} RedirTokensEmpties(rs: seq<Redirection>)
    ensures EmptyOnlyLast(Paths(rs)) ==> EmptyOnlyLast(RedirTokens(rs))
    ensures Filled(Paths(rs)) ==> Filled(RedirTokens(rs))
  {
    if rs != [] {
      RedirTokensEmpties(rs[1..]);
      assert Paths(rs)[1..] == Paths(rs[1..]);
      RedirTokensLength(rs[1..]);
      assert OpText(rs[0].kind) != "";
      if |rs| > 1 && EmptyOnlyLast(Paths(rs)) {
        assert NonEmpty(Paths(rs)[0]);
      }
    }
  }

  lemma {:induction false} TokensEmpties(p: seq<Stage>)
    requires p != [] && (forall i {:trigger FilledStage(p[i])} :: 0 <= i < |p| - 1 ==> FilledStage(p[i]))
    requires EmptyOnlyLast(StageTokens(p[|p| - 1])) && (forall i :: 0 <= i < |p| ==> p[i].argv != [])
    ensures EmptyOnlyLast(TokensOf(p)) && TokensOf(p) != []
  {
    if |p| > 1 {
      assert FilledStage(p[0]);
      TokensEmpties(p[1..]);
      RedirTokensEmpties(p[0].redirs);
      assert Filled(StageTokens(p[0]) + ["|"]);
    }
  }

  lemma {:induction false} TokensBounded(p: seq<Stage>)
    requires Clean(p)
    ensures Bounded(TokensOf(p))
  {
    assert CleanStage(p[0]);
    SplitOfStageTokens(p[0].argv, p[0].redirs);
    if |p| > 1 {
      TokensBounded(p[1..]);
    }
  }

  lemma ResolvedIsClean(p: seq<Stage>, paths: seq<string>)
    requires Clean(p) && LabelsAgree(p) && Runnable(p, paths) && AllResolved(paths)
    ensures Clean(Resolve(p, paths)) && LabelsAgree(Resolve(p, paths))
  {
    var q := Resolve(p, paths);
    forall i | 0 <= i < |q| ensures CleanStage(q[i]) && q[i] == Labelled(q[i], i, |q|) {
      assert p[i] == Labelled(p[i], i, |p|) && CleanStage(p[i]);
      assert Resolved(paths[i]);
    }
  }

  // ------------------------------------------------------------------ the round trip

  /** The last stage's last argument is empty and redirections follow it. */
  predicate LosesEmptyArgument(p: seq<Stage>)
    requires p != []
  {
    var last := p[|p| - 1];
    |last.argv| > 1 && last.argv[|last.argv| - 1] == "" && last.redirs != []
  }

  lemma EmptiesStayAtEnd(p: seq<Stage>, paths: seq<string>)
    requires WellParsed(p) && Runnable(p, paths) && AllResolved(paths) && !LosesEmptyArgument(p)
    ensures EmptyOnlyLast(TokensOf(Resolve(p, paths)))
  {
    var q := Resolve(p, paths);
    var n := |p| - 1;
    forall i | 0 <= i < n ensures FilledStage(q[i]) {
      assert FilledStage(p[i]) && Resolved(paths[i]);
    }
    assert Resolved(paths[n]);
    RedirTokensEmpties(q[n].redirs);
    if q[n].redirs == [] {
      assert StageTokens(q[n]) == q[n].argv;
    } else {
      assert Filled(q[n].argv);
      assert EmptyOnlyLast(StageTokens(q[n]));
    }
    TokensEmpties(q);
  }

  lemma ReadsBack(p: seq<Stage>, paths: seq<string>)
    requires WellParsed(p) && Runnable(p, paths) && AllResolved(paths) && !LosesEmptyArgument(p)
    ensures var line := BuildResolvedLine(p, paths);
      ParseLine(line) == if |line| > MAX_LINE then Err(Lexical(LineTooLong)) else Ok(Resolve(p, paths))
  {
    var q := Resolve(p, paths);
    LineIsItsWords(p, paths);
    WordsSpellTokens(p, paths);
    ResolvedIsClean(p, paths);
    TokensBounded(q);
    EmptiesStayAtEnd(p, paths);
    TokensNonempty(q);
    WordsReadBack(WordsOf(p, paths), TokensOf(q), 0);
    TokensParseBack(q);
  }

  lemma TokensNonempty(p: seq<Stage>)
    requires Clean(p)
    ensures TokensOf(p) != []
  {
    assert CleanStage(p[0]);
  }

  // The pipeline without the last argument of its last stage.
  function Trim(p: seq<Stage>): seq<Stage>
    requires p != [] && p[|p| - 1].argv != []
  {
    var n := |p| - 1;
    p[n := p[n].(argv := p[n].argv[..|p[n].argv| - 1])]
  }

  // The words around an empty argument, and the tokens they spell.
  predicate Splits(words: seq<string>, ts: seq<string>, before: seq<string>, tsBefore: seq<string>, op: string,
                   after: seq<string>, tsAfter: seq<string>)
  {
    && words == before + ([['"', '"']] + ([op] + after)) && ts == tsBefore + ([op] + tsAfter)
    && SpellsAll(before, tsBefore) && Filled(tsBefore) && Plain(op)
    && SpellsAll(after, tsAfter) && EmptyOnlyLast(tsAfter)
  }

  lemma BeforeTheEmpty(s: Stage, path: string)
    requires EmptyOnlyLastStage(s) && Resolved(path) && |s.argv| > 1 && s.argv[|s.argv| - 1] == ""
    ensures var middle := s.argv[1..|s.argv| - 1];
      var before, tsBefore := [QuoteForLexer(path)] + QuoteAll(middle), [path] + middle;
      && SpellsAll(before, tsBefore) && Filled(tsBefore)
      && [QuoteForLexer(path)] + QuoteAll(s.argv[1..]) == before + [['"', '"']]
      && ([path] + s.argv[1..])[..|s.argv| - 1] == tsBefore
  {
    var middle := s.argv[1..|s.argv| - 1];
    QuoteSpells(path);
    QuoteAllSpells(middle);
    assert QuoteAll(s.argv[1..]) == QuoteAll(middle) + [['"', '"']];
  }

  lemma AfterTheEmpty(rs: seq<Redirection>)
    requires rs != [] && EmptyOnlyLast(Paths(rs))
    ensures var op, after, tsAfter := OpText(rs[0].kind), RedirWords(rs)[1..], RedirTokens(rs)[1..];
      && RedirWords(rs) == [op] + after && RedirTokens(rs) == [op] + tsAfter
      && SpellsAll(after, tsAfter) && EmptyOnlyLast(tsAfter) && Plain(op)
  {
    RedirWordsSpell(rs);
    RedirTokensEmpties(rs);
  }

  lemma Regroup(a: seq<string>, x: string, b: seq<string>)
    ensures a + [x] + b == a + ([x] + b)
  {}

  lemma AroundTheEmptyInStage(s: Stage, path: string)
    returns (before: seq<string>, tsBefore: seq<string>, op: string, after: seq<string>, tsAfter: seq<string>)
    requires EmptyOnlyLastStage(s) && Resolved(path) && LosesEmptyArgument([s])
    ensures var m := |s.argv| - 1;
      Splits(StageWords(s, path), StageTokens(s.(argv := ([path] + s.argv[1..])[..m])), before, tsBefore, op, after, tsAfter)
  {
    var middle := s.argv[1..|s.argv| - 1];
    BeforeTheEmpty(s, path);
    AfterTheEmpty(s.redirs);
    op := OpText(s.redirs[0].kind);
    before, tsBefore := [QuoteForLexer(path)] + QuoteAll(middle), [path] + middle;
    after, tsAfter := RedirWords(s.redirs)[1..], RedirTokens(s.redirs)[1..];
    Regroup(before, ['"', '"'], [op] + after);
  }

  lemma SplitsAfter(head: seq<string>, tsHead: seq<string>, words: seq<string>, ts: seq<string>, before: seq<string>,
                    tsBefore: seq<string>, op: string, after: seq<string>, tsAfter: seq<string>)
    requires Splits(words, ts, before, tsBefore, op, after, tsAfter) && SpellsAll(head, tsHead) && Filled(tsHead)
    ensures Splits(head + words, tsHead + ts, head + before, tsHead + tsBefore, op, after, tsAfter)
  {
    SpellsAppend(head, tsHead, before, tsBefore);
    assert head + (before + ([['"', '"']] + ([op] + after))) == head + before + ([['"', '"']] + ([op] + after));
    assert tsHead + (tsBefore + ([op] + tsAfter)) == tsHead + tsBefore + ([op] + tsAfter);
  }

  lemma {:induction false} AroundTheEmpty(p: seq<Stage>, paths: seq<string>)
    returns (before: seq<string>, tsBefore: seq<string>, op: string, after: seq<string>, tsAfter: seq<string>)
    requires Clean(p) && EmptiesAtEnd(p) && Runnable(p, paths) && AllResolved(paths) && LosesEmptyArgument(p)
    ensures Splits(WordsOf(p, paths), TokensOf(Trim(Resolve(p, paths))), before, tsBefore, op, after, tsAfter)
  {
    var q := Resolve(p, paths);
    assert Resolved(paths[0]);
    if |p| == 1 {
      before, tsBefore, op, after, tsAfter := AroundTheEmptyInStage(p[0], paths[0]);
    } else {
      assert p[1..][|p| - 2] == p[|p| - 1];
      before, tsBefore, op, after, tsAfter := AroundTheEmpty(p[1..], paths[1..]);
      AroundInRest(p, paths, before, tsBefore, op, after, tsAfter);
      before := StageWords(p[0], paths[0]) + ["|"] + before;
      tsBefore := StageTokens(q[0]) + ["|"] + tsBefore;
    }
  }

  lemma AroundInRest(p: seq<Stage>, paths: seq<string>, before: seq<string>, tsBefore: seq<string>, op: string,
                     after: seq<string>, tsAfter: seq<string>)
    requires |p| > 1 && Runnable(p, paths) && CleanStage(p[0]) && FilledStage(p[0]) && Resolved(paths[0]) && p[|p| - 1].argv != []
    requires Runnable(p[1..], paths[1..])
    requires Splits(WordsOf(p[1..], paths[1..]), TokensOf(Trim(Resolve(p[1..], paths[1..]))), before, tsBefore, op, after, tsAfter)
    ensures Splits(WordsOf(p, paths), TokensOf(Trim(Resolve(p, paths))), StageWords(p[0], paths[0]) + ["|"] + before,
                   StageTokens(Resolve(p, paths)[0]) + ["|"] + tsBefore, op, after, tsAfter)
  {
    var q := Resolve(p, paths);
    var words, ts := WordsOf(p[1..], paths[1..]), TokensOf(Trim(Resolve(p[1..], paths[1..])));
    HeadSpells(p[0], paths[0]);
    SplitsAfter(StageWords(p[0], paths[0]) + ["|"], StageTokens(q[0]) + ["|"], words, ts, before, tsBefore, op, after, tsAfter);
    assert q[1..] == Resolve(p[1..], paths[1..]);
    assert Trim(q)[0] == q[0] && Trim(q)[1..] == Trim(q[1..]);
  }

  lemma HeadSpells(s: Stage, path: string)
    requires CleanStage(s) && FilledStage(s) && Resolved(path)
    ensures var tsHead := StageTokens(s.(argv := [path] + s.argv[1..])) + ["|"];
      SpellsAll(StageWords(s, path) + ["|"], tsHead) && Filled(tsHead)
  {
    StageWordsSpell(s, path);
    RedirTokensEmpties(s.redirs);
    SpellsAppend(StageWords(s, path), [path] + s.argv[1..] + RedirTokens(s.redirs), ["|"], ["|"]);
  }

  lemma TrimIsClean(q: seq<Stage>)
    requires Clean(q) && LabelsAgree(q) && |q[|q| - 1].argv| > 1
    ensures Clean(Trim(q)) && LabelsAgree(Trim(q)) && Trim(q) != q
  {
    var n := |q| - 1;
    assert CleanStage(q[n]);
    forall i | 0 <= i < |q| ensures CleanStage(Trim(q)[i]) && Trim(q)[i] == Labelled(Trim(q)[i], i, |q|) {
      assert q[i] == Labelled(q[i], i, |q|) && CleanStage(q[i]);
    }
    assert |Trim(q)[n].argv| < |q[n].argv|;
  }

  lemma {:induction false} TrimShortens(q: seq<Stage>)
    requires q != [] && q[|q| - 1].argv != []
    ensures |TokensOf(Trim(q))| == |TokensOf(q)| - 1
  {
    if |q| > 1 {
      TrimShortens(q[1..]);
      assert Trim(q)[1..] == Trim(q[1..]);
    }
  }

  lemma DropsTheEmpty(p: seq<Stage>, paths: seq<string>)
    requires WellParsed(p) && Runnable(p, paths) && AllResolved(paths) && LosesEmptyArgument(p)
    ensures var line := BuildResolvedLine(p, paths);
      ParseLine(line) == if |line| > MAX_LINE then Err(Lexical(LineTooLong)) else Ok(Trim(Resolve(p, paths)))
    ensures Trim(Resolve(p, paths)) != Resolve(p, paths)
  {
    var q := Resolve(p, paths);
    LineIsItsWords(p, paths);
    WordsSpellTokens(p, paths);
    ResolvedIsClean(p, paths);
    TrimIsClean(q);
    TrimShortens(q);
    TokensBounded(Trim(q));
    var before, tsBefore, op, after, tsAfter := AroundTheEmpty(p, paths);
    var ts := tsBefore + ([op] + tsAfter);
    assert ts[..|tsBefore|] == tsBefore && ts[|tsBefore| + 1..] == tsAfter && ts[|tsBefore|] == op;
    assert Fits(ts[|tsBefore|]);
    EmptyAbsorbed(before, tsBefore, op, after, tsAfter);
    TokensParseBack(Trim(q));
  }

  /**
   * For every line the engine accepts and every choice of resolved paths, the rebuilt line
   * reads back as the same stages, arguments, ordered redirections and labels, with only
   * argv[0] replaced, exactly when it fits the line limit and the last stage does not carry
   * an empty last argument in front of redirections.
   */
  lemma RebuiltLineReadsBackIff(line: string, paths: seq<string>)
    requires ParseLine(line).Ok? && Runnable(ParseLine(line).value, paths) && AllResolved(paths)
    ensures var p := ParseLine(line).value; var rebuilt := BuildResolvedLine(p, paths);
      p != [] &&
      (ParseLine(rebuilt) == Ok(Resolve(p, paths)) <==> |rebuilt| <= MAX_LINE && !LosesEmptyArgument(p))
  {
    ParsedIsWellParsed(line);
    var p := ParseLine(line).value;
    if LosesEmptyArgument(p) {
      DropsTheEmpty(p, paths);
    } else {
      ReadsBack(p, paths);
    }
  }

  // ------------------------------------------------------------- a line that is changed

  lemma ScanPlain(c: char, rest: string, n: nat)
    requires !IsSpace(c) && c != '#' && c != '\'' && c != '"' && c != '\\'
    requires n < MAX_ARGS && AtWordEnd(rest)
    ensures Scan([c] + rest, None, n, false) == Prepend([[c]], Scan(rest, None, n + 1, false))
  {
    var s := [c] + rest;
    assert s[1..] == rest && "" + [c] == [c];
    assert ScanUnit(s, MAX_TOKEN) == Ok(Unit([c], rest));
  }

  lemma ScanSpace(rest: string, n: nat)
    ensures Scan([' '] + rest, None, n, false) == Scan(rest, None, n, false)
  {
    assert ([' '] + rest)[1..] == rest;
  }

  lemma ScanEmptyQuotes(n: nat)
    requires n < MAX_ARGS
    ensures Scan(['"', '"'], None, n, false) == Ok([""])
  {
    var s := ['"', '"'];
    assert s[1..][0] == '"' && s[1..][1..] == "" && "" + "" == "";
    assert ScanUnit(s, MAX_TOKEN) == Ok(Unit("", ""));
  }

  function ExampleLine(): string {
    ['a'] + ([' '] + (['>'] + ([' '] + (['b'] + ([' '] + ['"', '"'])))))
  }

  lemma ExampleTokens()
    ensures Tokenize(ExampleLine()) == Ok([['a'], ['>'], ['b'], ""])
  {
    var tail2 := ['b'] + ([' '] + ['"', '"']);
    var tail1 := ['>'] + ([' '] + tail2);
    ScanPlain('a', [' '] + tail1, 0);
    ScanSpace(tail1, 1);
    ScanPlain('>', [' '] + tail2, 1);
    ScanSpace(tail2, 2);
    ScanPlain('b', [' '] + ['"', '"'], 2);
    ScanSpace(['"', '"'], 3);
    ScanEmptyQuotes(3);
    JoinTokens(['a'], ['>'], ['b'], "");
  }

  lemma JoinTokens(a: string, b: string, c: string, d: string)
    ensures Prepend([a], Prepend([b], Prepend([c], Ok([d])))) == Ok([a, b, c, d])
  {
    assert [a] + ([b] + ([c] + [d])) == [a, b, c, d];
  }

  function ExampleStage(): Stage {
    Stage([['a'], ""], [Redirection(Out, ['b'], 1)], "inherit", "file")
  }

  lemma ExampleParse()
    ensures ParseLine(ExampleLine()) == Ok([ExampleStage()])
  {
    var ts := [['a'], ['>'], ['b'], ""];
    ExampleTokens();
    ExampleSplit(ts);
    assert NoPipes(ts);
    NoPipesFirst(ts);
    assert ts[..4] == ts;
    var bare := Stage([['a'], ""], [Redirection(Out, ['b'], 1)], "", "");
    assert StagesFrom(ts, 0) == Ok([bare]);
    assert bare.redirs[0].kind == Out;
    assert LabelledAll([bare]) == [Labelled(bare, 0, 1)];
  }

  lemma NoPipesFirst(ts: seq<string>)
    requires NoPipes(ts)
    ensures FirstPipe(ts) == |ts| && CountPipes(ts) == 0
  {
    FirstPipeAfter(ts, []);
  }

  lemma ExampleSplit(ts: seq<string>)
    requires ts == [['a'], ['>'], ['b'], ""]
    ensures OpFault(ts) == None && Args(ts) == [['a'], ""] && Redirs(ts) == [Redirection(Out, ['b'], 1)]
  {
    var t1, t3 := ts[1..], ts[3..];
    assert t1 == [['>'], ['b'], ""] && t1[1..] == [['b'], ""] && t1[2..] == t3 == [""] && t3[1..] == [];
    assert t1[1..][1..] == t3 && ts[2..] == [['b'], ""] && ts[2..][2..] == [] && t1[2..][1..] == [];
    assert MakeRedirection(['>'], ['b']) == Redirection(Out, ['b'], 1) && t1[0] == ['>'] && t1[1] == ['b'];
    assert Redirs(t1) == [Redirection(Out, ['b'], 1)] + Redirs(t3);
    assert OpFault(t3) == None && OpFault(t1[1..]) == None && OpFault(t1) == None;
    assert Args(t3) == [""] && Redirs(t3) == [] && Args(t1) == [""];
  }

  /** The line a > b "" is accepted, loses its empty argument when it is rebuilt, and reads back otherwise. */
  lemma SomeLineIsChanged()
    ensures var p := [ExampleStage()];
      && ParseLine(ExampleLine()) == Ok(p) && LosesEmptyArgument(p)
      && Runnable(p, [['/', 'a']]) && ParseLine(BuildResolvedLine(p, [['/', 'a']])) != Ok(Resolve(p, [['/', 'a']]))
  {
    ExampleParse();
    assert AllResolved([['/', 'a']]);
    RebuiltLineReadsBackIff(ExampleLine(), [['/', 'a']]);
  }
}
