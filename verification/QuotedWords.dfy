/**
 * A byte in quotes is described as literal, a "|" in quotes as data; but the engine compares
 * tokens with the pipe sign and the operators after their quotes are gone.  The reading that
 * keeps the quotes, and when the engine agrees with it.
 */
module QuotedWords {
  import opened Basics
  import opened Lexer
  import opened Pipeline
  import RoundTrip

  // A token, and whether any of its bytes was quoted or escaped.
  datatype Word = Word(text: string, quoted: bool)

  type Words = Result<seq<Word>, LexError>

  predicate IsQuoting(c: char) {
    c == '\'' || c == '"' || c == '\\'
  }

  function PrependWord(w: Word, r: Words): Words {
    if r.Ok? then Ok([w] + r.value) else r
  }

  // The tokenizer's own scan, remembering what was quoted.
  function ReadWords(s: string, cur: Partial, quoted: bool, n: nat): Words
    decreases |s|
  {
    if s == "" then Ok(if cur.Some? then [Word(cur.value, quoted)] else [])
    else if IsSpace(s[0]) then ReadWords(s[1..], cur, quoted, n)
    else if s[0] == '#' && cur.None? then Ok([])
    else if n >= MAX_ARGS then Err(TooManyArguments)
    else match ScanUnit(s, Room(cur))
      case Err(e) => Err(e)
      case Ok(u) =>
        var word := cur.GetOr("") + u.bytes;
        var mark := quoted || (IsQuoting(s[0]) && u.bytes != "");
        if AtWordEnd(u.rest) && word != ""
        then PrependWord(Word(word, mark), ReadWords(u.rest, None, false, n + 1))
        else ReadWords(u.rest, Some(word), mark, n)
  }

  function WordsOfLine(line: string): Words {
    if |line| > MAX_LINE then Err(LineTooLong) else ReadWords(line, None, false, 0)
  }

  function Texts(ws: seq<Word>): seq<string> {
    seq(|ws|, i requires 0 <= i < |ws| => ws[i].text)
  }

  function TextsOf(r: Words): Tokens {
    if r.Ok? then Ok(Texts(r.value)) else Err(r.error)
  }

  lemma TextsCons(w: Word, r: Words)
    ensures TextsOf(PrependWord(w, r)) == Prepend([w.text], TextsOf(r))
  {
    if r.Ok? {
      assert Texts([w] + r.value) == [w.text] + Texts(r.value);
    }
  }

  // Forgetting the quotes gives the engine's tokens.
  lemma {:induction false} WordsAreTokens(s: string, cur: Partial, quoted: bool, n: nat)
    ensures TextsOf(ReadWords(s, cur, quoted, n)) == Scan(s, cur, n, false)
    decreases |s|
  {
    if s == "" {
      assert Texts(if cur.Some? then [Word(cur.value, quoted)] else []) == if cur.Some? then [cur.value] else [];
    } else if IsSpace(s[0]) {
      WordsAreTokens(s[1..], cur, quoted, n);
    } else if !(s[0] == '#' && cur.None?) && n < MAX_ARGS && ScanUnit(s, Room(cur)).Ok? {
      var u := ScanUnit(s, Room(cur)).value;
      var word := cur.GetOr("") + u.bytes;
      var mark := quoted || (IsQuoting(s[0]) && u.bytes != "");
      if AtWordEnd(u.rest) && word != "" {
        WordsAreTokens(u.rest, None, false, n + 1);
        TextsCons(Word(word, mark), ReadWords(u.rest, None, false, n + 1));
      } else {
        WordsAreTokens(u.rest, Some(word), mark, n);
      }
    } else if s[0] == '#' && cur.None? {
      assert Texts([]) == [];
    }
  }

  // ------------------------------------------------------- the reading that keeps quotes

  predicate Separates(w: Word) {
    IsPipe(w.text) && !w.quoted
  }

  predicate Operates(w: Word) {
    IsOp(w.text) && !w.quoted
  }

  predicate Special(t: string) {
    IsPipe(t) || IsOp(t)
  }

  // Spelled like the pipe sign or an operator, but quoted or escaped.
  predicate Guarded(w: Word) {
    w.quoted && Special(w.text)
  }

  predicate NoneGuarded(ws: seq<Word>) {
    forall i {:trigger Guarded(ws[i])} :: 0 <= i < |ws| ==> !Guarded(ws[i])
  }

  function WordFault(ws: seq<Word>): Option<ParseError> {
    if ws == [] then None
    else if Operates(ws[0]) && |ws| == 1 then Some(MissingTarget(ws[0].text))
    else if Operates(ws[0]) && Operates(ws[1]) then Some(OperatorAsTarget(ws[0].text, ws[1].text))
    else WordFault(ws[1..])
  }

  function WordArgs(ws: seq<Word>): seq<string>
    decreases |ws|
  {
    if ws == [] then []
    else if Operates(ws[0]) then (if |ws| == 1 then [] else WordArgs(ws[2..]))
    else [ws[0].text] + WordArgs(ws[1..])
  }

  function WordRedirs(ws: seq<Word>): seq<Redirection>
    decreases |ws|
  {
    if ws == [] then []
    else if Operates(ws[0]) then
      if |ws| == 1 then [] else [MakeRedirection(ws[0].text, ws[1].text)] + WordRedirs(ws[2..])
    else WordRedirs(ws[1..])
  }

  function StageOfWords(ws: seq<Word>, index: nat): StageResult {
    var fault := WordFault(ws);
    if fault.Some? then Err(fault.value)
    else if WordArgs(ws) == [] then Err(NoCommand(index))
    else Ok(Stage(WordArgs(ws), WordRedirs(ws), "", ""))
  }

  function FirstBar(ws: seq<Word>): (k: nat)
    ensures k <= |ws|
  {
    if ws == [] || Separates(ws[0]) then 0 else 1 + FirstBar(ws[1..])
  }

  function CountBars(ws: seq<Word>): nat {
    if ws == [] then 0 else (if Separates(ws[0]) then 1 else 0) + CountBars(ws[1..])
  }

  function StagesOfWords(ws: seq<Word>, index: nat): Stages
    decreases |ws|
  {
    var k := FirstBar(ws);
    if k == 0 then Err(if index == 0 then LeadingPipe else EmptyStage)
    else match StageOfWords(ws[..k], index)
      case Err(e) => Err(e)
      case Ok(stage) => if k == |ws| then Ok([stage]) else PrependStages([stage], StagesOfWords(ws[k + 1..], index + 1))
  }

  function ParseWords(ws: seq<Word>): Stages {
    var n := 1 + CountBars(ws);
    if n > MAX_STAGES then Err(TooManyStages(n))
    else match StagesOfWords(ws, 0)
      case Err(e) => Err(e)
      case Ok(ss) => Ok(LabelledAll(ss))
  }

  // The pipeline as described: what is quoted is an argument or a file name like any other.
  function DescribedLine(line: string): Stages {
    match WordsOfLine(line)
    case Err(e) => Err(Lexical(e))
    case Ok(ws) => ParseWords(ws)
  }

  // ---------------------------------------------------------- without a guarded word

  lemma TextsSlices(ws: seq<Word>, k: nat)
    requires k <= |ws|
    ensures Texts(ws)[..k] == Texts(ws[..k]) && Texts(ws)[k..] == Texts(ws[k..])
  {}

  lemma GuardedSlices(ws: seq<Word>, k: nat)
    requires NoneGuarded(ws) && k <= |ws|
    ensures NoneGuarded(ws[..k]) && NoneGuarded(ws[k..])
  {
    forall i {:trigger Guarded(ws[..k][i])} | 0 <= i < k ensures !Guarded(ws[..k][i]) {
      assert !Guarded(ws[i]);
    }
    forall i {:trigger Guarded(ws[k..][i])} | 0 <= i < |ws| - k ensures !Guarded(ws[k..][i]) {
      assert !Guarded(ws[k + i]);
    }
  }

  lemma {:induction false} SameFault(ws: seq<Word>)
    requires NoneGuarded(ws)
    ensures WordFault(ws) == OpFault(Texts(ws))
  {
    if ws != [] {
      assert !Guarded(ws[0]) && (|ws| > 1 ==> !Guarded(ws[1]));
      GuardedSlices(ws, 1);
      TextsSlices(ws, 1);
      SameFault(ws[1..]);
    }
  }

  lemma {:induction false} SameSplit(ws: seq<Word>)
    requires NoneGuarded(ws)
    ensures WordArgs(ws) == Args(Texts(ws)) && WordRedirs(ws) == Redirs(Texts(ws))
    decreases |ws|
  {
    if ws != [] {
      assert !Guarded(ws[0]);
      var step := if Operates(ws[0]) && |ws| > 1 then 2 else 1;
      GuardedSlices(ws, step);
      TextsSlices(ws, step);
      SameSplit(ws[step..]);
    }
  }

  lemma SameStage(ws: seq<Word>, index: nat)
    requires NoneGuarded(ws)
    ensures StageOfWords(ws, index) == StageOf(Texts(ws), index)
  {
    SameFault(ws);
    SameSplit(ws);
  }

  lemma {:induction false} FirstBarIsFirstPipe(ws: seq<Word>)
    requires NoneGuarded(ws)
    ensures FirstBar(ws) == FirstPipe(Texts(ws)) && CountBars(ws) == CountPipes(Texts(ws))
  {
    if ws != [] {
      assert !Guarded(ws[0]);
      GuardedSlices(ws, 1);
      TextsSlices(ws, 1);
      FirstBarIsFirstPipe(ws[1..]);
    }
  }

  lemma SameHead(ws: seq<Word>, ts: seq<string>, k: nat, index: nat)
    requires ts == Texts(ws) && k == FirstBar(ws) == FirstPipe(ts) && StageOfWords(ws[..k], index) == StageOf(ts[..k], index)
    requires k < |ws| ==> StagesOfWords(ws[k + 1..], index + 1) == StagesFrom(ts[k + 1..], index + 1)
    ensures StagesOfWords(ws, index) == StagesFrom(ts, index)
  {}

  lemma {:induction false} SameStages(ws: seq<Word>, index: nat)
    requires NoneGuarded(ws)
    ensures StagesOfWords(ws, index) == StagesFrom(Texts(ws), index)
    decreases |ws|
  {
    var k := FirstBar(ws);
    FirstBarIsFirstPipe(ws);
    GuardedSlices(ws, k);
    TextsSlices(ws, k);
    SameStage(ws[..k], index);
    if k < |ws| {
      GuardedSlices(ws, k + 1);
      TextsSlices(ws, k + 1);
      SameStages(ws[k + 1..], index + 1);
    }
    SameHead(ws, Texts(ws), k, index);
  }

  // ------------------------------------------------------------- with a guarded word

  predicate HasSpecial(ts: seq<string>) {
    exists i {:trigger Special(ts[i])} :: 0 <= i < |ts| && Special(ts[i])
  }

  // The word became an argument or a file name of the stage.
  predicate SpecialInStage(s: Stage) {
    HasSpecial(s.argv) || HasSpecial(Paths(s.redirs))
  }

  predicate SpecialSomewhere(ss: seq<Stage>) {
    exists i {:trigger SpecialInStage(ss[i])} :: 0 <= i < |ss| && SpecialInStage(ss[i])
  }

  lemma SpecialMember(ts: seq<string>, t: string)
    requires t in ts && Special(t)
    ensures HasSpecial(ts)
  {
    var i :| 0 <= i < |ts| && ts[i] == t;
    assert Special(ts[i]);
  }

  lemma WordOperator(ws: seq<Word>)
    requires WordFault(ws) == None && ws != [] && Operates(ws[0])
    ensures |ws| >= 2 && !Operates(ws[1]) && WordFault(ws[2..]) == None
    ensures Paths(WordRedirs(ws)) == [ws[1].text] + Paths(WordRedirs(ws[2..]))
  {
    assert ws[1..][0] == ws[1] && ws[1..][1..] == ws[2..];
    ConsTexts(MakeRedirection(ws[0].text, ws[1].text), WordRedirs(ws[2..]));
  }

  // Every word that is no operator is an argument or a file name.
  lemma {:induction false} WordIsKept(ws: seq<Word>, i: nat)
    requires WordFault(ws) == None && i < |ws| && !Operates(ws[i])
    ensures ws[i].text in WordArgs(ws) || ws[i].text in Paths(WordRedirs(ws))
    decreases |ws|
  {
    if Operates(ws[0]) {
      WordOperator(ws);
      if i > 1 {
        WordIsKept(ws[2..], i - 2);
      }
    } else if i > 0 {
      WordIsKept(ws[1..], i - 1);
    }
  }

  lemma StageKeepsGuarded(ws: seq<Word>, index: nat, i: nat)
    requires StageOfWords(ws, index).Ok? && i < |ws| && Guarded(ws[i])
    ensures SpecialInStage(StageOfWords(ws, index).value)
  {
    WordIsKept(ws, i);
    if ws[i].text in WordArgs(ws) {
      SpecialMember(WordArgs(ws), ws[i].text);
    } else {
      SpecialMember(Paths(WordRedirs(ws)), ws[i].text);
    }
  }

  lemma SpecialAhead(stage: Stage, rest: seq<Stage>)
    requires SpecialInStage(stage) || SpecialSomewhere(rest)
    ensures SpecialSomewhere([stage] + rest)
  {
    var all := [stage] + rest;
    if SpecialInStage(stage) {
      assert SpecialInStage(all[0]);
    } else {
      var i :| 0 <= i < |rest| && SpecialInStage(rest[i]);
      assert SpecialInStage(all[i + 1]);
    }
  }

  lemma {:induction false} FirstBarSeparates(ws: seq<Word>)
    ensures FirstBar(ws) < |ws| ==> Separates(ws[FirstBar(ws)])
  {
    if ws != [] && !Separates(ws[0]) {
      FirstBarSeparates(ws[1..]);
    }
  }

  lemma {:induction false} StagesKeepGuarded(ws: seq<Word>, index: nat, i: nat)
    requires StagesOfWords(ws, index).Ok? && i < |ws| && Guarded(ws[i])
    ensures SpecialSomewhere(StagesOfWords(ws, index).value)
    decreases |ws|
  {
    var k := FirstBar(ws);
    var stage := StageOfWords(ws[..k], index).value;
    FirstBarSeparates(ws);
    if i < k {
      StageKeepsGuarded(ws[..k], index, i);
    } else {
      StagesKeepGuarded(ws[k + 1..], index + 1, i - k - 1);
    }
    SpecialAhead(stage, if k < |ws| then StagesOfWords(ws[k + 1..], index + 1).value else []);
    assert [stage] + [] == [stage];
  }

  lemma LabelsKeepSpecial(ss: seq<Stage>)
    requires SpecialSomewhere(ss)
    ensures SpecialSomewhere(LabelledAll(ss))
  {
    var i :| 0 <= i < |ss| && SpecialInStage(ss[i]);
    assert SpecialInStage(LabelledAll(ss)[i]);
  }

  // The engine never leaves a pipe sign or an operator in a stage.
  lemma ParsedHasNoSpecial(line: string)
    requires ParseLine(line).Ok?
    ensures !SpecialSomewhere(ParseLine(line).value)
  {
    var p := ParseLine(line).value;
    RoundTrip.ParsedIsWellParsed(line);
    forall i {:trigger SpecialInStage(p[i])} | 0 <= i < |p| ensures !SpecialInStage(p[i]) {
      assert RoundTrip.CleanStage(p[i]);
      CleanHasNoSpecial(p[i]);
    }
  }

  lemma CleanHasNoSpecial(s: Stage)
    requires RoundTrip.CleanStage(s)
    ensures !SpecialInStage(s)
  {
    forall k {:trigger Special(s.argv[k])} | 0 <= k < |s.argv| ensures !Special(s.argv[k]) {
      assert RoundTrip.Operand(s.argv[k]);
    }
    forall k {:trigger Special(Paths(s.redirs)[k])} | 0 <= k < |s.redirs| ensures !Special(Paths(s.redirs)[k]) {
      assert RoundTrip.CleanRedir(s.redirs[k]);
    }
  }

  // No word of the line is spelled like a pipe sign or an operator and quoted or escaped.
  predicate LineIsPlain(line: string) {
    WordsOfLine(line).Ok? ==> NoneGuarded(WordsOfLine(line).value)
  }

  lemma EngineReadsTexts(line: string)
    ensures Tokenize(line) == TextsOf(WordsOfLine(line))
  {
    if |line| <= MAX_LINE {
      WordsAreTokens(line, None, false, 0);
    }
  }

  // A line without such a word is read as described, errors included.
  lemma PlainLinesAgree(line: string)
    requires LineIsPlain(line)
    ensures ParseLine(line) == DescribedLine(line)
  {
    EngineReadsTexts(line);
    if WordsOfLine(line).Ok? {
      FirstBarIsFirstPipe(WordsOfLine(line).value);
      SameStages(WordsOfLine(line).value, 0);
    }
  }

  lemma DescribedKeepsGuarded(line: string)
    requires !LineIsPlain(line) && DescribedLine(line).Ok?
    ensures SpecialSomewhere(DescribedLine(line).value)
  {
    var ws := WordsOfLine(line).value;
    var i :| 0 <= i < |ws| && Guarded(ws[i]);
    StagesKeepGuarded(ws, 0, i);
    LabelsKeepSpecial(StagesOfWords(ws, 0).value);
  }

  /**
   * A line that either reading accepts is read as described if and only if none of its words
   * is a pipe sign or a redirection operator that was quoted or escaped.
   */
  lemma QuotedWordsAreDataIff(line: string)
    requires ParseLine(line).Ok? || DescribedLine(line).Ok?
    ensures ParseLine(line) == DescribedLine(line) <==> LineIsPlain(line)
  {
    if LineIsPlain(line) {
      PlainLinesAgree(line);
    } else if ParseLine(line).Ok? && DescribedLine(line).Ok? {
      ParsedHasNoSpecial(line);
      DescribedKeepsGuarded(line);
    }
  }

  // --------------------------------------------------------------- counting the stages

  // How many words are a "|" that was quoted or escaped.
  function QuotedBars(ws: seq<Word>): nat {
    if ws == [] then 0 else (if IsPipe(ws[0].text) && ws[0].quoted then 1 else 0) + QuotedBars(ws[1..])
  }

  lemma {:induction false} BarsAreCounted(ws: seq<Word>)
    ensures CountPipes(Texts(ws)) == CountBars(ws) + QuotedBars(ws)
  {
    if ws != [] {
      BarsAreCounted(ws[1..]);
      TextsSlices(ws, 1);
    }
  }

  lemma {:induction false} WordStages(ws: seq<Word>, index: nat)
    ensures StagesOfWords(ws, index).Ok? ==> |StagesOfWords(ws, index).value| == 1 + CountBars(ws)
    decreases |ws|
  {
    var k := FirstBar(ws);
    BarsAfterFirst(ws);
    if 0 < k < |ws| {
      WordStages(ws[k + 1..], index + 1);
    }
  }

  lemma {:induction false} BarsAfterFirst(ws: seq<Word>)
    ensures var k := FirstBar(ws); CountBars(ws) == if k == |ws| then 0 else 1 + CountBars(ws[k + 1..])
  {
    if ws != [] && !Separates(ws[0]) {
      BarsAfterFirst(ws[1..]);
      var k := FirstBar(ws[1..]);
      assert k < |ws[1..]| ==> ws[1..][k + 1..] == ws[k + 2..];
    }
  }

  // Each quoted bar makes one stage more than described.
  lemma QuotedBarsAddStages(line: string)
    requires ParseLine(line).Ok? && DescribedLine(line).Ok?
    ensures |ParseLine(line).value| == |DescribedLine(line).value| + QuotedBars(WordsOfLine(line).value)
  {
    EngineReadsTexts(line);
    var ws := WordsOfLine(line).value;
    BarsAreCounted(ws);
    StageCount(Texts(ws), 0);
    WordStages(ws, 0);
  }

  // ------------------------------------------------------------------- two such lines

  lemma PlainWord(c: char, rest: string, n: nat)
    requires c == 'a' || c == 'b'
    requires n < MAX_ARGS && AtWordEnd(rest)
    ensures ReadWords([c] + rest, None, false, n) == PrependWord(Word([c], false), ReadWords(rest, None, false, n + 1))
  {
    var s := [c] + rest;
    assert s[1..] == rest && "" + [c] == [c];
    assert ScanUnit(s, MAX_TOKEN) == Ok(Unit([c], rest));
  }

  lemma WordInQuotes(c: char, rest: string, n: nat)
    requires c != '\'' && n < MAX_ARGS && AtWordEnd(rest)
    ensures ReadWords(['\'', c, '\''] + rest, None, false, n) == PrependWord(Word([c], true), ReadWords(rest, None, false, n + 1))
  {
    var s := ['\'', c, '\''] + rest;
    var t := s[1..];
    assert t[0] == c && t[1..][0] == '\'' && t[1..][1..] == rest;
    assert [c] + "" == [c] && "" + [c] == [c];
    assert SingleQuoted(t[1..], MAX_TOKEN - 1) == Ok(Unit("", rest));
    assert ScanUnit(s, MAX_TOKEN) == Ok(Unit([c], rest));
  }

  lemma AfterSpace(rest: string, n: nat)
    ensures ReadWords([' '] + rest, None, false, n) == ReadWords(rest, None, false, n)
  {
    assert ([' '] + rest)[1..] == rest;
  }

  lemma TailWords(n: nat)
    requires n < MAX_ARGS
    ensures ReadWords([' '] + (['b'] + ""), None, false, n) == Ok([Word(['b'], false)])
  {
    AfterSpace(['b'] + "", n);
    PlainWord('b', "", n);
    assert ReadWords("", None, false, n + 1) == Ok([]);
    assert [Word(['b'], false)] + [] == [Word(['b'], false)];
  }

  // The line a 'c' b.
  function LineAround(c: char): string {
    ['a'] + ([' '] + (['\'', c, '\''] + ([' '] + (['b'] + ""))))
  }

  function WordsAround(c: char): seq<Word> {
    [Word(['a'], false), Word([c], true), Word(['b'], false)]
  }

  function TextsAround(c: char): seq<string> {
    [['a'], [c], ['b']]
  }

  lemma ReadsAround(c: char)
    requires c != '\''
    ensures WordsOfLine(LineAround(c)) == Ok(WordsAround(c)) && Tokenize(LineAround(c)) == Ok(TextsAround(c))
  {
    var tail := [' '] + (['b'] + "");
    PlainWord('a', [' '] + (['\'', c, '\''] + tail), 0);
    AfterSpace(['\'', c, '\''] + tail, 1);
    WordInQuotes(c, tail, 1);
    TailWords(2);
    assert [Word(['a'], false)] + ([Word([c], true)] + [Word(['b'], false)]) == WordsAround(c);
    EngineReadsTexts(LineAround(c));
    assert Texts(WordsAround(c)) == TextsAround(c);
  }

  lemma {:induction false} DataStage(ws: seq<Word>)
    requires forall i {:trigger Operates(ws[i])} :: 0 <= i < |ws| ==> !Operates(ws[i])
    ensures WordFault(ws) == None && WordArgs(ws) == Texts(ws) && WordRedirs(ws) == []
  {
    if ws != [] {
      assert !Operates(ws[0]);
      forall i {:trigger Operates(ws[1..][i])} | 0 <= i < |ws| - 1 ensures !Operates(ws[1..][i]) {
        assert !Operates(ws[i + 1]);
      }
      DataStage(ws[1..]);
      assert [ws[0].text] + Texts(ws[1..]) == Texts(ws);
    }
  }

  lemma {:induction false} NoBars(ws: seq<Word>)
    requires forall i {:trigger Separates(ws[i])} :: 0 <= i < |ws| ==> !Separates(ws[i])
    ensures FirstBar(ws) == |ws| && CountBars(ws) == 0
  {
    if ws != [] {
      assert !Separates(ws[0]);
      forall i {:trigger Separates(ws[1..][i])} | 0 <= i < |ws| - 1 ensures !Separates(ws[1..][i]) {
        assert !Separates(ws[i + 1]);
      }
      NoBars(ws[1..]);
    }
  }

  // As described, whatever stands in the quotes is the middle one of three arguments.
  lemma DescribedAround(c: char)
    requires c != '\''
    ensures DescribedLine(LineAround(c)) == Ok([Stage(TextsAround(c), [], "inherit", "inherit")])
  {
    var ws := WordsAround(c);
    ReadsAround(c);
    DataStage(ws);
    NoBars(ws);
    assert Texts(ws) == TextsAround(c) && ws[..3] == ws;
    var stage := Stage(TextsAround(c), [], "", "");
    assert StageOfWords(ws, 0) == Ok(stage);
    assert LabelledAll([stage]) == [Labelled(stage, 0, 1)];
  }

  lemma TwoStages()
    ensures ParseTokens(TextsAround('|')) ==
      Ok([Stage([['a']], [], "inherit", "pipe"), Stage([['b']], [], "pipe", "inherit")])
  {
    var ts, a, b := TextsAround('|'), Word(['a'], false), Word(['b'], false);
    SameStage([a], 0);
    SameStage([b], 1);
    DataStage([a]);
    DataStage([b]);
    assert Texts([a]) == [['a']] && Texts([b]) == [['b']];
    assert ts[1..] == [['|'], ['b']] && ts[1..][1..] == [['b']] && [['b']][1..] == [];
    assert ts[..1] == [['a']] && ts[2..] == [['b']] && [['b']][..1] == [['b']];
    var first, second := Stage([['a']], [], "", ""), Stage([['b']], [], "", "");
    assert StagesFrom([['b']], 1) == Ok([second]);
    assert [first] + [second] == [first, second];
    assert LabelledAll([first, second]) == [Labelled(first, 0, 2), Labelled(second, 1, 2)];
  }

  // The line a '|' b: one command with three words as described, two stages as run.
  lemma QuotedPipeSplits()
    ensures DescribedLine(LineAround('|')) == Ok([Stage([['a'], ['|'], ['b']], [], "inherit", "inherit")])
    ensures ParseLine(LineAround('|')) ==
      Ok([Stage([['a']], [], "inherit", "pipe"), Stage([['b']], [], "pipe", "inherit")])
  {
    ReadsAround('|');
    DescribedAround('|');
    TwoStages();
  }

  lemma OneRedirection()
    ensures ParseTokens(TextsAround('>')) == Ok([Stage([['a']], [Redirection(Out, ['b'], 1)], "inherit", "file")])
  {
    var ts := TextsAround('>');
    assert ts[1..] == [['>'], ['b']] && ts[1..][1..] == [['b']] && [['b']][1..] == [] && ts[1..][2..] == [];
    assert OpFault([['b']]) == None && OpFault(ts[1..]) == None && OpFault(ts) == None;
    assert Args(ts[1..]) == [] && Redirs(ts[1..]) == [MakeRedirection(['>'], ['b'])];
    assert ts[..3] == ts && [['a']] + [] == [['a']];
    var bare := Stage([['a']], [Redirection(Out, ['b'], 1)], "", "");
    assert StageOf(ts, 0) == Ok(bare) && bare.redirs[0].kind == Out;
    assert LabelledAll([bare]) == [Labelled(bare, 0, 1)];
  }

  // The line a '>' b: one command with three words as described, a file written as run.
  lemma QuotedOperatorRedirects()
    ensures DescribedLine(LineAround('>')) == Ok([Stage([['a'], ['>'], ['b']], [], "inherit", "inherit")])
    ensures ParseLine(LineAround('>')) == Ok([Stage([['a']], [Redirection(Out, ['b'], 1)], "inherit", "file")])
  {
    ReadsAround('>');
    DescribedAround('>');
    OneRedirection();
  }
}
