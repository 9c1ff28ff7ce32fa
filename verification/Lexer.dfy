/**
 * The quoting grammar of a command line, as a recursive definition on the text that is
 * still to be read.  A char stands for one byte of the line.
 *
 * The grammar is scanned in units: a quoted run, a backslash pair, or one plain byte.
 * Units that touch each other belong to the same word.
 */
module Lexer {
  import opened Basics

  const MAX_TOKEN: nat := 20000
  const MAX_LINE: nat := 65536
  const MAX_ARGS: nat := 4096

  // A line handed over as a C string: the terminator cannot occur in it.
  type CString = s: string | '\0' !in s

  datatype LexError =
    | NoLine
    | LineTooLong
    | TooManyArguments
    | TokenTooLong
    | UnterminatedSingle
    | UnterminatedDouble
    | TrailingBackslash

  // isspace() of the C locale: space, and the bytes 9 to 13.
  predicate IsSpace(c: char) {
    c == ' ' || '\t' <= c <= '\r'
  }

  predicate AtWordEnd(s: string) {
    s == "" || IsSpace(s[0])
  }

  // The bytes that a backslash escapes inside double quotes, newline aside.
  predicate Escapable(c: char) {
    c == '"' || c == '\\' || c == '$' || c == '`'
  }

  datatype Unit = Unit(bytes: string, rest: string)

  type UnitResult = Result<Unit, LexError>
  type Tokens = Result<seq<string>, LexError>

  function Glue(bytes: string, r: UnitResult): UnitResult {
    if r.Ok? then Ok(Unit(bytes + r.value.bytes, r.value.rest)) else r
  }

  // The text after an opening single quote; `room` bytes still fit in the token.
  function SingleQuoted(s: string, room: nat): (r: UnitResult)
    ensures r.Ok? ==> |r.value.rest| < |s| && |r.value.bytes| <= room
  {
    if s == "" then Err(UnterminatedSingle)
    else if s[0] == '\'' then Ok(Unit("", s[1..]))
    else if room == 0 then Err(TokenTooLong)
    else Glue([s[0]], SingleQuoted(s[1..], room - 1))
  }

  // The text after an opening double quote.
  function DoubleQuoted(s: string, room: nat): (r: UnitResult)
    ensures r.Ok? ==> |r.value.rest| < |s| && |r.value.bytes| <= room
  {
    if s == "" then Err(UnterminatedDouble)
    else if s[0] == '"' then Ok(Unit("", s[1..]))
    else if s[0] == '\\' && |s| > 1 && s[1] == '\n' then DoubleQuoted(s[2..], room)
    else if room == 0 then Err(TokenTooLong)
    else if s[0] == '\\' && |s| > 1 && Escapable(s[1]) then Glue([s[1]], DoubleQuoted(s[2..], room - 1))
    else Glue([s[0]], DoubleQuoted(s[1..], room - 1))
  }

  function ScanUnit(s: string, room: nat): (r: UnitResult)
    requires s != ""
    ensures r.Ok? ==> |r.value.rest| < |s| && |r.value.bytes| <= room
  {
    if s[0] == '\'' then SingleQuoted(s[1..], room)
    else if s[0] == '"' then DoubleQuoted(s[1..], room)
    else if s[0] == '\\' && |s| == 1 then Err(TrailingBackslash)
    else if room == 0 then Err(TokenTooLong)
    else if s[0] == '\\' then Ok(Unit([s[1]], s[2..]))
    else Ok(Unit([s[0]], s[1..]))
  }

  function Prepend(ts: seq<string>, r: Tokens): Tokens {
    if r.Ok? then Ok(ts + r.value) else r
  }

  lemma PrependInjective(ts: seq<string>, a: Tokens, b: Tokens)
    ensures a.Ok? && Prepend(ts, a) == Prepend(ts, b) ==> a == b
  {
    if a.Ok? && b.Ok? && ts + a.value == ts + b.value {
      assert a.value == (ts + a.value)[|ts|..] == (ts + b.value)[|ts|..] == b.value;
    }
  }

  // What the units read so far of an unfinished word spell.
  type Partial = cur: Option<string> | cur.Some? ==> |cur.value| <= MAX_TOKEN witness None

  function Room(cur: Partial): nat {
    MAX_TOKEN - |cur.GetOr("")|
  }

  /**
   * The tokens of `s` after `n` finished ones, while `cur` is in progress.
   *
   * With `keepEmpty` every word becomes a token, which is what the grammar's description
   * promises.  Without it a word that spells nothing is left in progress, which is what the
   * tokenizer does.
   */
  function Scan(s: string, cur: Partial, n: nat, keepEmpty: bool): Tokens
    decreases |s|
  {
    if s == "" then Ok(if cur.Some? then [cur.value] else [])
    else if IsSpace(s[0]) then Scan(s[1..], cur, n, keepEmpty)
    else if s[0] == '#' && cur.None? then Ok([])
    else if n >= MAX_ARGS then Err(TooManyArguments)
    else match ScanUnit(s, Room(cur))
      case Err(e) => Err(e)
      case Ok(u) =>
        var word := cur.GetOr("") + u.bytes;
        if AtWordEnd(u.rest) && (keepEmpty || word != "")
        then Prepend([word], Scan(u.rest, None, n + 1, keepEmpty))
        else Scan(u.rest, Some(word), n, keepEmpty)
  }

  // What the engine's tokenizer answers for a line.
  function Tokenize(line: string): Tokens {
    if |line| > MAX_LINE then Err(LineTooLong) else Scan(line, None, 0, false)
  }

  // What the grammar's own description says the tokens are.
  function DescribedTokens(line: string): Tokens {
    if |line| > MAX_LINE then Err(LineTooLong) else Scan(line, None, 0, true)
  }

  // ------------------------------------------------------------------ bounds

  predicate Fits(t: string) {
    |t| <= MAX_TOKEN
  }

  predicate NonEmpty(t: string) {
    t != ""
  }

  predicate Bounded(ts: seq<string>) {
    forall i {:trigger Fits(ts[i])} :: 0 <= i < |ts| ==> Fits(ts[i])
  }

  predicate EmptyOnlyLast(ts: seq<string>) {
    forall i {:trigger NonEmpty(ts[i])} :: 0 <= i < |ts| - 1 ==> NonEmpty(ts[i])
  }

  lemma {:induction false} ScanBounds(s: string, cur: Partial, n: nat, keepEmpty: bool)
    requires n <= MAX_ARGS && (cur.Some? ==> n < MAX_ARGS)
    ensures var r := Scan(s, cur, n, keepEmpty);
      r.Ok? ==> n + |r.value| <= MAX_ARGS && Bounded(r.value) && (!keepEmpty ==> EmptyOnlyLast(r.value))
    decreases |s|
  {
    if s != "" && IsSpace(s[0]) {
      ScanBounds(s[1..], cur, n, keepEmpty);
    } else if s != "" && !(s[0] == '#' && cur.None?) && n < MAX_ARGS && ScanUnit(s, Room(cur)).Ok? {
      var u := ScanUnit(s, Room(cur)).value;
      var word := cur.GetOr("") + u.bytes;
      if AtWordEnd(u.rest) && (keepEmpty || word != "") {
        ScanBounds(u.rest, None, n + 1, keepEmpty);
      } else {
        ScanBounds(u.rest, Some(word), n, keepEmpty);
      }
    }
  }

  // Every line the tokenizer accepts is of at most 65536 bytes and gives at most 4096 tokens
  // of at most 20000 bytes, an empty one only last.
  lemma TokenizeBounds(line: string)
    ensures Tokenize(line).Ok? ==>
      var ts := Tokenize(line).value;
      |line| <= 65536 && |ts| <= 4096 && (forall t <- ts :: |t| <= 20000) && Bounded(ts) && EmptyOnlyLast(ts)
  {
    ScanBounds(line, None, 0, false);
    if Tokenize(line).Ok? {
      var ts := Tokenize(line).value;
      forall t | t in ts ensures |t| <= 20000 {
        var i :| 0 <= i < |ts| && ts[i] == t;
        assert Fits(ts[i]);
      }
    }
  }

  // --------------------------------------- when the tokenizer keeps every word

  predicate Blank(s: string) {
    forall c <- s :: IsSpace(c)
  }

  /** A word that spells nothing, such as '' or "", is followed by something other than blanks. */
  predicate SwallowsEmptyWord(s: string, cur: Partial, n: nat)
    decreases |s|
  {
    if s == "" then false
    else if IsSpace(s[0]) then SwallowsEmptyWord(s[1..], cur, n)
    else if (s[0] == '#' && cur.None?) || n >= MAX_ARGS then false
    else match ScanUnit(s, Room(cur))
      case Err(_) => false
      case Ok(u) =>
        var word := cur.GetOr("") + u.bytes;
        if !AtWordEnd(u.rest) then SwallowsEmptyWord(u.rest, Some(word), n)
        else if word == "" && !Blank(u.rest) then true
        else SwallowsEmptyWord(u.rest, None, n + 1)
  }

  lemma {:induction false} BlankTail(s: string, cur: Partial, n: nat, keepEmpty: bool)
    requires Blank(s)
    ensures Scan(s, cur, n, keepEmpty) == Ok(if cur.Some? then [cur.value] else [])
    ensures !SwallowsEmptyWord(s, cur, n)
    decreases |s|
  {
    if s != "" {
      assert IsSpace(s[0]);
      BlankTail(s[1..], cur, n, keepEmpty);
    }
  }

  lemma {:induction false} SameWithoutSwallowing(s: string, cur: Partial, n: nat)
    requires !SwallowsEmptyWord(s, cur, n)
    ensures Scan(s, cur, n, false) == Scan(s, cur, n, true)
    decreases |s|
  {
    if s != "" && IsSpace(s[0]) {
      SameWithoutSwallowing(s[1..], cur, n);
    } else if s != "" && !(s[0] == '#' && cur.None?) && n < MAX_ARGS && ScanUnit(s, Room(cur)).Ok? {
      var u := ScanUnit(s, Room(cur)).value;
      var word := cur.GetOr("") + u.bytes;
      if !AtWordEnd(u.rest) {
        SameWithoutSwallowing(u.rest, Some(word), n);
      } else if word == "" {
        BlankTail(u.rest, Some(word), n, false);
        BlankTail(u.rest, None, n + 1, true);
        assert [word] + [] == [word];
      } else {
        SameWithoutSwallowing(u.rest, None, n + 1);
      }
    }
  }

  // A word in progress is a prefix of the first token that comes out.
  lemma {:induction false} WordInProgressSurvives(s: string, cur: Partial, n: nat, keepEmpty: bool)
    requires cur.Some?
    ensures var r := Scan(s, cur, n, keepEmpty); r.Ok? ==> |r.value| >= 1 && cur.value <= r.value[0]
    decreases |s|
  {
    if s != "" && IsSpace(s[0]) {
      WordInProgressSurvives(s[1..], cur, n, keepEmpty);
    } else if s != "" && n < MAX_ARGS && ScanUnit(s, Room(cur)).Ok? {
      var u := ScanUnit(s, Room(cur)).value;
      var word := cur.GetOr("") + u.bytes;
      if !(AtWordEnd(u.rest) && (keepEmpty || word != "")) {
        WordInProgressSurvives(u.rest, Some(word), n, keepEmpty);
      }
    }
  }

  // Text that is not blank either holds a word or opens with a comment, and a comment that
  // meets a word in progress is data of that word.
  lemma {:induction false} NotBlankSpeaks(s: string, n: nat)
    requires !Blank(s) && n < MAX_ARGS
    ensures var described := Scan(s, None, n + 1, true); var actual := Scan(s, Some(""), n, false);
      described.Ok? && actual.Ok? ==> described.value != [] || actual.value != [""]
    decreases |s|
  {
    if IsSpace(s[0]) {
      assert s == [s[0]] + s[1..];
      NotBlankSpeaks(s[1..], n);
    } else if s[0] == '#' {
      assert ScanUnit(s, MAX_TOKEN) == Ok(Unit("#", s[1..]));
      assert "" + "#" == "#";
      if !AtWordEnd(s[1..]) {
        WordInProgressSurvives(s[1..], Some("#"), n, false);
      }
      assert Scan(s, Some(""), n, false).Ok? ==> Scan(s, Some(""), n, false).value[0] != "";
    } else if n + 1 < MAX_ARGS && ScanUnit(s, MAX_TOKEN).Ok? {
      var u := ScanUnit(s, MAX_TOKEN).value;
      assert "" + u.bytes == u.bytes;
      if !AtWordEnd(u.rest) {
        WordInProgressSurvives(u.rest, Some(u.bytes), n + 1, true);
      }
    }
  }

  lemma {:induction false} SwallowingChangesTokens(s: string, cur: Partial, n: nat)
    requires SwallowsEmptyWord(s, cur, n)
    ensures Scan(s, cur, n, true).Ok? ==> Scan(s, cur, n, false) != Scan(s, cur, n, true)
    decreases |s|
  {
    if IsSpace(s[0]) {
      SwallowingChangesTokens(s[1..], cur, n);
    } else {
      var u := ScanUnit(s, Room(cur)).value;
      var word := cur.GetOr("") + u.bytes;
      if !AtWordEnd(u.rest) {
        SwallowingChangesTokens(u.rest, Some(word), n);
      } else if word == "" && !Blank(u.rest) {
        var described, actual := Scan(u.rest, None, n + 1, true), Scan(u.rest, Some(""), n, false);
        if described.Ok? && actual.Ok? {
          WordInProgressSurvives(u.rest, Some(""), n, false);
          NotBlankSpeaks(u.rest, n);
          ScanBounds(u.rest, Some(""), n, false);
          assert actual.value[0] == "" ==> !NonEmpty(actual.value[0]) && actual.value == [""];
          assert described.value == [] ==> [word] + described.value == [""];
        }
      } else if word == "" {
        BlankTail(u.rest, None, n + 1, true);
      } else {
        SwallowingChangesTokens(u.rest, None, n + 1);
        PrependInjective([word], Scan(u.rest, None, n + 1, true), Scan(u.rest, None, n + 1, false));
      }
    }
  }

  /**
   * The tokenizer gives every described token of an accepted line exactly when no empty
   * word is followed by more text.
   */
  lemma KeepsEveryWordIff(line: string)
    requires DescribedTokens(line).Ok?
    ensures Tokenize(line) == DescribedTokens(line) <==> !SwallowsEmptyWord(line, None, 0)
  {
    if SwallowsEmptyWord(line, None, 0) {
      SwallowingChangesTokens(line, None, 0);
    } else {
      SameWithoutSwallowing(line, None, 0);
    }
  }

  // The line '' b is described as two tokens and read as one.
  lemma EmptyWordMerges()
    ensures DescribedTokens("'' b") == Ok(["", "b"])
    ensures Tokenize("'' b") == Ok(["b"])
  {
    var b, tail, line := "b", " b", "'' b";
    assert b[1..] == "" && tail[1..] == b && line[1..] == "' b" && line[1..][1..] == tail;
    assert ["b"] + [] == ["b"] && [""] + ["b"] == ["", "b"] && "" + "b" == "b" && "" + "" == "";
    assert ScanUnit(b, MAX_TOKEN) == Ok(Unit("b", ""));
    assert ScanUnit(line, MAX_TOKEN) == Ok(Unit("", tail));
    assert Scan(b, None, 1, true) == Prepend(["b"], Ok([])) == Ok(["b"]);
    assert Scan(b, Some(""), 0, false) == Prepend(["b"], Ok([])) == Ok(["b"]);
  }
}
