/**
 * The gateway's rebuilt command line: every stage's command replaced by its resolved path,
 * every token quoted for the engine's lexer.  The main result says exactly when the engine
 * reads the rebuilt line back as the pipeline that was validated.
 */
module Rebuild {
  import opened Basics
  import opened Lexer
  import opened Pipeline

  // ------------------------------------------------------- the printer (grammar.ts)

  // The characters of the printer's "needs no quotes" pattern.
  predicate IsSafe(c: char) {
    || 'A' <= c <= 'Z' || 'a' <= c <= 'z' || '0' <= c <= '9'
    || c in {'_', '@', '%', '+', '=', ':', ',', '.', '/', '-'}
  }

  // The characters of the printer's replacement pattern.
  predicate NeedsBackslash(c: char) {
    c in {'"', '\\', '$', '`'}
  }

  function EscapeAll(t: string): string {
    if t == "" then ""
    else (if NeedsBackslash(t[0]) then ['\\', t[0]] else [t[0]]) + EscapeAll(t[1..])
  }

  function InQuotes(t: string): string {
    ['"'] + EscapeAll(t) + ['"']
  }

  function QuoteForLexer(t: string): string {
    if t == "" then ['"', '"']
    else if forall c <- t :: IsSafe(c) then t
    else InQuotes(t)
  }

  function Join(parts: seq<string>, sep: string): string {
    if parts == [] then ""
    else if |parts| == 1 then parts[0]
    else parts[0] + sep + Join(parts[1..], sep)
  }

  function QuoteAll(ts: seq<string>): seq<string> {
    seq(|ts|, i requires 0 <= i < |ts| => QuoteForLexer(ts[i]))
  }

  function RedirWords(rs: seq<Redirection>): seq<string> {
    if rs == [] then [] else [OpText(rs[0].kind), QuoteForLexer(rs[0].path)] + RedirWords(rs[1..])
  }

  function StageWords(stage: Stage, path: string): seq<string>
    requires stage.argv != []
  {
    [QuoteForLexer(path)] + QuoteAll(stage.argv[1..]) + RedirWords(stage.redirs)
  }

  predicate Runnable(p: seq<Stage>, paths: seq<string>) {
    |paths| == |p| && forall s <- p :: s.argv != []
  }

  function BuildResolvedLine(p: seq<Stage>, paths: seq<string>): string
    requires Runnable(p, paths)
  {
    Join(StageTexts(p, paths), " | ")
  }

  // The pipeline with every argv[0] replaced by the path the gateway verified.
  function Resolve(p: seq<Stage>, paths: seq<string>): seq<Stage>
    requires Runnable(p, paths)
  {
    seq(|p|, s requires 0 <= s < |p| => p[s].(argv := [paths[s]] + p[s].argv[1..]))
  }

  // ------------------------------------------------- the line as one list of words

  function RedirTokens(rs: seq<Redirection>): seq<string> {
    if rs == [] then [] else [OpText(rs[0].kind), rs[0].path] + RedirTokens(rs[1..])
  }

  function StageTokens(stage: Stage): seq<string> {
    stage.argv + RedirTokens(stage.redirs)
  }

  function TokensOf(p: seq<Stage>): seq<string> {
    if p == [] then []
    else if |p| == 1 then StageTokens(p[0])
    else StageTokens(p[0]) + ["|"] + TokensOf(p[1..])
  }

  function WordsOf(p: seq<Stage>, paths: seq<string>): seq<string>
    requires Runnable(p, paths)
  {
    if p == [] then []
    else if |p| == 1 then StageWords(p[0], paths[0])
    else StageWords(p[0], paths[0]) + ["|"] + WordsOf(p[1..], paths[1..])
  }

  lemma {:induction false} JoinAppend(a: seq<string>, b: seq<string>, sep: string)
    requires a != [] && b != []
    ensures Join(a + b, sep) == Join(a, sep) + sep + Join(b, sep)
  {
    assert (a + b)[1..] == a[1..] + b;
    if |a| == 1 {
      assert a[1..] + b == b;
    } else {
      JoinAppend(a[1..], b, sep);
      assert a[0] + sep + (Join(a[1..], sep) + sep + Join(b, sep)) == a[0] + sep + Join(a[1..], sep) + sep + Join(b, sep);
    }
  }

  lemma JoinAtPipe(head: seq<string>, tail: seq<string>)
    requires head != [] && tail != []
    ensures Join(head + ["|"] + tail, " ") == Join(head, " ") + " | " + Join(tail, " ")
  {
    var a, b := Join(head, " "), Join(tail, " ");
    JoinAppend(head + ["|"], tail, " ");
    JoinAppend(head, ["|"], " ");
    assert a + " " + "|" + " " + b == a + " | " + b;
  }

  function StageTexts(p: seq<Stage>, paths: seq<string>): seq<string>
    requires Runnable(p, paths)
  {
    seq(|p|, s requires 0 <= s < |p| => Join(StageWords(p[s], paths[s]), " "))
  }

  // Joining stage by stage is joining the words of the whole line.
  lemma {:induction false} LineIsItsWords(p: seq<Stage>, paths: seq<string>)
    requires Runnable(p, paths)
    ensures BuildResolvedLine(p, paths) == Join(WordsOf(p, paths), " ")
  {
    if |p| > 1 {
      LineIsItsWords(p[1..], paths[1..]);
      assert StageTexts(p, paths)[1..] == StageTexts(p[1..], paths[1..]);
      JoinAtPipe(StageWords(p[0], paths[0]), WordsOf(p[1..], paths[1..]));
    }
  }

  // ------------------------------------------------------ one word, read by the lexer

  predicate PlainByte(c: char) {
    !IsSpace(c) && c != '\'' && c != '"' && c != '\\'
  }

  predicate Plain(t: string) {
    t != "" && t[0] != '#' && forall c <- t :: PlainByte(c)
  }

  // How a word of the rebuilt line spells its token.
  predicate Spells(word: string, t: string) {
    (word == t && Plain(t)) || (word == ['"', '"'] && t == "") || (word == InQuotes(t) && t != "")
  }

  lemma QuoteSpells(t: string)
    ensures Spells(QuoteForLexer(t), t)
  {
    if t != "" && forall c <- t :: IsSafe(c) {
      assert t[0] in t;
    }
  }

  lemma {:induction false} PlainRun(s: string, rest: string, cur: Partial, n: nat)
    requires s != "" && (forall c <- s :: PlainByte(c)) && (cur.None? ==> s[0] != '#')
    requires AtWordEnd(rest) && n < MAX_ARGS && |cur.GetOr("")| + |s| <= MAX_TOKEN
    ensures Scan(s + rest, cur, n, false) == Prepend([cur.GetOr("") + s], Scan(rest, None, n + 1, false))
    decreases |s|
  {
    var line := s + rest;
    assert line[0] == s[0] && s[0] in s && line[1..] == s[1..] + rest;
    var word := cur.GetOr("") + [s[0]];
    assert ScanUnit(line, Room(cur)) == Ok(Unit([s[0]], s[1..] + rest));
    if |s| == 1 {
      assert s[1..] + rest == rest && word == cur.GetOr("") + s;
    } else {
      assert (s[1..] + rest)[0] == s[1] && s[1] in s;
      assert !AtWordEnd(s[1..] + rest);
      PlainRun(s[1..], rest, Some(word), n);
      assert word + s[1..] == cur.GetOr("") + s;
    }
  }

  // Inside double quotes the escaped text reads back as the text itself.
  lemma {:induction false} EscapedRun(t: string, rest: string, room: nat)
    requires |t| <= room
    ensures DoubleQuoted(EscapeAll(t) + ['"'] + rest, room) == Ok(Unit(t, rest))
  {
    var s := EscapeAll(t) + ['"'] + rest;
    if t == "" {
      assert s == ['"'] + rest && s[1..] == rest;
    } else {
      var more := EscapeAll(t[1..]) + ['"'] + rest;
      EscapedRun(t[1..], rest, room - 1);
      assert [t[0]] + t[1..] == t;
      if NeedsBackslash(t[0]) {
        assert s == ['\\', t[0]] + more && s[2..] == more;
        assert DoubleQuoted(s, room) == Glue([t[0]], DoubleQuoted(more, room - 1));
      } else {
        assert s == [t[0]] + more && s[1..] == more;
        assert DoubleQuoted(s, room) == Glue([t[0]], DoubleQuoted(more, room - 1));
      }
    }
  }

  lemma QuotedWord(t: string, rest: string, n: nat)
    requires t != "" && |t| <= MAX_TOKEN && AtWordEnd(rest) && n < MAX_ARGS
    ensures Scan(InQuotes(t) + rest, None, n, false) == Prepend([t], Scan(rest, None, n + 1, false))
  {
    var line, body := InQuotes(t) + rest, EscapeAll(t) + ['"'] + rest;
    assert line == ['"'] + body && line[1..] == body;
    EscapedRun(t, rest, MAX_TOKEN);
    assert ScanUnit(line, MAX_TOKEN) == Ok(Unit(t, rest));
    assert "" + t == t;
  }

  // A pair of quotes leaves an empty word in progress.
  lemma EmptyQuotes(rest: string, n: nat)
    requires AtWordEnd(rest) && n < MAX_ARGS
    ensures Scan(['"', '"'] + rest, None, n, false) == Scan(rest, Some(""), n, false)
  {
    var line := ['"', '"'] + rest;
    assert line[1..] == ['"'] + rest && line[1..][1..] == rest;
    assert ScanUnit(line, MAX_TOKEN) == Ok(Unit("", rest));
    assert "" + "" == "";
  }

  lemma SpelledWord(word: string, t: string, rest: string, n: nat)
    requires Spells(word, t) && t != "" && |t| <= MAX_TOKEN && AtWordEnd(rest) && n < MAX_ARGS
    ensures Scan(word + rest, None, n, false) == Prepend([t], Scan(rest, None, n + 1, false))
  {
    if word == t && Plain(t) {
      PlainRun(t, rest, None, n);
      assert "" + t == t;
    } else {
      QuotedWord(t, rest, n);
    }
  }

  // ------------------------------------------------------- the words of a whole line

  predicate Filled(ts: seq<string>) {
    forall i {:trigger NonEmpty(ts[i])} :: 0 <= i < |ts| ==> NonEmpty(ts[i])
  }

  predicate SpellsAll(words: seq<string>, ts: seq<string>) {
    |words| == |ts| && forall i {:trigger Spells(words[i], ts[i])} :: 0 <= i < |ts| ==> Spells(words[i], ts[i])
  }

  // Words in front of other words give their tokens first.
  lemma {:induction false} LeadingWords(words: seq<string>, ts: seq<string>, more: seq<string>, n: nat)
    requires SpellsAll(words, ts) && Bounded(ts) && Filled(ts) && n + |ts| <= MAX_ARGS && more != []
    ensures Scan(Join(words + more, " "), None, n, false)
         == Prepend(ts, Scan(Join(more, " "), None, n + |ts|, false))
    decreases |words|
  {
    if words == [] {
      assert words + more == more;
      PrependNothing(Scan(Join(more, " "), None, n, false));
    } else {
      var rest := " " + Join(words[1..] + more, " ");
      assert (words + more)[1..] == words[1..] + more;
      assert Join(words + more, " ") == words[0] + rest;
      assert NonEmpty(ts[0]) && Fits(ts[0]);
      SpelledWord(words[0], ts[0], rest, n);
      assert rest[1..] == Join(words[1..] + more, " ");
      LeadingWords(words[1..], ts[1..], more, n + 1);
      PrependCons(ts, Scan(Join(more, " "), None, n + |ts|, false));
    }
  }

  lemma PrependNothing(r: Tokens)
    ensures Prepend([], r) == r
  {
    if r.Ok? { assert [] + r.value == r.value; }
  }

  lemma PrependCons(ts: seq<string>, r: Tokens)
    requires ts != []
    ensures Prepend([ts[0]], Prepend(ts[1..], r)) == Prepend(ts, r)
  {
    if r.Ok? { assert [ts[0]] + (ts[1..] + r.value) == ts + r.value; }
  }

  lemma LastWord(word: string, t: string, n: nat)
    requires Spells(word, t) && |t| <= MAX_TOKEN && n < MAX_ARGS
    ensures Scan(word, None, n, false) == Ok([t])
  {
    assert word + "" == word;
    if t == "" {
      EmptyQuotes("", n);
    } else {
      SpelledWord(word, t, "", n);
      assert [t] + [] == [t];
    }
  }

  // Spelled words whose only empty token is the last one read back token by token.
  lemma WordsReadBack(words: seq<string>, ts: seq<string>, n: nat)
    requires SpellsAll(words, ts) && Bounded(ts) && EmptyOnlyLast(ts) && 0 < |ts| && n + |ts| <= MAX_ARGS
    ensures Scan(Join(words, " "), None, n, false) == Ok(ts)
  {
    var k := |ts| - 1;
    LeadingWords(words[..k], ts[..k], [words[k]], n);
    assert words[..k] + [words[k]] == words && ts[..k] + [ts[k]] == ts;
    assert Fits(ts[k]);
    LastWord(words[k], ts[k], n + k);
  }

  // An empty pair of quotes in front of an operator changes nothing.
  lemma EmptyBeforeOperator(op: string, rest: string, n: nat)
    requires Plain(op) && |op| <= MAX_TOKEN && AtWordEnd(rest) && n < MAX_ARGS
    ensures Scan(['"', '"'] + (" " + (op + rest)), None, n, false) == Scan(op + rest, None, n, false)
  {
    EmptyQuotes(" " + (op + rest), n);
    assert (" " + (op + rest))[1..] == op + rest;
    PlainRun(op, rest, Some(""), n);
    PlainRun(op, rest, None, n);
  }

  lemma JoinHead(word: string, more: seq<string>)
    ensures var rest := if more == [] then "" else " " + Join(more, " ");
      Join([word] + more, " ") == word + rest && AtWordEnd(rest)
  {
    assert ([word] + more)[1..] == more;
    if more == [] {
      assert word + "" == word;
    }
  }

  // An empty token before an operator is lost: the words read back without it.
  lemma EmptyAbsorbed(before: seq<string>, tsBefore: seq<string>, op: string, after: seq<string>, tsAfter: seq<string>)
    requires SpellsAll(before, tsBefore) && Bounded(tsBefore) && Filled(tsBefore)
    requires Plain(op) && |op| <= MAX_TOKEN && SpellsAll(after, tsAfter) && Bounded(tsAfter) && EmptyOnlyLast(tsAfter)
    requires |tsBefore| + 1 + |tsAfter| <= MAX_ARGS
    ensures Scan(Join(before + ([['"', '"']] + ([op] + after)), " "), None, 0, false) == Ok(tsBefore + ([op] + tsAfter))
  {
    var n, tail := |tsBefore|, [op] + after;
    LeadingWords(before, tsBefore, [['"', '"']] + tail, 0);
    JoinHead(['"', '"'], tail);
    JoinHead(op, after);
    EmptyBeforeOperator(op, if after == [] then "" else " " + Join(after, " "), n);
    WordsReadBack(tail, [op] + tsAfter, n);
  }
}
