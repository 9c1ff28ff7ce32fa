/**
 * The engine's tokenizer: one pass over the line, a byte buffer for the token in progress
 * and an argument vector that doubles.
 */
module Tokenizer {
  import opened Basics
  import opened Lexer

  /** The growable buffer that accumulates one token, kept NUL-terminated. */
  class ByteBuf {
    var data: array?<char>
    var len: nat

    ghost predicate Valid()
      reads this, data
    {
      if data == null then len == 0
      else len < data.Length <= MAX_TOKEN + 1 && (len > 0 ==> data[len] == '\0')
    }

    ghost function Contents(): string
      reads this, data
      requires Valid()
    {
      if data == null then "" else data[..len]
    }

    ghost function Capacity(): nat
      reads this
    {
      if data == null then 0 else data.Length
    }

    constructor ()
      ensures Valid() && Contents() == "" && data == null
    {
      data, len := null, 0;
    }

    /**
     * Room for `extra` more bytes and the terminator, or a refusal past the token ceiling.
     * A buffer that has to grow from a capacity of 64 or more grows to exactly what is needed.
     */
    method Reserve(extra: nat) returns (ok: bool)
      requires Valid()
      modifies this
      ensures Valid() && Contents() == old(Contents()) && len == old(len)
      ensures ok <==> old(len) + extra <= MAX_TOKEN
      ensures data == old(data) || fresh(data)
      ensures Capacity() == var needed := old(len) + extra + 1;
        if !ok || needed <= old(Capacity()) then old(Capacity())
        else if old(Capacity()) == 0 && needed < 64 then 64 else needed
    {
      var needed := len + extra + 1;
      if len + extra > MAX_TOKEN {
        return false;
      }
      if data != null && needed <= data.Length {
        return true;
      }
      if data == null && needed <= 0 {
        return true;
      }
      var start := if data == null then 64 else data.Length;
      var cap := start;
      while cap < needed
        invariant start <= cap && (cap == start || cap <= needed)
        invariant start > 0
        decreases needed - cap
      {
        cap := if cap * 2 > needed then needed else cap * 2;
      }
      var next := new char[cap];
      if data != null {
        forall i | 0 <= i <= len {
          next[i] := data[i];
        }
      }
      assert data != null ==> next[..len] == data[..len];
      data := next;
      return true;
    }

    // Append a byte, or refuse at the token ceiling.
    method PushLit(c: char) returns (ok: bool)
      requires Valid()
      modifies this, data
      ensures Valid() && (data == old(data) || fresh(data))
      ensures ok <==> |old(Contents())| < MAX_TOKEN
      ensures Contents() == if ok then old(Contents()) + [c] else old(Contents())
    {
      if len >= MAX_TOKEN {
        return false;
      }
      var reserved := Reserve(1);
      data[len] := c;
      len := len + 1;
      data[len] := '\0';
      return true;
    }

    // Hand the finished token over and start afresh.
    method Take() returns (token: string)
      requires Valid()
      modifies this
      ensures Valid() && Contents() == "" && data == null
      ensures token == old(Contents())
    {
      token := if data == null then "" else data[..len];
      data, len := null, 0;
    }
  }

  // `r`, the bytes of the token up to the end of a unit, as buffer contents and a position.
  ghost predicate Realizes(r: UnitResult, err: Option<LexError>, rest: string, token: string) {
    match r
    case Err(e) => err == Some(e)
    case Ok(u) => err == None && rest == u.rest && token == u.bytes
  }

  // The outcome of a quoted run is the token so far, continued by what follows `p`.
  ghost predicate InSingle(goal: UnitResult, token: string, line: string, p: nat) {
    p <= |line| && |token| <= MAX_TOKEN && goal == Glue(token, SingleQuoted(line[p..], MAX_TOKEN - |token|))
  }

  ghost predicate InDouble(goal: UnitResult, token: string, line: string, p: nat) {
    p <= |line| && |token| <= MAX_TOKEN && goal == Glue(token, DoubleQuoted(line[p..], MAX_TOKEN - |token|))
  }

  lemma GlueGlue(a: string, b: string, r: UnitResult)
    ensures Glue(a, Glue(b, r)) == Glue(a + b, r)
  {
    if r.Ok? {
      assert a + (b + r.value.bytes) == a + b + r.value.bytes;
    }
  }

  lemma GlueEmpty(a: string, rest: string)
    ensures Glue(a, Ok(Unit("", rest))) == Ok(Unit(a, rest))
  {
    assert a + "" == a;
  }

  lemma SingleStep(goal: UnitResult, token: string, line: string, p: nat)
    requires InSingle(goal, token, line, p)
    ensures p == |line| ==> goal == Err(UnterminatedSingle)
    ensures p < |line| && line[p] == '\'' ==> goal == Ok(Unit(token, line[p + 1..]))
    ensures p < |line| && line[p] != '\'' ==>
      if |token| == MAX_TOKEN then goal == Err(TokenTooLong) else InSingle(goal, token + [line[p]], line, p + 1)
  {
    if p < |line| {
      assert line[p..][0] == line[p] && line[p..][1..] == line[p + 1..];
      GlueEmpty(token, line[p + 1..]);
      if line[p] != '\'' && |token| < MAX_TOKEN {
        GlueGlue(token, [line[p]], SingleQuoted(line[p + 1..], MAX_TOKEN - |token| - 1));
      }
    }
  }

  method ReadSingleQuoted(line: string, start: nat, bb: ByteBuf) returns (err: Option<LexError>, p: nat)
    requires start <= |line| && bb.Valid() && |bb.Contents()| <= MAX_TOKEN
    modifies bb, bb.data
    ensures bb.Valid() && start <= p <= |line|
    ensures bb.data == old(bb.data) || fresh(bb.data)
    ensures Realizes(Glue(old(bb.Contents()), SingleQuoted(line[start..], MAX_TOKEN - |old(bb.Contents())|)),
                     err, line[p..], bb.Contents())
  {
    p := start;
    ghost var goal := Glue(bb.Contents(), SingleQuoted(line[start..], MAX_TOKEN - |bb.Contents()|));
    while p < |line|
      invariant start <= p <= |line| && bb.Valid()
      invariant bb.data == old(bb.data) || fresh(bb.data)
      invariant InSingle(goal, bb.Contents(), line, p)
    {
      SingleStep(goal, bb.Contents(), line, p);
      if line[p] == '\'' {
        p := p + 1;
        return None, p;
      }
      var ok := bb.PushLit(line[p]);
      if !ok {
        return Some(TokenTooLong), p;
      }
      p := p + 1;
    }
    SingleStep(goal, bb.Contents(), line, p);
    return Some(UnterminatedSingle), p;
  }

  // How many bytes of the line the next step of a double-quoted run takes, and what they
  // stand for: one byte, or none for a line continuation.
  function DoubleTake(line: string, p: nat): (r: (nat, string))
    requires p < |line|
    ensures 1 <= r.0 <= |line| - p && |r.1| <= 1
  {
    if line[p] == '\\' && p + 1 < |line| && line[p + 1] == '\n' then (2, "")
    else if line[p] == '\\' && p + 1 < |line| && Escapable(line[p + 1]) then (2, [line[p + 1]])
    else (1, [line[p]])
  }

  lemma DoubleStep(goal: UnitResult, token: string, line: string, p: nat)
    requires InDouble(goal, token, line, p)
    ensures p == |line| ==> goal == Err(UnterminatedDouble)
    ensures p < |line| && line[p] == '"' ==> goal == Ok(Unit(token, line[p + 1..]))
    ensures p < |line| && line[p] != '"' ==>
      var (step, out) := DoubleTake(line, p);
      if out == "" then InDouble(goal, token, line, p + step)
      else if |token| == MAX_TOKEN then goal == Err(TokenTooLong)
      else InDouble(goal, token + [out[0]], line, p + step)
  {
    if p < |line| {
      assert line[p..][0] == line[p] && line[p..][1..] == line[p + 1..];
      assert p + 1 < |line| ==> line[p..][1] == line[p + 1] && line[p..][2..] == line[p + 2..];
      GlueEmpty(token, line[p + 1..]);
      var (step, out) := DoubleTake(line, p);
      if line[p] != '"' && out != "" && |token| < MAX_TOKEN {
        GlueGlue(token, [out[0]], DoubleQuoted(line[p + step..], MAX_TOKEN - |token| - 1));
      }
    }
  }

  // One step inside double quotes, the closing quote aside.
  method PushDouble(line: string, start: nat, bb: ByteBuf, ghost goal: UnitResult) returns (ok: bool, p: nat)
    requires start < |line| && line[start] != '"' && bb.Valid() && InDouble(goal, bb.Contents(), line, start)
    modifies bb, bb.data
    ensures bb.Valid() && start < p <= |line| && (bb.data == old(bb.data) || fresh(bb.data))
    ensures if ok then InDouble(goal, bb.Contents(), line, p) else goal == Err(TokenTooLong)
  {
    DoubleStep(goal, bb.Contents(), line, start);
    var (step, out) := DoubleTake(line, start);
    p, ok := start + step, true;
    if out != "" {
      ok := bb.PushLit(out[0]);
    }
  }

  method ReadDoubleQuoted(line: string, start: nat, bb: ByteBuf) returns (err: Option<LexError>, p: nat)
    requires start <= |line| && bb.Valid() && |bb.Contents()| <= MAX_TOKEN
    modifies bb, bb.data
    ensures bb.Valid() && start <= p <= |line|
    ensures bb.data == old(bb.data) || fresh(bb.data)
    ensures Realizes(Glue(old(bb.Contents()), DoubleQuoted(line[start..], MAX_TOKEN - |old(bb.Contents())|)),
                     err, line[p..], bb.Contents())
  {
    p := start;
    ghost var goal := Glue(bb.Contents(), DoubleQuoted(line[start..], MAX_TOKEN - |bb.Contents()|));
    while p < |line|
      invariant start <= p <= |line| && bb.Valid()
      invariant bb.data == old(bb.data) || fresh(bb.data)
      invariant InDouble(goal, bb.Contents(), line, p)
    {
      DoubleStep(goal, bb.Contents(), line, p);
      if line[p] == '"' {
        p := p + 1;
        return None, p;
      }
      var ok;
      ok, p := PushDouble(line, p, bb, goal);
      if !ok {
        return Some(TokenTooLong), p;
      }
    }
    DoubleStep(goal, bb.Contents(), line, p);
    return Some(UnterminatedDouble), p;
  }

  // One unit at `start`, appended to the buffer.
  method ReadUnit(line: string, start: nat, bb: ByteBuf) returns (err: Option<LexError>, p: nat)
    requires start < |line| && bb.Valid() && |bb.Contents()| <= MAX_TOKEN
    modifies bb, bb.data
    ensures bb.Valid() && start <= p <= |line|
    ensures bb.data == old(bb.data) || fresh(bb.data)
    ensures Realizes(Glue(old(bb.Contents()), ScanUnit(line[start..], MAX_TOKEN - |old(bb.Contents())|)),
                     err, line[p..], bb.Contents())
    ensures err == None ==> start < p
  {
    assert line[start..][0] == line[start] && line[start..][1..] == line[start + 1..];
    if line[start] == '\'' {
      err, p := ReadSingleQuoted(line, start + 1, bb);
    } else if line[start] == '"' {
      err, p := ReadDoubleQuoted(line, start + 1, bb);
    } else if line[start] == '\\' {
      if start + 1 == |line| {
        return Some(TrailingBackslash), start;
      }
      assert line[start..][1] == line[start + 1] && line[start..][2..] == line[start + 2..];
      var ok := bb.PushLit(line[start + 1]);
      return if ok then None else Some(TokenTooLong), if ok then start + 2 else start;
    } else {
      var ok := bb.PushLit(line[start]);
      return if ok then None else Some(TokenTooLong), if ok then start + 1 else start;
    }
  }

  /** The argument vector: `cap` usable slots and a spare one for the closing NULL. */
  class ArgVector {
    var data: array<string>
    var count: nat

    ghost predicate Valid()
      reads this
    {
      9 <= data.Length && count + 1 < data.Length
    }

    ghost function Contents(): seq<string>
      reads this, data
      requires Valid()
    {
      data[..count]
    }

    constructor ()
      ensures Valid() && fresh(data) && Contents() == []
    {
      data, count := new string[9], 0;
    }

    // Store the finished token, doubling the vector when it is full.
    method Store(bb: ByteBuf)
      requires Valid() && bb.Valid()
      modifies this, data, bb
      ensures Valid() && (data == old(data) || fresh(data))
      ensures bb.Valid() && bb.data == null && bb.Contents() == ""
      ensures Contents() == old(Contents()) + [old(bb.Contents())]
    {
      var token := bb.Take();
      var cap := data.Length - 1;
      if count + 1 >= cap {
        var grown := new string[cap * 2 + 1];
        forall i | 0 <= i < count {
          grown[i] := data[i];
        }
        data := grown;
      }
      data[count] := token;
      count := count + 1;
    }
  }

  // The line's tokens are those stored, then those of the text from `p` on.
  ghost predicate Lexing(goal: Tokens, stored: seq<string>, cur: Partial, text: string, p: nat) {
    p <= |text| && goal == Prepend(stored, Scan(text[p..], cur, |stored|, false))
  }

  lemma LexingStart(text: string)
    ensures Lexing(Scan(text, None, 0, false), [], None, text, 0)
  {
    var r := Scan(text, None, 0, false);
    assert text[0..] == text;
    if r.Ok? {
      assert [] + r.value == r.value;
    }
  }

  lemma LexingBreak(goal: Tokens, stored: seq<string>, cur: Partial, text: string, p: nat)
    requires Lexing(goal, stored, cur, text, p)
    ensures p == |text| && cur.Some? ==> goal == Ok(stored + [cur.value])
    ensures p == |text| && cur.None? ==> goal == Ok(stored)
    ensures p < |text| && text[p] == '#' && cur.None? ==> goal == Ok(stored)
    ensures p < |text| && IsSpace(text[p]) ==> Lexing(goal, stored, cur, text, p + 1)
    ensures p < |text| && !IsSpace(text[p]) && !(text[p] == '#' && cur.None?) && |stored| >= MAX_ARGS ==>
              goal == Err(TooManyArguments)
  {
    assert p < |text| ==> text[p..][0] == text[p] && text[p..][1..] == text[p + 1..];
    assert stored + [] == stored;
  }

  lemma LexingUnit(goal: Tokens, stored: seq<string>, cur: Partial, text: string, p: nat, next: nat)
    requires Lexing(goal, stored, cur, text, p) && p < |text| && next <= |text|
    requires !IsSpace(text[p]) && !(text[p] == '#' && cur.None?) && |stored| < MAX_ARGS
    ensures var r := Glue(cur.GetOr(""), ScanUnit(text[p..], Room(cur)));
      if r.Err? then goal == Err(r.error)
      else r.value.rest == text[next..] ==>
        var word := r.value.bytes;
        |word| <= MAX_TOKEN &&
        if AtWordEnd(text[next..]) && word != "" then Lexing(goal, stored + [word], None, text, next)
        else Lexing(goal, stored, Some(word), text, next)
  {
    assert text[p..][0] == text[p];
    var r := ScanUnit(text[p..], Room(cur));
    if r.Ok? {
      var word := cur.GetOr("") + r.value.bytes;
      var tail := Scan(r.value.rest, None, |stored| + 1, false);
      if tail.Ok? {
        assert stored + ([word] + tail.value) == stored + [word] + tail.value;
      }
    }
  }

  // Read one unit and close the token when it ends a word that spells something.
  method ReadPiece(text: string, start: nat, bb: ByteBuf, argv: ArgVector, ghost goal: Tokens, ghost cur: Partial)
    returns (err: Option<LexError>, p: nat, haveToken: bool, ghost cur': Partial)
    requires start < |text| && !IsSpace(text[start]) && !(text[start] == '#' && cur.None?)
    requires bb.Valid() && argv.Valid() && argv.count < MAX_ARGS
    requires bb.Contents() == cur.GetOr("") && Lexing(goal, argv.Contents(), cur, text, start)
    modifies bb, bb.data, argv, argv.data
    ensures bb.Valid() && (bb.data == old(bb.data) || bb.data == null || fresh(bb.data))
    ensures argv.Valid() && (argv.data == old(argv.data) || fresh(argv.data))
    ensures err.Some? ==> goal == Err(err.value)
    ensures err.None? ==> start < p <= |text| && cur'.Some? == haveToken && bb.Contents() == cur'.GetOr("")
    ensures err.None? ==> Lexing(goal, argv.Contents(), cur', text, p)
  {
    err, p := ReadUnit(text, start, bb);
    LexingUnit(goal, argv.Contents(), cur, text, start, p);
    haveToken, cur' := true, None;
    if err.None? {
      cur' := Some(bb.Contents());
      if bb.len > 0 && (p == |text| || IsSpace(text[p])) {
        argv.Store(bb);
        haveToken := false;
        cur' := None;
      }
    }
  }

  /** The tokens of the line, exactly as the recursive definition gives them, or its error. */
  method ParserTokenize(line: Option<CString>) returns (r: Tokens)
    ensures r == if line.None? then Err(NoLine) else Tokenize(line.value)
  {
    if line.None? {
      return Err(NoLine);
    }
    var text := line.value;
    if |text| > MAX_LINE {
      return Err(LineTooLong);
    }
    var argv := new ArgVector();
    var bb := new ByteBuf();
    var p := 0;
    var haveToken := false;
    ghost var goal, cur: Partial := Scan(text, None, 0, false), None;
    LexingStart(text);
    while p < |text|
      invariant p <= |text| && bb.Valid() && (bb.data == null || fresh(bb.data))
      invariant argv.Valid() && fresh(argv.data)
      invariant cur.Some? == haveToken && bb.Contents() == cur.GetOr("")
      invariant Lexing(goal, argv.Contents(), cur, text, p)
      decreases |text| - p
    {
      LexingBreak(goal, argv.Contents(), cur, text, p);
      if IsSpace(text[p]) {
        p := p + 1;
        continue;
      }
      if text[p] == '#' && !haveToken {
        break;
      }
      if argv.count >= MAX_ARGS {
        return Err(TooManyArguments);
      }
      var err;
      err, p, haveToken, cur := ReadPiece(text, p, bb, argv, goal, cur);
      if err.Some? {
        return Err(err.value);
      }
    }
    LexingBreak(goal, argv.Contents(), cur, text, p);
    if haveToken {
      argv.Store(bb);
    }
    return Ok(argv.data[..argv.count]);
  }
}
