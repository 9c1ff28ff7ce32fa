/**
 * The JSON the engine prints and the gateway parses: strings, natural numbers, arrays and
 * objects.  Strings follow section 7 of RFC 8259.
 */
module Json {
  import opened Basics

  datatype Value = Str(s: string) | Num(n: nat) | Arr(items: seq<Value>) | Obj(fields: seq<Field>)
  datatype Field = Field(name: string, value: Value)

  // ----------------------------------------------------------------- printing

  function HexDigit(n: nat): char
    requires n < 16
  {
    if n < 10 then '0' + (n as char) else 'a' + ((n - 10) as char)
  }

  function EscapeChar(c: char): string {
    var b := c as int;
    if c == '"' || c == '\\' then ['\\', c]
    else if b == 8 then "\\b"
    else if b == 9 then "\\t"
    else if b == 10 then "\\n"
    else if b == 12 then "\\f"
    else if b == 13 then "\\r"
    else if b < 0x20 then ['\\', 'u', '0', '0', HexDigit(b / 16), HexDigit(b % 16)]
    else [c]
  }

  function Escape(t: string): string {
    if t == "" then "" else EscapeChar(t[0]) + Escape(t[1..])
  }

  function Quote(t: string): string {
    ['"'] + Escape(t) + ['"']
  }

  function Digits(n: nat): string {
    if n < 10 then ['0' + (n as char)] else Digits(n / 10) + ['0' + ((n % 10) as char)]
  }

  function Print(v: Value): string
    decreases v, 1
  {
    match v
    case Str(s) => Quote(s)
    case Num(n) => Digits(n)
    case Arr(items) => "[" + PrintItems(items) + "]"
    case Obj(fields) => "{" + PrintFields(fields) + "}"
  }

  function PrintItems(vs: seq<Value>): string
    decreases vs, 0
  {
    if vs == [] then ""
    else if |vs| == 1 then Print(vs[0])
    else Print(vs[0]) + "," + PrintItems(vs[1..])
  }

  function PrintField(f: Field): string
    decreases f, 0
  {
    Quote(f.name) + ":" + Print(f.value)
  }

  function PrintFields(fs: seq<Field>): string
    decreases fs, 0
  {
    if fs == [] then ""
    else if |fs| == 1 then PrintField(fs[0])
    else PrintField(fs[0]) + "," + PrintFields(fs[1..])
  }

  // ------------------------------------------------------------------ parsing

  predicate IsWs(c: char) {
    c == ' ' || c == '\t' || c == '\n' || c == '\r'
  }

  function SkipWs(s: string): (r: string)
    ensures |r| <= |s|
  {
    if s != "" && IsWs(s[0]) then SkipWs(s[1..]) else s
  }

  function HexValue(c: char): Option<nat> {
    if '0' <= c <= '9' then Some(c as int - '0' as int)
    else if 'a' <= c <= 'f' then Some(c as int - 'a' as int + 10)
    else if 'A' <= c <= 'F' then Some(c as int - 'A' as int + 10)
    else None
  }

  // One escape after the backslash: the character it stands for, and what follows.
  function Unescape(s: string): (r: Option<(char, string)>)
    ensures r.Some? ==> |r.value.1| < |s|
  {
    if s == "" then None
    else match s[0]
      case '"' => Some(('"', s[1..]))
      case '\\' => Some(('\\', s[1..]))
      case '/' => Some(('/', s[1..]))
      case 'b' => Some((8 as char, s[1..]))
      case 'f' => Some((12 as char, s[1..]))
      case 'n' => Some((10 as char, s[1..]))
      case 'r' => Some((13 as char, s[1..]))
      case 't' => Some((9 as char, s[1..]))
      case 'u' =>
        if |s| < 5 then None
        else (match (HexValue(s[1]), HexValue(s[2]), HexValue(s[3]), HexValue(s[4]))
          case (Some(a), Some(b), Some(c), Some(d)) =>
            var code := a * 4096 + b * 256 + c * 16 + d;
            if code < 0xD800 then Some((code as char, s[5..])) else None
          case _ => None)
      case _ => None
  }

  // The characters after an opening quote.
  function ParseChars(s: string): (r: Option<(string, string)>)
    ensures r.Some? ==> |r.value.1| < |s|
    decreases |s|
  {
    if s == "" || (s[0] as int) < 0x20 then None
    else if s[0] == '"' then Some(("", s[1..]))
    else if s[0] == '\\' then
      var e := Unescape(s[1..]);
      if e.None? then None else
      var more := ParseChars(e.value.1);
      if more.None? then None else Some(([e.value.0] + more.value.0, more.value.1))
    else
      var more := ParseChars(s[1..]);
      if more.None? then None else Some(([s[0]] + more.value.0, more.value.1))
  }

  predicate IsDigit(c: char) {
    '0' <= c <= '9'
  }

  function ReadDigits(s: string, n: nat): (r: (nat, string))
    ensures |r.1| <= |s|
  {
    if s != "" && IsDigit(s[0]) then ReadDigits(s[1..], n * 10 + (s[0] as int - '0' as int)) else (n, s)
  }

  function ParseValue(s0: string): (r: Option<(Value, string)>)
    ensures r.Some? ==> |r.value.1| < |s0|
    decreases |s0|, 1
  {
    var s := SkipWs(s0);
    if s == "" then None
    else if s[0] == '"' then
      (match ParseChars(s[1..]) case None => None case Some((t, rest)) => Some((Str(t), rest)))
    else if s[0] == '[' then
      var body := SkipWs(s[1..]);
      if body != "" && body[0] == ']' then Some((Arr([]), body[1..]))
      else (match ParseItems(body) case None => None case Some((vs, rest)) => Some((Arr(vs), rest)))
    else if s[0] == '{' then
      var body := SkipWs(s[1..]);
      if body != "" && body[0] == '}' then Some((Obj([]), body[1..]))
      else (match ParseFields(body) case None => None case Some((fs, rest)) => Some((Obj(fs), rest)))
    else if s[0] == '0' then Some((Num(0), s[1..]))
    else if IsDigit(s[0]) then var (n, rest) := ReadDigits(s[1..], s[0] as int - '0' as int); Some((Num(n), rest))
    else None
  }

  // Array elements up to the closing bracket; at least one.
  function ParseItems(s: string): (r: Option<(seq<Value>, string)>)
    ensures r.Some? ==> |r.value.1| < |s|
    decreases |s|, 2
  {
    match ParseValue(s)
    case None => None
    case Some((v, rest0)) =>
      var rest := SkipWs(rest0);
      if rest == "" then None
      else if rest[0] == ']' then Some(([v], rest[1..]))
      else if rest[0] == ',' then
        (match ParseItems(rest[1..]) case None => None case Some((vs, tail)) => Some(([v] + vs, tail)))
      else None
  }

  function ParseField(s0: string): (r: Option<(Field, string)>)
    ensures r.Some? ==> |r.value.1| < |s0|
    decreases |s0|, 2
  {
    var s := SkipWs(s0);
    if s == "" || s[0] != '"' then None
    else match ParseChars(s[1..])
      case None => None
      case Some((name, rest0)) =>
        var rest := SkipWs(rest0);
        if rest == "" || rest[0] != ':' then None
        else (match ParseValue(rest[1..]) case None => None case Some((v, tail)) => Some((Field(name, v), tail)))
  }

  function ParseFields(s: string): (r: Option<(seq<Field>, string)>)
    ensures r.Some? ==> |r.value.1| < |s|
    decreases |s|, 3
  {
    match ParseField(s)
    case None => None
    case Some((f, rest0)) =>
      var rest := SkipWs(rest0);
      if rest == "" then None
      else if rest[0] == '}' then Some(([f], rest[1..]))
      else if rest[0] == ',' then
        (match ParseFields(rest[1..]) case None => None case Some((fs, tail)) => Some(([f] + fs, tail)))
      else None
  }

  // A whole document: one value, then nothing but white space.
  function ParseDocument(s: string): Option<Value> {
    match ParseValue(s)
    case None => None
    case Some((v, rest)) => if SkipWs(rest) == "" then Some(v) else None
  }

  // --------------------------------------------------------------- round trip

  lemma UnescapeEscape(c: char, rest: string)
    ensures var e := EscapeChar(c) + rest;
      if EscapeChar(c) == [c] then c != '"' && c != '\\' && (c as int) >= 0x20 && e[0] == c && e[1..] == rest
      else e[0] == '\\' && Unescape(e[1..]) == Some((c, rest))
  {
    var e := EscapeChar(c) + rest;
    var b := c as int;
    if EscapeChar(c) == [c] {
      assert e[1..] == rest;
    } else if |EscapeChar(c)| == 2 {
      assert e[1..] == [EscapeChar(c)[1]] + rest && e[1..][1..] == rest;
    } else {
      assert e[1..] == ['u', '0', '0', HexDigit(b / 16), HexDigit(b % 16)] + rest && e[1..][5..] == rest;
    }
  }

  lemma {:induction false} CharsRoundTrip(t: string, rest: string)
    ensures ParseChars(Escape(t) + ['"'] + rest) == Some((t, rest))
  {
    var s := Escape(t) + ['"'] + rest;
    if t == "" {
      assert s == ['"'] + rest && s[1..] == rest;
    } else {
      var more := Escape(t[1..]) + ['"'] + rest;
      CharsRoundTrip(t[1..], rest);
      assert s == EscapeChar(t[0]) + more;
      UnescapeEscape(t[0], more);
      assert [t[0]] + t[1..] == t;
    }
  }

  lemma {:induction false} DigitsShape(n: nat)
    ensures Digits(n) != "" && IsDigit(Digits(n)[0]) && (Digits(n)[0] == '0' ==> n == 0)
  {
    if n >= 10 {
      DigitsShape(n / 10);
    }
  }

  lemma {:induction false} ReadDigitsOf(n: nat, tail: string)
    ensures ReadDigits(Digits(n) + tail, 0) == ReadDigits(tail, n)
  {
    if n < 10 {
      assert (Digits(n) + tail)[1..] == tail;
    } else {
      var last := ['0' + ((n % 10) as char)];
      assert Digits(n) + tail == Digits(n / 10) + (last + tail);
      ReadDigitsOf(n / 10, last + tail);
      assert (last + tail)[1..] == tail;
    }
  }

  predicate EndsNumber(rest: string) {
    rest == "" || !IsDigit(rest[0])
  }

  lemma NumberRoundTrip(n: nat, rest: string)
    requires EndsNumber(rest)
    ensures ParseValue(Digits(n) + rest) == Some((Num(n), rest))
  {
    var s := Digits(n) + rest;
    DigitsShape(n);
    ReadDigitsOf(n, rest);
    assert s[0] == Digits(n)[0];
    if n == 0 {
      assert s[1..] == rest;
    }
  }

  lemma StringRoundTrip(t: string, rest: string)
    ensures ParseValue(Quote(t) + rest) == Some((Str(t), rest))
  {
    CharsRoundTrip(t, rest);
    assert (Quote(t) + rest)[1..] == Escape(t) + ['"'] + rest;
  }

  // A printed value starts with a byte that is neither white space nor a closing bracket.
  lemma PrintedStart(v: Value)
    ensures Print(v) != "" && !IsWs(Print(v)[0]) && Print(v)[0] != ']'
  {
    if v.Num? {
      DigitsShape(v.n);
    }
  }

  lemma ArrayStart(body: string, vs: seq<Value>, rest: string)
    requires body != "" && !IsWs(body[0]) && body[0] != ']' && ParseItems(body) == Some((vs, rest))
    ensures ParseValue("[" + body) == Some((Arr(vs), rest))
  {
    assert ("[" + body)[1..] == body;
  }

  lemma ObjectStart(body: string, fs: seq<Field>, rest: string)
    requires body != "" && body[0] == '"' && ParseFields(body) == Some((fs, rest))
    ensures ParseValue("{" + body) == Some((Obj(fs), rest))
  {
    assert ("{" + body)[1..] == body;
  }

  lemma EmptyBrackets(rest: string)
    ensures ParseValue("[]" + rest) == Some((Arr([]), rest))
    ensures ParseValue("{}" + rest) == Some((Obj([]), rest))
  {
    assert ("[]" + rest)[1..] == "]" + rest && ("]" + rest)[1..] == rest;
    assert ("{}" + rest)[1..] == "}" + rest && ("}" + rest)[1..] == rest;
  }

  lemma Regroup(head: string, tail: string, close: string, rest: string)
    ensures (head + tail) + close + rest == head + (tail + close + rest)
    ensures (head + "," + tail) + close + rest == head + ("," + (tail + close + rest))
  {}

  lemma ItemsText(vs: seq<Value>, rest: string)
    requires vs != []
    ensures var tail := if |vs| == 1 then "]" + rest else "," + (PrintItems(vs[1..]) + "]" + rest);
      PrintItems(vs) + "]" + rest == Print(vs[0]) + tail
  {
    Regroup(Print(vs[0]), if |vs| == 1 then "" else PrintItems(vs[1..]), "]", rest);
  }

  lemma FieldsText(fs: seq<Field>, rest: string)
    requires fs != []
    ensures var tail := if |fs| == 1 then "}" + rest else "," + (PrintFields(fs[1..]) + "}" + rest);
      PrintFields(fs) + "}" + rest == PrintField(fs[0]) + tail
  {
    Regroup(PrintField(fs[0]), if |fs| == 1 then "" else PrintFields(fs[1..]), "}", rest);
  }

  lemma FieldsStart(fs: seq<Field>)
    requires fs != []
    ensures PrintFields(fs) != "" && PrintFields(fs)[0] == '"'
  {}

  /** Whatever value is printed, the parser gives it back and stops right after it. */
  lemma {:induction false} ValueRoundTrip(v: Value, rest: string)
    requires EndsNumber(rest)
    ensures ParseValue(Print(v) + rest) == Some((v, rest))
    decreases v, 2
  {
    match v
    case Num(n) => NumberRoundTrip(n, rest);
    case Str(t) => StringRoundTrip(t, rest);
    case Arr(items) => ArrayRoundTrip(items, rest);
    case Obj(fields) => ObjectRoundTrip(fields, rest);
  }

  lemma {:induction false} ArrayRoundTrip(items: seq<Value>, rest: string)
    ensures ParseValue(Print(Arr(items)) + rest) == Some((Arr(items), rest))
    decreases items, 1
  {
    if items == [] {
      EmptyBrackets(rest);
      assert Print(Arr(items)) + rest == "[]" + rest;
    } else {
      var body := PrintItems(items) + "]" + rest;
      ItemsRoundTrip(items, rest);
      ItemsText(items, rest);
      PrintedStart(items[0]);
      ArrayStart(body, items, rest);
      assert Print(Arr(items)) + rest == "[" + body;
    }
  }

  lemma {:induction false} ObjectRoundTrip(fields: seq<Field>, rest: string)
    ensures ParseValue(Print(Obj(fields)) + rest) == Some((Obj(fields), rest))
    decreases fields, 1
  {
    if fields == [] {
      EmptyBrackets(rest);
      assert Print(Obj(fields)) + rest == "{}" + rest;
    } else {
      var body := PrintFields(fields) + "}" + rest;
      FieldsRoundTrip(fields, rest);
      FieldsStart(fields);
      ObjectStart(body, fields, rest);
      Regroup("{", PrintFields(fields), "}", rest);
    }
  }

  lemma LastItem(s: string, v: Value, rest: string)
    requires ParseValue(s) == Some((v, "]" + rest))
    ensures ParseItems(s) == Some(([v], rest))
  {
    assert ("]" + rest)[1..] == rest;
  }

  lemma NextItem(s: string, v: Value, more: string, vs: seq<Value>, rest: string)
    requires ParseValue(s) == Some((v, "," + more)) && ParseItems(more) == Some((vs, rest))
    ensures ParseItems(s) == Some(([v] + vs, rest))
  {
    assert ("," + more)[1..] == more;
  }

  lemma {:induction false} ItemsRoundTrip(vs: seq<Value>, rest: string)
    requires vs != []
    ensures ParseItems(PrintItems(vs) + "]" + rest) == Some((vs, rest))
    decreases vs, 0
  {
    var s := PrintItems(vs) + "]" + rest;
    ItemsText(vs, rest);
    if |vs| == 1 {
      ValueRoundTrip(vs[0], "]" + rest);
      LastItem(s, vs[0], rest);
      assert vs == [vs[0]];
    } else {
      var more := PrintItems(vs[1..]) + "]" + rest;
      ValueRoundTrip(vs[0], "," + more);
      ItemsRoundTrip(vs[1..], rest);
      NextItem(s, vs[0], more, vs[1..], rest);
      assert vs == [vs[0]] + vs[1..];
    }
  }

  lemma FieldStart(name: string, tail: string, v: Value, rest: string)
    requires ParseValue(tail) == Some((v, rest))
    ensures ParseField(Quote(name) + (":" + tail)) == Some((Field(name, v), rest))
  {
    var s, after := Quote(name) + (":" + tail), ":" + tail;
    CharsRoundTrip(name, after);
    assert s[1..] == Escape(name) + ['"'] + after;
    assert after[1..] == tail;
  }

  lemma {:induction false} FieldRoundTrip(f: Field, rest: string)
    requires EndsNumber(rest)
    ensures ParseField(PrintField(f) + rest) == Some((f, rest))
    decreases f, 0
  {
    ValueRoundTrip(f.value, rest);
    FieldStart(f.name, Print(f.value) + rest, f.value, rest);
    RegroupField(Quote(f.name), Print(f.value), rest);
  }

  lemma RegroupField(name: string, value: string, rest: string)
    ensures name + ":" + value + rest == name + (":" + (value + rest))
  {}

  lemma LastField(s: string, f: Field, rest: string)
    requires ParseField(s) == Some((f, "}" + rest))
    ensures ParseFields(s) == Some(([f], rest))
  {
    assert ("}" + rest)[1..] == rest;
  }

  lemma NextField(s: string, f: Field, more: string, fs: seq<Field>, rest: string)
    requires ParseField(s) == Some((f, "," + more)) && ParseFields(more) == Some((fs, rest))
    ensures ParseFields(s) == Some(([f] + fs, rest))
  {
    assert ("," + more)[1..] == more;
  }

  lemma {:induction false} FieldsRoundTrip(fs: seq<Field>, rest: string)
    requires fs != []
    ensures ParseFields(PrintFields(fs) + "}" + rest) == Some((fs, rest))
    decreases fs, 0
  {
    var s := PrintFields(fs) + "}" + rest;
    FieldsText(fs, rest);
    if |fs| == 1 {
      FieldRoundTrip(fs[0], "}" + rest);
      LastField(s, fs[0], rest);
      assert fs == [fs[0]];
    } else {
      var more := PrintFields(fs[1..]) + "}" + rest;
      FieldRoundTrip(fs[0], "," + more);
      FieldsRoundTrip(fs[1..], rest);
      NextField(s, fs[0], more, fs[1..], rest);
      assert fs == [fs[0]] + fs[1..];
    }
  }

  // A document followed by a line feed parses to the value that was printed.
  lemma DocumentRoundTrip(v: Value)
    ensures ParseDocument(Print(v) + "\n") == Some(v)
  {
    ValueRoundTrip(v, "\n");
  }

  // ------------------------------------------------------------ one line per document

  predicate NoControl(s: string) {
    forall i {:trigger s[i]} :: 0 <= i < |s| ==> (s[i] as int) >= 0x20
  }

  lemma {:induction false} EscapeNoControl(t: string)
    ensures NoControl(Escape(t))
  {
    if t != "" {
      EscapeNoControl(t[1..]);
      assert NoControl(EscapeChar(t[0]));
    }
  }

  lemma {:induction false} DigitsNoControl(n: nat)
    ensures NoControl(Digits(n))
  {
    if n >= 10 {
      DigitsNoControl(n / 10);
    }
  }

  // No printed value holds a raw control byte, so none can break the line it is printed on.
  lemma {:induction false} PrintNoControl(v: Value)
    ensures NoControl(Print(v))
    decreases v, 1
  {
    match v
    case Num(n) => DigitsNoControl(n);
    case Str(t) => EscapeNoControl(t);
    case Arr(items) => ItemsNoControl(items);
    case Obj(fields) => FieldsNoControl(fields);
  }

  lemma {:induction false} ItemsNoControl(vs: seq<Value>)
    ensures NoControl(PrintItems(vs))
    decreases vs, 0
  {
    if vs != [] {
      PrintNoControl(vs[0]);
      if |vs| > 1 {
        ItemsNoControl(vs[1..]);
      }
    }
  }

  lemma {:induction false} FieldsNoControl(fs: seq<Field>)
    ensures NoControl(PrintFields(fs))
    decreases fs, 0
  {
    if fs != [] {
      EscapeNoControl(fs[0].name);
      PrintNoControl(fs[0].value);
      if |fs| > 1 {
        FieldsNoControl(fs[1..]);
      }
    }
  }

  // What an escape of one letter stands for, by section 7 of RFC 8259.
  function StandsFor(letter: char): Option<nat> {
    match letter
    case '"' => Some(0x22)
    case '\\' => Some(0x5C)
    case '/' => Some(0x2F)
    case 'b' => Some(0x08)
    case 'f' => Some(0x0C)
    case 'n' => Some(0x0A)
    case 'r' => Some(0x0D)
    case 't' => Some(0x09)
    case _ => None
  }

  // The reader knows the escapes of the standard and no other letter but the u.
  lemma EscapesOfTheStandard(letter: char)
    requires letter != 'u'
    ensures ParseChars(['\\', letter, '"']) ==
      if StandsFor(letter).Some? then Some(([StandsFor(letter).value as char], [])) else None
  {
    var s := ['\\', letter, '"'];
    assert s[1..][1..] == ['"'] && ['"'][1..] == [];
    assert ParseChars(['"']) == Some(([], []));
    var none: string := [];
    assert StandsFor(letter).Some? ==> [StandsFor(letter).value as char] + none == [StandsFor(letter).value as char];
  }
}
