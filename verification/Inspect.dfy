/**
 * The document the engine prints for a line it is asked to inspect, and the gateway's
 * reading of it.  The gateway validates what it reads, and the engine later runs what it
 * parsed, so the two must be the same pipeline.
 */
module Inspect {
  import opened Basics
  import opened Json
  import opened Pipeline
  import Lexer
  import PipelineParser
  import RoundTrip

  // ------------------------------------------------------------ the document

  function Texts(ts: seq<string>): seq<Value> {
    if ts == [] then [] else [Str(ts[0])] + Texts(ts[1..])
  }

  function RedirValue(r: Redirection): Value {
    Obj([Field("op", Str(OpText(r.kind))), Field("fd", Num(r.targetFd)), Field("target", Str(r.path))])
  }

  function RedirValues(rs: seq<Redirection>): seq<Value> {
    if rs == [] then [] else [RedirValue(rs[0])] + RedirValues(rs[1..])
  }

  function StageValue(s: Stage, index: nat): Value {
    Obj([Field("index", Num(index)), Field("argv", Arr(Texts(s.argv))), Field("redirections", Arr(RedirValues(s.redirs))),
         Field("stdin_source", Str(s.stdinSource)), Field("stdout_dest", Str(s.stdoutDest))])
  }

  function StageValues(p: seq<Stage>, index: nat): seq<Value> {
    if p == [] then [] else [StageValue(p[0], index)] + StageValues(p[1..], index + 1)
  }

  function DocOf(p: seq<Stage>): Value {
    Obj([Field("stages", Num(|p|)), Field("pipeline", Arr(StageValues(p, 0)))])
  }

  // ------------------------------------------------------- the engine's printer

  lemma Prefixed(head: string, a: string, b: string, both: string)
    requires both == a + b
    ensures head + both == head + a + b
  {}

  lemma {:induction false} EscapeAppend(a: string, b: string)
    ensures Escape(a + b) == Escape(a) + Escape(b)
  {
    if a == "" {
      assert a + b == b;
    } else {
      EscapeAppend(a[1..], b);
      assert (a + b)[0] == a[0] && (a + b)[1..] == a[1..] + b;
      Prefixed(EscapeChar(a[0]), Escape(a[1..]), Escape(b), Escape(a[1..] + b));
    }
  }

  lemma EscapeOne(head: string, c: char)
    ensures Escape(head + [c]) == Escape(head) + EscapeChar(c)
  {
    EscapeAppend(head, [c]);
    assert [c][1..] == "" && EscapeChar(c) + "" == EscapeChar(c);
  }

  // What the switch writes for one byte.
  method EscapeByte(c: char) returns (text: string)
    ensures text == EscapeChar(c)
  {
    var b := c as int;
    match c
    case '"' => text := "\\\"";
    case '\\' => text := "\\\\";
    case '\n' => text := "\\n";
    case '\r' => text := "\\r";
    case '\t' => text := "\\t";
    case _ =>
      if b == 8 {
        text := "\\b";
      } else if b == 12 {
        text := "\\f";
      } else if b < 0x20 {
        text := ['\\', 'u', '0', '0', HexDigit(b / 16), HexDigit(b % 16)];
      } else {
        text := [c];
      }
  }

  method JsonEscape(s: string) returns (out: string)
    ensures out == Escape(s)
  {
    out := "";
    for i := 0 to |s|
      invariant out == Escape(s[..i])
    {
      var text := EscapeByte(s[i]);
      EscapeOne(s[..i], s[i]);
      assert s[..i + 1] == s[..i] + [s[i]];
      out := out + text;
    }
    assert s[..|s|] == s;
  }

  function Comma(first: bool): string {
    if first then "" else ","
  }

  lemma {:induction false} ItemsAppend(vs: seq<Value>, v: Value)
    ensures PrintItems(vs + [v]) == PrintItems(vs) + Comma(vs == []) + Print(v)
  {
    if vs == [] {
      assert vs + [v] == [v];
    } else {
      ItemsAppend(vs[1..], v);
      var all := vs + [v];
      assert all[0] == vs[0] && all[1..] == vs[1..] + [v];
      AppendText(Print(vs[0]), PrintItems(vs[1..]), Comma(vs[1..] == []), Print(v));
    }
  }

  lemma AppendText(head: string, more: string, comma: string, last: string)
    ensures head + "," + (more + comma + last) == (head + "," + more) + comma + last
    ensures more == "" && comma == "" ==> head + "," + (more + comma + last) == head + "," + last
  {}

  lemma {:induction false} TextsAppend(ts: seq<string>, t: string)
    ensures Texts(ts + [t]) == Texts(ts) + [Str(t)]
  {
    if ts == [] {
      assert ts + [t] == [t];
    } else {
      TextsAppend(ts[1..], t);
      assert (ts + [t])[1..] == ts[1..] + [t];
    }
  }

  lemma {:induction false} RedirValuesAppend(rs: seq<Redirection>, r: Redirection)
    ensures RedirValues(rs + [r]) == RedirValues(rs) + [RedirValue(r)]
  {
    if rs == [] {
      assert rs + [r] == [r];
    } else {
      RedirValuesAppend(rs[1..], r);
      assert (rs + [r])[1..] == rs[1..] + [r];
    }
  }

  lemma {:induction false} StageValuesAppend(p: seq<Stage>, s: Stage, index: nat)
    ensures StageValues(p + [s], index) == StageValues(p, index) + [StageValue(s, index + |p|)]
  {
    if p == [] {
      assert p + [s] == [s];
    } else {
      StageValuesAppend(p[1..], s, index + 1);
      assert (p + [s])[1..] == p[1..] + [s];
    }
  }

  method PrintArgv(argv: seq<string>) returns (out: string)
    ensures out == PrintItems(Texts(argv))
  {
    out := "";
    for k := 0 to |argv|
      invariant out == PrintItems(Texts(argv[..k])) && (Texts(argv[..k]) == [] <==> k == 0)
    {
      if k > 0 {
        out := out + ",";
      }
      var text := JsonEscape(argv[k]);
      ItemsAppend(Texts(argv[..k]), Str(argv[k]));
      TextsAppend(argv[..k], argv[k]);
      assert argv[..k + 1] == argv[..k] + [argv[k]];
      out := out + (['"'] + text + ['"']);
    }
    assert argv[..|argv|] == argv;
  }

  predicate Unescaped(t: string) {
    forall i {:trigger t[i]} :: 0 <= i < |t| ==> EscapeChar(t[i]) == [t[i]]
  }

  lemma {:induction false} EscapeUnescaped(t: string)
    requires Unescaped(t)
    ensures Escape(t) == t
  {
    if t != "" {
      EscapeUnescaped(t[1..]);
      assert EscapeChar(t[0]) == [t[0]] && [t[0]] + t[1..] == t;
    }
  }

  // The text that introduces a field with this name.
  predicate Key(name: string, key: string) {
    Unescaped(name) && key == "\"" + name + "\":"
  }

  lemma FieldText(name: string, key: string, v: Value)
    requires Key(name, key)
    ensures PrintField(Field(name, v)) == key + Print(v)
  {
    EscapeUnescaped(name);
  }

  lemma LeftToRight(a: string, b: string, c: string, d: string, e: string)
    ensures "{" + (a + "," + (b + "," + c)) + "}" == "{" + a + "," + b + "," + c + "}"
    ensures "{" + (a + "," + (b + "," + (c + "," + (d + "," + e)))) + "}"
      == "{" + a + "," + b + "," + c + "," + d + "," + e + "}"
  {}

  lemma Print3(a: Field, b: Field, c: Field)
    ensures Print(Obj([a, b, c])) == "{" + PrintField(a) + "," + PrintField(b) + "," + PrintField(c) + "}"
  {
    var fs := [a, b, c];
    assert fs[1..] == [b, c] && fs[1..][1..] == [c];
    assert PrintFields([b, c]) == PrintField(b) + "," + PrintField(c);
    assert PrintFields(fs) == PrintField(a) + "," + PrintFields([b, c]);
    LeftToRight(PrintField(a), PrintField(b), PrintField(c), "", "");
  }

  lemma Print5(a: Field, b: Field, c: Field, d: Field, e: Field)
    ensures Print(Obj([a, b, c, d, e])) == "{" + PrintField(a) + "," + PrintField(b) + "," + PrintField(c) + ","
      + PrintField(d) + "," + PrintField(e) + "}"
  {
    var fs := [a, b, c, d, e];
    assert fs[1..] == [b, c, d, e] && [b, c, d, e][1..] == [c, d, e] && [c, d, e][1..] == [d, e] && [d, e][1..] == [e];
    assert PrintFields([d, e]) == PrintField(d) + "," + PrintField(e);
    assert PrintFields([c, d, e]) == PrintField(c) + "," + PrintFields([d, e]);
    assert PrintFields([b, c, d, e]) == PrintField(b) + "," + PrintFields([c, d, e]);
    assert PrintFields(fs) == PrintField(a) + "," + PrintFields([b, c, d, e]);
    LeftToRight(PrintField(a), PrintField(b), PrintField(c), PrintField(d), PrintField(e));
  }

  lemma ThreeFields(n0: string, k0: string, v0: Value, n1: string, k1: string, v1: Value, n2: string, k2: string, v2: Value)
    requires Key(n0, k0) && Key(n1, k1) && Key(n2, k2)
    ensures Print(Obj([Field(n0, v0), Field(n1, v1), Field(n2, v2)]))
      == "{" + (k0 + Print(v0)) + "," + (k1 + Print(v1)) + "," + (k2 + Print(v2)) + "}"
  {
    Print3(Field(n0, v0), Field(n1, v1), Field(n2, v2));
    FieldText(n0, k0, v0);
    FieldText(n1, k1, v1);
    FieldText(n2, k2, v2);
  }

  lemma OperatorText(k: RedirKind)
    ensures Print(Str(OpText(k))) == ['"'] + OpText(k) + ['"']
  {
    assert Unescaped(OpText(k));
    EscapeUnescaped(OpText(k));
  }

  lemma RedirKeys()
    ensures Key("op", "\"op\":") && Key("fd", "\"fd\":") && Key("target", "\"target\":")
  {}

  lemma RedirectionText(r: Redirection)
    ensures Print(RedirValue(r)) == "{" + ("\"op\":" + (['"'] + OpText(r.kind) + ['"'])) + ","
      + ("\"fd\":" + Digits(r.targetFd)) + "," + ("\"target\":" + Quote(r.path)) + "}"
  {
    OperatorText(r.kind);
    RedirKeys();
    ThreeFields("op", "\"op\":", Str(OpText(r.kind)), "fd", "\"fd\":", Num(r.targetFd), "target", "\"target\":", Str(r.path));
  }

  method PrintRedirection(r: Redirection) returns (out: string)
    ensures out == Print(RedirValue(r))
  {
    var op;
    match r.kind {
      case In => op := "<";
      case Out => op := ">";
      case Append => op := ">>";
      case ErrOut => op := "2>";
      case ErrAppend => op := "2>>";
    }
    out := "{" + ("\"op\":" + (['"'] + op + ['"'])) + "," + ("\"fd\":" + Digits(r.targetFd)) + ",";
    var path := JsonEscape(r.path);
    out := out + ("\"target\":" + (['"'] + path + ['"'])) + "}";
    RedirectionText(r);
  }

  method PrintRedirections(rs: seq<Redirection>) returns (out: string)
    ensures out == PrintItems(RedirValues(rs))
  {
    out := "";
    for k := 0 to |rs|
      invariant out == PrintItems(RedirValues(rs[..k])) && (RedirValues(rs[..k]) == [] <==> k == 0)
    {
      if k > 0 {
        out := out + ",";
      }
      var text := PrintRedirection(rs[k]);
      ItemsAppend(RedirValues(rs[..k]), RedirValue(rs[k]));
      RedirValuesAppend(rs[..k], rs[k]);
      assert rs[..k + 1] == rs[..k] + [rs[k]];
      out := out + text;
    }
    assert rs[..|rs|] == rs;
  }

  // The labels are printed without escaping, so they must not need any.
  predicate PlainLabels(s: Stage) {
    Unescaped(s.stdinSource) && Unescaped(s.stdoutDest)
  }

  lemma FiveFields(n0: string, k0: string, v0: Value, n1: string, k1: string, v1: Value, n2: string, k2: string, v2: Value,
                   n3: string, k3: string, v3: Value, n4: string, k4: string, v4: Value)
    requires Key(n0, k0) && Key(n1, k1) && Key(n2, k2) && Key(n3, k3) && Key(n4, k4)
    ensures Print(Obj([Field(n0, v0), Field(n1, v1), Field(n2, v2), Field(n3, v3), Field(n4, v4)]))
      == "{" + (k0 + Print(v0)) + "," + (k1 + Print(v1)) + "," + (k2 + Print(v2)) + "," + (k3 + Print(v3)) + ","
         + (k4 + Print(v4)) + "}"
  {
    Print5(Field(n0, v0), Field(n1, v1), Field(n2, v2), Field(n3, v3), Field(n4, v4));
    FieldText(n0, k0, v0);
    FieldText(n1, k1, v1);
    FieldText(n2, k2, v2);
    FieldText(n3, k3, v3);
    FieldText(n4, k4, v4);
  }

  lemma PlainText(t: string)
    requires Unescaped(t)
    ensures Print(Str(t)) == ['"'] + t + ['"']
  {
    EscapeUnescaped(t);
  }

  lemma ShortKeys()
    ensures Key("index", "\"index\":") && Key("argv", "\"argv\":")
  {}

  lemma RedirectionsKey()
    ensures Key("redirections", "\"redirections\":")
  {}

  lemma SourceKey()
    ensures Key("stdin_source", "\"stdin_source\":")
  {}

  lemma DestKey()
    ensures Key("stdout_dest", "\"stdout_dest\":")
  {}

  lemma StageText(s: Stage, index: nat)
    requires PlainLabels(s)
    ensures Print(StageValue(s, index)) == "{" + ("\"index\":" + Digits(index))
      + "," + ("\"argv\":" + ("[" + PrintItems(Texts(s.argv)) + "]"))
      + "," + ("\"redirections\":" + ("[" + PrintItems(RedirValues(s.redirs)) + "]"))
      + "," + ("\"stdin_source\":" + (['"'] + s.stdinSource + ['"']))
      + "," + ("\"stdout_dest\":" + (['"'] + s.stdoutDest + ['"'])) + "}"
  {
    ShortKeys();
    RedirectionsKey();
    SourceKey();
    DestKey();
    PlainText(s.stdinSource);
    PlainText(s.stdoutDest);
    FiveFields("index", "\"index\":", Num(index), "argv", "\"argv\":", Arr(Texts(s.argv)),
               "redirections", "\"redirections\":", Arr(RedirValues(s.redirs)),
               "stdin_source", "\"stdin_source\":", Str(s.stdinSource), "stdout_dest", "\"stdout_dest\":", Str(s.stdoutDest));
  }

  method PrintStage(s: Stage, index: nat) returns (out: string)
    requires PlainLabels(s)
    ensures out == Print(StageValue(s, index))
  {
    out := "{" + ("\"index\":" + Digits(index));
    var argv := PrintArgv(s.argv);
    out := out + "," + ("\"argv\":" + ("[" + argv + "]"));
    var redirs := PrintRedirections(s.redirs);
    out := out + "," + ("\"redirections\":" + ("[" + redirs + "]"));
    out := out + "," + ("\"stdin_source\":" + (['"'] + s.stdinSource + ['"']));
    out := out + "," + ("\"stdout_dest\":" + (['"'] + s.stdoutDest + ['"'])) + "}";
    StageText(s, index);
  }

  lemma TwoFields(n0: string, k0: string, v0: Value, n1: string, k1: string, v1: Value)
    requires Key(n0, k0) && Key(n1, k1)
    ensures Print(Obj([Field(n0, v0), Field(n1, v1)])) == "{" + (k0 + Print(v0)) + "," + (k1 + Print(v1)) + "}"
  {
    var fs := [Field(n0, v0), Field(n1, v1)];
    assert fs[1..] == [fs[1]];
    FieldText(n0, k0, v0);
    FieldText(n1, k1, v1);
    assert PrintFields(fs) == PrintField(fs[0]) + "," + PrintField(fs[1]);
    LeftToRightPair(PrintField(fs[0]), PrintField(fs[1]));
  }

  lemma LeftToRightPair(a: string, b: string)
    ensures "{" + (a + "," + b) + "}" == "{" + a + "," + b + "}"
  {}

  lemma DocumentKeys()
    ensures Key("stages", "\"stages\":") && Key("pipeline", "\"pipeline\":")
  {}

  lemma TextOfDocument(n: nat, vs: seq<Value>)
    ensures Print(Obj([Field("stages", Num(n)), Field("pipeline", Arr(vs))]))
      == "{" + ("\"stages\":" + Digits(n)) + "," + ("\"pipeline\":" + ("[" + PrintItems(vs) + "]")) + "}"
  {
    DocumentKeys();
    TwoFields("stages", "\"stages\":", Num(n), "pipeline", "\"pipeline\":", Arr(vs));
  }

  lemma DocumentText(p: seq<Stage>)
    ensures Print(DocOf(p)) == "{" + ("\"stages\":" + Digits(|p|)) + ","
      + ("\"pipeline\":" + ("[" + PrintItems(StageValues(p, 0)) + "]")) + "}"
  {
    TextOfDocument(|p|, StageValues(p, 0));
  }

  lemma LabelWords()
    ensures Unescaped("pipe") && Unescaped("file") && Unescaped("inherit")
  {}

  lemma LabelledIsPlain(s: Stage, i: nat, n: nat)
    ensures PlainLabels(Labelled(s, i, n))
  {
    LabelWords();
  }

  // Every pipeline that comes out of the parser has plain labels.
  lemma ParsedLabelsArePlain(line: string, i: nat)
    requires ParseLine(line).Ok? && i < |ParseLine(line).value|
    ensures PlainLabels(ParseLine(line).value[i])
  {
    var p := ParseLine(line).value;
    assert RoundTrip.LabelsAgree(p) by {
      RoundTrip.ParsedIsWellParsed(line);
    }
    LabelledIsPlain(p[i], i, |p|);
    assert p[i] == Labelled(p[i], i, |p|);
  }

  method PrintStages(p: seq<Stage>) returns (out: string)
    requires forall i {:trigger PlainLabels(p[i])} :: 0 <= i < |p| ==> PlainLabels(p[i])
    ensures out == PrintItems(StageValues(p, 0))
  {
    out := "";
    for i := 0 to |p|
      invariant out == PrintItems(StageValues(p[..i], 0)) && (StageValues(p[..i], 0) == [] <==> i == 0)
    {
      if i > 0 {
        out := out + ",";
      }
      assert PlainLabels(p[i]);
      var text := PrintStage(p[i], i);
      ItemsAppend(StageValues(p[..i], 0), StageValue(p[i], i));
      StageValuesAppend(p[..i], p[i], 0);
      assert p[..i + 1] == p[..i] + [p[i]];
      out := out + text;
    }
    assert p[..|p|] == p;
  }

  // What the process leaves behind: its exit status and its standard output.
  datatype Reply = Reply(exitCode: nat, stdout: string)

  function ReplyTo(line: string): Reply {
    match ParseLine(line)
    case Err(_) => Reply(2, "")
    case Ok(p) => Reply(0, Print(DocOf(p)) + "\n")
  }

  method InspectLineMode(line: Lexer.CString) returns (reply: Reply)
    ensures reply == ReplyTo(line)
  {
    var parsed := PipelineParser.ParsePipeline(Some(line));
    if parsed.Err? {
      return Reply(2, "");
    }
    var p := parsed.value;
    forall i {:trigger PlainLabels(p[i])} | 0 <= i < |p| ensures PlainLabels(p[i]) {
      ParsedLabelsArePlain(line, i);
    }
    var out := "{" + ("\"stages\":" + Digits(|p|)) + ",";
    var stages := PrintStages(p);
    out := out + ("\"pipeline\":" + ("[" + stages + "]")) + "}";
    DocumentText(p);
    return Reply(0, out + "\n");
  }

  // -------------------------------------------------------- the gateway's reader

  const MAX_REPLY: nat := 1024 * 1024

  datatype InspectedRedirection = InspectedRedirection(op: string, fd: nat, target: string)

  datatype InspectedStage = InspectedStage(
    index: nat, argv: seq<string>, redirections: seq<InspectedRedirection>, stdinSource: string, stdoutDest: string)

  datatype InspectError = NotParseable | ReplyTooLong | Unreadable | NoStages

  // The value of a name; a repeated name keeps its last value.
  function Member(fs: seq<Field>, name: string): Option<Value> {
    if fs == [] then None
    else
      var later := Member(fs[1..], name);
      if later.Some? then later else if fs[0].name == name then Some(fs[0].value) else None
  }

  function TextsOf(vs: seq<Value>): Option<seq<string>> {
    if vs == [] then Some([])
    else if !vs[0].Str? then None
    else
      var more := TextsOf(vs[1..]);
      if more.None? then None else Some([vs[0].s] + more.value)
  }

  function RedirectionOf(v: Value): Option<InspectedRedirection> {
    if !v.Obj? then None
    else match (Member(v.fields, "op"), Member(v.fields, "fd"), Member(v.fields, "target"))
      case (Some(Str(op)), Some(Num(fd)), Some(Str(target))) => Some(InspectedRedirection(op, fd, target))
      case _ => None
  }

  function RedirectionsOf(vs: seq<Value>): Option<seq<InspectedRedirection>> {
    if vs == [] then Some([])
    else match (RedirectionOf(vs[0]), RedirectionsOf(vs[1..]))
      case (Some(r), Some(more)) => Some([r] + more)
      case _ => None
  }

  function ArgvMember(fs: seq<Field>): Option<seq<string>> {
    match Member(fs, "argv")
    case Some(Arr(vs)) => TextsOf(vs)
    case _ => None
  }

  // A stage without the field has no redirections.
  function RedirectionsMember(fs: seq<Field>): Option<seq<InspectedRedirection>> {
    match Member(fs, "redirections")
    case None => Some([])
    case Some(Arr(vs)) => RedirectionsOf(vs)
    case _ => None
  }

  function StageOfValue(v: Value): Option<InspectedStage> {
    if !v.Obj? then None
    else match (Member(v.fields, "index"), ArgvMember(v.fields), RedirectionsMember(v.fields),
                Member(v.fields, "stdin_source"), Member(v.fields, "stdout_dest"))
      case (Some(Num(i)), Some(argv), Some(rs), Some(Str(source)), Some(Str(dest))) =>
        Some(InspectedStage(i, argv, rs, source, dest))
      case _ => None
  }

  function StagesOfValues(vs: seq<Value>): Option<seq<InspectedStage>> {
    if vs == [] then Some([])
    else match (StageOfValue(vs[0]), StagesOfValues(vs[1..]))
      case (Some(s), Some(more)) => Some([s] + more)
      case _ => None
  }

  function ReadDocument(v: Value): Result<seq<InspectedStage>, InspectError> {
    if !v.Obj? then Err(NoStages)
    else match Member(v.fields, "pipeline")
      case Some(Arr(vs)) =>
        if vs == [] then Err(NoStages)
        else (match StagesOfValues(vs) case None => Err(Unreadable) case Some(ss) => Ok(ss))
      case _ => Err(NoStages)
  }

  // What the gateway takes the line to mean, given the engine's reply.
  function InspectCommandLine(reply: Reply): Result<seq<InspectedStage>, InspectError> {
    if |reply.stdout| > MAX_REPLY then Err(ReplyTooLong)
    else if reply.exitCode != 0 then Err(NotParseable)
    else match ParseDocument(reply.stdout)
      case None => Err(Unreadable)
      case Some(v) => ReadDocument(v)
  }

  // -------------------------------------------- the two views are the same pipeline

  function SeenRedirections(rs: seq<Redirection>): seq<InspectedRedirection> {
    if rs == [] then []
    else [InspectedRedirection(OpText(rs[0].kind), rs[0].targetFd, rs[0].path)] + SeenRedirections(rs[1..])
  }

  function SeenStage(s: Stage, index: nat): InspectedStage {
    InspectedStage(index, s.argv, SeenRedirections(s.redirs), s.stdinSource, s.stdoutDest)
  }

  function SeenStages(p: seq<Stage>, index: nat): seq<InspectedStage> {
    if p == [] then []
    else [SeenStage(p[0], index)] + SeenStages(p[1..], index + 1)
  }

  lemma Members(fs: seq<Field>, i: nat)
    requires i < |fs| && forall j :: i < j < |fs| ==> fs[j].name != fs[i].name
    ensures Member(fs, fs[i].name) == Some(fs[i].value)
  {
    if i == 0 {
      assert fs == [fs[0]] + fs[1..];
      Absent(fs[1..], fs[0].name);
    } else {
      assert forall j :: 0 <= j < |fs[1..]| ==> fs[1..][j] == fs[j + 1];
      Members(fs[1..], i - 1);
    }
  }

  lemma {:induction false} Absent(fs: seq<Field>, name: string)
    requires forall j :: 0 <= j < |fs| ==> fs[j].name != name
    ensures Member(fs, name) == None
  {
    if fs != [] {
      Absent(fs[1..], name);
    }
  }

  lemma {:induction false} TextsReadBack(ts: seq<string>)
    ensures TextsOf(Texts(ts)) == Some(ts)
  {
    if ts != [] {
      TextsReadBack(ts[1..]);
      assert Texts(ts)[1..] == Texts(ts[1..]);
      assert [ts[0]] + ts[1..] == ts;
    }
  }

  lemma RedirectionReadsBack(r: Redirection)
    ensures RedirectionOf(RedirValue(r)) == Some(InspectedRedirection(OpText(r.kind), r.targetFd, r.path))
  {
    var fs := RedirValue(r).fields;
    Members(fs, 0);
    Members(fs, 1);
    Members(fs, 2);
  }

  lemma {:induction false} RedirectionsReadBack(rs: seq<Redirection>)
    ensures RedirectionsOf(RedirValues(rs)) == Some(SeenRedirections(rs))
  {
    if rs != [] {
      RedirectionReadsBack(rs[0]);
      RedirectionsReadBack(rs[1..]);
      assert RedirValues(rs)[1..] == RedirValues(rs[1..]);
    }
  }

  lemma StageMembers(s: Stage, index: nat)
    ensures var fs := StageValue(s, index).fields;
      && Member(fs, "index") == Some(Num(index)) && Member(fs, "argv") == Some(Arr(Texts(s.argv)))
      && Member(fs, "redirections") == Some(Arr(RedirValues(s.redirs)))
      && Member(fs, "stdin_source") == Some(Str(s.stdinSource)) && Member(fs, "stdout_dest") == Some(Str(s.stdoutDest))
  {
    var fs := StageValue(s, index).fields;
    Members(fs, 0);
    Members(fs, 1);
    Members(fs, 2);
    Members(fs, 3);
    Members(fs, 4);
  }

  lemma StageReadsBack(s: Stage, index: nat)
    ensures StageOfValue(StageValue(s, index)) == Some(SeenStage(s, index))
  {
    StageMembers(s, index);
    TextsReadBack(s.argv);
    RedirectionsReadBack(s.redirs);
  }

  lemma {:induction false} StagesReadBack(p: seq<Stage>, index: nat)
    ensures StagesOfValues(StageValues(p, index)) == Some(SeenStages(p, index))
  {
    if p != [] {
      StageReadsBack(p[0], index);
      StagesReadBack(p[1..], index + 1);
      assert StageValues(p, index)[1..] == StageValues(p[1..], index + 1);
    }
  }

  lemma DocumentReadsBack(p: seq<Stage>)
    requires p != []
    ensures ReadDocument(DocOf(p)) == Ok(SeenStages(p, 0))
  {
    Members(DocOf(p).fields, 1);
    StagesReadBack(p, 0);
  }

  // ------------------------------------------------ the reply fits the gateway's buffer

  // An upper bound for the text of one argument or one redirection.
  function Cost(t: string): nat {
    6 * |t| + 40
  }

  function TotalCost(ts: seq<string>): nat {
    if ts == [] then 0 else Cost(ts[0]) + TotalCost(ts[1..])
  }

  lemma {:induction false} TotalCostAppend(a: seq<string>, b: seq<string>)
    ensures TotalCost(a + b) == TotalCost(a) + TotalCost(b)
  {
    if a == [] {
      assert a + b == b;
    } else {
      TotalCostAppend(a[1..], b);
      assert (a + b)[1..] == a[1..] + b;
    }
  }

  lemma {:induction false} EscapeLength(t: string)
    ensures |Escape(t)| <= 6 * |t|
  {
    if t != "" {
      EscapeLength(t[1..]);
    }
  }

  lemma {:induction false} ArgvLength(ts: seq<string>)
    ensures |PrintItems(Texts(ts))| <= TotalCost(ts)
  {
    if ts != [] {
      EscapeLength(ts[0]);
      ArgvLength(ts[1..]);
      assert Texts(ts)[1..] == Texts(ts[1..]);
    }
  }

  lemma PathsTail(rs: seq<Redirection>)
    requires rs != []
    ensures Paths(rs) == [rs[0].path] + Paths(rs[1..])
  {}

  lemma RedirectionLength(r: Redirection)
    requires r.targetFd < 10
    ensures |Print(RedirValue(r))| + 1 <= Cost(r.path)
  {
    RedirectionText(r);
    EscapeLength(r.path);
  }

  lemma {:induction false} RedirectionsLength(rs: seq<Redirection>)
    requires RoundTrip.CleanRedirs(rs)
    ensures |PrintItems(RedirValues(rs))| <= TotalCost(Paths(rs))
  {
    if rs != [] {
      assert RoundTrip.CleanRedir(rs[0]);
      RedirectionLength(rs[0]);
      RedirectionsLength(rs[1..]);
      PathsTail(rs);
      assert RedirValues(rs)[1..] == RedirValues(rs[1..]);
    }
  }

  function StageCost(s: Stage): nat {
    TotalCost(s.argv) + TotalCost(Paths(s.redirs))
  }

  function StagesCost(p: seq<Stage>): nat {
    if p == [] then 0 else StageCost(p[0]) + StagesCost(p[1..])
  }

  lemma StageLength(s: Stage, index: nat)
    requires index < 100 && RoundTrip.CleanStage(s) && PlainLabels(s) && |s.stdinSource| <= 7 && |s.stdoutDest| <= 7
    ensures |Print(StageValue(s, index))| <= 120 + StageCost(s)
  {
    StageText(s, index);
    ArgvLength(s.argv);
    RedirectionsLength(s.redirs);
  }

  lemma {:induction false} StagesLength(p: seq<Stage>, all: seq<Stage>, index: nat)
    requires index + |p| == |all| <= MAX_STAGES && p == all[index..]
    requires RoundTrip.Clean(all) && RoundTrip.LabelsAgree(all)
    ensures |PrintItems(StageValues(p, index))| <= 121 * |p| + StagesCost(p)
    decreases |p|
  {
    if p != [] {
      assert p[0] == all[index] && RoundTrip.CleanStage(all[index]);
      assert all[index] == Labelled(all[index], index, |all|);
      LabelledIsPlain(all[index], index, |all|);
      StageLength(p[0], index);
      StagesLength(p[1..], all, index + 1);
      assert StageValues(p, index)[1..] == StageValues(p[1..], index + 1);
    }
  }

  lemma {:induction false} SplitCost(ts: seq<string>)
    requires OpFault(ts) == None
    ensures TotalCost(Args(ts)) + TotalCost(Paths(Redirs(ts))) <= TotalCost(ts)
    decreases |ts|
  {
    if ts != [] && IsOp(ts[0]) {
      HeadOperator(ts);
      SplitCost(ts[2..]);
      assert Paths(Redirs(ts))[1..] == Paths(Redirs(ts[2..]));
      assert ts[1..][1..] == ts[2..] && ts[1..][0] == ts[1];
    } else if ts != [] {
      SplitCost(ts[1..]);
      assert Args(ts)[1..] == Args(ts[1..]);
    }
  }

  lemma {:induction false} StagesFromCost(ts: seq<string>, index: nat)
    ensures StagesFrom(ts, index).Ok? ==> StagesCost(StagesFrom(ts, index).value) <= TotalCost(ts)
    decreases |ts|
  {
    var k := FirstPipe(ts);
    if k > 0 && StageOf(ts[..k], index).Ok? {
      var stage := StageOf(ts[..k], index).value;
      SplitCost(ts[..k]);
      assert ts == ts[..k] + ts[k..];
      TotalCostAppend(ts[..k], ts[k..]);
      if k < |ts| {
        StagesFromCost(ts[k + 1..], index + 1);
        assert ts[k..][1..] == ts[k + 1..];
        if StagesFrom(ts[k + 1..], index + 1).Ok? {
          assert ([stage] + StagesFrom(ts[k + 1..], index + 1).value)[1..] == StagesFrom(ts[k + 1..], index + 1).value;
        }
      } else {
        assert [stage][1..] == [];
      }
    }
  }

  lemma {:induction false} CostIgnoresLabels(p: seq<Stage>, q: seq<Stage>)
    requires |p| == |q| && forall i :: 0 <= i < |p| ==> p[i].argv == q[i].argv && p[i].redirs == q[i].redirs
    ensures StagesCost(p) == StagesCost(q)
  {
    if p != [] {
      CostIgnoresLabels(p[1..], q[1..]);
    }
  }

  lemma {:induction false} SingleQuotedShrinks(s: string, room: nat)
    ensures var r := Lexer.SingleQuoted(s, room); r.Ok? ==> |r.value.bytes| + |r.value.rest| < |s|
  {
    if s != "" && s[0] != '\'' && room > 0 {
      SingleQuotedShrinks(s[1..], room - 1);
    }
  }

  lemma {:induction false} DoubleQuotedShrinks(s: string, room: nat)
    ensures var r := Lexer.DoubleQuoted(s, room); r.Ok? ==> |r.value.bytes| + |r.value.rest| < |s|
    decreases |s|
  {
    if |s| > 1 && s[0] == '\\' && s[1] == '\n' {
      DoubleQuotedShrinks(s[2..], room);
    } else if s != "" && s[0] != '"' && room > 0 {
      if s[0] == '\\' && |s| > 1 && Lexer.Escapable(s[1]) {
        DoubleQuotedShrinks(s[2..], room - 1);
      } else {
        DoubleQuotedShrinks(s[1..], room - 1);
      }
    }
  }

  lemma UnitShrinks(s: string, room: nat)
    requires s != ""
    ensures var r := Lexer.ScanUnit(s, room); r.Ok? ==> |r.value.bytes| + |r.value.rest| <= |s|
  {
    SingleQuotedShrinks(s[1..], room);
    DoubleQuotedShrinks(s[1..], room);
  }

  // Reading never adds bytes: a token is no longer than the text it was written as.
  lemma {:induction false} ScanCost(s: string, cur: Lexer.Partial, n: nat)
    ensures var r := Lexer.Scan(s, cur, n, false);
      r.Ok? ==> TotalCost(r.value) <= 6 * (|cur.GetOr("")| + |s|) + 40 * |r.value|
    decreases |s|
  {
    if s == "" {
      assert cur.Some? ==> [cur.value][1..] == [];
    } else if Lexer.IsSpace(s[0]) {
      ScanCost(s[1..], cur, n);
    } else if !(s[0] == '#' && cur.None?) && n < Lexer.MAX_ARGS && Lexer.ScanUnit(s, Lexer.Room(cur)).Ok? {
      var u := Lexer.ScanUnit(s, Lexer.Room(cur)).value;
      var word := cur.GetOr("") + u.bytes;
      UnitShrinks(s, Lexer.Room(cur));
      if Lexer.AtWordEnd(u.rest) && word != "" {
        ScanCost(u.rest, None, n + 1);
        if Lexer.Scan(u.rest, None, n + 1, false).Ok? {
          var more := Lexer.Scan(u.rest, None, n + 1, false).value;
          assert ([word] + more)[1..] == more;
        }
      } else {
        ScanCost(u.rest, Some(word), n);
      }
    }
  }

  // No reply is ever cut off by the gateway's output limit.
  lemma ReplyFits(line: string)
    ensures |ReplyTo(line).stdout| <= 1048576
  {
    if ParseLine(line).Ok? {
      var p := ParseLine(line).value;
      var ts := Lexer.Tokenize(line).value;
      RoundTrip.ParsedIsWellParsed(line);
      Lexer.TokenizeBounds(line);
      ScanCost(line, None, 0);
      StagesFromCost(ts, 0);
      var bare := StagesFrom(ts, 0).value;
      CostIgnoresLabels(p, bare);
      assert p[0..] == p;
      StagesLength(p, p, 0);
      DocumentText(p);
    }
  }

  /** The gateway's reading of the reply is the pipeline the engine parsed, for every line. */
  lemma GatewaySeesTheParsedPipeline(line: string)
    ensures InspectCommandLine(ReplyTo(line)) == match ParseLine(line)
      case Err(_) => Err(NotParseable)
      case Ok(p) => Ok(SeenStages(p, 0))
    ensures ReplyTo(line).exitCode == (if ParseLine(line).Ok? then 0 else 2)
  {
    ReplyFits(line);
    if ParseLine(line).Ok? {
      var p := ParseLine(line).value;
      assert p != [] by {
        RoundTrip.ParsedIsWellParsed(line);
      }
      DocumentRoundTrip(DocOf(p));
      DocumentReadsBack(p);
    }
  }

  lemma {:induction false} SeenRedirectionsDetermine(a: seq<Redirection>, b: seq<Redirection>)
    requires SeenRedirections(a) == SeenRedirections(b)
    ensures a == b
  {
    if a != [] && b != [] {
      var x, y := SeenRedirections(a), SeenRedirections(b);
      assert x[0] == y[0] && x[1..] == SeenRedirections(a[1..]) && y[1..] == SeenRedirections(b[1..]);
      SeenRedirectionsDetermine(a[1..], b[1..]);
      assert KindOf(OpText(a[0].kind)) == a[0].kind && KindOf(OpText(b[0].kind)) == b[0].kind;
      assert a == [a[0]] + a[1..] && b == [b[0]] + b[1..];
    }
  }

  // What the gateway sees leaves nothing of the pipeline undetermined.
  lemma {:induction false} SeenStagesDetermine(p: seq<Stage>, q: seq<Stage>, index: nat)
    requires SeenStages(p, index) == SeenStages(q, index)
    ensures p == q
  {
    if p != [] && q != [] {
      var x, y := SeenStages(p, index), SeenStages(q, index);
      assert x[0] == y[0] && x[1..] == SeenStages(p[1..], index + 1) && y[1..] == SeenStages(q[1..], index + 1);
      SeenRedirectionsDetermine(p[0].redirs, q[0].redirs);
      SeenStagesDetermine(p[1..], q[1..], index + 1);
      assert p == [p[0]] + p[1..] && q == [q[0]] + q[1..];
    }
  }

  // The gateway's stage, field by field.
  predicate SeesRedirection(q: InspectedRedirection, r: Redirection) {
    q.op == OpText(r.kind) && q.fd == r.targetFd && q.target == r.path
  }

  predicate SeesStage(q: InspectedStage, s: Stage, index: nat) {
    && q.index == index && q.argv == s.argv && q.stdinSource == s.stdinSource && q.stdoutDest == s.stdoutDest
    && |q.redirections| == |s.redirs|
    && forall j {:trigger SeesRedirection(q.redirections[j], s.redirs[j])} :: 0 <= j < |s.redirs| ==>
         SeesRedirection(q.redirections[j], s.redirs[j])
  }

  lemma {:induction false} SeenRedirectionsAt(rs: seq<Redirection>)
    ensures |SeenRedirections(rs)| == |rs|
    ensures forall j {:trigger SeesRedirection(SeenRedirections(rs)[j], rs[j])} :: 0 <= j < |rs| ==>
      SeesRedirection(SeenRedirections(rs)[j], rs[j])
  {
    if rs != [] {
      SeenRedirectionsAt(rs[1..]);
      forall j {:trigger SeesRedirection(SeenRedirections(rs)[j], rs[j])} | 0 <= j < |rs|
        ensures SeesRedirection(SeenRedirections(rs)[j], rs[j])
      {
        if j > 0 {
          assert SeesRedirection(SeenRedirections(rs[1..])[j - 1], rs[1..][j - 1]);
        }
      }
    }
  }

  lemma {:induction false} SeenStagesAt(p: seq<Stage>, index: nat, i: nat)
    requires i < |p|
    ensures |SeenStages(p, index)| == |p| && SeesStage(SeenStages(p, index)[i], p[i], index + i)
  {
    SeenStagesCount(p[1..], index + 1);
    if i == 0 {
      SeenRedirectionsAt(p[0].redirs);
    } else {
      SeenStagesAt(p[1..], index + 1, i - 1);
    }
  }

  lemma {:induction false} SeenStagesCount(p: seq<Stage>, index: nat)
    ensures |SeenStages(p, index)| == |p|
  {
    if p != [] {
      SeenStagesCount(p[1..], index + 1);
    }
  }

  /** Each stage the gateway reads has the parsed stage's number, arguments, redirections and labels. */
  lemma GatewaySeesEachStage(line: string, i: nat)
    requires ParseLine(line).Ok? && i < |ParseLine(line).value|
    ensures var p, seen := ParseLine(line).value, InspectCommandLine(ReplyTo(line));
      seen.Ok? && |seen.value| == |p| && SeesStage(seen.value[i], p[i], i)
  {
    GatewaySeesTheParsedPipeline(line);
    SeenStagesAt(ParseLine(line).value, 0, i);
  }
}
