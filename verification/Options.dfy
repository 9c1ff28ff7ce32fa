/**
 * The argument rules of a catalogued command, and the spelling of short options: a cluster
 * means its flags one by one, and a glued value means the value by itself.
 */
module Options {
  import opened Basics

  datatype Bounds = Bounds(min: nat, max: nat)

  // One command's rules.  `refusesProgram` is the scanner of program operands and
  // `readable` the workspace path policy, both taken as given.
  datatype Schema = Schema(
    flags: seq<string>, valueFlags: seq<string>, maxPositional: nat, maxArgumentBytes: nat,
    positionalIntegers: Option<Bounds>, positionalArePaths: bool, leadingPatterns: nat,
    numericCount: Option<Bounds>, leadingChoices: Option<seq<string>>, integerModes: Option<(seq<string>, Bounds)>,
    refusesProgram: string -> bool, readable: string -> bool)

  datatype Refusal =
    | TooLong(arg: string) | HasNul(arg: string) | NotAnInteger(arg: string) | OutOfRange(arg: string)
    | UnknownFlag(arg: string) | TooManyPositionals | NotAMode(arg: string) | ProgramRefused(arg: string)
    | PathRefused(arg: string)

  // What the walk knows: whether a value is due, the operands so far, and which are paths.
  datatype Walk = Walk(pending: bool, mode: Option<string>, operands: seq<string>, paths: seq<string>)

  type WalkResult = Result<Walk, Refusal>

  const START := Walk(false, None, [], [])

  predicate Digits(s: string) {
    1 <= |s| <= 10 && forall i {:trigger s[i]} :: 0 <= i < |s| ==> '0' <= s[i] <= '9'
  }

  function Number(s: string): nat {
    if s == "" then 0
    else Number(s[..|s| - 1]) * 10 + (if '0' <= s[|s| - 1] <= '9' then s[|s| - 1] as int - '0' as int else 0)
  }

  function IntegerRefusal(s: string, b: Bounds): Option<Refusal> {
    if !Digits(s) then Some(NotAnInteger(s))
    else if Number(s) < b.min || Number(s) > b.max then Some(OutOfRange(s))
    else None
  }

  predicate IsOption(arg: string) {
    |arg| > 1 && arg[0] == '-'
  }

  predicate IsLong(arg: string) {
    |arg| > 1 && arg[0] == '-' && arg[1] == '-'
  }

  predicate StartsWith(s: string, prefix: string) {
    |prefix| <= |s| && s[..|prefix|] == prefix
  }

  predicate LooksLikePath(s: string) {
    StartsWith(s, "/") || StartsWith(s, "./") || StartsWith(s, "../") || s == ".." || s == "."
  }

  predicate TakesValue(schema: Schema, flag: string) {
    flag in schema.valueFlags
  }

  // ------------------------------------------------------------------ the clusters

  // A cluster's flags, the value glued to the last of them, and whether a value is still due.
  datatype Cluster = Cluster(flags: seq<string>, glued: Option<string>, due: bool)

  function Decompose(schema: Schema, body: string): Option<Cluster> {
    if body == "" then Some(Cluster([], None, false))
    else
      var flag := ['-', body[0]];
      if flag !in schema.flags then None
      else if TakesValue(schema, flag) then
        if body[1..] != "" then Some(Cluster([flag], Some(body[1..]), false)) else Some(Cluster([flag], None, true))
      else match Decompose(schema, body[1..])
        case None => None
        case Some(c) => Some(c.(flags := [flag] + c.flags))
  }

  function ValueRefusal(schema: Schema, value: string): Option<Refusal> {
    if schema.positionalIntegers.Some? then IntegerRefusal(value, schema.positionalIntegers.value) else None
  }

  function GluedRefusal(schema: Schema, glued: string): Option<Refusal> {
    if schema.positionalIntegers.Some? then ValueRefusal(schema, glued)
    else if schema.numericCount.Some? && Digits(glued) then IntegerRefusal(glued, schema.numericCount.value)
    else None
  }

  function TakeCluster(schema: Schema, w: Walk, arg: string): WalkResult
    requires IsOption(arg)
  {
    match Decompose(schema, arg[1..])
    case None => Err(UnknownFlag(arg))
    case Some(c) =>
      var refusal := if c.glued.Some? then GluedRefusal(schema, c.glued.value) else None;
      if refusal.Some? then Err(refusal.value) else Ok(w.(pending := c.due))
  }

  // The numeric short form, a count by itself.
  predicate IsCount(schema: Schema, arg: string)
    requires IsOption(arg)
  {
    schema.numericCount.Some? && Digits(arg[1..])
  }

  function TakeOption(schema: Schema, w: Walk, arg: string): WalkResult
    requires IsOption(arg)
  {
    if IsCount(schema, arg) then
      var refusal := IntegerRefusal(arg[1..], schema.numericCount.value);
      if refusal.Some? then Err(refusal.value) else Ok(w)
    else if IsLong(arg) then if arg in schema.flags then Ok(w) else Err(UnknownFlag(arg))
    else if arg in schema.flags then Ok(w.(pending := TakesValue(schema, arg)))
    else TakeCluster(schema, w, arg)
  }

  // ------------------------------------------------------------------ the operands

  function ModeRefusal(schema: Schema, w: Walk, arg: string): Option<Refusal> {
    var position := |w.operands| + 1;
    if position == 1 && schema.leadingChoices.Some? then
      if arg in schema.leadingChoices.value then None else Some(NotAMode(arg))
    else if position == 2 && w.mode.Some? && schema.integerModes.Some? && w.mode.value in schema.integerModes.value.0 then
      IntegerRefusal(arg, schema.integerModes.value.1)
    else None
  }

  function OperandRefusal(schema: Schema, w: Walk, arg: string): Option<Refusal> {
    if |w.operands| + 1 > schema.maxPositional then Some(TooManyPositionals)
    else
      var number := if schema.positionalIntegers.Some? then IntegerRefusal(arg, schema.positionalIntegers.value) else None;
      if number.Some? then number
      else
        var mode := ModeRefusal(schema, w, arg);
        if mode.Some? then mode
        else if |w.operands| == 0 && schema.refusesProgram(arg) then Some(ProgramRefused(arg))
        else None
  }

  function TakeOperand(schema: Schema, w: Walk, arg: string): WalkResult {
    var refusal := OperandRefusal(schema, w, arg);
    if refusal.Some? then Err(refusal.value)
    else
      var isPattern := |w.operands| < schema.leadingPatterns && !LooksLikePath(arg);
      Ok(Walk(
        false, if |w.operands| == 0 && schema.leadingChoices.Some? then Some(arg) else w.mode, w.operands + [arg],
        if schema.positionalArePaths && !isPattern then w.paths + [arg] else w.paths))
  }

  function TakeValue(schema: Schema, w: Walk, arg: string): WalkResult {
    var refusal := ValueRefusal(schema, arg);
    if refusal.Some? then Err(refusal.value) else Ok(w.(pending := false))
  }

  function Take(schema: Schema, w: Walk, arg: string): WalkResult {
    if |arg| > schema.maxArgumentBytes then Err(TooLong(arg))
    else if '\0' in arg then Err(HasNul(arg))
    else if w.pending then TakeValue(schema, w, arg)
    else if IsOption(arg) then TakeOption(schema, w, arg)
    else TakeOperand(schema, w, arg)
  }

  function TakeAll(schema: Schema, w: Walk, args: seq<string>): WalkResult
    decreases |args|
  {
    if args == [] then Ok(w)
    else match Take(schema, w, args[0])
      case Err(e) => Err(e)
      case Ok(next) => TakeAll(schema, next, args[1..])
  }

  function PathsRefusal(schema: Schema, paths: seq<string>): Option<Refusal> {
    if paths == [] then None
    else if !schema.readable(paths[0]) then Some(PathRefused(paths[0]))
    else PathsRefusal(schema, paths[1..])
  }

  // The verdict on an argument vector: its operands and its path candidates, or the refusal.
  function Validate(schema: Schema, args: seq<string>): WalkResult {
    match TakeAll(schema, START, args)
    case Err(e) => Err(e)
    case Ok(w) =>
      var refusal := PathsRefusal(schema, w.paths);
      if refusal.Some? then Err(refusal.value) else Ok(w)
  }

  // ------------------------------------------------------------------ the expansion

  // The separate tokens a cluster stands for; a token that is no cluster stands for itself.
  function Spelled(schema: Schema, arg: string): seq<string>
    requires IsOption(arg)
  {
    if IsCount(schema, arg) || IsLong(arg) || arg in schema.flags then [arg]
    else match Decompose(schema, arg[1..])
      case None => [arg]
      case Some(c) => c.flags + (if c.glued.Some? then [c.glued.value] else [])
  }

  predicate Due(schema: Schema, arg: string)
    requires IsOption(arg)
  {
    if IsCount(schema, arg) || IsLong(arg) then false
    else if arg in schema.flags then TakesValue(schema, arg)
    else match Decompose(schema, arg[1..])
      case None => false
      case Some(c) => c.due
  }

  function Expand(schema: Schema, args: seq<string>, pending: bool): seq<string>
    decreases |args|
  {
    if args == [] then []
    else if pending then [args[0]] + Expand(schema, args[1..], false)
    else if IsOption(args[0]) then Spelled(schema, args[0]) + Expand(schema, args[1..], Due(schema, args[0]))
    else [args[0]] + Expand(schema, args[1..], false)
  }

  // What the catalog sees to: the marker of long options takes no value, and where digits are
  // a count no digit is a flag.
  predicate Consistent(schema: Schema) {
    && "--" !in schema.valueFlags
    && (schema.numericCount.Some? ==> forall f <- schema.flags :: |f| != 2 || !Digits(f[1..]))
  }

  // A glued value that reads as a count outside the bounds of the numeric short form.
  predicate ExceedsCount(schema: Schema, value: string) {
    && schema.positionalIntegers.None? && schema.numericCount.Some? && Digits(value)
    && IntegerRefusal(value, schema.numericCount.value).Some?
  }

  predicate GluesBadCount(schema: Schema, arg: string)
    requires IsOption(arg)
  {
    && !IsCount(schema, arg) && !IsLong(arg) && arg !in schema.flags
    && match Decompose(schema, arg[1..])
       case None => false
       case Some(c) => c.glued.Some? && ExceedsCount(schema, c.glued.value)
  }

  predicate AnyBadCount(schema: Schema, args: seq<string>, pending: bool)
    decreases |args|
  {
    if args == [] then false
    else if !pending && IsOption(args[0]) then
      GluesBadCount(schema, args[0]) || AnyBadCount(schema, args[1..], Due(schema, args[0]))
    else AnyBadCount(schema, args[1..], false)
  }

  predicate Proper(schema: Schema, args: seq<string>) {
    forall i {:trigger args[i]} :: 0 <= i < |args| ==> |args[i]| <= schema.maxArgumentBytes && '\0' !in args[i]
  }

  lemma {:induction false} TakeAllAppend(schema: Schema, w: Walk, a: seq<string>, b: seq<string>)
    ensures TakeAll(schema, w, a + b) ==
      match TakeAll(schema, w, a) case Err(e) => Err(e) case Ok(next) => TakeAll(schema, next, b)
    decreases |a|
  {
    if a == [] {
      assert a + b == b;
    } else {
      assert (a + b)[0] == a[0] && (a + b)[1..] == a[1..] + b;
      if Take(schema, w, a[0]).Ok? {
        TakeAllAppend(schema, Take(schema, w, a[0]).value, a[1..], b);
      }
    }
  }

  lemma TakeAllOne(schema: Schema, w: Walk, arg: string)
    ensures TakeAll(schema, w, [arg]) == Take(schema, w, arg)
  {
    assert [arg][1..] == [];
  }

  // A two-character flag of the catalog, met as a token of its own.
  lemma TakeFlag(schema: Schema, w: Walk, flag: string)
    requires Consistent(schema) && !w.pending && |flag| == 2 && flag[0] == '-' && flag in schema.flags
    requires 2 <= schema.maxArgumentBytes && '\0' !in flag
    ensures Take(schema, w, flag) == Ok(w.(pending := TakesValue(schema, flag)))
  {
    assert !IsCount(schema, flag);
    if IsLong(flag) {
      assert flag == "--";
      assert w.(pending := false) == w;
    }
  }

  function ClusterSpelling(c: Cluster): seq<string> {
    c.flags + (if c.glued.Some? then [c.glued.value] else [])
  }

  // Where a cluster's flags and its value, each by itself, lead.
  function Apart(schema: Schema, w: Walk, c: Cluster): WalkResult {
    var refusal := if c.glued.Some? then ValueRefusal(schema, c.glued.value) else None;
    if refusal.Some? then Err(refusal.value) else Ok(w.(pending := c.due))
  }

  lemma FlagWithValue(schema: Schema, w: Walk, flag: string, value: string)
    requires Take(schema, w, flag) == Ok(w.(pending := true)) && |value| <= schema.maxArgumentBytes && '\0' !in value
    ensures TakeAll(schema, w, [flag, value]) == Apart(schema, w, Cluster([flag], Some(value), false))
  {
    assert [flag] + [value] == [flag, value];
    TakeAllAppend(schema, w, [flag], [value]);
    TakeAllOne(schema, w, flag);
    TakeAllOne(schema, w.(pending := true), value);
  }

  lemma FlagThenRest(schema: Schema, w: Walk, flag: string, rest: Cluster, c: Cluster)
    requires Take(schema, w, flag) == Ok(w) && c == rest.(flags := [flag] + rest.flags)
    ensures TakeAll(schema, w, ClusterSpelling(c)) == TakeAll(schema, w, ClusterSpelling(rest))
    ensures Apart(schema, w, c) == Apart(schema, w, rest)
  {
    var tail := if rest.glued.Some? then [rest.glued.value] else [];
    assert ClusterSpelling(c) == [flag] + (rest.flags + tail);
    TakeAllAppend(schema, w, [flag], rest.flags + tail);
    TakeAllOne(schema, w, flag);
  }

  // The tokens of a cluster lead where its parts lead.
  lemma {:induction false} ClusterTokens(schema: Schema, w: Walk, body: string)
    requires Consistent(schema) && !w.pending && Decompose(schema, body).Some?
    requires 1 + |body| <= schema.maxArgumentBytes && '\0' !in body
    ensures var c := Decompose(schema, body).value; TakeAll(schema, w, ClusterSpelling(c)) == Apart(schema, w, c)
    decreases |body|
  {
    TakesNothing(w);
    if body != "" {
      var flag := ['-', body[0]];
      assert '\0' !in flag;
      TakeFlag(schema, w, flag);
      if TakesValue(schema, flag) && body[1..] != "" {
        assert [flag] + [body[1..]] == [flag, body[1..]];
        FlagWithValue(schema, w, flag, body[1..]);
      } else if TakesValue(schema, flag) {
        assert [flag] + [] == [flag];
        TakeAllOne(schema, w, flag);
      } else {
        ClusterTokens(schema, w, body[1..]);
        FlagThenRest(schema, w, flag, Decompose(schema, body[1..]).value, Decompose(schema, body).value);
      }
    }
  }

  lemma TakesNothing(w: Walk)
    requires !w.pending
    ensures w.(pending := false) == w
  {}

  // Only a glued count out of bounds is refused where the two tokens are not.
  lemma SpelledIsSame(schema: Schema, w: Walk, arg: string)
    requires Consistent(schema) && !w.pending && IsOption(arg) && |arg| <= schema.maxArgumentBytes && '\0' !in arg
    ensures if GluesBadCount(schema, arg) then Take(schema, w, arg).Err? && TakeAll(schema, w, Spelled(schema, arg)).Ok?
            else TakeAll(schema, w, Spelled(schema, arg)) == Take(schema, w, arg)
    ensures Take(schema, w, arg).Ok? ==> Take(schema, w, arg).value.pending == Due(schema, arg)
  {
    TakesNothing(w);
    if Spelled(schema, arg) == [arg] {
      TakeAllOne(schema, w, arg);
    }
    if !IsCount(schema, arg) && !IsLong(arg) && arg !in schema.flags && Decompose(schema, arg[1..]).Some? {
      ClusterTokens(schema, w, arg[1..]);
    }
  }

  lemma TakenOutOfValue(schema: Schema, w: Walk, arg: string)
    requires w.pending || !IsOption(arg)
    ensures Take(schema, w, arg).Ok? ==> !Take(schema, w, arg).value.pending
  {}

  // The first argument, and how it is spelled out.
  lemma FirstSpelled(schema: Schema, w: Walk, args: seq<string>) returns (tokens: seq<string>, due: bool)
    requires Consistent(schema) && Proper(schema, args) && args != []
    ensures Expand(schema, args, w.pending) == tokens + Expand(schema, args[1..], due)
    ensures AnyBadCount(schema, args, w.pending) <==>
      (!w.pending && IsOption(args[0]) && GluesBadCount(schema, args[0])) || AnyBadCount(schema, args[1..], due)
    ensures !w.pending && IsOption(args[0]) && GluesBadCount(schema, args[0]) ==> Take(schema, w, args[0]).Err?
    ensures !(!w.pending && IsOption(args[0]) && GluesBadCount(schema, args[0])) ==>
      TakeAll(schema, w, tokens) == Take(schema, w, args[0])
    ensures Take(schema, w, args[0]).Ok? ==> Take(schema, w, args[0]).value.pending == due
  {
    var arg := args[0];
    assert |arg| <= schema.maxArgumentBytes && '\0' !in arg;
    if !w.pending && IsOption(arg) {
      tokens, due := Spelled(schema, arg), Due(schema, arg);
      SpelledIsSame(schema, w, arg);
    } else {
      tokens, due := [arg], false;
      TakeAllOne(schema, w, arg);
      TakenOutOfValue(schema, w, arg);
    }
  }

  /**
   * Writing every cluster out, flag by flag and value by value, leads to the same place; only
   * a glued count out of bounds is refused where its two tokens are not.
   */
  lemma {:induction false} ExpandedIsSame(schema: Schema, w: Walk, args: seq<string>)
    requires Consistent(schema) && Proper(schema, args)
    ensures if AnyBadCount(schema, args, w.pending) then TakeAll(schema, w, args).Err?
            else TakeAll(schema, w, Expand(schema, args, w.pending)) == TakeAll(schema, w, args)
    decreases |args|
  {
    if args != [] {
      var arg, rest := args[0], args[1..];
      var tokens, due := FirstSpelled(schema, w, args);
      TakeAllAppend(schema, w, tokens, Expand(schema, rest, due));
      if Take(schema, w, arg).Ok? {
        ExpandedIsSame(schema, Take(schema, w, arg).value, rest);
      }
    }
  }

  // An accepted vector has no argument that is too long or holds a NUL.
  lemma {:induction false} AcceptedIsProper(schema: Schema, w: Walk, args: seq<string>)
    requires TakeAll(schema, w, args).Ok?
    ensures Proper(schema, args)
    decreases |args|
  {
    if args != [] {
      AcceptedIsProper(schema, Take(schema, w, args[0]).value, args[1..]);
      assert forall i {:trigger args[i]} :: 1 <= i < |args| ==> args[i] == args[1..][i - 1];
    }
  }

  /**
   * For every schema of the catalog and every argument vector: it is accepted exactly when
   * the expanded one is, no argument is too long, and no glued count is out of bounds.  Where
   * the last two hold, refusals, operands and path candidates are the same too.
   */
  lemma ExpansionKeepsTheVerdict(schema: Schema, args: seq<string>)
    requires Consistent(schema)
    ensures Validate(schema, args).Ok? <==>
      Validate(schema, Expand(schema, args, false)).Ok? && Proper(schema, args) && !AnyBadCount(schema, args, false)
    ensures Proper(schema, args) && !AnyBadCount(schema, args, false) ==>
      Validate(schema, Expand(schema, args, false)) == Validate(schema, args)
  {
    if Proper(schema, args) {
      ExpandedIsSame(schema, START, args);
    }
    if Validate(schema, args).Ok? {
      AcceptedIsProper(schema, START, args);
    }
  }

  // One glued count: the two spellings agree exactly when it is within the bounds.
  lemma SeparateCountIsNotBounded(schema: Schema, flag: string, count: string)
    requires Consistent(schema) && schema.numericCount.Some? && schema.positionalIntegers.None?
    requires |flag| == 2 && flag[0] == '-' && flag[1] != '-' && flag in schema.flags && flag in schema.valueFlags
    requires flag + count !in schema.flags && Digits(count) && Proper(schema, [flag + count])
    ensures Expand(schema, [flag + count], false) == [flag, count]
    ensures Validate(schema, [flag, count]).Ok?
    ensures Validate(schema, [flag + count]) == Validate(schema, [flag, count]) <==>
      IntegerRefusal(count, schema.numericCount.value).None?
  {
    var glued := flag + count;
    assert glued[1..][0] == flag[1] && glued[1..][1..] == count && ['-', flag[1]] == flag && glued[1] == flag[1];
    assert !Digits(flag[1..]) && flag[1..][0] == flag[1];
    assert !IsCount(schema, glued);
    assert Decompose(schema, glued[1..]) == Some(Cluster([flag], Some(count), false));
    var none: seq<string> := [];
    assert [glued][1..] == none && [flag] + [count] == [flag, count] && [flag, count] + none == [flag, count];
    assert [glued][0] == glued;
    ClusterTokens(schema, START, glued[1..]);
    ExpansionKeepsTheVerdict(schema, [glued]);
  }

  // The catalog's entry for head, its path policy aside.
  function HeadSchema(): Schema {
    Schema(["-n", "-c", "-q", "-v"], ["-n", "-c"], 16, 255, None, true, 1, Some(Bounds(1, 100000)), None, None, _ => false, _ => true)
  }

  // head -n0 is refused, head -n 0 is not.
  lemma HeadCountsTwoWays()
    ensures Validate(HeadSchema(), ["-n0"]).Err? && Validate(HeadSchema(), ["-n", "0"]).Ok?
  {
    var schema := HeadSchema();
    var flag, count := ['-', 'n'], ['0'];
    assert flag == "-n" && count == "0" && flag + count == "-n0";
    assert count[..0] == "" && Number(count) == 0;
    assert forall f <- schema.flags :: |f| != 2 || !Digits(f[1..]) by {
      forall f | f in schema.flags ensures !Digits(f[1..]) {
        assert f[1..][0] == f[1];
      }
    }
    assert Proper(schema, [flag + count]);
    SeparateCountIsNotBounded(schema, flag, count);
    ExpansionKeepsTheVerdict(schema, [flag + count]);
  }

  // ------------------------------------------------------------------ the validator

  // One cluster, character by character.
  method WalkCluster(schema: Schema, w: Walk, arg: string) returns (r: WalkResult)
    requires IsOption(arg)
    ensures r == TakeCluster(schema, w, arg)
  {
    var k := 1;
    while k < |arg|
      invariant 1 <= k <= |arg|
      invariant match (Decompose(schema, arg[1..]), Decompose(schema, arg[k..]))
        case (Some(whole), Some(left)) => whole.glued == left.glued && whole.due == left.due
        case (None, None) => true
        case _ => false
    {
      var flag := ['-', arg[k]];
      assert arg[k..][0] == arg[k] && arg[k..][1..] == arg[k + 1..];
      if flag !in schema.flags {
        return Err(UnknownFlag(arg));
      }
      if TakesValue(schema, flag) {
        var glued := arg[k + 1..];
        if |glued| > 0 {
          var refusal := GluedRefusal(schema, glued);
          return if refusal.Some? then Err(refusal.value) else Ok(w.(pending := false));
        }
        return Ok(w.(pending := true));
      }
      k := k + 1;
    }
    assert arg[k..] == "";
    return Ok(w.(pending := false));
  }

  method ValidateArguments(schema: Schema, args: seq<string>) returns (r: WalkResult)
    ensures r == Validate(schema, args)
  {
    var w := START;
    assert args[0..] == args;
    for i := 0 to |args|
      invariant TakeAll(schema, START, args) == TakeAll(schema, w, args[i..])
    {
      var arg := args[i];
      assert args[i..][0] == arg && args[i..][1..] == args[i + 1..];
      var next: WalkResult;
      if |arg| > schema.maxArgumentBytes {
        return Err(TooLong(arg));
      } else if '\0' in arg {
        return Err(HasNul(arg));
      } else if w.pending {
        next := TakeValue(schema, w, arg);
      } else if IsOption(arg) && !IsCount(schema, arg) && !IsLong(arg) && arg !in schema.flags {
        next := WalkCluster(schema, w, arg);
      } else if IsOption(arg) {
        next := TakeOption(schema, w, arg);
      } else {
        next := TakeOperand(schema, w, arg);
      }
      if next.Err? {
        return next;
      }
      w := next.value;
    }
    assert args[|args|..] == [];
    for i := 0 to |w.paths|
      invariant PathsRefusal(schema, w.paths) == PathsRefusal(schema, w.paths[i..])
    {
      assert w.paths[i..][1..] == w.paths[i + 1..];
      if !schema.readable(w.paths[i]) {
        return Err(PathRefused(w.paths[i]));
      }
    }
    return Ok(w);
  }
}
