/** Which argument vectors of a catalogued command are accepted, told from the catalog entry alone. */
module OptionsAccepted {
  import opened Basics
  import opened Options

  // ------------------------------------------------------------------- plain integers

  predicate AllDigits(s: string) {
    forall i {:trigger s[i]} :: 0 <= i < |s| ==> '0' <= s[i] <= '9'
  }

  predicate DigitsOnly(s: string) {
    1 <= |s| <= 10 && AllDigits(s)
  }

  function Digit(d: nat): (c: char)
    requires d < 10
    ensures '0' <= c <= '9' && c as int - '0' as int == d
  {
    (d + '0' as int) as char
  }

  // A number as it is written, most significant digit first.
  function Decimal(n: nat): (s: string)
    ensures s != ""
  {
    if n < 10 then [Digit(n)] else Decimal(n / 10) + [Digit(n % 10)]
  }

  function Zeros(n: nat): string {
    seq(n, _ => '0')
  }

  function Padded(zeros: nat, n: nat): string {
    Zeros(zeros) + Decimal(n)
  }

  // A plain decimal within the bounds, leading zeros allowed.
  ghost predicate IntegerIn(s: string, b: Bounds) {
    DigitsOnly(s) && exists n: nat, zeros: nat {:trigger Padded(zeros, n)} :: b.min <= n <= b.max && s == Padded(zeros, n)
  }

  lemma NumberAppend(s: string, c: char)
    ensures Number(s + [c]) == Number(s) * 10 + (if '0' <= c <= '9' then c as int - '0' as int else 0)
  {
    assert (s + [c])[..|s|] == s;
  }

  lemma {:induction false} NumberOfDecimal(n: nat)
    ensures Number(Decimal(n)) == n
  {
    var d := Digit(n % 10);
    if n < 10 {
      assert Decimal(n) == [] + [d];
      NumberAppend([], d);
    } else {
      NumberOfDecimal(n / 10);
      NumberAppend(Decimal(n / 10), d);
    }
  }

  lemma {:induction false} NumberOfZeros(n: nat)
    ensures Number(Zeros(n)) == 0
  {
    if n > 0 {
      NumberOfZeros(n - 1);
      assert Zeros(n) == Zeros(n - 1) + ['0'];
      NumberAppend(Zeros(n - 1), '0');
    }
  }

  lemma {:induction false} NumberPadded(zeros: nat, s: string)
    ensures Number(Zeros(zeros) + s) == Number(s)
  {
    if s == [] {
      NumberOfZeros(zeros);
      assert Zeros(zeros) + s == Zeros(zeros);
    } else {
      var init, last := s[..|s| - 1], s[|s| - 1];
      NumberPadded(zeros, init);
      assert Zeros(zeros) + s == (Zeros(zeros) + init) + [last];
      assert s == init + [last];
      NumberAppend(Zeros(zeros) + init, last);
      NumberAppend(init, last);
    }
  }

  // One more digit behind a padded number.
  lemma PaddedAppend(zeros: nat, m: nat, d: nat) returns (more: nat)
    requires d < 10
    ensures Padded(zeros, m) + [Digit(d)] == Padded(more, m * 10 + d)
  {
    if m == 0 {
      more := zeros + 1;
      assert Zeros(zeros) + [Digit(0)] == Zeros(zeros + 1);
    } else {
      more := zeros;
      assert (m * 10 + d) / 10 == m && (m * 10 + d) % 10 == d;
      assert Zeros(zeros) + (Decimal(m) + [Digit(d)]) == (Zeros(zeros) + Decimal(m)) + [Digit(d)];
    }
  }

  // Every run of digits is a number with zeros in front.
  lemma {:induction false} DigitsArePadded(s: string) returns (zeros: nat)
    requires s != [] && AllDigits(s)
    ensures s == Padded(zeros, Number(s))
  {
    var init, last := s[..|s| - 1], s[|s| - 1];
    var d := last as int - '0' as int;
    assert s == init + [last] && last == Digit(d);
    NumberAppend(init, last);
    if init == [] {
      zeros := 0;
      assert Decimal(d) == [last];
    } else {
      zeros := DigitsArePadded(init);
      zeros := PaddedAppend(zeros, Number(init), d);
    }
  }

  lemma PaddedNumber(zeros: nat, n: nat)
    ensures Number(Padded(zeros, n)) == n
  {
    NumberPadded(zeros, Decimal(n));
    NumberOfDecimal(n);
  }

  lemma InBounds(s: string, b: Bounds)
    requires DigitsOnly(s)
    ensures b.min <= Number(s) <= b.max <==> IntegerIn(s, b)
  {
    forall n: nat, zeros: nat | s == Padded(zeros, n) ensures n == Number(s) {
      PaddedNumber(zeros, n);
    }
    var zeros := DigitsArePadded(s);
    assert s == Padded(zeros, Number(s));
  }

  lemma IntegerIff(s: string, b: Bounds)
    ensures IntegerRefusal(s, b).None? <==> IntegerIn(s, b)
  {
    if DigitsOnly(s) {
      InBounds(s, b);
    }
  }

  // -------------------------------------------------------------- one token at a time

  predicate IsDashed(arg: string) {
    |arg| > 1 && arg[0] == '-'
  }

  ghost predicate ValueOk(schema: Schema, value: string) {
    schema.positionalIntegers.Some? ==> IntegerIn(value, schema.positionalIntegers.value)
  }

  ghost predicate GluedOk(schema: Schema, value: string) {
    && ValueOk(schema, value)
    && (schema.positionalIntegers.None? && schema.numericCount.Some? && DigitsOnly(value) ==>
          IntegerIn(value, schema.numericCount.value))
  }

  predicate FlagAt(schema: Schema, arg: string, j: nat) {
    j < |arg| && ['-', arg[j]] in schema.flags
  }

  predicate ValueFlagAt(schema: Schema, arg: string, j: nat) {
    j < |arg| && ['-', arg[j]] in schema.valueFlags
  }

  // The characters from 1 to k are flags, and those before k take no value.
  predicate FlagsUpTo(schema: Schema, arg: string, from: nat, k: nat) {
    && (forall j {:trigger FlagAt(schema, arg, j)} :: from <= j <= k ==> FlagAt(schema, arg, j))
    && (forall j {:trigger ValueFlagAt(schema, arg, j)} :: from <= j < k ==> !ValueFlagAt(schema, arg, j))
  }

  // A cluster of flags from some character on: all of them, or up to one whose value follows.
  ghost predicate ClusterFrom(schema: Schema, arg: string, from: nat) {
    exists k: nat {:trigger FlagsUpTo(schema, arg, from, k)} :: from <= k < |arg| && FlagsUpTo(schema, arg, from, k)
      && (k == |arg| - 1 || (ValueFlagAt(schema, arg, k) && GluedOk(schema, arg[k + 1..])))
  }

  // The last flag of the cluster still wants a value.
  predicate LastWantsValue(schema: Schema, arg: string, from: nat) {
    && from < |arg| && ValueFlagAt(schema, arg, |arg| - 1)
    && forall j {:trigger ValueFlagAt(schema, arg, j)} :: from <= j < |arg| - 1 ==> !ValueFlagAt(schema, arg, j)
  }

  predicate IsBareCount(schema: Schema, arg: string) {
    schema.numericCount.Some? && |arg| > 1 && DigitsOnly(arg[1..])
  }

  // A listed flag, a count in bounds, or a cluster of listed flags.
  ghost predicate OptionOk(schema: Schema, arg: string) {
    if IsBareCount(schema, arg) then IntegerIn(arg[1..], schema.numericCount.value)
    else arg in schema.flags || (|arg| > 1 && arg[1] != '-' && ClusterFrom(schema, arg, 1))
  }

  predicate WantsValue(schema: Schema, arg: string) {
    && !IsBareCount(schema, arg) && |arg| > 1 && arg[1] != '-'
    && if arg in schema.flags then arg in schema.valueFlags else LastWantsValue(schema, arg, 1)
  }

  // The shapes that can only be a path.
  predicate PathShaped(arg: string) {
    (arg != "" && arg[0] == '/') || "./" <= arg || "../" <= arg || arg == "." || arg == ".."
  }

  // A leading mode word is one of the choices; behind some of them an integer is due.
  ghost predicate ModeOk(schema: Schema, before: seq<string>, arg: string) {
    schema.leadingChoices.Some? ==>
      && (|before| == 0 ==> arg in schema.leadingChoices.value)
      && (|before| == 1 && schema.integerModes.Some? && before[0] in schema.integerModes.value.0 ==>
            IntegerIn(arg, schema.integerModes.value.1))
  }

  // A path, unless it is a leading pattern that does not look like one.
  predicate MustBeReadable(schema: Schema, before: seq<string>, arg: string) {
    schema.positionalArePaths && !(|before| < schema.leadingPatterns && !PathShaped(arg))
  }

  // One operand, behind those that came before it.
  ghost predicate OperandOk(schema: Schema, before: seq<string>, arg: string) {
    && |before| < schema.maxPositional
    && (schema.positionalIntegers.Some? ==> IntegerIn(arg, schema.positionalIntegers.value))
    && ModeOk(schema, before, arg)
    && (|before| == 0 ==> !schema.refusesProgram(arg))
    && (MustBeReadable(schema, before, arg) ==> schema.readable(arg))
  }

  // Every token in its turn; `value` says that the flag before wants one.
  ghost predicate Acceptable(schema: Schema, args: seq<string>, value: bool, before: seq<string>)
    decreases |args|
  {
    if args == [] then true
    else
      var arg, rest := args[0], args[1..];
      && |arg| <= schema.maxArgumentBytes && '\0' !in arg
      && if value then ValueOk(schema, arg) && Acceptable(schema, rest, false, before)
         else if IsDashed(arg) then OptionOk(schema, arg) && Acceptable(schema, rest, WantsValue(schema, arg), before)
         else OperandOk(schema, before, arg) && Acceptable(schema, rest, false, before + [arg])
  }

  // ----------------------------------------------------------------- the clusters agree

  lemma ClusterStep(schema: Schema, arg: string, from: nat)
    requires 0 < from < |arg| - 1 && FlagAt(schema, arg, from) && !ValueFlagAt(schema, arg, from)
    ensures ClusterFrom(schema, arg, from) <==> ClusterFrom(schema, arg, from + 1)
    ensures LastWantsValue(schema, arg, from) <==> LastWantsValue(schema, arg, from + 1)
  {
    if ClusterFrom(schema, arg, from) {
      var k: nat :| from <= k < |arg| && FlagsUpTo(schema, arg, from, k)
        && (k == |arg| - 1 || (ValueFlagAt(schema, arg, k) && GluedOk(schema, arg[k + 1..])));
      assert k != from;
      assert FlagsUpTo(schema, arg, from + 1, k);
    }
    if ClusterFrom(schema, arg, from + 1) {
      var k: nat :| from + 1 <= k < |arg| && FlagsUpTo(schema, arg, from + 1, k)
        && (k == |arg| - 1 || (ValueFlagAt(schema, arg, k) && GluedOk(schema, arg[k + 1..])));
      assert FlagsUpTo(schema, arg, from, k);
    }
  }

  // A cluster that starts with a flag of its own value, or ends here.
  lemma ClusterEnds(schema: Schema, arg: string, from: nat)
    requires 0 < from < |arg| && FlagAt(schema, arg, from) && (ValueFlagAt(schema, arg, from) || from == |arg| - 1)
    ensures ClusterFrom(schema, arg, from) <==> from == |arg| - 1 || GluedOk(schema, arg[from + 1..])
    ensures LastWantsValue(schema, arg, from) <==> from == |arg| - 1 && ValueFlagAt(schema, arg, from)
  {
    if from == |arg| - 1 || GluedOk(schema, arg[from + 1..]) {
      assert FlagsUpTo(schema, arg, from, from);
    }
    if ClusterFrom(schema, arg, from) {
      var k: nat :| from <= k < |arg| && FlagsUpTo(schema, arg, from, k)
        && (k == |arg| - 1 || (ValueFlagAt(schema, arg, k) && GluedOk(schema, arg[k + 1..])));
      assert k > from ==> !ValueFlagAt(schema, arg, from);
    }
  }

  lemma GluedIff(schema: Schema, value: string)
    ensures GluedRefusal(schema, value).None? <==> GluedOk(schema, value)
  {
    if schema.positionalIntegers.Some? {
      IntegerIff(value, schema.positionalIntegers.value);
    } else if schema.numericCount.Some? {
      IntegerIff(value, schema.numericCount.value);
    }
  }

  // What the decomposition of a cluster says of it.
  ghost predicate Decomposed(schema: Schema, arg: string, from: nat) {
    var c := if from <= |arg| then Decompose(schema, arg[from..]) else None;
    && (ClusterFrom(schema, arg, from) <==>
          c.Some? && (c.value.glued.Some? ==> GluedRefusal(schema, c.value.glued.value).None?))
    && (ClusterFrom(schema, arg, from) ==> (c.value.due <==> LastWantsValue(schema, arg, from)))
  }

  lemma NoFlagNoCluster(schema: Schema, arg: string, from: nat)
    requires from < |arg| && !FlagAt(schema, arg, from)
    ensures !ClusterFrom(schema, arg, from)
  {}

  lemma {:induction false} ClusterIff(schema: Schema, arg: string, from: nat)
    requires 0 < from < |arg|
    ensures Decomposed(schema, arg, from)
    decreases |arg| - from
  {
    var body := arg[from..];
    assert body[0] == arg[from] && body[1..] == arg[from + 1..];
    if !FlagAt(schema, arg, from) {
      NoFlagNoCluster(schema, arg, from);
    } else if ValueFlagAt(schema, arg, from) {
      ClusterEnds(schema, arg, from);
      GluedIff(schema, body[1..]);
    } else if from == |arg| - 1 {
      ClusterEnds(schema, arg, from);
      assert body[1..] == "";
    } else {
      ClusterStep(schema, arg, from);
      ClusterIff(schema, arg, from + 1);
    }
  }

  // ------------------------------------------------------------------ one step agrees

  lemma OptionIff(schema: Schema, w: Walk, arg: string)
    requires IsDashed(arg)
    ensures var r := TakeOption(schema, w, arg);
      && (r.Ok? <==> OptionOk(schema, arg))
      && (r.Ok? && !w.pending ==> r.value == w.(pending := WantsValue(schema, arg)))
  {
    if IsBareCount(schema, arg) {
      IntegerIff(arg[1..], schema.numericCount.value);
    } else if !IsLong(arg) && arg !in schema.flags {
      ClusterIff(schema, arg, 1);
    }
  }

  lemma PathShapes(arg: string)
    ensures PathShaped(arg) <==> LooksLikePath(arg)
  {
    assert |"/"| == 1 && (arg != "" ==> arg[..1] == [arg[0]]);
  }

  // What the walk remembers of a leading mode word.
  predicate ModeIs(schema: Schema, w: Walk) {
    w.mode == if schema.leadingChoices.Some? && w.operands != [] then Some(w.operands[0]) else None
  }

  predicate AllReadable(schema: Schema, paths: seq<string>) {
    forall p <- paths :: schema.readable(p)
  }

  lemma ModeIff(schema: Schema, w: Walk, arg: string)
    requires ModeIs(schema, w)
    ensures ModeRefusal(schema, w, arg).None? <==> ModeOk(schema, w.operands, arg)
  {
    if schema.integerModes.Some? {
      IntegerIff(arg, schema.integerModes.value.1);
    }
  }

  // An operand that the walk takes is acceptable but for its path.
  lemma RefusalIff(schema: Schema, w: Walk, arg: string)
    requires ModeIs(schema, w)
    ensures OperandOk(schema, w.operands, arg) <==>
      OperandRefusal(schema, w, arg).None? && (MustBeReadable(schema, w.operands, arg) ==> schema.readable(arg))
  {
    ModeIff(schema, w, arg);
    if schema.positionalIntegers.Some? {
      IntegerIff(arg, schema.positionalIntegers.value);
    }
  }

  lemma OneMorePath(schema: Schema, paths: seq<string>, p: string)
    ensures AllReadable(schema, paths + [p]) <==> AllReadable(schema, paths) && schema.readable(p)
  {
    if AllReadable(schema, paths + [p]) {
      assert forall q <- paths :: q in paths + [p];
      assert p in paths + [p];
    }
  }

  lemma OperandIff(schema: Schema, w: Walk, arg: string)
    requires ModeIs(schema, w)
    ensures var r := TakeOperand(schema, w, arg);
      && (r.Ok? ==> r.value.operands == w.operands + [arg] && ModeIs(schema, r.value) && !r.value.pending)
      && (r.Ok? ==> forall p <- w.paths :: p in r.value.paths)
      && (OperandOk(schema, w.operands, arg) && AllReadable(schema, w.paths) <==> r.Ok? && AllReadable(schema, r.value.paths))
  {
    PathShapes(arg);
    RefusalIff(schema, w, arg);
    OneMorePath(schema, w.paths, arg);
  }

  lemma {:induction false} PathsIff(schema: Schema, paths: seq<string>)
    ensures PathsRefusal(schema, paths).None? <==> AllReadable(schema, paths)
  {
    if paths != [] {
      PathsIff(schema, paths[1..]);
      assert paths == [paths[0]] + paths[1..];
    }
  }

  // Nothing that was refused as a path is forgotten later.
  lemma {:induction false} PathsStay(schema: Schema, w: Walk, args: seq<string>)
    requires TakeAll(schema, w, args).Ok?
    ensures forall p <- w.paths :: p in TakeAll(schema, w, args).value.paths
    decreases |args|
  {
    if args != [] {
      PathsStay(schema, Take(schema, w, args[0]).value, args[1..]);
    }
  }

  lemma ValueIff(schema: Schema, value: string)
    ensures ValueRefusal(schema, value).None? <==> ValueOk(schema, value)
  {
    if schema.positionalIntegers.Some? {
      IntegerIff(value, schema.positionalIntegers.value);
    }
  }

  // ------------------------------------------------------------------ the whole vector

  ghost predicate WalkGoesThrough(schema: Schema, w: Walk, args: seq<string>) {
    var r := TakeAll(schema, w, args);
    r.Ok? && AllReadable(schema, r.value.paths)
  }

  lemma WalkUnfold(schema: Schema, w: Walk, args: seq<string>)
    requires args != []
    ensures WalkGoesThrough(schema, w, args) <==>
      Take(schema, w, args[0]).Ok? && WalkGoesThrough(schema, Take(schema, w, args[0]).value, args[1..])
  {}

  lemma {:induction false} WalkIff(schema: Schema, w: Walk, args: seq<string>)
    requires ModeIs(schema, w) && AllReadable(schema, w.paths)
    ensures WalkGoesThrough(schema, w, args) <==> Acceptable(schema, args, w.pending, w.operands)
    decreases |args|, 1
  {
    if args != [] {
      var arg := args[0];
      WalkUnfold(schema, w, args);
      if |arg| <= schema.maxArgumentBytes && '\0' !in arg {
        if w.pending {
          ValueIff(schema, arg);
          if Take(schema, w, arg).Ok? {
            WalkIff(schema, w.(pending := false), args[1..]);
          }
        } else if IsDashed(arg) {
          OptionIff(schema, w, arg);
          if Take(schema, w, arg).Ok? {
            WalkIff(schema, w.(pending := WantsValue(schema, arg)), args[1..]);
          }
        } else {
          OperandIff(schema, w, arg);
          OperandStep(schema, w, args);
        }
      }
    }
  }

  lemma OperandStep(schema: Schema, w: Walk, args: seq<string>)
    requires ModeIs(schema, w) && AllReadable(schema, w.paths) && args != [] && !w.pending && !IsDashed(args[0])
    requires |args[0]| <= schema.maxArgumentBytes && '\0' !in args[0]
    ensures WalkGoesThrough(schema, w, args) <==> Acceptable(schema, args, false, w.operands)
    decreases |args|, 0
  {
    var arg, r := args[0], TakeOperand(schema, w, args[0]);
    OperandIff(schema, w, arg);
    WalkUnfold(schema, w, args);
    if r.Ok? {
      if AllReadable(schema, r.value.paths) {
        WalkIff(schema, r.value, args[1..]);
      } else if TakeAll(schema, r.value, args[1..]).Ok? {
        PathsStay(schema, r.value, args[1..]);
      }
    }
  }

  /**
   * For every schema and every vector: it is accepted if and only if every token in its turn
   * is the value of a flag, an option of the catalog, or an operand within the operand count
   * that meets the integer, mode and program rules and is readable where it is a path.
   */
  lemma AcceptedIff(schema: Schema, args: seq<string>)
    ensures Validate(schema, args).Ok? <==> Acceptable(schema, args, false, [])
  {
    WalkIff(schema, START, args);
    if TakeAll(schema, START, args).Ok? {
      PathsIff(schema, TakeAll(schema, START, args).value.paths);
    }
  }

  // ------------------------------------------------------------ what an accepted one gives

  // The tokens that are neither options nor their values, in order.
  function OperandsIn(schema: Schema, args: seq<string>, value: bool): seq<string>
    decreases |args|
  {
    if args == [] then []
    else if !value && !IsDashed(args[0]) then [args[0]] + OperandsIn(schema, args[1..], false)
    else OperandsIn(schema, args[1..], !value && WantsValue(schema, args[0]))
  }

  // The paths among the operands, in order; `before` counts the operands in front.
  function PathsIn(schema: Schema, operands: seq<string>, before: nat): seq<string> {
    if operands == [] then []
    else
      PathOf(schema, operands[0], before) + PathsIn(schema, operands[1..], before + 1)
  }

  lemma OptionKeepsOperands(schema: Schema, w: Walk, arg: string)
    requires IsDashed(arg)
    ensures var r := TakeOption(schema, w, arg); r.Ok? ==> r.value.operands == w.operands && r.value.paths == w.paths
  {}

  function PathOf(schema: Schema, arg: string, before: nat): seq<string> {
    if schema.positionalArePaths && (before >= schema.leadingPatterns || PathShaped(arg)) then [arg] else []
  }

  lemma OperandTaken(schema: Schema, w: Walk, arg: string)
    requires TakeOperand(schema, w, arg).Ok?
    ensures var next := TakeOperand(schema, w, arg).value;
      !next.pending && next.operands == w.operands + [arg] && next.paths == w.paths + PathOf(schema, arg, |w.operands|)
  {
    PathShapes(arg);
  }

  lemma Behind<T>(a: seq<T>, b: seq<T>, c: seq<T>)
    ensures (a + b) + c == a + (b + c)
  {}

  lemma {:induction false} WalkGives(schema: Schema, w: Walk, args: seq<string>)
    requires TakeAll(schema, w, args).Ok?
    ensures var r := TakeAll(schema, w, args).value; var taken := OperandsIn(schema, args, w.pending);
      r.operands == w.operands + taken && r.paths == w.paths + PathsIn(schema, taken, |w.operands|)
    decreases |args|
  {
    if args != [] {
      var arg, next := args[0], Take(schema, w, args[0]).value;
      WalkGives(schema, next, args[1..]);
      if !w.pending && IsDashed(arg) {
        OptionIff(schema, w, arg);
        OptionKeepsOperands(schema, w, arg);
      } else if !w.pending {
        OperandTaken(schema, w, arg);
        var taken := OperandsIn(schema, args[1..], false);
        assert ([arg] + taken)[1..] == taken;
        Behind(w.operands, [arg], taken);
        Behind(w.paths, next.paths[|w.paths|..], PathsIn(schema, taken, |w.operands| + 1));
        assert next.paths == w.paths + next.paths[|w.paths|..];
      }
    }
  }

  /** An accepted vector gives its operands in order, and those of them that are paths. */
  lemma AcceptedGives(schema: Schema, args: seq<string>)
    requires Validate(schema, args).Ok?
    ensures Validate(schema, args).value.operands == OperandsIn(schema, args, false)
    ensures Validate(schema, args).value.paths == PathsIn(schema, OperandsIn(schema, args, false), 0)
  {
    WalkGives(schema, START, args);
  }

  // What a refusal says is so.
  ghost predicate Justified(schema: Schema, e: Refusal) {
    match e
    case TooLong(a) => |a| > schema.maxArgumentBytes
    case HasNul(a) => '\0' in a
    case NotAnInteger(a) => !DigitsOnly(a)
    case OutOfRange(a) => DigitsOnly(a) && exists b {:trigger IntegerIn(a, b)} :: InUse(schema, b) && !IntegerIn(a, b)
    case UnknownFlag(a) => IsDashed(a) && a !in schema.flags && (a[1] == '-' || !ClusterFrom(schema, a, 1))
    case TooManyPositionals => true
    case NotAMode(a) => schema.leadingChoices.Some? && a !in schema.leadingChoices.value
    case ProgramRefused(a) => schema.refusesProgram(a)
    case PathRefused(a) => schema.positionalArePaths && !schema.readable(a)
  }

  // Bounds that the schema sets on something.
  predicate InUse(schema: Schema, b: Bounds) {
    || schema.positionalIntegers == Some(b)
    || schema.numericCount == Some(b)
    || (schema.integerModes.Some? && schema.integerModes.value.1 == b)
  }

  lemma NumberRefusal(schema: Schema, s: string, b: Bounds)
    requires InUse(schema, b) && IntegerRefusal(s, b).Some?
    ensures Justified(schema, IntegerRefusal(s, b).value)
  {
    IntegerIff(s, b);
  }

  lemma GluedReason(schema: Schema, value: string)
    requires GluedRefusal(schema, value).Some?
    ensures Justified(schema, GluedRefusal(schema, value).value)
  {
    NumberRefusal(schema, value, if schema.positionalIntegers.Some? then schema.positionalIntegers.value else schema.numericCount.value);
  }

  lemma OptionReason(schema: Schema, w: Walk, arg: string)
    requires IsDashed(arg) && TakeOption(schema, w, arg).Err?
    ensures Justified(schema, TakeOption(schema, w, arg).error)
  {
    if IsBareCount(schema, arg) {
      NumberRefusal(schema, arg[1..], schema.numericCount.value);
    } else if arg[1] != '-' {
      ClusterIff(schema, arg, 1);
      var c := Decompose(schema, arg[1..]);
      if c.Some? {
        GluedReason(schema, c.value.glued.value);
      }
    }
  }

  lemma OperandReason(schema: Schema, w: Walk, arg: string)
    requires TakeOperand(schema, w, arg).Err?
    ensures Justified(schema, TakeOperand(schema, w, arg).error)
  {
    if schema.positionalIntegers.Some? && IntegerRefusal(arg, schema.positionalIntegers.value).Some? {
      NumberRefusal(schema, arg, schema.positionalIntegers.value);
    } else if schema.integerModes.Some? && IntegerRefusal(arg, schema.integerModes.value.1).Some? {
      NumberRefusal(schema, arg, schema.integerModes.value.1);
    }
  }

  lemma StepReason(schema: Schema, w: Walk, arg: string)
    requires Take(schema, w, arg).Err?
    ensures Justified(schema, Take(schema, w, arg).error)
  {
    if |arg| <= schema.maxArgumentBytes && '\0' !in arg {
      if w.pending {
        NumberRefusal(schema, arg, schema.positionalIntegers.value);
      } else if IsDashed(arg) {
        OptionReason(schema, w, arg);
      } else {
        OperandReason(schema, w, arg);
      }
    }
  }

  lemma {:induction false} WalkReason(schema: Schema, w: Walk, args: seq<string>)
    requires TakeAll(schema, w, args).Err?
    ensures Justified(schema, TakeAll(schema, w, args).error)
    decreases |args|
  {
    if Take(schema, w, args[0]).Err? {
      StepReason(schema, w, args[0]);
    } else {
      WalkReason(schema, Take(schema, w, args[0]).value, args[1..]);
    }
  }

  lemma {:induction false} PathReason(schema: Schema, paths: seq<string>)
    requires PathsRefusal(schema, paths).Some?
    ensures PathsRefusal(schema, paths).value.PathRefused? && PathsRefusal(schema, paths).value.arg in paths
    ensures !schema.readable(PathsRefusal(schema, paths).value.arg)
  {
    if schema.readable(paths[0]) {
      PathReason(schema, paths[1..]);
    }
  }

  lemma {:induction false} OnlyPaths(schema: Schema, operands: seq<string>, before: nat)
    ensures PathsIn(schema, operands, before) != [] ==> schema.positionalArePaths
  {
    if operands != [] {
      OnlyPaths(schema, operands[1..], before + 1);
    }
  }

  lemma {:induction false} TooManyReason(schema: Schema, w: Walk, args: seq<string>)
    requires TakeAll(schema, w, args) == Err(TooManyPositionals)
    ensures |w.operands| + |OperandsIn(schema, args, w.pending)| > schema.maxPositional
    decreases |args|
  {
    var arg, next := args[0], Take(schema, w, args[0]);
    if next.Ok? {
      TooManyReason(schema, next.value, args[1..]);
      if !w.pending && IsDashed(arg) {
        OptionIff(schema, w, arg);
        OptionKeepsOperands(schema, w, arg);
      } else if !w.pending {
        OperandTaken(schema, w, arg);
      }
    } else if !w.pending && IsDashed(arg) {
      OptionReason(schema, w, arg);
      OptionIsNotCounted(schema, w, arg);
    }
  }

  lemma OptionIsNotCounted(schema: Schema, w: Walk, arg: string)
    requires IsDashed(arg)
    ensures TakeOption(schema, w, arg) != Err(TooManyPositionals)
  {}

  /** Whatever a refusal names is what is wrong with the token it carries. */
  lemma RefusedForAReason(schema: Schema, args: seq<string>)
    requires Validate(schema, args).Err?
    ensures Justified(schema, Validate(schema, args).error)
    ensures Validate(schema, args) == Err(TooManyPositionals) ==> |OperandsIn(schema, args, false)| > schema.maxPositional
  {
    if TakeAll(schema, START, args).Err? {
      WalkReason(schema, START, args);
      if TakeAll(schema, START, args) == Err(TooManyPositionals) {
        TooManyReason(schema, START, args);
      }
    } else {
      WalkGives(schema, START, args);
      OnlyPaths(schema, OperandsIn(schema, args, false), 0);
      PathReason(schema, TakeAll(schema, START, args).value.paths);
    }
  }

  // ------------------------------------------------------------------- what is spelled out

  // A flag's letter.
  function Letters(flags: seq<string>): string {
    if flags == [] then [] else (if flags[0] == [] then [] else flags[0][1..]) + Letters(flags[1..])
  }

  // No character of a cluster is lost, added or moved.
  lemma {:induction false} ClusterKeepsItsLetters(schema: Schema, body: string)
    requires Decompose(schema, body).Some?
    ensures var c := Decompose(schema, body).value;
      && body == Letters(c.flags) + (if c.glued.Some? then c.glued.value else [])
      && forall f <- c.flags :: |f| == 2 && f in schema.flags
  {
    if body != [] {
      var flag := ['-', body[0]];
      assert body == [body[0]] + body[1..] && flag[1..] == [body[0]];
      assert Letters([flag]) == [body[0]];
      if !TakesValue(schema, flag) {
        ClusterKeepsItsLetters(schema, body[1..]);
        var c := Decompose(schema, body[1..]).value;
        assert ([flag] + c.flags)[1..] == c.flags;
        Behind([body[0]], Letters(c.flags), if c.glued.Some? then c.glued.value else []);
      }
    }
  }

  // Options that need no taking apart: listed flags and counts, each value by itself.
  predicate Plain(schema: Schema, args: seq<string>, value: bool)
    decreases |args|
  {
    args == [] || if value || !IsDashed(args[0]) then Plain(schema, args[1..], false)
      else (IsBareCount(schema, args[0]) || args[0] in schema.flags) && Plain(schema, args[1..], WantsValue(schema, args[0]))
  }

  lemma PlainFirst(schema: Schema, arg: string, rest: seq<string>, value: bool)
    ensures Plain(schema, [arg] + rest, value) <==>
      if value || !IsDashed(arg) then Plain(schema, rest, false)
      else (IsBareCount(schema, arg) || arg in schema.flags) && Plain(schema, rest, WantsValue(schema, arg))
  {
    assert ([arg] + rest)[1..] == rest;
  }

  lemma ListedFlagWants(schema: Schema, flag: string)
    requires Consistent(schema) && |flag| == 2 && flag[0] == '-' && flag in schema.flags
    ensures IsDashed(flag) && WantsValue(schema, flag) == TakesValue(schema, flag)
  {
    if flag[1] == '-' {
      assert flag == "--";
    }
  }

  lemma {:induction false} PlainCluster(schema: Schema, body: string, rest: seq<string>)
    requires Consistent(schema) && Decompose(schema, body).Some?
    requires Plain(schema, rest, Decompose(schema, body).value.due)
    ensures Plain(schema, ClusterSpelling(Decompose(schema, body).value) + rest, false)
  {
    var c := Decompose(schema, body).value;
    if body == [] {
      assert ClusterSpelling(c) + rest == rest;
    } else {
      var flag := ['-', body[0]];
      ListedFlagWants(schema, flag);
      if TakesValue(schema, flag) && body[1..] != [] {
        assert ClusterSpelling(c) + rest == [flag] + ([body[1..]] + rest);
        PlainFirst(schema, body[1..], rest, true);
        PlainFirst(schema, flag, [body[1..]] + rest, false);
      } else if TakesValue(schema, flag) {
        assert ClusterSpelling(c) + rest == [flag] + rest;
        PlainFirst(schema, flag, rest, false);
      } else {
        PlainCluster(schema, body[1..], rest);
        var tail := ClusterSpelling(Decompose(schema, body[1..]).value);
        assert ClusterSpelling(c) + rest == [flag] + (tail + rest);
        PlainFirst(schema, flag, tail + rest, false);
      }
    }
  }

  /** Once an accepted vector is written out there is no cluster and no glued value left. */
  lemma {:induction false} NothingIsGlued(schema: Schema, w: Walk, args: seq<string>)
    requires Consistent(schema) && TakeAll(schema, w, args).Ok?
    ensures Plain(schema, Expand(schema, args, w.pending), w.pending)
    decreases |args|
  {
    if args != [] {
      var arg, rest := args[0], args[1..];
      var next := Take(schema, w, arg).value;
      NothingIsGlued(schema, next, rest);
      if !w.pending && IsDashed(arg) {
        OptionIff(schema, w, arg);
        SpelledPlain(schema, arg, Expand(schema, rest, next.pending));
      } else {
        TakenOutOfValue(schema, w, arg);
        PlainFirst(schema, arg, Expand(schema, rest, false), w.pending);
      }
    }
  }

  lemma SpelledPlain(schema: Schema, arg: string, rest: seq<string>)
    requires Consistent(schema) && IsDashed(arg) && OptionOk(schema, arg) && Plain(schema, rest, WantsValue(schema, arg))
    ensures Plain(schema, Spelled(schema, arg) + rest, false) && Due(schema, arg) == WantsValue(schema, arg)
  {
    if IsBareCount(schema, arg) || arg in schema.flags {
      PlainFirst(schema, arg, rest, false);
      if IsLong(arg) {
        assert !WantsValue(schema, arg);
      }
    } else {
      ClusterIff(schema, arg, 1);
      PlainCluster(schema, arg[1..], rest);
    }
  }

  // A command that reads files, and a policy that allows none.
  lemma NoFileOutside(readable: string -> bool)
    requires !readable("/etc/passwd")
    ensures var cat := Schema(["-n"], [], 16, 255, None, true, 0, None, None, None, _ => false, readable);
      Validate(cat, ["/etc/passwd"]).Err?
  {
    var cat := Schema(["-n"], [], 16, 255, None, true, 0, None, None, None, _ => false, readable);
    AcceptedIff(cat, ["/etc/passwd"]);
    assert "/etc/passwd"[0] == '/';
  }
}
