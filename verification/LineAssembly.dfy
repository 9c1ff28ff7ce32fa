/**
 * How the monitor's lines are put together from whatever pieces of text arrive, with the
 * bound on a line that never ends.
 */
module LineAssembly {
  import opened Basics

  const MAX_PENDING_LINE: nat := 65536

  function FirstBreak(s: string): (k: nat)
    ensures k <= |s|
    ensures k < |s| ==> s[k] == '\n'
  {
    if s == "" || s[0] == '\n' then 0 else 1 + FirstBreak(s[1..])
  }

  // The complete lines of a text, and what follows the last line break.
  function Lines(s: string): seq<string>
    decreases |s|
  {
    var k := FirstBreak(s);
    if k == |s| then [] else [s[..k]] + Lines(s[k + 1..])
  }

  function Rest(s: string): string
    decreases |s|
  {
    var k := FirstBreak(s);
    if k == |s| then s else Rest(s[k + 1..])
  }

  // Every line of a text, the last one too when it has no break but some text.
  function AllLines(s: string): seq<string> {
    if Rest(s) == "" then Lines(s) else Lines(s) + [Rest(s)]
  }

  // The text kept for the next piece, the lines handed on, and the fragments cut off.
  datatype Assembly = Assembly(buffer: string, routed: seq<string>, dropped: seq<string>)

  const EMPTY := Assembly("", [], [])

  function Feed(a: Assembly, chunk: string): Assembly {
    var lines, rest := Lines(a.buffer + chunk), Rest(a.buffer + chunk);
    if |rest| > MAX_PENDING_LINE then Assembly("", a.routed + lines, a.dropped + [rest])
    else Assembly(rest, a.routed + lines, a.dropped)
  }

  function FeedAll(a: Assembly, chunks: seq<string>): Assembly
    decreases |chunks|
  {
    if chunks == [] then a else FeedAll(Feed(a, chunks[0]), chunks[1..])
  }

  function Flush(a: Assembly): Assembly {
    if a.buffer == "" then a else Assembly("", a.routed + [a.buffer], a.dropped)
  }

  function Concat(chunks: seq<string>): string {
    if chunks == [] then "" else chunks[0] + Concat(chunks[1..])
  }

  class Assembler {
    var buffer: string
    var routed: seq<string>
    var dropped: seq<string>

    function Abstract(): Assembly
      reads this
    {
      Assembly(buffer, routed, dropped)
    }

    constructor ()
      ensures Abstract() == EMPTY
    {
      buffer, routed, dropped := "", [], [];
    }

    method OnStderr(chunk: string)
      modifies this
      ensures Abstract() == Feed(old(Abstract()), chunk)
    {
      var lines, rest := Lines(buffer + chunk), Rest(buffer + chunk);
      if |rest| > MAX_PENDING_LINE {
        dropped := dropped + [rest];
        buffer := "";
      } else {
        buffer := rest;
      }
      ghost var was := routed;
      for i := 0 to |lines|
        invariant routed == was + lines[..i] && buffer == Feed(old(Abstract()), chunk).buffer
          && dropped == Feed(old(Abstract()), chunk).dropped
      {
        routed := routed + [lines[i]];
        assert lines[..i + 1] == lines[..i] + [lines[i]];
      }
      assert lines[..|lines|] == lines;
    }

    method FlushTail()
      modifies this
      ensures Abstract() == Flush(old(Abstract()))
    {
      var tail := buffer;
      buffer := "";
      if |tail| == 0 {
        return;
      }
      routed := routed + [tail];
    }
  }

  // ----------------------------------------------------------- splitting in pieces

  lemma {:induction false} BreakInFirst(a: string, b: string)
    requires FirstBreak(a) < |a|
    ensures FirstBreak(a + b) == FirstBreak(a)
  {
    if a[0] != '\n' {
      assert (a + b)[1..] == a[1..] + b;
      BreakInFirst(a[1..], b);
    }
  }

  lemma Unfold(line: string, tail: string)
    requires FirstBreak(line) == |line|
    ensures Lines(line + "\n" + tail) == [line] + Lines(tail) && Rest(line + "\n" + tail) == Rest(tail)
  {
    var s := line + "\n" + tail;
    BreakAfter(line, tail);
    assert s[..|line|] == line && s[|line| + 1..] == tail;
  }

  lemma {:induction false} BreakAfter(line: string, tail: string)
    requires FirstBreak(line) == |line|
    ensures FirstBreak(line + "\n" + tail) == |line|
  {
    if line != "" {
      BreakAfter(line[1..], tail);
      assert (line + "\n" + tail)[1..] == line[1..] + "\n" + tail;
    }
  }

  lemma {:induction false} BeforeBreak(s: string)
    ensures FirstBreak(s[..FirstBreak(s)]) == FirstBreak(s)
  {
    if s != "" && s[0] != '\n' {
      BeforeBreak(s[1..]);
      assert s[..FirstBreak(s)][1..] == s[1..][..FirstBreak(s[1..])];
    }
  }

  lemma Regroup(line: string, a: seq<string>, b: seq<string>)
    ensures [line] + (a + b) == ([line] + a) + b
  {}

  // The remainder of the first piece, followed by the second, gives the rest of the lines.
  lemma {:induction false} SplitAppend(a: string, b: string)
    ensures Lines(a + b) == Lines(a) + Lines(Rest(a) + b) && Rest(a + b) == Rest(Rest(a) + b)
    decreases |a|
  {
    var k := FirstBreak(a);
    if k < |a| {
      var line, tail := a[..k], a[k + 1..];
      BeforeBreak(a);
      assert a == line + "\n" + tail && a + b == line + "\n" + (tail + b);
      Unfold(line, tail);
      Unfold(line, tail + b);
      SplitAppend(tail, b);
      Regroup(line, Lines(tail), Lines(Rest(tail) + b));
    }
  }

  lemma {:induction false} RestHasNoBreak(s: string)
    ensures FirstBreak(Rest(s)) == |Rest(s)|
    decreases |s|
  {
    var k := FirstBreak(s);
    if k < |s| {
      RestHasNoBreak(s[k + 1..]);
    }
  }

  // --------------------------------------------------------- the lines are the text

  // The lines written one after the other, each with its break.
  function Unsplit(lines: seq<string>): string {
    if lines == [] then "" else lines[0] + "\n" + Unsplit(lines[1..])
  }

  predicate Unbroken(line: string) {
    '\n' !in line
  }

  lemma {:induction false} NoBreakBefore(s: string)
    ensures Unbroken(s[..FirstBreak(s)])
  {
    if s != "" && s[0] != '\n' {
      NoBreakBefore(s[1..]);
      assert s[..FirstBreak(s)] == [s[0]] + s[1..][..FirstBreak(s[1..])];
    }
  }

  lemma UnsplitFirst(line: string, rest: seq<string>, tail: string)
    ensures Unsplit([line] + rest) + tail == line + "\n" + (Unsplit(rest) + tail)
  {
    assert ([line] + rest)[1..] == rest;
  }

  predicate TextOf(s: string, lines: seq<string>, rest: string) {
    Unsplit(lines) + rest == s && Unbroken(rest) && forall line <- lines :: Unbroken(line)
  }

  lemma TextOfOneMore(line: string, tail: string, lines: seq<string>, rest: string)
    requires Unbroken(line) && TextOf(tail, lines, rest)
    ensures TextOf(line + "\n" + tail, [line] + lines, rest)
  {
    UnsplitFirst(line, lines, rest);
  }

  /** No line holds a break, and the lines with their breaks, then the rest, are the text. */
  lemma {:induction false} TextIsItsLines(s: string)
    ensures TextOf(s, Lines(s), Rest(s))
    decreases |s|
  {
    var k := FirstBreak(s);
    NoBreakBefore(s);
    if k == |s| {
      assert s[..k] == s;
    } else {
      TextIsItsLines(s[k + 1..]);
      TextOfOneMore(s[..k], s[k + 1..], Lines(s[k + 1..]), Rest(s[k + 1..]));
      assert s == s[..k] + "\n" + s[k + 1..];
    }
  }

  // One piece: a remainder of 65536 characters is kept, and a longer one is cut off.
  lemma PendingBound(a: Assembly, chunk: string)
    ensures var next, rest := Feed(a, chunk), Rest(a.buffer + chunk);
      if |rest| <= 65536 then next.buffer == rest && next.dropped == a.dropped
      else next.buffer == "" && next.dropped == a.dropped + [rest]
  {}

  // ------------------------------------------------------- independence of the pieces

  lemma {:induction false} DropsStay(a: Assembly, chunks: seq<string>)
    ensures |FeedAll(a, chunks).dropped| >= |a.dropped|
    decreases |chunks|
  {
    if chunks != [] {
      DropsStay(Feed(a, chunks[0]), chunks[1..]);
    }
  }

  lemma Join(a: string, b: string, c: string)
    ensures a + b + c == a + (b + c)
  {}

  // As long as nothing is cut off, the lines handed on are those of the whole text.
  lemma {:induction false} FeedAllSplits(a: Assembly, text: string, chunks: seq<string>)
    requires a.dropped == [] && Lines(text) == a.routed && Rest(text) == a.buffer
    requires FeedAll(a, chunks).dropped == []
    ensures var r := FeedAll(a, chunks); Lines(text + Concat(chunks)) == r.routed && Rest(text + Concat(chunks)) == r.buffer
    decreases |chunks|
  {
    if chunks == [] {
      assert text + "" == text;
    } else {
      var c, rest := chunks[0], chunks[1..];
      var next := Feed(a, c);
      DropsStay(next, rest);
      SplitAppend(text, c);
      FeedAllSplits(next, text + c, rest);
      Join(text, c, Concat(rest));
    }
  }

  // ------------------------------------------------------------- counting characters

  function Chars(lines: seq<string>): nat {
    if lines == [] then 0 else |lines[0]| + Chars(lines[1..])
  }

  function Breaks(s: string): nat {
    if s == "" then 0 else (if s[0] == '\n' then 1 else 0) + Breaks(s[1..])
  }

  lemma {:induction false} CharsAppend(a: seq<string>, b: seq<string>)
    ensures Chars(a + b) == Chars(a) + Chars(b)
  {
    if a == [] {
      assert a + b == b;
    } else {
      CharsAppend(a[1..], b);
      assert (a + b)[0] == a[0] && (a + b)[1..] == a[1..] + b;
    }
  }

  lemma {:induction false} BreaksAppend(a: string, b: string)
    ensures Breaks(a + b) == Breaks(a) + Breaks(b)
  {
    if a == "" {
      assert a + b == b;
    } else {
      BreaksAppend(a[1..], b);
      assert (a + b)[0] == a[0] && (a + b)[1..] == a[1..] + b;
    }
  }

  lemma {:induction false} NoBreaks(s: string)
    requires FirstBreak(s) == |s|
    ensures Breaks(s) == 0
  {
    if s != "" {
      NoBreaks(s[1..]);
    }
  }

  lemma {:induction false} BreaksAtFirst(s: string)
    requires FirstBreak(s) < |s|
    ensures Breaks(s) == 1 + Breaks(s[FirstBreak(s) + 1..])
  {
    var k := FirstBreak(s);
    if s[0] != '\n' {
      BreaksAtFirst(s[1..]);
      assert s[1..][k..] == s[k + 1..];
    }
  }

  lemma {:induction false} SplitCounts(s: string)
    ensures Chars(Lines(s)) + |Rest(s)| + Breaks(s) == |s|
    decreases |s|
  {
    var k := FirstBreak(s);
    if k == |s| {
      NoBreaks(s);
    } else {
      BreaksAtFirst(s);
      SplitCounts(s[k + 1..]);
      var lines := Lines(s[k + 1..]);
      assert ([s[..k]] + lines)[1..] == lines;
    }
  }

  // Every character is handed on, kept, cut off, or a line break.
  lemma {:induction false} FeedAllCounts(a: Assembly, chunks: seq<string>)
    requires FirstBreak(a.buffer) == |a.buffer|
    ensures var r := FeedAll(a, chunks);
      Chars(r.routed) + |r.buffer| + Chars(r.dropped) + Breaks(Concat(chunks))
        == Chars(a.routed) + |a.buffer| + Chars(a.dropped) + |Concat(chunks)|
    decreases |chunks|
  {
    if chunks != [] {
      var c, next := chunks[0], Feed(a, chunks[0]);
      var lines, rest := Lines(a.buffer + c), Rest(a.buffer + c);
      SplitCounts(a.buffer + c);
      NoBreaks(a.buffer);
      BreaksAppend(a.buffer, c);
      BreaksAppend(c, Concat(chunks[1..]));
      CharsAppend(a.routed, lines);
      CharsAppend(a.dropped, [rest]);
      assert [rest][1..] == [];
      RestHasNoBreak(a.buffer + c);
      FeedAllCounts(next, chunks[1..]);
    }
  }

  lemma AllLinesCounts(s: string)
    ensures Chars(AllLines(s)) + Breaks(s) == |s|
  {
    SplitCounts(s);
    CharsAppend(Lines(s), [Rest(s)]);
    assert [Rest(s)][1..] == [];
  }

  lemma {:induction false} DroppedAreLong(a: Assembly, chunks: seq<string>)
    requires a.dropped != [] ==> Chars(a.dropped) > MAX_PENDING_LINE
    ensures var r := FeedAll(a, chunks); r.dropped != [] ==> Chars(r.dropped) > MAX_PENDING_LINE
    decreases |chunks|
  {
    if chunks != [] {
      var rest := Rest(a.buffer + chunks[0]);
      CharsAppend(a.dropped, [rest]);
      assert [rest][1..] == [];
      DroppedAreLong(Feed(a, chunks[0]), chunks[1..]);
    }
  }

  // The line still unfinished after the first i pieces is within the bound.
  predicate PendingFits(chunks: seq<string>, i: nat)
    requires i <= |chunks|
  {
    |Rest(Concat(chunks[..i]))| <= MAX_PENDING_LINE
  }

  predicate EveryPendingFits(chunks: seq<string>) {
    forall i {:trigger PendingFits(chunks, i)} :: 0 <= i <= |chunks| ==> PendingFits(chunks, i)
  }

  // The same, for pieces that follow some text.
  predicate FitsAfter(text: string, chunks: seq<string>, i: nat)
    requires i <= |chunks|
  {
    |Rest(text + Concat(chunks[..i]))| <= MAX_PENDING_LINE
  }

  predicate AllFitAfter(text: string, chunks: seq<string>) {
    forall i {:trigger FitsAfter(text, chunks, i)} :: 0 <= i <= |chunks| ==> FitsAfter(text, chunks, i)
  }

  lemma FitsNext(text: string, chunks: seq<string>, i: nat)
    requires 0 < i <= |chunks|
    ensures FitsAfter(text, chunks, i) <==> FitsAfter(text + chunks[0], chunks[1..], i - 1)
  {
    assert chunks[..i][0] == chunks[0] && chunks[..i][1..] == chunks[1..][..i - 1];
    Join(text, chunks[0], Concat(chunks[1..][..i - 1]));
  }

  lemma AllFitUnfold(text: string, chunks: seq<string>)
    requires chunks != []
    ensures AllFitAfter(text, chunks) <==> |Rest(text)| <= MAX_PENDING_LINE && AllFitAfter(text + chunks[0], chunks[1..])
  {
    var rest := chunks[1..];
    assert chunks[..0] == [] && text + "" == text;
    assert FitsAfter(text, chunks, 0) <==> |Rest(text)| <= MAX_PENDING_LINE;
    if AllFitAfter(text, chunks) {
      forall i {:trigger FitsAfter(text + chunks[0], rest, i)} | 0 <= i <= |rest| ensures FitsAfter(text + chunks[0], rest, i) {
        assert FitsAfter(text, chunks, i + 1);
        FitsNext(text, chunks, i + 1);
      }
    }
    if |Rest(text)| <= MAX_PENDING_LINE && AllFitAfter(text + chunks[0], rest) {
      forall i {:trigger FitsAfter(text, chunks, i)} | 0 <= i <= |chunks| ensures FitsAfter(text, chunks, i) {
        if i > 0 {
          assert FitsAfter(text + chunks[0], rest, i - 1);
          FitsNext(text, chunks, i);
        }
      }
    }
  }

  // Nothing is cut off exactly as long as the unfinished line fits after every piece.
  lemma {:induction false} NothingDroppedIff(a: Assembly, text: string, chunks: seq<string>)
    requires a.dropped == [] && Rest(text) == a.buffer && |a.buffer| <= MAX_PENDING_LINE
    ensures FeedAll(a, chunks).dropped == [] <==> AllFitAfter(text, chunks)
    decreases |chunks|
  {
    if chunks == [] {
      assert chunks[..0] == [] && text + "" == text;
      assert FitsAfter(text, chunks, 0);
    } else {
      var c, next := chunks[0], Feed(a, chunks[0]);
      AllFitUnfold(text, chunks);
      SplitAppend(text, c);
      if |Rest(text + c)| <= MAX_PENDING_LINE {
        NothingDroppedIff(next, text + c, chunks[1..]);
      } else {
        DropsStay(next, chunks[1..]);
        FirstMustFit(text + c, chunks[1..]);
      }
    }
  }

  lemma FirstMustFit(text: string, chunks: seq<string>)
    ensures AllFitAfter(text, chunks) ==> |Rest(text)| <= MAX_PENDING_LINE
  {
    assert chunks[..0] == [] && text + "" == text;
    assert FitsAfter(text, chunks, 0) <==> |Rest(text)| <= MAX_PENDING_LINE;
  }

  lemma FitsFromNothing(chunks: seq<string>)
    ensures AllFitAfter("", chunks) <==> EveryPendingFits(chunks)
  {
    forall i: nat | i <= |chunks| ensures PendingFits(chunks, i) <==> FitsAfter("", chunks, i) {
      assert "" + Concat(chunks[..i]) == Concat(chunks[..i]);
    }
  }

  /**
   * The lines handed on after the final flush are those of the whole text, however it was cut
   * into pieces, exactly when after every piece the line that is still unfinished is within
   * the bound.
   */
  lemma ChunksDoNotMatterIff(chunks: seq<string>)
    ensures Flush(FeedAll(EMPTY, chunks)).routed == AllLines(Concat(chunks)) <==> EveryPendingFits(chunks)
  {
    var r, text := FeedAll(EMPTY, chunks), Concat(chunks);
    NothingDroppedIff(EMPTY, "", chunks);
    FitsFromNothing(chunks);
    if r.dropped == [] {
      assert "" + text == text;
      FeedAllSplits(EMPTY, "", chunks);
    } else {
      FeedAllCounts(EMPTY, chunks);
      AllLinesCounts(text);
      DroppedAreLong(EMPTY, chunks);
      CharsAppend(r.routed, [r.buffer]);
      assert [r.buffer][1..] == [];
    }
  }

  // ------------------------------------------------------------- a bound on the text alone

  lemma {:induction false} BreakIsLater(r: string, b: string)
    requires FirstBreak(r) == |r|
    ensures FirstBreak(r + b) >= |r|
  {
    if r != "" {
      BreakIsLater(r[1..], b);
      assert (r + b)[1..] == r[1..] + b;
    }
  }

  // What is unfinished after part of a text is the beginning of one of its lines.
  lemma RestIsInALine(a: string, b: string) returns (l: string)
    requires Rest(a) != ""
    ensures l in AllLines(a + b) && |Rest(a)| <= |l|
  {
    var r := Rest(a);
    SplitAppend(a, b);
    RestHasNoBreak(a);
    BreakIsLater(r, b);
    var k := FirstBreak(r + b);
    l := (r + b)[..k];
    if k == |r + b| {
      assert l == r + b == Rest(a + b);
    } else {
      assert l == Lines(r + b)[0];
      assert l in Lines(a) + Lines(r + b);
    }
  }

  lemma Associate(line: string, ls: seq<string>, r: string)
    ensures ([line] + ls) + [r] == [line] + (ls + [r])
  {}

  lemma LinesUnfold(text: string, line: string, tail: string)
    requires FirstBreak(text) < |text| && line == text[..FirstBreak(text)] && tail == text[FirstBreak(text) + 1..]
    ensures AllLines(text) == [line] + AllLines(tail)
  {
    var ls, r := Lines(tail), Rest(tail);
    assert Lines(text) == [line] + ls && Rest(text) == r;
    Associate(line, ls, r);
  }

  lemma LoneLine(text: string)
    requires FirstBreak(text) == |text|
    ensures AllLines(text) == (if text == "" then [] else [text]) && Rest(text) == text && text == text + ""
  {}

  lemma FirstLine(text: string)
    ensures Rest(text[..FirstBreak(text)]) == text[..FirstBreak(text)]
  {
    BeforeBreak(text);
    LoneLine(text[..FirstBreak(text)]);
  }

  lemma CutAt(text: string, k: nat)
    requires k < |text| && text[k] == '\n'
    ensures text == text[..k] + "\n" + text[k + 1..]
  {}

  lemma LaterLine(text: string, line: string, a: string, b: string)
    requires FirstBreak(text) < |text| && line == text[..FirstBreak(text)] && text[FirstBreak(text) + 1..] == a + b
    ensures text == line + "\n" + a + b && Rest(line + "\n" + a) == Rest(a)
  {
    CutAt(text, FirstBreak(text));
    BeforeBreak(text);
    Unfold(line, a);
    Join(line + "\n", a, b);
  }

  // Every line is what is unfinished at some place of the text.
  lemma {:induction false} LineIsARest(text: string, l: string) returns (a: string, b: string)
    requires l in AllLines(text)
    ensures text == a + b && Rest(a) == l
    decreases |text|
  {
    var k := FirstBreak(text);
    if k == |text| {
      LoneLine(text);
      a, b := text, "";
    } else if l == text[..k] {
      FirstLine(text);
      a, b := text[..k], text[k..];
      assert text == a + b;
    } else {
      LinesUnfold(text, text[..k], text[k + 1..]);
      a, b := LineIsARest(text[k + 1..], l);
      LaterLine(text, text[..k], a, b);
      a := text[..k] + "\n" + a;
    }
  }

  lemma {:induction false} ConcatSplits(chunks: seq<string>, i: nat)
    requires i <= |chunks|
    ensures Concat(chunks) == Concat(chunks[..i]) + Concat(chunks[i..])
  {
    if i == 0 {
      assert chunks[..0] == [] && chunks[0..] == chunks;
    } else {
      ConcatSplits(chunks[1..], i - 1);
      assert chunks[..i][1..] == chunks[1..][..i - 1] && chunks[1..][i - 1..] == chunks[i..];
      Join(chunks[0], Concat(chunks[1..][..i - 1]), Concat(chunks[i..]));
    }
  }

  predicate LinesFit(text: string) {
    forall l <- AllLines(text) :: |l| <= MAX_PENDING_LINE
  }

  lemma ShortLinesArePending(chunks: seq<string>)
    requires LinesFit(Concat(chunks))
    ensures EveryPendingFits(chunks)
  {
    forall i {:trigger PendingFits(chunks, i)} | 0 <= i <= |chunks| ensures PendingFits(chunks, i) {
      ConcatSplits(chunks, i);
      if Rest(Concat(chunks[..i])) != "" {
        var l := RestIsInALine(Concat(chunks[..i]), Concat(chunks[i..]));
      }
    }
  }

  ghost predicate CutSafely(text: string, chunks: seq<string>) {
    Concat(chunks) == text ==> Flush(FeedAll(EMPTY, chunks)).routed == AllLines(text)
  }

  /** Every way of cutting a text hands on its lines if and only if no line exceeds the bound. */
  lemma AnyCuttingIff(text: string)
    ensures (forall chunks {:trigger CutSafely(text, chunks)} :: CutSafely(text, chunks)) <==> LinesFit(text)
  {
    if LinesFit(text) {
      forall chunks {:trigger CutSafely(text, chunks)} ensures CutSafely(text, chunks) {
        if Concat(chunks) == text {
          ShortLinesArePending(chunks);
          ChunksDoNotMatterIff(chunks);
        }
      }
    } else {
      var l :| l in AllLines(text) && |l| > MAX_PENDING_LINE;
      var a, b := LineIsARest(text, l);
      var chunks := [a, b];
      assert chunks[1..] == [b] && [b][1..] == [] && b + "" == b && Concat([b]) == b;
      assert chunks[..1] == [a] && [a][1..] == [] && a + "" == a && Concat([a]) == a;
      assert !PendingFits(chunks, 1);
      ChunksDoNotMatterIff(chunks);
      assert !CutSafely(text, chunks);
    }
  }

  // ------------------------------------------------------------------ a text that is lost

  // One character more than the bound, and no break.
  function LongText(): string {
    seq(MAX_PENDING_LINE + 1, _ => 'x')
  }

  lemma {:induction false} NoBreakInside(s: string)
    requires forall i {:trigger s[i]} :: 0 <= i < |s| ==> s[i] != '\n'
    ensures FirstBreak(s) == |s|
  {
    if s != "" {
      assert forall i {:trigger s[1..][i]} :: 0 <= i < |s| - 1 ==> s[1..][i] == s[i + 1];
      NoBreakInside(s[1..]);
    }
  }

  lemma LongFeed(text: string)
    requires FirstBreak(text) == |text| && |text| > MAX_PENDING_LINE
    ensures FeedAll(EMPTY, [text]) == Assembly("", [], [text])
  {
    LoneLine(text);
    assert "" + text == text && [text][1..] == [];
    assert Feed(EMPTY, text) == Assembly("", [], [text]);
  }

  // It is a line of its own, but nothing is handed on when it arrives in one piece.
  lemma LongLineIsLost()
    ensures AllLines(LongText()) == [LongText()] && Flush(FeedAll(EMPTY, [LongText()])).routed == []
    ensures FeedAll(EMPTY, [LongText()]).dropped == [LongText()]
  {
    NoBreakInside(LongText());
    LoneLine(LongText());
    LongFeed(LongText());
  }
}
