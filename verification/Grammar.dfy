/**
 * The command language as a way to write words down, and the tokens such a line is read as.
 * The sets of bytes are spelled out here once more, so that the tokenizer is held against
 * them and not against its own definitions.
 */
module Grammar {
  import opened Basics
  import opened Lexer

  // What can stand between double quotes: a byte, a byte that needs its backslash, a backslash
  // that stays, and a broken line.
  datatype Item = Lit(c: char) | Esc(c: char) | Both(c: char) | Joined

  // What a word is made of; pieces that touch are one word.
  datatype Piece = Bare(c: char) | Escaped(c: char) | Single(s: string) | Double(items: seq<Item>)

  type Word = seq<Piece>

  predicate IsBlank(c: char) {
    c in {' ', '\t', '\n', 11 as char, 12 as char, '\r'}
  }

  predicate AllBlank(s: string) {
    forall i {:trigger s[i]} :: 0 <= i < |s| ==> IsBlank(s[i])
  }

  predicate ItemOk(i: Item) {
    match i
    case Lit(c) => c != '"' && c != '\\'
    case Esc(c) => c in {'"', '\\', '$', '`'}
    case Both(c) => c !in {'"', '\\', '$', '`', '\n'}
    case Joined => true
  }

  predicate PieceOk(p: Piece) {
    match p
    case Bare(c) => !IsBlank(c) && c !in {'\'', '"', '\\'}
    case Escaped(_) => true
    case Single(s) => '\'' !in s
    case Double(items) => forall i {:trigger ItemOk(items[i])} :: 0 <= i < |items| ==> ItemOk(items[i])
  }

  predicate PiecesOk(w: Word) {
    forall i {:trigger PieceOk(w[i])} :: 0 <= i < |w| ==> PieceOk(w[i])
  }

  // A word does not begin with a bare number sign.
  predicate WordOk(w: Word) {
    w != [] && PiecesOk(w) && w[0] != Bare('#')
  }

  // ------------------------------------------------------------- writing and meaning

  function WrittenItem(i: Item): string {
    match i
    case Lit(c) => [c]
    case Esc(c) => ['\\', c]
    case Both(c) => ['\\', c]
    case Joined => ['\\', '\n']
  }

  function ItemMeans(i: Item): string {
    match i
    case Lit(c) => [c]
    case Esc(c) => [c]
    case Both(c) => ['\\', c]
    case Joined => ""
  }

  function WrittenItems(items: seq<Item>): string {
    if items == [] then "" else WrittenItem(items[0]) + WrittenItems(items[1..])
  }

  function ItemsMean(items: seq<Item>): string {
    if items == [] then "" else ItemMeans(items[0]) + ItemsMean(items[1..])
  }

  function WrittenPiece(p: Piece): string {
    match p
    case Bare(c) => [c]
    case Escaped(c) => ['\\', c]
    case Single(s) => ['\''] + (s + ['\''])
    case Double(items) => ['"'] + (WrittenItems(items) + ['"'])
  }

  function PieceMeans(p: Piece): string {
    match p
    case Bare(c) => [c]
    case Escaped(c) => [c]
    case Single(s) => s
    case Double(items) => ItemsMean(items)
  }

  function Written(w: Word): string {
    if w == [] then "" else WrittenPiece(w[0]) + Written(w[1..])
  }

  function Means(w: Word): string {
    if w == [] then "" else PieceMeans(w[0]) + Means(w[1..])
  }

  // Words, each after its gap.
  datatype Spaced = Spaced(gap: string, word: Word)

  predicate SpacedOk(ws: seq<Spaced>) {
    forall i {:trigger ws[i]} :: 0 <= i < |ws| ==>
      AllBlank(ws[i].gap) && (i > 0 ==> ws[i].gap != "") && WordOk(ws[i].word)
  }

  function WrittenWords(ws: seq<Spaced>): string {
    if ws == [] then "" else ws[0].gap + (Written(ws[0].word) + WrittenWords(ws[1..]))
  }

  function Meanings(ws: seq<Spaced>): seq<string> {
    seq(|ws|, i requires 0 <= i < |ws| => Means(ws[i].word))
  }

  // What may end a line: blanks, and after them a comment.
  datatype Ending = Blanks(gap: string) | Comment(gap: string, text: string)

  predicate EndingOk(e: Ending) {
    AllBlank(e.gap) && (e.Comment? ==> e.gap != "")
  }

  function WrittenEnding(e: Ending): string {
    if e.Blanks? then e.gap else e.gap + (['#'] + e.text)
  }

  // ---------------------------------------------------------------- reading one piece

  lemma {:induction false} SingleReads(s: string, rest: string, room: nat)
    requires '\'' !in s && |s| <= room
    ensures SingleQuoted(s + (['\''] + rest), room) == Ok(Unit(s, rest))
  {
    var line := s + (['\''] + rest);
    if s == "" {
      assert line == ['\''] + rest && line[1..] == rest;
    } else {
      assert line[0] == s[0] && s[0] in s && line[1..] == s[1..] + (['\''] + rest);
      SingleReads(s[1..], rest, room - 1);
      assert [s[0]] + s[1..] == s;
    }
  }

  lemma Assoc(a: string, b: string, c: string)
    ensures a + (b + c) == (a + b) + c
  {}

  // A backslash in front of a byte that does not need one stays.
  lemma BothReads(c: char, more: string, room: nat)
    requires c !in {'"', '\\', '$', '`', '\n'} && room >= 2
    ensures DoubleQuoted(['\\', c] + more, room) == Glue(['\\', c], DoubleQuoted(more, room - 2))
  {
    var line, tail := ['\\', c] + more, [c] + more;
    assert line[1..] == tail && tail[1..] == more;
    assert DoubleQuoted(tail, room - 1) == Glue([c], DoubleQuoted(more, room - 2));
    assert DoubleQuoted(line, room) == Glue(['\\'], DoubleQuoted(tail, room - 1));
    GlueTwice(['\\'], [c], DoubleQuoted(more, room - 2));
    assert ['\\'] + [c] == ['\\', c];
  }

  lemma ItemReads(i: Item, more: string, room: nat)
    requires ItemOk(i) && |ItemMeans(i)| <= room
    ensures DoubleQuoted(WrittenItem(i) + more, room) == Glue(ItemMeans(i), DoubleQuoted(more, room - |ItemMeans(i)|))
  {
    var line := WrittenItem(i) + more;
    match i {
      case Lit(c) =>
        assert line[1..] == more;
      case Esc(c) =>
        assert line[2..] == more;
      case Both(c) =>
        BothReads(c, more, room);
      case Joined =>
        assert line[2..] == more;
        GlueNothing(DoubleQuoted(more, room));
    }
  }

  lemma GlueTwice(a: string, b: string, r: UnitResult)
    ensures Glue(a, Glue(b, r)) == Glue(a + b, r)
  {
    if r.Ok? {
      assert a + (b + r.value.bytes) == (a + b) + r.value.bytes;
    }
  }

  lemma GlueNothing(r: UnitResult)
    ensures Glue("", r) == r
  {
    if r.Ok? {
      assert "" + r.value.bytes == r.value.bytes;
    }
  }

  lemma ItemsTail(items: seq<Item>)
    requires items != [] && forall i {:trigger ItemOk(items[i])} :: 0 <= i < |items| ==> ItemOk(items[i])
    ensures ItemOk(items[0]) && forall i {:trigger ItemOk(items[1..][i])} :: 0 <= i < |items| - 1 ==> ItemOk(items[1..][i])
  {
    forall i {:trigger ItemOk(items[1..][i])} | 0 <= i < |items| - 1 ensures ItemOk(items[1..][i]) {
      assert ItemOk(items[i + 1]);
    }
  }

  // Items in front of any text.
  lemma {:induction false} ItemsRead(items: seq<Item>, more: string, room: nat)
    requires forall i {:trigger ItemOk(items[i])} :: 0 <= i < |items| ==> ItemOk(items[i])
    requires |ItemsMean(items)| <= room
    ensures DoubleQuoted(WrittenItems(items) + more, room) == Glue(ItemsMean(items), DoubleQuoted(more, room - |ItemsMean(items)|))
  {
    if items == [] {
      assert "" + more == more;
      GlueNothing(DoubleQuoted(more, room));
    } else {
      var rest := WrittenItems(items[1..]) + more;
      ItemsTail(items);
      assert WrittenItems(items) + more == WrittenItem(items[0]) + rest;
      ItemReads(items[0], rest, room);
      ItemsRead(items[1..], more, room - |ItemMeans(items[0])|);
      GlueTwice(ItemMeans(items[0]), ItemsMean(items[1..]), DoubleQuoted(more, room - |ItemsMean(items)|));
    }
  }

  lemma DoubleReads(items: seq<Item>, rest: string, room: nat)
    requires PieceOk(Double(items)) && |ItemsMean(items)| <= room
    ensures DoubleQuoted(WrittenItems(items) + (['"'] + rest), room) == Ok(Unit(ItemsMean(items), rest))
  {
    ItemsRead(items, ['"'] + rest, room);
    assert (['"'] + rest)[1..] == rest && ItemsMean(items) + "" == ItemsMean(items);
  }

  lemma SinglePieceReads(s: string, more: string, room: nat)
    requires '\'' !in s && |s| <= room
    ensures ScanUnit(['\''] + (s + ['\'']) + more, room) == Ok(Unit(s, more))
  {
    var line := ['\''] + (s + ['\'']) + more;
    assert line[1..] == s + (['\''] + more);
    SingleReads(s, more, room);
  }

  lemma DoublePieceReads(items: seq<Item>, more: string, room: nat)
    requires PieceOk(Double(items)) && |ItemsMean(items)| <= room
    ensures ScanUnit(['"'] + (WrittenItems(items) + ['"']) + more, room) == Ok(Unit(ItemsMean(items), more))
  {
    var line := ['"'] + (WrittenItems(items) + ['"']) + more;
    assert line[1..] == WrittenItems(items) + (['"'] + more);
    DoubleReads(items, more, room);
  }

  lemma PieceReads(p: Piece, more: string, room: nat)
    requires PieceOk(p) && |PieceMeans(p)| <= room
    ensures ScanUnit(WrittenPiece(p) + more, room) == Ok(Unit(PieceMeans(p), more))
  {
    match p {
      case Bare(c) =>
        BlankIsSpace(c);
        assert ([c] + more)[1..] == more;
      case Escaped(c) =>
        assert (['\\', c] + more)[2..] == more;
      case Single(s) => SinglePieceReads(s, more, room);
      case Double(items) => DoublePieceReads(items, more, room);
    }
  }

  lemma BlankIsSpace(c: char)
    ensures IsBlank(c) <==> IsSpace(c)
  {}

  // ---------------------------------------------------------------- reading one word

  lemma PiecesTail(w: Word)
    requires PiecesOk(w) && w != []
    ensures PieceOk(w[0]) && PiecesOk(w[1..])
  {
    assert PieceOk(w[0]);
    forall i {:trigger PieceOk(w[1..][i])} | 0 <= i < |w| - 1 ensures PieceOk(w[1..][i]) {
      assert PieceOk(w[i + 1]);
    }
  }

  lemma WrittenGoesOn(w: Word, rest: string)
    requires PiecesOk(w) && w != []
    ensures !AtWordEnd(Written(w) + rest)
  {
    PiecesTail(w);
    PieceStart(w[0]);
    assert (Written(w) + rest)[0] == WrittenPiece(w[0])[0];
  }

  lemma PieceStart(p: Piece)
    requires PieceOk(p)
    ensures WrittenPiece(p) != "" && !IsSpace(WrittenPiece(p)[0]) && (WrittenPiece(p)[0] == '#' ==> p == Bare('#'))
  {
    BlankIsSpace(WrittenPiece(p)[0]);
  }

  // After a word: either a token is complete, or a word that means nothing is in progress.
  function AfterWord(word: string, rest: string, n: nat): Tokens
    requires |word| <= MAX_TOKEN
  {
    if word != "" then Prepend([word], Scan(rest, None, n + 1, false)) else Scan(rest, Some(word), n, false)
  }

  // One unit of a line.
  lemma UnitStep(line: string, bytes: string, more: string, cur: Partial, n: nat)
    requires line != "" && !IsSpace(line[0]) && !(line[0] == '#' && cur.None?) && n < MAX_ARGS
    requires ScanUnit(line, Room(cur)) == Ok(Unit(bytes, more)) && |cur.GetOr("") + bytes| <= MAX_TOKEN
    ensures Scan(line, cur, n, false) ==
      if AtWordEnd(more) then AfterWord(cur.GetOr("") + bytes, more, n) else Scan(more, Some(cur.GetOr("") + bytes), n, false)
  {}

  lemma PieceStep(w: Word, more: string, cur: Partial, n: nat)
    requires w != [] && PiecesOk(w) && (cur.None? ==> w[0] != Bare('#')) && n < MAX_ARGS
    requires |cur.GetOr("")| + |PieceMeans(w[0])| <= MAX_TOKEN
    ensures var word := cur.GetOr("") + PieceMeans(w[0]);
      Scan(WrittenPiece(w[0]) + more, cur, n, false) ==
        if AtWordEnd(more) then AfterWord(word, more, n) else Scan(more, Some(word), n, false)
  {
    PiecesTail(w);
    PieceStart(w[0]);
    PieceReads(w[0], more, Room(cur));
    assert (WrittenPiece(w[0]) + more)[0] == WrittenPiece(w[0])[0];
    UnitStep(WrittenPiece(w[0]) + more, PieceMeans(w[0]), more, cur, n);
  }

  lemma FirstPieceReads(w: Word, rest: string, cur: Partial, n: nat)
    requires w != [] && PiecesOk(w) && (cur.None? ==> w[0] != Bare('#')) && n < MAX_ARGS
    requires |cur.GetOr("")| + |PieceMeans(w[0])| <= MAX_TOKEN && AtWordEnd(rest)
    ensures var word := cur.GetOr("") + PieceMeans(w[0]);
      Scan(Written(w) + rest, cur, n, false) ==
        if |w| == 1 then AfterWord(word, rest, n) else Scan(Written(w[1..]) + rest, Some(word), n, false)
  {
    PieceStep(w, Written(w[1..]) + rest, cur, n);
    Assoc(WrittenPiece(w[0]), Written(w[1..]), rest);
    PiecesTail(w);
    if |w| == 1 {
      assert w[1..] == [] && Written(w[1..]) + rest == rest;
    } else {
      WrittenGoesOn(w[1..], rest);
    }
  }

  lemma MeansFirst(w: Word, cur: string)
    requires w != []
    ensures cur + Means(w) == (cur + PieceMeans(w[0])) + Means(w[1..])
    ensures |w| == 1 ==> Means(w) == PieceMeans(w[0])
  {
    Assoc(cur, PieceMeans(w[0]), Means(w[1..]));
    if |w| == 1 {
      assert w[1..] == [] && PieceMeans(w[0]) + "" == PieceMeans(w[0]);
    }
  }

  lemma {:induction false} WordReads(w: Word, rest: string, cur: Partial, n: nat, all: string)
    requires w != [] && PiecesOk(w) && (cur.None? ==> w[0] != Bare('#')) && n < MAX_ARGS
    requires all == cur.GetOr("") + Means(w) && |all| <= MAX_TOKEN && AtWordEnd(rest)
    ensures Scan(Written(w) + rest, cur, n, false) == AfterWord(all, rest, n)
    decreases |w|
  {
    var word := cur.GetOr("") + PieceMeans(w[0]);
    MeansFirst(w, cur.GetOr(""));
    assert |word| <= |all|;
    FirstPieceReads(w, rest, cur, n);
    if |w| > 1 {
      PiecesTail(w);
      WordReads(w[1..], rest, Some(word), n, all);
    }
  }

  lemma {:induction false} GapReads(gap: string, rest: string, cur: Partial, n: nat)
    requires AllBlank(gap)
    ensures Scan(gap + rest, cur, n, false) == Scan(rest, cur, n, false)
  {
    if gap == "" {
      assert gap + rest == rest;
    } else {
      BlankIsSpace(gap[0]);
      assert (gap + rest)[1..] == gap[1..] + rest;
      GapReads(gap[1..], rest, cur, n);
    }
  }

  // --------------------------------------------------------------- reading whole lines

  lemma SpacedTail(ws: seq<Spaced>)
    requires SpacedOk(ws) && ws != []
    ensures WordOk(ws[0].word) && AllBlank(ws[0].gap)
    ensures forall i {:trigger ws[1..][i]} :: 0 <= i < |ws| - 1 ==>
      AllBlank(ws[1..][i].gap) && ws[1..][i].gap != "" && WordOk(ws[1..][i].word)
  {
    assert forall i {:trigger ws[1..][i]} :: 0 <= i < |ws| - 1 ==> ws[1..][i] == ws[i + 1];
  }

  lemma StartsWithGap(ws: seq<Spaced>, rest: string)
    requires forall i {:trigger ws[i]} :: 0 <= i < |ws| ==> AllBlank(ws[i].gap) && ws[i].gap != ""
    requires AtWordEnd(rest)
    ensures AtWordEnd(WrittenWords(ws) + rest)
  {
    if ws != [] {
      BlankIsSpace(ws[0].gap[0]);
      assert (WrittenWords(ws) + rest)[0] == ws[0].gap[0];
    } else {
      assert WrittenWords(ws) + rest == rest;
    }
  }

  lemma FirstWordReads(w: Word, rest: string, n: nat)
    requires WordOk(w) && n < MAX_ARGS && 1 <= |Means(w)| <= MAX_TOKEN && AtWordEnd(rest)
    ensures Scan(Written(w) + rest, None, n, false) == Prepend([Means(w)], Scan(rest, None, n + 1, false))
  {
    assert "" + Means(w) == Means(w);
    WordReads(w, rest, None, n, Means(w));
  }

  lemma FirstGap(ws: seq<Spaced>, rest: string)
    requires ws != []
    ensures WrittenWords(ws) + rest == ws[0].gap + (Written(ws[0].word) + (WrittenWords(ws[1..]) + rest))
  {
    Assoc(Written(ws[0].word), WrittenWords(ws[1..]), rest);
    Assoc(ws[0].gap, Written(ws[0].word) + WrittenWords(ws[1..]), rest);
  }

  predicate Meaningful(ws: seq<Spaced>) {
    forall i {:trigger ws[i]} :: 0 <= i < |ws| ==> 1 <= |Means(ws[i].word)| <= MAX_TOKEN
  }

  lemma WordStep(ws: seq<Spaced>, rest: string, n: nat)
    requires SpacedOk(ws) && AtWordEnd(rest) && ws != [] && n < MAX_ARGS && Meaningful(ws)
    ensures Scan(WrittenWords(ws) + rest, None, n, false) ==
      Prepend([Means(ws[0].word)], Scan(WrittenWords(ws[1..]) + rest, None, n + 1, false))
  {
    var more := WrittenWords(ws[1..]) + rest;
    SpacedTail(ws);
    StartsWithGap(ws[1..], rest);
    FirstGap(ws, rest);
    GapReads(ws[0].gap, Written(ws[0].word) + more, None, n);
    FirstWordReads(ws[0].word, more, n);
  }

  lemma MeaningfulTail(ws: seq<Spaced>)
    requires SpacedOk(ws) && Meaningful(ws) && ws != []
    ensures SpacedOk(ws[1..]) && Meaningful(ws[1..])
  {
    assert forall i {:trigger ws[1..][i]} :: 0 <= i < |ws| - 1 ==> ws[1..][i] == ws[i + 1];
  }

  // Words that mean something give their meanings, one token each.
  lemma {:induction false} WordsRead(ws: seq<Spaced>, rest: string, n: nat)
    requires SpacedOk(ws) && AtWordEnd(rest) && n + |ws| <= MAX_ARGS && Meaningful(ws)
    ensures Scan(WrittenWords(ws) + rest, None, n, false) == Prepend(Meanings(ws), Scan(rest, None, n + |ws|, false))
    decreases |ws|
  {
    if ws == [] {
      NoWords(ws, rest, n);
    } else {
      WordStep(ws, rest, n);
      MeaningfulTail(ws);
      WordsRead(ws[1..], rest, n + 1);
      MeaningsCons(ws, Scan(rest, None, n + |ws|, false));
    }
  }

  lemma PrependNone(r: Tokens)
    ensures Prepend([], r) == r
  {
    if r.Ok? {
      assert [] + r.value == r.value;
    }
  }

  lemma MeaningsHead(ws: seq<Spaced>)
    requires ws != []
    ensures Meanings(ws) == [Means(ws[0].word)] + Meanings(ws[1..])
  {}

  lemma NoWords(ws: seq<Spaced>, rest: string, n: nat)
    requires ws == []
    ensures Scan(WrittenWords(ws) + rest, None, n, false) == Prepend(Meanings(ws), Scan(rest, None, n + |ws|, false))
  {
    assert WrittenWords(ws) + rest == rest && Meanings(ws) == [];
    PrependNone(Scan(rest, None, n, false));
  }

  lemma MeaningsCons(ws: seq<Spaced>, r: Tokens)
    requires ws != []
    ensures Prepend([Means(ws[0].word)], Prepend(Meanings(ws[1..]), r)) == Prepend(Meanings(ws), r)
  {
    MeaningsHead(ws);
    if r.Ok? {
      assert [Means(ws[0].word)] + (Meanings(ws[1..]) + r.value) == ([Means(ws[0].word)] + Meanings(ws[1..])) + r.value;
    }
  }

  lemma EndingReads(e: Ending, n: nat)
    requires EndingOk(e)
    ensures Scan(WrittenEnding(e), None, n, false) == Ok([]) && AtWordEnd(WrittenEnding(e))
  {
    if e.gap != "" {
      BlankIsSpace(e.gap[0]);
    }
    if e.Blanks? {
      assert e.gap + "" == e.gap;
      GapReads(e.gap, "", None, n);
    } else {
      GapReads(e.gap, ['#'] + e.text, None, n);
      assert (['#'] + e.text)[0] == '#' && !IsSpace('#');
    }
  }

  /**
   * Any words of the grammar that mean something, in any way of writing them, with any gaps,
   * and with or without a comment behind them, are read as their meanings; the limits are
   * 4096 words of 20000 bytes in a line of 65536.
   */
  lemma WordsAreTheirMeanings(ws: seq<Spaced>, e: Ending)
    requires SpacedOk(ws) && EndingOk(e) && |ws| <= 4096 && |WrittenWords(ws) + WrittenEnding(e)| <= 65536
    requires forall i {:trigger ws[i]} :: 0 <= i < |ws| ==> 1 <= |Means(ws[i].word)| <= 20000
    ensures Tokenize(WrittenWords(ws) + WrittenEnding(e)) == Ok(Meanings(ws))
  {
    EndingReads(e, |ws|);
    WordsRead(ws, WrittenEnding(e), 0);
    assert Meanings(ws) + [] == Meanings(ws);
  }

  // ---------------------------------------------------------------- what is never closed

  // A quote that is opened and not closed, or a backslash with nothing behind it.
  datatype Loose = OpenSingle(s: string) | OpenDouble(items: seq<Item>) | Dangling

  predicate LooseOk(l: Loose) {
    match l
    case OpenSingle(s) => PieceOk(Single(s))
    case OpenDouble(items) => PieceOk(Double(items))
    case Dangling => true
  }

  function WrittenLoose(l: Loose): string {
    match l
    case OpenSingle(s) => ['\''] + s
    case OpenDouble(items) => ['"'] + WrittenItems(items)
    case Dangling => ['\\']
  }

  function LooseSize(l: Loose): nat {
    match l
    case OpenSingle(s) => |s|
    case OpenDouble(items) => |ItemsMean(items)|
    case Dangling => 0
  }

  function LooseError(l: Loose): LexError {
    match l
    case OpenSingle(_) => UnterminatedSingle
    case OpenDouble(_) => UnterminatedDouble
    case Dangling => TrailingBackslash
  }

  lemma {:induction false} OpenSingleFails(s: string, room: nat)
    requires '\'' !in s && |s| <= room
    ensures SingleQuoted(s, room) == Err(UnterminatedSingle)
  {
    if s != "" {
      assert s[0] in s;
      OpenSingleFails(s[1..], room - 1);
    }
  }

  lemma LooseFails(l: Loose, room: nat)
    requires LooseOk(l) && LooseSize(l) <= room
    ensures ScanUnit(WrittenLoose(l), room) == Err(LooseError(l)) && !IsSpace(WrittenLoose(l)[0]) && WrittenLoose(l)[0] != '#'
  {
    var line := WrittenLoose(l);
    match l {
      case OpenSingle(s) =>
        assert line[1..] == s;
        OpenSingleFails(s, room);
      case OpenDouble(items) =>
        assert line[1..] == WrittenItems(items) + "";
        ItemsRead(items, "", room);
      case Dangling =>
    }
  }

  lemma FirstBeforeLoose(w: Word, l: Loose, cur: Partial, n: nat)
    requires w != [] && PiecesOk(w) && LooseOk(l) && n < MAX_ARGS && (cur.None? ==> w[0] != Bare('#'))
    requires |cur.GetOr("")| + |PieceMeans(w[0])| <= MAX_TOKEN
    ensures Scan(Written(w) + WrittenLoose(l), cur, n, false) ==
      Scan(Written(w[1..]) + WrittenLoose(l), Some(cur.GetOr("") + PieceMeans(w[0])), n, false)
  {
    PieceStep(w, Written(w[1..]) + WrittenLoose(l), cur, n);
    PiecesTail(w);
    Assoc(WrittenPiece(w[0]), Written(w[1..]), WrittenLoose(l));
    LooseGoesOn(w[1..], l);
  }

  // Pieces in front of something loose.
  lemma {:induction false} LooseWordFails(w: Word, l: Loose, cur: Partial, n: nat, size: nat)
    requires PiecesOk(w) && LooseOk(l) && n < MAX_ARGS && (cur.None? && w != [] ==> w[0] != Bare('#'))
    requires size == |cur.GetOr("") + Means(w)| && size + LooseSize(l) <= MAX_TOKEN
    ensures Scan(Written(w) + WrittenLoose(l), cur, n, false) == Err(LooseError(l))
    decreases |w|
  {
    if w == [] {
      assert Written(w) + WrittenLoose(l) == WrittenLoose(l);
      LooseFails(l, Room(cur));
    } else {
      MeansFirst(w, cur.GetOr(""));
      FirstBeforeLoose(w, l, cur, n);
      PiecesTail(w);
      LooseWordFails(w[1..], l, Some(cur.GetOr("") + PieceMeans(w[0])), n, size);
    }
  }

  lemma LooseGoesOn(w: Word, l: Loose)
    requires PiecesOk(w) && LooseOk(l)
    ensures !AtWordEnd(Written(w) + WrittenLoose(l))
  {
    if w == [] {
      assert Written(w) + WrittenLoose(l) == WrittenLoose(l);
    } else {
      WrittenGoesOn(w, WrittenLoose(l));
    }
  }

  /** A line whose last word is not closed is refused, for the reason that word gives. */
  lemma LooseLineIsRefused(ws: seq<Spaced>, gap: string, w: Word, l: Loose)
    requires SpacedOk(ws) && AllBlank(gap) && gap != "" && PiecesOk(w) && (w != [] ==> w[0] != Bare('#')) && LooseOk(l)
    requires |ws| < 4096 && |WrittenWords(ws) + (gap + (Written(w) + WrittenLoose(l)))| <= 65536
    requires forall i {:trigger ws[i]} :: 0 <= i < |ws| ==> 1 <= |Means(ws[i].word)| <= 20000
    requires |Means(w)| + LooseSize(l) <= 20000
    ensures Tokenize(WrittenWords(ws) + (gap + (Written(w) + WrittenLoose(l)))) == Err(LooseError(l))
  {
    var last := Written(w) + WrittenLoose(l);
    BlankIsSpace(gap[0]);
    assert (gap + last)[0] == gap[0];
    WordsRead(ws, gap + last, 0);
    GapReads(gap, last, None, |ws|);
    assert "" + Means(w) == Means(w);
    LooseWordFails(w, l, None, |ws|, |Means(w)|);
  }

  /** A line with anything but blanks and a comment behind 4096 words is refused for that. */
  lemma TooManyWords(ws: seq<Spaced>, gap: string, more: string)
    requires SpacedOk(ws) && |ws| == 4096 && AllBlank(gap) && gap != ""
    requires more != "" && !IsBlank(more[0]) && more[0] != '#' && |WrittenWords(ws) + (gap + more)| <= 65536
    requires forall i {:trigger ws[i]} :: 0 <= i < |ws| ==> 1 <= |Means(ws[i].word)| <= 20000
    ensures Tokenize(WrittenWords(ws) + (gap + more)) == Err(TooManyArguments)
  {
    BlankIsSpace(gap[0]);
    BlankIsSpace(more[0]);
    assert (gap + more)[0] == gap[0];
    WordsRead(ws, gap + more, 0);
    GapReads(gap, more, None, |ws|);
  }

  // --------------------------------------------------- the backslash in double quotes

  function BackslashItem(c: char): Item {
    if c == '\n' then Joined else if c in {'"', '\\', '$', '`'} then Esc(c) else Both(c)
  }

  // Inside any quoted text: where the backslash goes, where it stays, and where it joins lines.
  lemma BackslashInQuotes(before: seq<Item>, c: char, after: seq<Item>)
    requires PieceOk(Double(before)) && PieceOk(Double(after))
    requires 1 <= |ItemsMean(before)| + |ItemsMean(after)| <= 19998
    requires |WrittenItems(before)| + |WrittenItems(after)| <= 65532
    ensures Tokenize(['"'] + ((WrittenItems(before) + (['\\', c] + WrittenItems(after))) + ['"'])) ==
      Ok([ItemsMean(before) + (if c == '\n' then "" else if c in {'"', '\\', '$', '`'} then [c] else ['\\', c]) + ItemsMean(after)])
  {
    var item := BackslashItem(c);
    var items := before + ([item] + after);
    ItemsAround(before, item, after);
    QuotedLine(items);
  }

  lemma QuotedLine(items: seq<Item>)
    requires PieceOk(Double(items)) && 1 <= |ItemsMean(items)| <= 20000 && |WrittenItems(items)| <= 65534
    ensures Tokenize(['"'] + (WrittenItems(items) + ['"'])) == Ok([ItemsMean(items)])
  {
    var w := [Double(items)];
    assert w[1..] == [] && WrittenPiece(w[0]) + "" == WrittenPiece(w[0]) && ItemsMean(items) + "" == ItemsMean(items);
    OneWordLine(w);
  }

  lemma MiddleOk(before: seq<Item>, item: Item, after: seq<Item>)
    requires PieceOk(Double(before)) && PieceOk(Double(after)) && ItemOk(item)
    ensures PieceOk(Double(before + ([item] + after)))
  {
    var items := before + ([item] + after);
    forall i {:trigger ItemOk(items[i])} | 0 <= i < |items| ensures ItemOk(items[i]) {
      assert if i < |before| then ItemOk(before[i]) else i == |before| || ItemOk(after[i - |before| - 1]);
    }
  }

  lemma {:induction false} ItemsAppend(a: seq<Item>, b: seq<Item>)
    ensures WrittenItems(a + b) == WrittenItems(a) + WrittenItems(b) && ItemsMean(a + b) == ItemsMean(a) + ItemsMean(b)
  {
    if a == [] {
      assert a + b == b;
    } else {
      ItemsAppend(a[1..], b);
      assert (a + b)[0] == a[0] && (a + b)[1..] == a[1..] + b;
      Assoc(WrittenItem(a[0]), WrittenItems(a[1..]), WrittenItems(b));
      Assoc(ItemMeans(a[0]), ItemsMean(a[1..]), ItemsMean(b));
    }
  }

  lemma ItemsAround(before: seq<Item>, item: Item, after: seq<Item>)
    requires PieceOk(Double(before)) && PieceOk(Double(after)) && ItemOk(item)
    ensures var items := before + ([item] + after);
      && PieceOk(Double(items)) && WrittenItems(items) == WrittenItems(before) + (WrittenItem(item) + WrittenItems(after))
      && ItemsMean(items) == ItemsMean(before) + ItemMeans(item) + ItemsMean(after)
  {
    MiddleOk(before, item, after);
    ItemsAppend(before, [item] + after);
    assert ([item] + after)[1..] == after;
    Assoc(ItemsMean(before), ItemMeans(item), ItemsMean(after));
  }

  lemma OneWordLine(w: Word)
    requires WordOk(w) && |Written(w)| <= 65536 && 1 <= |Means(w)| <= 20000
    ensures Tokenize(Written(w)) == Ok([Means(w)])
  {
    var ws := [Spaced("", w)];
    assert ws[1..] == [] && WrittenWords(ws) == "" + (Written(w) + "") && "" + (Written(w) + "") == Written(w);
    assert WrittenWords(ws) + WrittenEnding(Blanks("")) == Written(w);
    WordsAreTheirMeanings(ws, Blanks(""));
    assert Meanings(ws) == [Means(w)];
  }

  // A backslash and one byte between double quotes.
  lemma LoneBackslash(c: char)
    requires c != '\n'
    ensures Tokenize(['"', '\\', c, '"']) == Ok([if c in {'"', '\\', '$', '`'} then [c] else ['\\', c]])
  {
    var item := BackslashItem(c);
    assert [item][1..] == [] && ['\\', c] + "" == ['\\', c] && ItemMeans(item) + "" == ItemMeans(item);
    assert ItemOk(item);
    QuotedLine([item]);
    assert ['"'] + (['\\', c] + ['"']) == ['"', '\\', c, '"'];
  }
}
