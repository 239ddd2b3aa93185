/** No text is lost: what the renderer shows of a document, letter by letter. */
module TextShown {
  import opened Options
  import opened Regex
  import opened SourceText
  import opened Strings
  import opened MarkdownTables
  import opened LineForms
  import opened LineScanners
  import opened MarkdownInline
  import opened MarkdownBlocks
  import opened MarkdownDocument
  import opened BlockShapes

  /** Neither white space nor a digit nor a character that some syntax is made of. */
  predicate IsLetter(c: char) { !IsSpace(c) && !('0' <= c <= '9') && c !in "`*_~[]\\)#>-+|:!." }

  /** A line that can be no row, fence or task and has no link. */
  predicate Simple(text: string) {
    '|' !in text && ']' !in text && forall k: nat | k < |text| :: !Fencing(text, k)
  }

  /** Three fence marks in a row. */
  predicate Fencing(text: string, k: nat) {
    k + 3 <= |text| && text[k] in {'`', '~'} && text[k + 1] == text[k] && text[k + 2] == text[k]
  }

  /** A letter of a simple line, at an offset of the source. */
  predicate LetterAt(l: SourceLine, k: nat) {
    l.start <= k < l.End() && IsLetter(l.text[k - l.start]) && Simple(l.text)
  }

  /** Some call shows the character at an offset. */
  predicate Shows(fs: seq<SourceLine>, k: nat) { exists f <- fs :: f.start <= k < f.End() }

  lemma {:induction false} ShowsConcat(a: seq<SourceLine>, b: seq<SourceLine>, k: nat)
    ensures Shows(a + b, k) <==> Shows(a, k) || Shows(b, k)
  {
    if Shows(a, k) {
      var f :| f in a && f.start <= k < f.End();
      assert f in a + b;
    }
    if Shows(b, k) {
      var f :| f in b && f.start <= k < f.End();
      assert f in a + b;
    }
  }

  /** What remains of a line keeps its letters. */
  lemma {:induction false} LetterOfSuffix(l: SourceLine, n: nat, k: nat)
    requires LetterAt(l, k) && n <= |l.text| && l.start + n <= k
    ensures LetterAt(l.Cut(n, |l.text|), k)
  {
    var rest := l.text[n..];
    assert l.text[n..|l.text|] == rest && rest[k - l.start - n] == l.text[k - l.start];
    assert forall c <- rest :: c in l.text;
    forall m: nat | m < |rest| ensures !Fencing(rest, m) { assert !Fencing(l.text, m + n); }
  }

  lemma {:induction false} LetterHasText(l: SourceLine, k: nat)
    requires LetterAt(l, k)
    ensures !Blank(l.text)
  {
    hide Blank;
    BlankScanned(l.text);
    assert !IsSpace(l.text[k - l.start]);
  }

  // ---------------------------------------------------------------- inline

  lemma {:induction false} SyntaxHasNoLetter(s: string, j: nat)
    requires IsSyntax(s) && j < |s| && ']' !in s
    ensures !IsLetter(s[j])
  {
    if IsLinkTail(s) { LinkTailHasBracket(s); }
    assert s[j] in s;
  }

  lemma {:induction false} LinkTailHasBracket(s: string)
    requires IsLinkTail(s)
    ensures ']' in s
  {
    assert s[..2][0] == ']';
  }

  /** A tiling without hidden letters shows them. */
  lemma {:induction false} TilesShow(pieces: seq<Piece>, text: string, start: nat, k: nat)
    requires Tiles(pieces, text, start) && Clean(pieces) && start <= k < start + |text|
    requires IsLetter(text[k - start]) && ']' !in text
    ensures Shows(Fragments(pieces), k)
  {
    hide IsLetter, IsSyntax;
    var p, n := pieces[0], |pieces[0].line.text|;
    assert p in pieces;
    if k < start + n {
      assert p.line.text[k - start] == text[k - start];
      if p.Hidden? { SyntaxHasNoLetter(p.line.text, k - start); }
      assert Fragments(pieces)[0] == p.line;
    } else {
      assert text[n..][k - start - n] == text[k - start];
      TilesShow(pieces[1..], text[n..], start + n, k);
      if p.Shown? { ShowsConcat([p.line], Fragments(pieces[1..]), k); }
    }
  }

  lemma {:induction false} InlineShows(l: SourceLine, k: nat)
    requires LetterAt(l, k)
    ensures Shows(InlineOf(l), k)
  {
    hide NextToken, TokenAt, Inline, IsLetter;
    InlineTiles(l.text, l.start, 0);
    assert l.text[0..|l.text|] == l.text;
    TilesShow(Inline(l.text, l.start, 0), l.text, l.start, k);
  }

  lemma {:induction false} InlineAllShows(ls: seq<SourceLine>, n: nat, k: nat)
    requires n < |ls| && LetterAt(ls[n], k)
    ensures Shows(InlineAll(ls), k)
  {
    hide InlineOf, LetterAt, Shows;
    ShowsConcat(InlineOf(ls[0]), InlineAll(ls[1..]), k);
    if n == 0 { InlineShows(ls[0], k); } else { InlineAllShows(ls[1..], n - 1, k); }
  }

  // ---------------------------------------------------------------- lines without letters

  lemma {:induction false} FenceLineIsNotSimple(text: string)
    requires OpensFence(text)
    ensures !Simple(text)
  {
    assert Fencing(text, Lead(text));
  }

  lemma {:induction false} ClosingHasNoLetter(text: string, mark: char, count: nat, j: nat)
    requires Closes(text, mark, count) && mark in {'`', '~'} && j < |text|
    ensures !IsLetter(text[j])
  {
    hide IsSpace;
  }

  lemma {:induction false} RuleHasNoLetter(text: string, j: nat)
    requires OpensRule(text) && j < |text|
    ensures !IsLetter(text[j])
  {
    hide IsSpace;
  }

  /** A line without pipes is one cell. */
  lemma {:induction false} OneCell(line: SourceLine, i: nat, ticks: bool)
    requires i <= |line.text| && '|' !in line.text
    ensures CellsFrom(line, i, 0, ticks) ==
            if Cell(line, 0, |line.text|).text != "" then [Cell(line, 0, |line.text|)] else []
    decreases |line.text| - i
  {
    hide Cell;
    if i < |line.text| { OneCell(line, i + 1, ticks != (line.text[i] == '`')); }
  }

  lemma {:induction false} SeparatorHasNoLetter(line: SourceLine, j: nat)
    requires j < |line.text| && '|' !in line.text && forall c <- Cells(line) :: Dashes(c.text)
    ensures !IsLetter(line.text[j])
  {
    hide CellsFrom, Dashes, Trim;
    OneCell(line, 0, false);
    var text := line.text;
    assert text[0..|text|] == text;
    TrimSplits(text);
    if IsLetter(text[j]) {
      var c := Cell(line, 0, |text|);
      assert c.text == Trim(text);
      assert Lead(text) <= j < Lead(text) + |c.text|;
      assert c.text[j - Lead(text)] == text[j];
      assert c in Cells(line);
      DashesHaveNoLetter(c.text, j - Lead(text));
    }
  }

  lemma {:induction false} DashesHaveNoLetter(text: string, j: nat)
    requires Dashes(text) && j < |text|
    ensures !IsLetter(text[j])
  {
    var a, b :| 0 <= a <= 1 && a <= b <= |text| && DashesBetween(text, a, b);
    if j < a { assert text[j] == text[..a][j]; }
    if j >= b { assert text[j] == text[b..][j - b]; }
  }

  // ---------------------------------------------------------------- blocks

  /** Lines that are no longer than others, one by one, have no greater size. */
  lemma {:induction false} SizeShrinks(ls: seq<SourceLine>, lines: seq<SourceLine>, i: nat)
    requires i + |ls| <= |lines| && forall k | 0 <= k < |ls| :: |ls[k].text| <= |lines[i + k].text|
    ensures Size(ls) <= SizeOf(lines, i, i + |ls|)
  {
    hide Size;
    if ls == [] {
      SizeOfNone();
    } else {
      var rest := ls[1..];
      forall k | 0 <= k < |rest| ensures |rest[k].text| <= |lines[i + 1 + k].text| { assert rest[k] == ls[k + 1]; }
      SizeShrinks(rest, lines, i + 1);
      assert [ls[0]] + rest == ls;
      SizeOfCons(ls[0], rest);
    }
  }

  lemma {:induction false} SizeWithin(lines: seq<SourceLine>, i: nat, j: nat)
    requires i <= j <= |lines|
    ensures SizeOf(lines, i, j) <= Size(lines)
    ensures 0 < i ==> SizeOf(lines, i, j) < Size(lines)
  {
    SizeSplits(lines, 0, i, |lines|);
    SizeSplits(lines, i, j, |lines|);
  }

  /** Every letter of a simple line is shown. */
  lemma {:induction false} LettersShown(lines: seq<SourceLine>, i: nat, n: nat, k: nat)
    requires i <= n < |lines| && LetterAt(lines[n], k)
    ensures Shows(BlocksFragments(BlocksFrom(lines, i)), k)
    decreases Size(lines), 2, |lines| - i
  {
    hide Blank, BlockAt, Size, LetterAt, Shows, BlockFragments;
    LetterHasText(lines[n], k);
    if Blank(lines[i].text) {
      LettersShown(lines, i + 1, n, k);
    } else {
      var b := BlockAt(lines, i);
      var rest := BlocksFrom(lines, b.to);
      assert BlocksFrom(lines, i)[1..] == rest;
      ShowsConcat(BlockFragments(b), BlocksFragments(rest), k);
      if n < b.to { BlockShowsLetter(lines, i, n, k); } else { LettersShown(lines, b.to, n, k); }
    }
  }

  /** Line n is one of the lines of the block at line i. */
  predicate InBlock(lines: seq<SourceLine>, i: nat, n: nat) { i <= n < |lines| && n < BlockAt(lines, i).to }

  lemma {:induction false} BlockShowsLetter(lines: seq<SourceLine>, i: nat, n: nat, k: nat)
    requires InBlock(lines, i, n) && LetterAt(lines[n], k)
    ensures Shows(BlockFragments(BlockAt(lines, i)), k)
    decreases Size(lines), 1, 0
  {
    hide BlockAt, Size, Shows, BlockFragments, OpensFence, OpensHeading, OpensRule, OpensTable, Quotes, OpensList,
         LetterAt;
    var text := lines[i].text;
    if OpensFence(text) {
      FenceShowsLetter(lines, i, n, k);
    } else if OpensHeading(text) {
      HeadingShowsLetter(lines, i, n, k);
    } else if OpensTable(lines, i) {
      TableHasNoLetter(lines, i, n, k);
    } else if OpensRule(text) {
      RuleShowsLetter(lines, i, n, k);
    } else if Quotes(text) {
      QuoteShowsLetter(lines, i, n, k);
    } else if OpensList(text) {
      ListShowsLetter(lines, i, n, k);
    } else {
      ParagraphShape(lines, i);
      ParagraphShowsLetter(lines, i, n, k);
    }
  }

  lemma {:induction false} FenceShowsLetter(lines: seq<SourceLine>, i: nat, n: nat, k: nat)
    requires InBlock(lines, i, n) && LetterAt(lines[n], k) && OpensFence(lines[i].text)
    ensures Shows(BlockFragments(BlockAt(lines, i)), k)
  {
    hide BlockAt, IsLetter, Simple, Closes, OpensFence;
    FenceShape(lines, i);
    FenceMark(lines[i].text);
    FenceLineIsNotSimple(lines[i].text);
    var b, text := BlockAt(lines, i), lines[i].text;
    var s := Lead(text);
    var e := MarkEnd(text, text[s], s);
    var end := i + 1 + |b.node.body|;
    if n == end {
      assert Closes(lines[n].text, text[s], e - s);
      ClosingHasNoLetter(lines[n].text, text[s], e - s, k - lines[n].start);
    } else {
      assert b.node.body[n - i - 1] == lines[n];
      assert lines[n] in BlockFragments(b);
    }
  }

  lemma {:induction false} FenceMark(text: string)
    requires OpensFence(text)
    ensures Lead(text) < |text| && text[Lead(text)] in {'`', '~'}
  {
  }

  lemma {:induction false} HeadingShowsLetter(lines: seq<SourceLine>, i: nat, n: nat, k: nat)
    requires InBlock(lines, i, n) && LetterAt(lines[n], k) && OpensHeading(lines[i].text)
    ensures Shows(BlockFragments(BlockAt(lines, i)), k)
  {
    hide BlockAt, IsSpace, Simple, OpensHeading, InlineOf;
    HeadingShape(lines, i);
    var text := lines[i].text;
    var at := RunEnd(Space, text, MarkEnd(text, '#', 0), None);
    assert lines[i].start + at <= k;
    LetterOfSuffix(lines[i], at, k);
    InlineShows(lines[i].Cut(at, |text|), k);
  }

  lemma {:induction false} TableHasNoLetter(lines: seq<SourceLine>, i: nat, n: nat, k: nat)
    requires InBlock(lines, i, n) && OpensTable(lines, i)
    requires !OpensFence(lines[i].text) && !OpensHeading(lines[i].text)
    ensures !LetterAt(lines[n], k)
  {
    hide BlockAt, OpensFence, OpensHeading, Cells, Dashes, IsLetter;
    TableShape(lines, i);
    if LetterAt(lines[n], k) && n == i + 1 { SeparatorHasNoLetter(lines[n], k - lines[n].start); }
  }

  lemma {:induction false} RuleShowsLetter(lines: seq<SourceLine>, i: nat, n: nat, k: nat)
    requires InBlock(lines, i, n) && OpensRule(lines[i].text)
    ensures !LetterAt(lines[n], k)
  {
    hide BlockAt, OpensRule, IsLetter;
    RuleShape(lines, i);
    if LetterAt(lines[n], k) { RuleHasNoLetter(lines[n].text, k - lines[n].start); }
  }

  lemma {:induction false} ParagraphShowsLetter(lines: seq<SourceLine>, i: nat, n: nat, k: nat)
    requires InBlock(lines, i, n) && LetterAt(lines[n], k)
    requires var b := BlockAt(lines, i); b.node == Paragraph(lines[i..b.to])
    ensures Shows(BlockFragments(BlockAt(lines, i)), k)
  {
    hide BlockAt, LetterAt, Shows;
    InlineAllShows(lines[i..BlockAt(lines, i).to], n - i, k);
  }

  // ---------------------------------------------------------------- quotes

  lemma {:induction false} QuoteShowsLetter(lines: seq<SourceLine>, i: nat, n: nat, k: nat)
    requires InBlock(lines, i, n) && LetterAt(lines[n], k)
    requires Quotes(lines[i].text) && !OpensTable(lines, i)
    ensures Shows(BlockFragments(BlockAt(lines, i)), k)
    decreases Size(lines), 0
  {
    hide BlockAt, Size, LetterAt, Shows, Quotes, OpensTable, Bare, BlocksFrom, BlocksFragments;
    var bare := QuoteShape(lines, i);
    var b := BlockAt(lines, i);
    forall m | 0 <= m < |bare| ensures |bare[m].text| < |lines[i + m].text| { BareIsShorter(lines[i + m]); }
    QuoteIsSmaller(bare, lines, i);
    BareKeepsLetter(lines[n], k);
    assert bare[n - i] == Bare(lines[n]);
    if bare[0].text in ALERTS {
      var name := bare[0].Cut(2, |bare[0].text| - 1);
      ShowsConcat([name], BlocksFragments(Blocks(bare[1..])), k);
      if n == i {
        LabelHasNoLetter(bare[0], k);
      } else {
        assert bare[1..][n - i - 1] == bare[n - i];
        LettersShown(bare[1..], 0, n - i - 1, k);
      }
    } else {
      ShowsConcat([], BlocksFragments(Blocks(bare)), k);
      LettersShown(bare, 0, n - i, k);
    }
  }

  lemma {:induction false} BareIsShorter(l: SourceLine)
    requires Quotes(l.text)
    ensures |Bare(l).text| < |l.text|
  {
    QuotesScanned(l.text);
  }

  lemma {:induction false} BareKeepsLetter(l: SourceLine, k: nat)
    requires LetterAt(l, k)
    ensures LetterAt(Bare(l), k)
  {
    hide Simple, IsSpace;
    var i := Lead(l.text);
    if i < |l.text| && l.text[i] == '>' {
      SpaceIsNoLetter();
      LetterOfSuffix(l, if i + 1 < |l.text| && l.text[i + 1] == ' ' then i + 2 else i + 1, k);
    }
  }

  lemma {:induction false} SpaceIsNoLetter()
    ensures !IsLetter(' ') && !IsLetter('>')
  {
  }

  /** The brackets of a label are no letters. */
  lemma {:induction false} LabelHasNoLetter(l: SourceLine, k: nat)
    requires l.text in ALERTS
    ensures !LetterAt(l, k)
  {
  }

  lemma {:induction false} QuoteIsSmaller(bare: seq<SourceLine>, lines: seq<SourceLine>, i: nat)
    requires bare != [] && i + |bare| <= |lines|
    requires forall m | 0 <= m < |bare| :: |bare[m].text| < |lines[i + m].text|
    ensures Size(bare) < Size(lines) && Size(bare[1..]) < Size(lines)
  {
    hide Size;
    var rest := bare[1..];
    forall m | 0 <= m < |rest| ensures |rest[m].text| <= |lines[i + 1 + m].text| { assert rest[m] == bare[m + 1]; }
    SizeShrinks(rest, lines, i + 1);
    assert [bare[0]] + rest == bare;
    SizeOfCons(bare[0], rest);
    SizeWithin(lines, i, i + |bare|);
    SizeWithin(lines, i + 1, i + |bare|);
  }

  // ---------------------------------------------------------------- lists

  lemma {:induction false} ListShowsLetter(lines: seq<SourceLine>, i: nat, n: nat, k: nat)
    requires InBlock(lines, i, n) && LetterAt(lines[n], k)
    requires OpensList(lines[i].text) && !OpensRule(lines[i].text) && !OpensTable(lines, i)
    ensures Shows(BlockFragments(BlockAt(lines, i)), k)
    decreases Size(lines), 0, 1
  {
    hide BlockAt, Size, LetterAt, Shows, OpensList, OpensRule, OpensTable, Spans, BlocksFragments, InlineOf;
    var starts := ListShape(lines, i);
    var text, items := lines[i].text, BlockAt(lines, i).node.items;
    var indent, ordered := ListIndent(text), ListIsOrdered(text);
    forall m | 0 <= m < |items| ensures starts[m] < starts[m + 1] {
      SpansAscend(items[m], lines, starts[m], starts[m + 1], indent, ordered);
    }
    var m := StretchOf(starts, n);
    ItemShowsLetter(items[m], lines, starts[m], starts[m + 1], indent, ordered, n, k);
    ItemsShow(items, m, k);
  }

  function ListIndent(text: string): nat { Lead(text) }

  predicate ListIsOrdered(text: string)
    requires OpensList(text)
  {
    Digit.Has(text[Lead(text)])
  }

  lemma {:induction false} SpansAscend(item: ListItem, lines: seq<SourceLine>, from: nat, to: nat, indent: nat,
                                       ordered: bool)
    requires Spans(item, lines, from, to, indent, ordered)
    ensures from < to
  {
  }

  lemma {:induction false} StretchOf(starts: seq<nat>, n: nat) returns (m: nat)
    requires |starts| > 1 && starts[0] <= n < starts[|starts| - 1]
    ensures m + 1 < |starts| && starts[m] <= n < starts[m + 1]
    decreases |starts|
  {
    if n < starts[1] {
      m := 0;
    } else {
      m := StretchOf(starts[1..], n);
      m := m + 1;
    }
  }

  lemma {:induction false} ItemsShow(items: seq<ListItem>, m: nat, k: nat)
    requires m < |items| && Shows(InlineOf(items[m].first) + BlocksFragments(items[m].children), k)
    ensures Shows(ItemsFragments(items), k)
  {
    hide Shows, InlineOf, BlocksFragments;
    ShowsConcat(InlineOf(items[0].first) + BlocksFragments(items[0].children), ItemsFragments(items[1..]), k);
    if m > 0 { ItemsShow(items[1..], m - 1, k); }
  }

  lemma {:induction false} ItemShowsLetter(item: ListItem, lines: seq<SourceLine>, from: nat, to: nat, indent: nat,
                                           ordered: bool, n: nat, k: nat)
    requires Spans(item, lines, from, to, indent, ordered) && from <= n < to && LetterAt(lines[n], k)
    ensures Shows(InlineOf(item.first) + BlocksFragments(item.children), k)
    decreases Size(lines), 0, 0
  {
    hide Size, LetterAt, Shows, OpensList, OpensItem, BlocksFragments, BlocksFrom, InlineOf, MovedLeft, LongestRun,
         MarkerSpace, Lead, Box;
    ShowsConcat(InlineOf(item.first), BlocksFragments(item.children), k);
    var line := lines[from];
    MarkerFits(line.text);
    var width := MarkerSpace(line.text, Lead(line.text)) + 1;
    if n == from {
      MarkerHasNoLetter(line, k);
      LetterOfSuffix(line, width, k);
      var text := line.Cut(width, |line.text|);
      SimpleHasNoBox(text, k);
      assert text.Cut(0, |text.text|) == text;
      InlineShows(text, k);
    } else {
      var moved: seq<SourceLine> :| |moved| == to - from - 1
        && (forall m | 0 <= m < |moved| :: MovedLeft(lines[from + 1 + m], moved[m], width))
        && item.children == Blocks(moved);
      var m := n - from - 1;
      assert MovedLeft(lines[n], moved[m], width);
      MovedKeepsLetter(lines[n], moved[m], width, k);
      MovedIsSmaller(lines, from + 1, moved, width);
      LettersShown(moved, 0, m, k);
    }
  }

  lemma {:induction false} MovedIsSmaller(lines: seq<SourceLine>, i: nat, moved: seq<SourceLine>, width: nat)
    requires 0 < i && i + |moved| <= |lines|
    requires forall m | 0 <= m < |moved| :: MovedLeft(lines[i + m], moved[m], width)
    ensures Size(moved) < Size(lines)
  {
    hide Size, MovedLeft;
    forall m | 0 <= m < |moved| ensures |moved[m].text| <= |lines[i + m].text| {
      MovedIsNoLonger(lines[i + m], moved[m], width);
    }
    SizeShrinks(moved, lines, i);
    SizeWithin(lines, i, i + |moved|);
  }

  lemma {:induction false} MovedIsNoLonger(l: SourceLine, moved: SourceLine, width: nat)
    requires MovedLeft(l, moved, width)
    ensures |moved.text| <= |l.text|
  {
  }

  lemma {:induction false} MovedKeepsLetter(l: SourceLine, moved: SourceLine, width: nat, k: nat)
    requires LetterAt(l, k) && MovedLeft(l, moved, width)
    ensures LetterAt(moved, k)
  {
    hide Simple, IsSpace;
    var n: nat :| n <= |l.text| && moved == l.Cut(n, |l.text|) && forall j | 0 <= j < n :: IsSpace(l.text[j]);
    LetterOfSuffix(l, n, k);
  }

  lemma {:induction false} MarkerFits(text: string)
    requires OpensList(text)
    ensures Lead(text) < |text| && MarkerSpace(text, Lead(text)) + 1 <= |text|
  {
  }

  /** Neither the marker of an item nor the white space before it. */
  lemma {:induction false} MarkerHasNoLetter(l: SourceLine, k: nat)
    requires OpensList(l.text) && LetterAt(l, k)
    ensures l.start + MarkerSpace(l.text, Lead(l.text)) + 1 <= k
  {
    hide IsSpace, Simple;
    SpaceIsNoLetter();
  }

  lemma {:induction false} SimpleHasNoBox(l: SourceLine, k: nat)
    requires LetterAt(l, k)
    ensures Box(l.text).None?
  {
    hide Fencing, IsLetter;
    assert "[ ] "[2] == ']' && "[x] "[2] == ']' && "[X] "[2] == ']';
  }

  /** Every letter on a line without pipes, "]" and fence marks is shown by some call, at its own offset. */
  lemma {:induction false} NothingLost(text: string, n: nat, k: nat)
    requires n < |LinesFrom(text, 0)| && LetterAt(LinesFrom(text, 0)[n], k)
    ensures Shows(BlocksFragments(Blocks(LinesFrom(text, 0))), k)
  {
    LettersShown(LinesFrom(text, 0), 0, n, k);
  }
}
