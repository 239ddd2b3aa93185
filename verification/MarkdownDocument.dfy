/** What the Markdown component shows: the renderer's calls for every block, and where they stand
    in the source. */
module MarkdownDocument {
  import opened Options
  import opened Regex
  import opened SourceText
  import opened Strings
  import opened MarkdownTables
  import opened LineForms
  import opened LineScanners
  import opened MarkdownInline
  import opened MarkdownBlocks

  // ---------------------------------------------------------------- the renderer's calls

  function InlineOf(l: SourceLine): seq<SourceLine> { Fragments(Inline(l.text, l.start, 0)) }

  function InlineAll(ls: seq<SourceLine>): seq<SourceLine> {
    if ls == [] then [] else InlineOf(ls[0]) + InlineAll(ls[1..])
  }

  /** A body row shows as many cells as the header has columns. */
  function RowFragments(columns: nat, row: seq<SourceLine>): seq<SourceLine> {
    InlineAll(row[..if columns < |row| then columns else |row|])
  }

  function RowsFragments(columns: nat, rows: seq<seq<SourceLine>>): seq<SourceLine> {
    if rows == [] then [] else RowFragments(columns, rows[0]) + RowsFragments(columns, rows[1..])
  }

  function LabelFragments(alert: Option<SourceLine>): seq<SourceLine> {
    if alert.Some? then [alert.value] else []
  }

  function BlockFragments(b: Block): seq<SourceLine> {
    match b.node
    case CodeBlock(_, body) => body
    case Heading(_, title) => InlineOf(title)
    case Rule => []
    case Table(header, rows) => InlineAll(header) + RowsFragments(|header|, rows)
    case Quote(alert, quoted) => LabelFragments(alert) + BlocksFragments(quoted)
    case List(_, items) => ItemsFragments(items)
    case Paragraph(lines) => InlineAll(lines)
  }

  function BlocksFragments(bs: seq<Block>): seq<SourceLine> {
    if bs == [] then [] else BlockFragments(bs[0]) + BlocksFragments(bs[1..])
  }

  function ItemsFragments(items: seq<ListItem>): seq<SourceLine> {
    if items == [] then []
    else InlineOf(items[0].first) + BlocksFragments(items[0].children) + ItemsFragments(items[1..])
  }

  // ---------------------------------------------------------------- source fidelity and order

  /** Where line i starts, or where the lines end. */
  function Origin(lines: seq<SourceLine>, i: nat, hi: nat): nat
    requires i <= |lines|
  {
    if i < |lines| then lines[i].start else hi
  }

  lemma {:induction false} InlineAllMapped(source: string, ls: seq<SourceLine>, lo: nat, hi: nat)
    requires Mapped(source, ls, lo, hi)
    ensures Mapped(source, InlineAll(ls), lo, hi)
  {
    hide SliceOf, Inline, Fragments;
    if ls != [] {
      InlineMapped(source, ls[0]);
      InlineAllMapped(source, ls[1..], ls[0].End(), hi);
      MappedConcat(source, InlineOf(ls[0]), InlineAll(ls[1..]), ls[0].start, ls[0].End(), hi);
      MappedWiden(source, InlineAll(ls), ls[0].start, hi, lo, hi);
    }
  }

  lemma {:induction false} OneMapped(source: string, l: SourceLine, lo: nat, hi: nat)
    requires SliceOf(source, l) && lo <= l.start && l.End() <= hi
    ensures Mapped(source, [l], lo, hi)
  {
    assert [l][1..] == [];
  }

  /** A line of a mapped sequence ends before the next one starts. */
  lemma {:induction false} LineInPlace(source: string, lines: seq<SourceLine>, lo: nat, hi: nat, i: nat)
    requires Mapped(source, lines, lo, hi) && i < |lines|
    ensures SliceOf(source, lines[i]) && lo <= lines[i].start && lines[i].End() <= Origin(lines, i + 1, hi) <= hi
  {
    MappedElements(source, lines, lo, hi);
  }

  lemma {:induction false} OriginsAscend(source: string, lines: seq<SourceLine>, lo: nat, hi: nat, i: nat, j: nat)
    requires Mapped(source, lines, lo, hi) && i <= j <= |lines|
    ensures lo <= Origin(lines, i, hi) <= Origin(lines, j, hi) <= hi
  {
    MappedElements(source, lines, lo, hi);
    MappedBounds(source, lines, lo, hi);
  }

  lemma {:induction false} UnquotedMapped(source: string, lines: seq<SourceLine>, lo: nat, hi: nat, i: nat, j: nat)
    requires Mapped(source, lines, lo, hi) && i <= j <= |lines|
    requires forall k | i <= k < j :: Takes(QuotedLines, lines, k)
    ensures Mapped(source, Unquoted(lines, i, j), Origin(lines, i, hi), Origin(lines, j, hi))
    decreases j - i
  {
    hide IsQuote, SliceOf;
    OriginsAscend(source, lines, lo, hi, i, j);
    if i < j {
      assert Takes(QuotedLines, lines, i);
      UnquotedMapped(source, lines, lo, hi, i + 1, j);
      LineInPlace(source, lines, lo, hi, i);
      CutIsSlice(source, lines[i], QuotePrefix(lines[i].text), |lines[i].text|);
      OneMapped(source, Unquote(lines[i]), lines[i].start, lines[i].End());
      MappedWiden(source, [Unquote(lines[i])], lines[i].start, lines[i].End(), lines[i].start,
                  Origin(lines, i + 1, hi));
      MappedConcat(source, [Unquote(lines[i])], Unquoted(lines, i + 1, j),
                   lines[i].start, Origin(lines, i + 1, hi), Origin(lines, j, hi));
    }
  }

  lemma {:induction false} DedentedMapped(source: string, lines: seq<SourceLine>, lo: nat, hi: nat, i: nat, j: nat,
                                          prefix: nat)
    requires Mapped(source, lines, lo, hi) && i <= j <= |lines|
    ensures Mapped(source, Dedented(lines, i, j, prefix), Origin(lines, i, hi), Origin(lines, j, hi))
    decreases j - i
  {
    hide SliceOf;
    OriginsAscend(source, lines, lo, hi, i, j);
    if i < j {
      DedentedMapped(source, lines, lo, hi, i + 1, j, prefix);
      LineInPlace(source, lines, lo, hi, i);
      var l := Dedent(lines[i], prefix);
      CutIsSlice(source, lines[i], l.start - lines[i].start, |lines[i].text|);
      OneMapped(source, l, lines[i].start, lines[i].End());
      MappedWiden(source, [l], lines[i].start, lines[i].End(), lines[i].start, Origin(lines, i + 1, hi));
      MappedConcat(source, [l], Dedented(lines, i + 1, j, prefix),
                   lines[i].start, Origin(lines, i + 1, hi), Origin(lines, j, hi));
    }
  }

  /** The calls for one row stay inside its line. */
  lemma {:induction false} RowMapped(source: string, line: SourceLine, columns: nat)
    requires SliceOf(source, line)
    ensures Mapped(source, RowFragments(columns, Cells(line)), line.start, line.End())
    ensures Mapped(source, InlineAll(Cells(line)), line.start, line.End())
  {
    hide Cells, SliceOf;
    CellsMapped(source, line);
    var row := Cells(line);
    var n := if columns < |row| then columns else |row|;
    InlineAllMapped(source, row, line.start, line.End());
    MappedElements(source, row, line.start, line.End());
    MappedBounds(source, row, line.start, line.End());
    MappedFromElements(source, row[..n], line.start, line.End());
    InlineAllMapped(source, row[..n], line.start, line.End());
  }

  lemma {:induction false} RowsMapped(source: string, lines: seq<SourceLine>, lo: nat, hi: nat, i: nat, j: nat,
                                      columns: nat)
    requires Mapped(source, lines, lo, hi) && i <= j <= |lines|
    ensures Mapped(source, RowsFragments(columns, RowCells(lines, i, j)), Origin(lines, i, hi), Origin(lines, j, hi))
    decreases j - i
  {
    hide Cells, SliceOf, RowFragments;
    OriginsAscend(source, lines, lo, hi, i, j);
    if i < j {
      RowsMapped(source, lines, lo, hi, i + 1, j, columns);
      LineInPlace(source, lines, lo, hi, i);
      RowMapped(source, lines[i], columns);
      var row, rest := Cells(lines[i]), RowCells(lines, i + 1, j);
      assert RowCells(lines, i, j)[1..] == rest;
      MappedWiden(source, RowFragments(columns, row), lines[i].start, lines[i].End(), lines[i].start,
                  Origin(lines, i + 1, hi));
      MappedConcat(source, RowFragments(columns, row), RowsFragments(columns, rest),
                   lines[i].start, Origin(lines, i + 1, hi), Origin(lines, j, hi));
    }
  }

  /** Every call made for the lines from i on is a slice of the source, in order, inside those lines. */
  lemma {:induction false} BlocksFromMapped(source: string, lines: seq<SourceLine>, lo: nat, hi: nat, i: nat)
    requires Mapped(source, lines, lo, hi) && i <= |lines|
    ensures Mapped(source, BlocksFragments(BlocksFrom(lines, i)), Origin(lines, i, hi), hi)
    decreases Size(lines), 2, |lines| - i
  {
    hide Blank, BlockAt, Size, Mapped, BlockFragments;
    OriginsAscend(source, lines, lo, hi, i, |lines|);
    if i == |lines| {
      EmptyMapped(source, hi, hi);
    } else if Blank(lines[i].text) {
      BlocksFromMapped(source, lines, lo, hi, i + 1);
      OriginsAscend(source, lines, lo, hi, i, i + 1);
      MappedWiden(source, BlocksFragments(BlocksFrom(lines, i + 1)), Origin(lines, i + 1, hi), hi, Origin(lines, i, hi),
                  hi);
    } else {
      var b := BlockAt(lines, i);
      BlockMapped(source, lines, lo, hi, i);
      BlocksFromMapped(source, lines, lo, hi, b.to);
      assert BlocksFrom(lines, i)[1..] == BlocksFrom(lines, b.to);
      MappedConcat(source, BlockFragments(b), BlocksFragments(BlocksFrom(lines, b.to)),
                   Origin(lines, i, hi), Origin(lines, b.to, hi), hi);
    }
  }

  /** The calls made for one block stay inside the lines it consumed. */
  lemma {:induction false} BlockMapped(source: string, lines: seq<SourceLine>, lo: nat, hi: nat, i: nat)
    requires Mapped(source, lines, lo, hi) && i < |lines|
    ensures var b := BlockAt(lines, i);
            Mapped(source, BlockFragments(b), Origin(lines, i, hi), Origin(lines, b.to, hi))
    decreases Size(lines), 1, 0
  {
    hide FenceForm, HeadingForm, ListForm, IsRule, StartsTable, IsQuote, IsAlert, Size, Mapped, SliceOf, Items,
         Unquoted, Cells, RowCells, BlocksFragments, ItemsFragments, InlineAll, RowsFragments, Inline, Fragments,
         Blocks;
    var line, b := lines[i], BlockAt(lines, i);
    LineInPlace(source, lines, lo, hi, i);
    OriginsAscend(source, lines, lo, hi, i, b.to);
    OriginsAscend(source, lines, lo, hi, i, i + 1);
    OriginsAscend(source, lines, lo, hi, i + 1, b.to);
    match b.node
    case CodeBlock(_, body) =>
      FenceMapped(source, lines, lo, hi, i, i + 1 + |body|, b.to);
    case Heading(_, title) =>
      CutIsSlice(source, line, title.start - line.start, title.End() - line.start);
      InlineMapped(source, title);
      MappedWiden(source, InlineOf(title), title.start, title.End(), line.start, Origin(lines, b.to, hi));
    case Rule =>
      EmptyMapped(source, line.start, Origin(lines, b.to, hi));
    case Table(header, rows) =>
      TableMapped(source, lines, lo, hi, i, b.to);
    case Quote(alert, quoted) =>
      UnquotedShrinks(lines, i, b.to);
      QuoteMapped(source, lines, lo, hi, i, b.to);
    case List(ordered, items) =>
      ItemsMapped(source, lines, lo, hi, i, ListForm(line.text).value.indent, ordered);
    case Paragraph(ls) =>
      MappedSlice(source, lines, lo, hi, i, b.to);
      InlineAllMapped(source, ls, line.start, Origin(lines, b.to, hi));
  }

  lemma {:induction false} FenceMapped(source: string, lines: seq<SourceLine>, lo: nat, hi: nat, i: nat, end: nat,
                                       to: nat)
    requires Mapped(source, lines, lo, hi) && i < end <= to <= |lines|
    ensures Mapped(source, lines[i + 1..end], lines[i].start, Origin(lines, to, hi))
  {
    hide Mapped;
    MappedSlice(source, lines, lo, hi, i + 1, end);
    OriginsAscend(source, lines, lo, hi, i, i + 1);
    OriginsAscend(source, lines, lo, hi, end, to);
    MappedWiden(source, lines[i + 1..end], Origin(lines, i + 1, hi), Origin(lines, end, hi), lines[i].start,
                Origin(lines, to, hi));
  }

  lemma {:induction false} TableMapped(source: string, lines: seq<SourceLine>, lo: nat, hi: nat, i: nat, end: nat)
    requires Mapped(source, lines, lo, hi) && i + 2 <= end <= |lines|
    ensures Mapped(source, InlineAll(Cells(lines[i])) + RowsFragments(|Cells(lines[i])|, RowCells(lines, i + 2, end)),
                   lines[i].start, Origin(lines, end, hi))
  {
    hide Cells, SliceOf, Mapped, InlineAll, RowsFragments, RowCells;
    var columns := |Cells(lines[i])|;
    LineInPlace(source, lines, lo, hi, i);
    OriginsAscend(source, lines, lo, hi, i + 1, i + 2);
    RowMapped(source, lines[i], 0);
    RowsMapped(source, lines, lo, hi, i + 2, end, columns);
    MappedWiden(source, InlineAll(Cells(lines[i])), lines[i].start, lines[i].End(), lines[i].start,
                Origin(lines, i + 2, hi));
    MappedConcat(source, InlineAll(Cells(lines[i])), RowsFragments(columns, RowCells(lines, i + 2, end)),
                 lines[i].start, Origin(lines, i + 2, hi), Origin(lines, end, hi));
  }

  lemma {:induction false} QuoteMapped(source: string, lines: seq<SourceLine>, lo: nat, hi: nat, i: nat, end: nat)
    requires Mapped(source, lines, lo, hi) && i < end <= |lines|
    requires forall k | i <= k < end :: Takes(QuotedLines, lines, k)
    requires |Unquoted(lines, i, end)| == end - i
    ensures var quote := Unquoted(lines, i, end);
            Mapped(source, LabelFragments(AlertLabel(quote[0]))
                   + BlocksFragments(Blocks(if IsAlert(quote[0].text) then quote[1..] else quote)),
                   lines[i].start, Origin(lines, end, hi))
    decreases Size(lines), 0, 0
  {
    hide IsQuote, Size, Mapped, Unquoted, BlocksFragments;
    var quote := Unquoted(lines, i, end);
    var top, bottom := lines[i].start, Origin(lines, end, hi);
    UnquotedMapped(source, lines, lo, hi, i, end);
    NestedIsSmaller(lines, i, end, 0);
    if IsAlert(quote[0].text) {
      TailIsSmaller(quote);
      QuoteTail(source, quote, top, bottom);
      var name := quote[0].Cut(2, |quote[0].text| - 1);
      CutIsSlice(source, quote[0], 2, |quote[0].text| - 1);
      OneMapped(source, name, top, quote[0].End());
      BlocksFromMapped(source, quote[1..], quote[0].End(), bottom, 0);
      OriginsAscend(source, quote[1..], quote[0].End(), bottom, 0, 0);
      MappedWiden(source, BlocksFragments(Blocks(quote[1..])), Origin(quote[1..], 0, bottom), bottom, quote[0].End(),
                  bottom);
      MappedConcat(source, [name], BlocksFragments(Blocks(quote[1..])), top, quote[0].End(), bottom);
    } else {
      BlocksFromMapped(source, quote, top, bottom, 0);
      OriginsAscend(source, quote, top, bottom, 0, 0);
      MappedWiden(source, BlocksFragments(Blocks(quote)), Origin(quote, 0, bottom), bottom, top, bottom);
      assert [] + BlocksFragments(Blocks(quote)) == BlocksFragments(Blocks(quote));
    }
  }

  lemma {:induction false} QuoteTail(source: string, quote: seq<SourceLine>, lo: nat, hi: nat)
    requires Mapped(source, quote, lo, hi) && quote != []
    ensures lo <= quote[0].start && SliceOf(source, quote[0]) && Mapped(source, quote[1..], quote[0].End(), hi)
  {
  }

  lemma {:induction false} ItemsMapped(source: string, lines: seq<SourceLine>, lo: nat, hi: nat, i: nat, indent: nat,
                                       ordered: bool)
    requires Mapped(source, lines, lo, hi) && i <= |lines|
    ensures Mapped(source, ItemsFragments(Items(lines, i, indent, ordered)),
                   Origin(lines, i, hi), Origin(lines, ListEnd(lines, i, indent, ordered), hi))
    decreases Size(lines), 0, |lines| - i
  {
    hide ListForm, Size, Mapped, BlocksFragments, InlineOf, ItemEnd, Dedented, Blocks, FirstLine, TaskOf;
    OriginsAscend(source, lines, lo, hi, i, i);
    if i == |lines| || !IsItem(lines[i].text, indent, ordered) {
      EmptyMapped(source, Origin(lines, i, hi), Origin(lines, i, hi));
    } else {
      var next, end := ItemEnd(lines, i, indent), ListEnd(lines, i, indent, ordered);
      ItemMapped(source, lines, lo, hi, i, next);
      ItemsMapped(source, lines, lo, hi, next, indent, ordered);
      var rest := Items(lines, next, indent, ordered);
      assert Items(lines, i, indent, ordered)[1..] == rest;
      var item := Items(lines, i, indent, ordered)[0];
      MappedConcat(source, InlineOf(item.first) + BlocksFragments(item.children), ItemsFragments(rest),
                   lines[i].start, Origin(lines, next, hi), Origin(lines, end, hi));
    }
  }

  lemma {:induction false} ItemMapped(source: string, lines: seq<SourceLine>, lo: nat, hi: nat, i: nat, next: nat)
    requires Mapped(source, lines, lo, hi) && i < next <= |lines| && ListForm(lines[i].text).Some?
    ensures var content := ListForm(lines[i].text).value.content;
            Mapped(source, InlineOf(FirstLine(lines[i]))
                   + BlocksFragments(Blocks(Dedented(lines, i + 1, next, content))),
                   lines[i].start, Origin(lines, next, hi))
    decreases Size(lines), 0, |lines| - i, 0
  {
    hide ListForm, Size, Mapped, SliceOf, BlocksFragments, Dedented, Inline, Fragments;
    var content := ListForm(lines[i].text).value.content;
    var first, child := FirstLine(lines[i]), Dedented(lines, i + 1, next, content);
    var mid, bottom := Origin(lines, i + 1, hi), Origin(lines, next, hi);
    LineInPlace(source, lines, lo, hi, i);
    CutIsSlice(source, lines[i], first.start - lines[i].start, |lines[i].text|);
    SliceOfSlice(lines[i].text, content, |lines[i].text|, first.start - lines[i].start - content,
                 |lines[i].text| - content);
    InlineMapped(source, first);
    MappedWiden(source, InlineOf(first), first.start, first.End(), lines[i].start, mid);
    DedentedMapped(source, lines, lo, hi, i + 1, next, content);
    NestedIsSmaller(lines, i, next, content);
    BlocksFromMapped(source, child, mid, bottom, 0);
    OriginsAscend(source, child, mid, bottom, 0, 0);
    MappedWiden(source, BlocksFragments(Blocks(child)), Origin(child, 0, bottom), bottom, mid, bottom);
    MappedConcat(source, InlineOf(first), BlocksFragments(Blocks(child)), lines[i].start, mid, bottom);
  }

  // ---------------------------------------------------------------- consumption of the lines

  predicate BlankLines(lines: seq<SourceLine>, i: nat, j: nat)
    requires j <= |lines|
  {
    forall k | i <= k < j :: Blank(lines[k].text)
  }

  /** The blocks take stretches of lines in order, each starting on a line with text, and only blank
      lines stand before, between and after them. */
  ghost predicate Consume(bs: seq<Block>, lines: seq<SourceLine>, i: nat) {
    if bs == [] then BlankLines(lines, i, |lines|)
    else
      var b := bs[0];
      && i <= b.from < b.to <= |lines| && BlankLines(lines, i, b.from) && !Blank(lines[b.from].text)
      && Consume(bs[1..], lines, b.to)
  }

  lemma {:induction false} BlocksConsume(lines: seq<SourceLine>, i: nat)
    requires i <= |lines|
    ensures Consume(BlocksFrom(lines, i), lines, i)
    decreases |lines| - i
  {
    hide Blank, BlockAt;
    var bs := BlocksFrom(lines, i);
    if i < |lines| {
      if Blank(lines[i].text) {
        BlocksConsume(lines, i + 1);
      } else {
        BlocksConsume(lines, BlockAt(lines, i).to);
        assert bs[1..] == BlocksFrom(lines, BlockAt(lines, i).to);
      }
    }
  }

  predicate Covers(b: Block, k: nat) { b.from <= k < b.to }

  /** A line with text lies in exactly one block. */
  lemma {:induction false} OneBlockEach(bs: seq<Block>, lines: seq<SourceLine>, i: nat, k: nat)
    requires Consume(bs, lines, i) && i <= k < |lines| && !Blank(lines[k].text)
    ensures exists n: nat | n < |bs| :: Covers(bs[n], k) && forall m: nat | m < |bs| && Covers(bs[m], k) :: m == n
  {
    hide Blank;
    if k < bs[0].to {
      forall m: nat | m < |bs| && Covers(bs[m], k) ensures m == 0 {
        if m > 0 { BlocksAfter(bs[1..], lines, bs[0].to, m - 1); }
      }
      assert Covers(bs[0], k);
    } else {
      OneBlockEach(bs[1..], lines, bs[0].to, k);
      var n: nat :| n < |bs[1..]| && Covers(bs[1..][n], k)
                    && forall m: nat | m < |bs[1..]| && Covers(bs[1..][m], k) :: m == n;
      assert Covers(bs[n + 1], k);
      forall m: nat | m < |bs| && Covers(bs[m], k) ensures m == n + 1 {
        if m > 0 { assert bs[1..][m - 1] == bs[m]; }
      }
    }
  }

  lemma {:induction false} BlocksAfter(bs: seq<Block>, lines: seq<SourceLine>, i: nat, n: nat)
    requires Consume(bs, lines, i) && n < |bs|
    ensures i <= bs[n].from
  {
    hide Blank, BlankLines;
    if n > 0 { BlocksAfter(bs[1..], lines, bs[0].to, n - 1); }
  }

  // ---------------------------------------------------------------- empty fragments

  predicate AllShown(ls: seq<SourceLine>) { forall l <- ls :: l.text != "" }

  /** A fenced block, at any depth, holds an empty line. */
  predicate EmptyCode(bs: seq<Block>) {
    bs != [] && (EmptyCodeIn(bs[0]) || EmptyCode(bs[1..]))
  }

  predicate EmptyCodeIn(b: Block) {
    match b.node
    case CodeBlock(_, body) => !AllShown(body)
    case Quote(_, quoted) => EmptyCode(quoted)
    case List(_, items) => EmptyItemCode(items)
    case _ => false
  }

  predicate EmptyItemCode(items: seq<ListItem>) {
    items != [] && (EmptyCode(items[0].children) || EmptyItemCode(items[1..]))
  }

  lemma {:induction false} AllShownConcat(a: seq<SourceLine>, b: seq<SourceLine>)
    ensures AllShown(a + b) <==> AllShown(a) && AllShown(b)
  {
    if AllShown(a + b) {
      assert forall l <- a :: l in a + b;
      assert forall l <- b :: l in a + b;
    }
  }

  lemma {:induction false} InlineShown(l: SourceLine)
    ensures AllShown(InlineOf(l))
  {
    hide NextToken, TokenAt, Inline;
    InlineTiles(l.text, l.start, 0);
    CleanFragments(Inline(l.text, l.start, 0));
  }

  lemma {:induction false} InlineAllShown(ls: seq<SourceLine>)
    ensures AllShown(InlineAll(ls))
  {
    hide InlineOf;
    if ls != [] {
      InlineShown(ls[0]);
      InlineAllShown(ls[1..]);
      AllShownConcat(InlineOf(ls[0]), InlineAll(ls[1..]));
    }
  }

  lemma {:induction false} RowsShown(columns: nat, rows: seq<seq<SourceLine>>)
    ensures AllShown(RowsFragments(columns, rows))
  {
    hide InlineAll;
    if rows != [] {
      InlineAllShown(rows[0][..if columns < |rows[0]| then columns else |rows[0]|]);
      RowsShown(columns, rows[1..]);
      AllShownConcat(RowFragments(columns, rows[0]), RowsFragments(columns, rows[1..]));
    }
  }

  /** Exactly when every fragment has text: the renderer is called with an empty string for the empty
      lines of fenced code, and for nothing else. */
  lemma {:induction false} EmptyFragments(lines: seq<SourceLine>, i: nat)
    requires i <= |lines|
    ensures AllShown(BlocksFragments(BlocksFrom(lines, i))) <==> !EmptyCode(BlocksFrom(lines, i))
    decreases Size(lines), 2, |lines| - i
  {
    hide Blank, BlockAt, Size, AllShown, BlockFragments, EmptyCodeIn;
    if i < |lines| {
      if Blank(lines[i].text) {
        EmptyFragments(lines, i + 1);
      } else {
        var b := BlockAt(lines, i);
        var rest := BlocksFrom(lines, b.to);
        assert BlocksFrom(lines, i)[1..] == rest;
        EmptyBlockFragments(lines, i);
        EmptyFragments(lines, b.to);
        AllShownConcat(BlockFragments(b), BlocksFragments(rest));
      }
    } else {
      NothingShown();
    }
  }

  lemma {:induction false} NothingShown()
    ensures AllShown([])
  {
  }

  lemma {:induction false} EmptyBlockFragments(lines: seq<SourceLine>, i: nat)
    requires i < |lines|
    ensures AllShown(BlockFragments(BlockAt(lines, i))) <==> !EmptyCodeIn(BlockAt(lines, i))
    decreases Size(lines), 1, 0
  {
    hide FenceForm, HeadingForm, ListForm, IsRule, StartsTable, IsQuote, IsAlert, Size, Items, Unquoted, AllShown,
         EmptyCode, Cells, RowCells, BlocksFragments, ItemsFragments, InlineAll, RowsFragments, InlineOf, EmptyItemCode,
         Blocks;
    var b := BlockAt(lines, i);
    match b.node
    case CodeBlock(_, _) =>
    case Heading(_, title) => InlineShown(title);
    case Rule => NothingShown();
    case Table(header, rows) =>
      InlineAllShown(header);
      RowsShown(|header|, rows);
      AllShownConcat(InlineAll(header), RowsFragments(|header|, rows));
    case Quote(alert, quoted) =>
      UnquotedShrinks(lines, i, b.to);
      NestedIsSmaller(lines, i, b.to, 0);
      var quote := Unquoted(lines, i, b.to);
      TailIsSmaller(quote);
      EmptyQuoteFragments(quote);
    case List(ordered, items) =>
      EmptyItemFragments(lines, i, ListForm(lines[i].text).value.indent, ordered);
    case Paragraph(ls) => InlineAllShown(ls);
  }

  lemma {:induction false} EmptyQuoteFragments(quote: seq<SourceLine>)
    requires quote != []
    ensures var body := Blocks(if IsAlert(quote[0].text) then quote[1..] else quote);
            AllShown(LabelFragments(AlertLabel(quote[0])) + BlocksFragments(body)) <==> !EmptyCode(body)
    decreases Size(quote), 3
  {
    hide BlocksFragments, BlocksFrom, EmptyCode, Size;
    var inner := if IsAlert(quote[0].text) then quote[1..] else quote;
    TailIsSmaller(quote);
    EmptyFragments(inner, 0);
    AllShownConcat(LabelFragments(AlertLabel(quote[0])), BlocksFragments(Blocks(inner)));
  }

  lemma {:induction false} EmptyItemFragments(lines: seq<SourceLine>, i: nat, indent: nat, ordered: bool)
    requires i <= |lines|
    ensures AllShown(ItemsFragments(Items(lines, i, indent, ordered))) <==>
            !EmptyItemCode(Items(lines, i, indent, ordered))
    decreases Size(lines), 0, |lines| - i
  {
    hide ListForm, Size, BlocksFragments, InlineOf, ItemEnd, Dedented, BlocksFrom, FirstLine, TaskOf, AllShown,
         EmptyCode;
    if i == |lines| || !IsItem(lines[i].text, indent, ordered) {
      NothingShown();
    } else {
      var next := ItemEnd(lines, i, indent);
      var item, rest := Items(lines, i, indent, ordered)[0], Items(lines, next, indent, ordered);
      assert Items(lines, i, indent, ordered)[1..] == rest;
      NestedIsSmaller(lines, i, next, ListForm(lines[i].text).value.content);
      EmptyFragments(Dedented(lines, i + 1, next, ListForm(lines[i].text).value.content), 0);
      EmptyItemFragments(lines, next, indent, ordered);
      InlineShown(item.first);
      AllShownConcat(InlineOf(item.first), BlocksFragments(item.children));
      AllShownConcat(InlineOf(item.first) + BlocksFragments(item.children), ItemsFragments(rest));
    }
  }

  /** A fence around one empty line: the renderer is called with an empty string. */
  lemma {:induction false} EmptyFragmentExample()
    ensures var lines := [SourceLine("```", 0), SourceLine("", 4), SourceLine("```", 5)];
            !AllShown(BlocksFragments(Blocks(lines)))
  {
    hide MatchAt, BlocksFragments, Inline, Lead, HeadingForm, IsRule, StartsTable, ListForm, Items;
    var lines := [SourceLine("```", 0), SourceLine("", 4), SourceLine("```", 5)];
    FenceOpens();
    FenceCloses();
    assert lines[0].text == "```" && lines[1].text == "";
    var scan := FenceBody('`', 3);
    assert Takes(scan, lines, 1) && !Takes(scan, lines, 2);
    assert ScanEnd(scan, lines, 1) == 2;
    var b := BlockAt(lines, 0);
    assert lines[1] in b.node.body;
    TicksNotBlank();
    EmptyFragments(lines, 0);
  }

  lemma {:induction false} TicksNotBlank()
    ensures !Blank("```")
  {
    assert !IsSpace("```"[0]) && !IsSpace("```"[2]);
  }

  lemma {:induction false} FenceOpens()
    ensures FenceForm("```").Some? && FenceForm("```").value.mark == '`' && FenceForm("```").value.count == 3
  {
    hide FenceForm, Trim;
    FenceScanned("```");
    LeadIs("```", 0);
    RunIs(Only({'`'}), "```", 0, 3);
  }

  lemma {:induction false} FenceCloses()
    ensures ClosesFence("```", '`', 3) && !ClosesFence("", '`', 3)
  {
    hide ClosesFence;
    ClosingScanned("```", '`', 3);
    ClosingScanned("", '`', 3);
    LeadIs("```", 0);
    RunIs(Only({'`'}), "```", 0, 3);
  }

  // ---------------------------------------------------------------- the whole document

  /** The Markdown component: its calls are slices of the document at the offsets they claim, in
      increasing order and disjoint, and they have text unless fenced code holds an empty line. */
  method RenderMarkdown(text: string) returns (shown: seq<SourceLine>, blocks: seq<Block>)
    ensures blocks == Blocks(LinesFrom(text, 0)) && Consume(blocks, LinesFrom(text, 0), 0)
    ensures shown == BlocksFragments(blocks)
    ensures forall i | 0 <= i < |shown| ::
              shown[i].End() <= |text| && text[shown[i].start..shown[i].End()] == shown[i].text
    ensures forall i, j | 0 <= i < j < |shown| :: shown[i].End() <= shown[j].start
    ensures (forall i | 0 <= i < |shown| :: shown[i].text != "") <==> !EmptyCode(blocks)
  {
    hide BlocksFrom, BlocksFragments, EmptyCode, LinesFrom, Consume;
    var lines := SourceLines(text);
    blocks := ParseBlocks(lines);
    shown := BlocksFragments(blocks);
    DocumentMapped(text);
    MappedElements(text, shown, 0, |text|);
    EmptyFragments(lines, 0);
    BlocksConsume(lines, 0);
  }

  lemma {:induction false} DocumentMapped(text: string)
    ensures Mapped(text, BlocksFragments(Blocks(LinesFrom(text, 0))), 0, |text|)
  {
    hide Mapped, BlocksFrom, LinesFrom;
    var lines := LinesFrom(text, 0);
    LinesSplit(text, 0);
    BlocksFromMapped(text, lines, 0, |text|, 0);
    OriginsAscend(text, lines, 0, |text|, 0, 0);
    MappedWiden(text, BlocksFragments(Blocks(lines)), Origin(lines, 0, |text|), |text|, 0, |text|);
  }
}
