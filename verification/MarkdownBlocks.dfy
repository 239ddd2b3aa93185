/** The block parser: lines into headings, fences, tables, quotes, lists and paragraphs. */
module MarkdownBlocks {
  import opened Options
  import opened Regex
  import opened SourceText
  import opened Strings
  import opened MarkdownTables
  import opened LineForms
  import opened MarkdownInline

  /** A block and the lines [from, to) it consumed. */
  datatype Block = Block(from: nat, to: nat, node: Node)

  datatype Node =
    | CodeBlock(info: string, body: seq<SourceLine>)
    | Heading(level: nat, title: SourceLine)
    | Rule
    | Table(header: seq<SourceLine>, rows: seq<seq<SourceLine>>)
    | Quote(alert: Option<SourceLine>, quoted: seq<Block>)
    | List(ordered: bool, items: seq<ListItem>)
    | Paragraph(lines: seq<SourceLine>)

  datatype ListItem = ListItem(task: Option<bool>, first: SourceLine, children: seq<Block>)

  // ---------------------------------------------------------------- the scans over lines

  /** The inner loops of the parser, each taking lines while a condition holds. */
  datatype Scan = FenceBody(mark: char, count: nat) | TableRows | QuotedLines | ChildLines(indent: nat) | ParagraphTail

  predicate StartsTable(lines: seq<SourceLine>, i: nat)
    requires i < |lines|
  {
    '|' in lines[i].text && i + 1 < |lines| && IsSeparator(Cells(lines[i + 1]))
  }

  predicate Takes(scan: Scan, lines: seq<SourceLine>, i: nat)
    requires i < |lines|
  {
    var text := lines[i].text;
    match scan
    case FenceBody(mark, count) => !ClosesFence(text, mark, count)
    case TableRows => '|' in text && !Blank(text)
    case QuotedLines => IsQuote(text)
    case ChildLines(indent) => !Blank(text) && Lead(text) > indent
    case ParagraphTail => !Blank(text) && !StopsParagraph(text) && !StartsTable(lines, i)
  }

  /** The first line at or after i that the scan does not take. */
  function ScanEnd(scan: Scan, lines: seq<SourceLine>, i: nat): (j: nat)
    requires i <= |lines|
    ensures i <= j <= |lines|
    ensures forall k | i <= k < j :: Takes(scan, lines, k)
    ensures j < |lines| ==> !Takes(scan, lines, j)
    decreases |lines| - i
  {
    hide Takes;
    if i < |lines| && Takes(scan, lines, i) then ScanEnd(scan, lines, i + 1) else i
  }

  /** A quoted line without its quote mark. */
  function Unquote(l: SourceLine): SourceLine
    requires IsQuote(l.text)
  {
    l.Cut(QuotePrefix(l.text), |l.text|)
  }

  function Unquoted(lines: seq<SourceLine>, i: nat, j: nat): seq<SourceLine>
    requires i <= j <= |lines| && forall k | i <= k < j :: Takes(QuotedLines, lines, k)
    decreases j - i
  {
    if i == j then [] else assert Takes(QuotedLines, lines, i); [Unquote(lines[i])] + Unquoted(lines, i + 1, j)
  }

  /** A child line moved left by the width of its item's marker, or less if it is indented less. */
  function Dedent(l: SourceLine, prefix: nat): (r: SourceLine)
    ensures |r.text| <= |l.text|
  {
    l.Cut(if prefix < Lead(l.text) then prefix else Lead(l.text), |l.text|)
  }

  function Dedented(lines: seq<SourceLine>, i: nat, j: nat, prefix: nat): seq<SourceLine>
    requires i <= j <= |lines|
    decreases j - i
  {
    if i == j then [] else [Dedent(lines[i], prefix)] + Dedented(lines, i + 1, j, prefix)
  }

  /** The measure of the recursion: every line counts its length and one more. */
  function SizeOf(lines: seq<SourceLine>, i: nat, j: nat): nat
    requires i <= j <= |lines|
    decreases j - i
  {
    if i == j then 0 else |lines[i].text| + 1 + SizeOf(lines, i + 1, j)
  }

  function Size(lines: seq<SourceLine>): nat { SizeOf(lines, 0, |lines|) }

  lemma {:induction false} SizeSplits(lines: seq<SourceLine>, i: nat, j: nat, k: nat)
    requires i <= j <= k <= |lines|
    ensures SizeOf(lines, i, k) == SizeOf(lines, i, j) + SizeOf(lines, j, k)
    decreases j - i
  {
    if i < j { SizeSplits(lines, i + 1, j, k); }
  }

  lemma {:induction false} SizeOfRest(lines: seq<SourceLine>, i: nat, j: nat)
    requires 1 <= i <= j <= |lines|
    ensures SizeOf(lines, i, j) == SizeOf(lines[1..], i - 1, j - 1)
    decreases j - i
  {
    if i < j { SizeOfRest(lines, i + 1, j); }
  }

  lemma {:induction false} SizeOfCons(l: SourceLine, ls: seq<SourceLine>)
    ensures Size([l] + ls) == |l.text| + 1 + Size(ls)
  {
    assert ([l] + ls)[1..] == ls;
    SizeOfRest([l] + ls, 1, |ls| + 1);
  }

  lemma {:induction false} UnquotedShrinks(lines: seq<SourceLine>, i: nat, j: nat)
    requires i <= j <= |lines| && forall k | i <= k < j :: Takes(QuotedLines, lines, k)
    ensures |Unquoted(lines, i, j)| == j - i
    ensures Size(Unquoted(lines, i, j)) + (j - i) <= SizeOf(lines, i, j)
    decreases j - i
  {
    if i < j {
      assert Takes(QuotedLines, lines, i);
      UnquotedShrinks(lines, i + 1, j);
      SizeOfCons(Unquote(lines[i]), Unquoted(lines, i + 1, j));
    }
  }

  lemma {:induction false} DedentedShrinks(lines: seq<SourceLine>, i: nat, j: nat, prefix: nat)
    requires i <= j <= |lines|
    ensures |Dedented(lines, i, j, prefix)| == j - i
    ensures Size(Dedented(lines, i, j, prefix)) <= SizeOf(lines, i, j)
    decreases j - i
  {
    hide Dedent, Size;
    if i < j {
      DedentedShrinks(lines, i + 1, j, prefix);
      SizeOfCons(Dedent(lines[i], prefix), Dedented(lines, i + 1, j, prefix));
    } else {
      SizeOfNone();
    }
  }

  lemma {:induction false} SizeOfNone()
    ensures Size([]) == 0
  {
  }

  /** Quoted text and list children are strictly smaller than the lines they come from. */
  lemma {:induction false} NestedIsSmaller(lines: seq<SourceLine>, i: nat, j: nat, prefix: nat)
    requires i < j <= |lines|
    ensures (forall k | i <= k < j :: Takes(QuotedLines, lines, k)) ==>
              Size(Unquoted(lines, i, j)) < Size(lines) && |Unquoted(lines, i, j)| == j - i
    ensures Size(Dedented(lines, i + 1, j, prefix)) < Size(lines)
  {
    SizeSplits(lines, 0, i, |lines|);
    SizeSplits(lines, i, i + 1, |lines|);
    SizeSplits(lines, i, j, |lines|);
    SizeSplits(lines, i + 1, j, |lines|);
    if forall k | i <= k < j :: Takes(QuotedLines, lines, k) { UnquotedShrinks(lines, i, j); }
    DedentedShrinks(lines, i + 1, j, prefix);
  }

  lemma {:induction false} TailIsSmaller(lines: seq<SourceLine>)
    requires lines != []
    ensures Size(lines[1..]) < Size(lines)
  {
    SizeOfRest(lines, 1, |lines|);
  }

  // ---------------------------------------------------------------- the parser as a function

  /** The blocks of the lines from i on. */
  function BlocksFrom(lines: seq<SourceLine>, i: nat): seq<Block>
    requires i <= |lines|
    decreases Size(lines), 2, |lines| - i
  {
    if i == |lines| then []
    else if Blank(lines[i].text) then BlocksFrom(lines, i + 1)
    else
      var b := BlockAt(lines, i);
      [b] + BlocksFrom(lines, b.to)
  }

  function Blocks(lines: seq<SourceLine>): seq<Block>
    decreases Size(lines), 3
  {
    BlocksFrom(lines, 0)
  }

  /** The block that starts at line i, tried in the order fence, heading, rule, table, quote, list. */
  function BlockAt(lines: seq<SourceLine>, i: nat): (b: Block)
    requires i < |lines|
    ensures b.from == i < b.to <= |lines|
    decreases Size(lines), 1, 0
  {
    var line := lines[i];
    var fence, heading, marker := FenceForm(line.text), HeadingForm(line.text), ListForm(line.text);
    if fence.Some? then
      var end := ScanEnd(FenceBody(fence.value.mark, fence.value.count), lines, i + 1);
      Block(i, if end < |lines| then end + 1 else end, CodeBlock(fence.value.info, lines[i + 1..end]))
    else if heading.Some? then
      Block(i, i + 1, Heading(heading.value.level, line.Cut(heading.value.from, heading.value.to)))
    else if IsRule(line.text) then Block(i, i + 1, Rule)
    else if StartsTable(lines, i) then
      var end := ScanEnd(TableRows, lines, i + 2);
      Block(i, end, Table(Cells(line), RowCells(lines, i + 2, end)))
    else if IsQuote(line.text) then
      var end := ScanEnd(QuotedLines, lines, i);
      var quote := Unquoted(lines, i, end);
      NestedIsSmaller(lines, i, end, 0);
      var alert := IsAlert(quote[0].text);
      TailIsSmaller(quote);
      Block(i, end, Quote(AlertLabel(quote[0]), Blocks(if alert then quote[1..] else quote)))
    else if marker.Some? then
      var end := ListEnd(lines, i, marker.value.indent, marker.value.ordered);
      Block(i, end, List(marker.value.ordered, Items(lines, i, marker.value.indent, marker.value.ordered)))
    else
      var end := ScanEnd(ParagraphTail, lines, i + 1);
      Block(i, end, Paragraph(lines[i..end]))
  }

  function AlertLabel(l: SourceLine): Option<SourceLine> {
    if IsAlert(l.text) then Some(l.Cut(2, |l.text| - 1)) else None
  }

  function RowCells(lines: seq<SourceLine>, i: nat, j: nat): seq<seq<SourceLine>>
    requires i <= j <= |lines|
    decreases j - i
  {
    if i == j then [] else [Cells(lines[i])] + RowCells(lines, i + 1, j)
  }

  /** An item of the list: same indentation, same kind of marker. */
  predicate IsItem(text: string, indent: nat, ordered: bool) {
    var m := ListForm(text);
    m.Some? && m.value.indent == indent && m.value.ordered == ordered
  }

  function ItemEnd(lines: seq<SourceLine>, i: nat, indent: nat): (j: nat)
    requires i < |lines|
    ensures i < j <= |lines|
  {
    ScanEnd(ChildLines(indent), lines, i + 1)
  }

  function ListEnd(lines: seq<SourceLine>, i: nat, indent: nat, ordered: bool): (j: nat)
    requires i <= |lines|
    ensures i <= j <= |lines|
    ensures i < |lines| && IsItem(lines[i].text, indent, ordered) ==> i < j
    decreases |lines| - i
  {
    if i < |lines| && IsItem(lines[i].text, indent, ordered)
    then ListEnd(lines, ItemEnd(lines, i, indent), indent, ordered) else i
  }

  function Items(lines: seq<SourceLine>, i: nat, indent: nat, ordered: bool): seq<ListItem>
    requires i <= |lines|
    decreases Size(lines), 0, |lines| - i
  {
    if i == |lines| || !IsItem(lines[i].text, indent, ordered) then []
    else
      var next := ItemEnd(lines, i, indent);
      var content := ListForm(lines[i].text).value.content;
      NestedIsSmaller(lines, i, next, content);
      [ListItem(TaskOf(lines[i]), FirstLine(lines[i]), Blocks(Dedented(lines, i + 1, next, content)))]
      + Items(lines, next, indent, ordered)
  }

  function ItemText(l: SourceLine): SourceLine
    requires ListForm(l.text).Some?
  {
    l.Cut(ListForm(l.text).value.content, |l.text|)
  }

  function TaskOf(l: SourceLine): Option<bool>
    requires ListForm(l.text).Some?
  {
    TaskForm(ItemText(l).text)
  }

  /** The item's own text, after its marker and its check box. */
  function FirstLine(l: SourceLine): SourceLine
    requires ListForm(l.text).Some?
  {
    ItemText(l).Cut(if TaskOf(l).Some? then 4 else 0, |ItemText(l).text|)
  }

  lemma {:induction false} BlankIsSpace(s: string)
    requires Blank(s)
    ensures forall k | 0 <= k < |s| :: IsSpace(s[k])
  {
  }

  lemma {:induction false} BlankHasNoCells(line: SourceLine, i: nat)
    requires i <= |line.text| && Blank(line.text)
    ensures CellsFrom(line, i, 0, false) == []
    decreases |line.text| - i
  {
    BlankIsSpace(line.text);
    hide Blank, Trim, TrimmedAt;
    if i < |line.text| {
      assert IsSpace(line.text[i]);
      BlankHasNoCells(line, i + 1);
    } else {
      assert line.text[0..i] == line.text;
      BlankTrims(line.text);
    }
  }

  lemma {:induction false} BlankTrims(s: string)
    requires Blank(s)
    ensures Trim(s) == ""
  {
  }

  /** A row without cells counts as a separator: a line with a pipe that stands above a blank line is
      taken for the header of a table. */
  lemma {:induction false} TableAboveBlankLine(lines: seq<SourceLine>, i: nat)
    requires i + 1 < |lines| && '|' in lines[i].text && Blank(lines[i + 1].text)
    ensures StartsTable(lines, i)
  {
    hide CellsFrom, Blank;
    BlankHasNoCells(lines[i + 1], 0);
  }

  // ---------------------------------------------------------------- the parser as it runs

  method ParseBlocks(lines: seq<SourceLine>) returns (result: seq<Block>)
    ensures result == Blocks(lines)
    decreases Size(lines), 2
  {
    hide Blank, BlockAt;
    result := [];
    var i := 0;
    while i < |lines|
      invariant i <= |lines| && result + BlocksFrom(lines, i) == Blocks(lines)
    {
      if Blank(lines[i].text) {
        i := i + 1;
      } else {
        var b := ParseBlock(lines, i);
        BlocksStep(result, b, BlocksFrom(lines, b.to));
        result := result + [b];
        i := b.to;
      }
    }
  }

  lemma {:induction false} BlocksStep(done: seq<Block>, b: Block, rest: seq<Block>)
    ensures done + ([b] + rest) == done + [b] + rest
  {
  }

  method ParseBlock(lines: seq<SourceLine>, from: nat) returns (b: Block)
    requires from < |lines|
    ensures b == BlockAt(lines, from)
    decreases Size(lines), 1, 0
  {
    hide FenceForm, HeadingForm, ListForm, IsRule, StartsTable, IsQuote, IsAlert, RowCells, Items, Unquoted, Cells;
    var line := lines[from];
    var fence := FenceForm(line.text);
    if fence.Some? {
      b := ParseFence(lines, from, fence.value);
      return;
    }
    var heading := HeadingForm(line.text);
    if heading.Some? {
      b := Block(from, from + 1, Heading(heading.value.level, line.Cut(heading.value.from, heading.value.to)));
      return;
    }
    if IsRule(line.text) {
      b := Block(from, from + 1, Rule);
      return;
    }
    if StartsTable(lines, from) {
      b := ParseTable(lines, from);
      return;
    }
    if IsQuote(line.text) {
      b := ParseQuote(lines, from);
      return;
    }
    var marker := ListForm(line.text);
    if marker.Some? {
      b := ParseList(lines, from, marker.value);
      return;
    }
    b := ParseParagraph(lines, from);
  }

  method ParseParagraph(lines: seq<SourceLine>, from: nat) returns (b: Block)
    requires from < |lines|
    ensures var end := ScanEnd(ParagraphTail, lines, from + 1); b == Block(from, end, Paragraph(lines[from..end]))
  {
    hide Takes;
    var paragraph, i := [lines[from]], from + 1;
    while i < |lines| && Takes(ParagraphTail, lines, i)
      invariant from < i <= |lines| && paragraph == lines[from..i]
      invariant ScanEnd(ParagraphTail, lines, i) == ScanEnd(ParagraphTail, lines, from + 1)
    {
      paragraph := paragraph + [lines[i]];
      i := i + 1;
    }
    b := Block(from, i, Paragraph(paragraph));
  }

  method ParseFence(lines: seq<SourceLine>, from: nat, fence: Fence) returns (b: Block)
    requires from < |lines|
    ensures var end := ScanEnd(FenceBody(fence.mark, fence.count), lines, from + 1);
            b == Block(from, if end < |lines| then end + 1 else end, CodeBlock(fence.info, lines[from + 1..end]))
  {
    var scan := FenceBody(fence.mark, fence.count);
    var body, i := [], from + 1;
    while i < |lines| && Takes(scan, lines, i)
      invariant from < i <= |lines| && body == lines[from + 1..i]
      invariant ScanEnd(scan, lines, i) == ScanEnd(scan, lines, from + 1)
    {
      body := body + [lines[i]];
      i := i + 1;
    }
    if i < |lines| { i := i + 1; }
    b := Block(from, i, CodeBlock(fence.info, body));
  }

  method ParseTable(lines: seq<SourceLine>, from: nat) returns (b: Block)
    requires from < |lines| && StartsTable(lines, from)
    ensures var end := ScanEnd(TableRows, lines, from + 2);
            b == Block(from, end, Table(Cells(lines[from]), RowCells(lines, from + 2, end)))
  {
    assert from + 1 < |lines|;
    hide Cells, Takes, StartsTable;
    var header := TableCells(lines[from]);
    var rows, i := [], from + 2;
    ghost var end := ScanEnd(TableRows, lines, from + 2);
    while i < |lines| && Takes(TableRows, lines, i)
      invariant from + 2 <= i <= end && ScanEnd(TableRows, lines, i) == end
      invariant rows + RowCells(lines, i, end) == RowCells(lines, from + 2, end)
    {
      var row := TableCells(lines[i]);
      RowsStep(rows, row, RowCells(lines, i + 1, end));
      rows := rows + [row];
      i := i + 1;
    }
    assert i == end && rows + [] == rows;
    b := Block(from, i, Table(header, rows));
  }

  lemma {:induction false} RowsStep(done: seq<seq<SourceLine>>, row: seq<SourceLine>, rest: seq<seq<SourceLine>>)
    ensures done + ([row] + rest) == done + [row] + rest
  {
  }

  method ParseQuote(lines: seq<SourceLine>, from: nat) returns (b: Block)
    requires from < |lines| && IsQuote(lines[from].text)
    ensures var end := ScanEnd(QuotedLines, lines, from);
            && from < end && |Unquoted(lines, from, end)| == end - from
            && var quote := Unquoted(lines, from, end);
               b == Block(from, end, Quote(AlertLabel(quote[0]),
                                           Blocks(if IsAlert(quote[0].text) then quote[1..] else quote)))
    decreases Size(lines), 0
  {
    hide IsQuote, IsAlert, Blocks, Unquote;
    var quote, i := [], from;
    ghost var end := ScanEnd(QuotedLines, lines, from);
    while i < |lines| && Takes(QuotedLines, lines, i)
      invariant from <= i <= end && ScanEnd(QuotedLines, lines, i) == end
      invariant quote + Unquoted(lines, i, end) == Unquoted(lines, from, end)
    {
      quote := quote + [Unquote(lines[i])];
      i := i + 1;
    }
    assert i == end && quote + [] == quote;
    NestedIsSmaller(lines, from, end, 0);
    TailIsSmaller(quote);
    var body := ParseBlocks(if IsAlert(quote[0].text) then quote[1..] else quote);
    b := Block(from, i, Quote(AlertLabel(quote[0]), body));
  }

  predicate StartsList(lines: seq<SourceLine>, i: nat, marker: Marker) {
    i < |lines| && ListForm(lines[i].text) == Some(marker)
  }

  method ParseList(lines: seq<SourceLine>, from: nat, marker: Marker) returns (b: Block)
    requires StartsList(lines, from, marker)
    ensures b == Block(from, ListEnd(lines, from, marker.indent, marker.ordered),
                       List(marker.ordered, Items(lines, from, marker.indent, marker.ordered)))
    decreases Size(lines), 0
  {
    hide ListForm, TaskOf, FirstLine, Blocks, ItemEnd, Size;
    var indent, ordered := marker.indent, marker.ordered;
    var items, i := [], from;
    while i < |lines| && IsItem(lines[i].text, indent, ordered)
      invariant from <= i <= |lines| && ListEnd(lines, i, indent, ordered) == ListEnd(lines, from, indent, ordered)
      invariant items + Items(lines, i, indent, ordered) == Items(lines, from, indent, ordered)
    {
      var item, next := ParseItem(lines, i, indent);
      ItemsStep(items, item, Items(lines, next, indent, ordered));
      items := items + [item];
      i := next;
    }
    assert items + [] == items;
    b := Block(from, i, List(ordered, items));
  }

  lemma {:induction false} ItemsStep(done: seq<ListItem>, item: ListItem, rest: seq<ListItem>)
    ensures done + ([item] + rest) == done + [item] + rest
  {
  }

  method ParseItem(lines: seq<SourceLine>, from: nat, indent: nat) returns (item: ListItem, next: nat)
    requires from < |lines| && ListForm(lines[from].text).Some?
    ensures next == ItemEnd(lines, from, indent)
    ensures item == ListItem(TaskOf(lines[from]), FirstLine(lines[from]),
                             Blocks(Dedented(lines, from + 1, next, ListForm(lines[from].text).value.content)))
    decreases Size(lines), 0, 0
  {
    hide ListForm, TaskOf, FirstLine, Blocks, Size, Dedent;
    var prefix := ListForm(lines[from].text).value.content;
    var child, i := [], from + 1;
    ghost var end := ItemEnd(lines, from, indent);
    while i < |lines| && Takes(ChildLines(indent), lines, i)
      invariant from < i <= end && ScanEnd(ChildLines(indent), lines, i) == end
      invariant child + Dedented(lines, i, end, prefix) == Dedented(lines, from + 1, end, prefix)
    {
      child := child + [Dedent(lines[i], prefix)];
      i := i + 1;
    }
    assert i == end && child + [] == child;
    NestedIsSmaller(lines, from, end, prefix);
    var children := ParseBlocks(child);
    item := ListItem(TaskOf(lines[from]), FirstLine(lines[from]), children);
    next := i;
  }
}
