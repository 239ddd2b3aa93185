/** What the block parser makes of a line and those after it, read off their characters: the kind of the
    block, the lines it takes, and what it holds. */
module BlockShapes {
  import opened Options
  import opened Regex
  import opened SourceText
  import opened Strings
  import opened MarkdownTables
  import opened LineForms
  import opened LineScanners
  import opened MarkdownBlocks

  // ---------------------------------------------------------------- lines over their characters

  /** Text after more white space than `indent`. */
  predicate Deeper(text: string, indent: nat) {
    HasText(text) && indent < |text| && forall k | 0 <= k <= indent :: IsSpace(text[k])
  }

  /** White space, then ">". */
  predicate Quotes(text: string) {
    exists i | 0 <= i < |text| :: text[i] == '>' && forall k | 0 <= k < i :: IsSpace(text[k])
  }

  /** White space, at least so many marks, and white space to the end. */
  predicate Closes(text: string, mark: char, count: nat) {
    exists i, e | 0 <= i && i + count <= e <= |text| :: MarksBetween(text, mark, i, e)
  }

  predicate MarksBetween(text: string, mark: char, i: nat, e: nat)
    requires i <= e <= |text|
  {
    && (forall k | 0 <= k < i :: IsSpace(text[k])) && (forall k | i <= k < e :: text[k] == mark)
    && forall k | e <= k < |text| :: IsSpace(text[k])
  }

  /** Three dashes or more, with at most one colon before and after them. */
  predicate Dashes(text: string) {
    exists a, b | 0 <= a <= 1 && a <= b <= |text| :: DashesBetween(text, a, b)
  }

  predicate DashesBetween(text: string, a: nat, b: nat)
    requires a <= b <= |text|
  {
    && a + 3 <= b && text[..a] in {"", ":"} && text[b..] in {"", ":"} && forall k | a <= k < b :: text[k] == '-'
  }

  predicate OpensHeading(text: string) {
    StartsHeading(text) && OneLine(text, RunEnd(Space, text, MarkEnd(text, '#', 0), None))
  }

  predicate OpensRule(text: string) { exists c <- RuleMarks :: RuleOf(text, c) }

  predicate OpensTable(lines: seq<SourceLine>, i: nat)
    requires i < |lines|
  {
    '|' in lines[i].text && i + 1 < |lines| && forall c <- Cells(lines[i + 1]) :: Dashes(c.text)
  }

  /** A list item of this indentation and kind. */
  predicate OpensItem(text: string, indent: nat, ordered: bool) {
    && Lead(text) == indent < |text| && MarkerAt(text, indent, MarkerSpace(text, indent))
    && Digit.Has(text[indent]) == ordered
  }

  predicate OpensList(text: string) {
    var i := Lead(text);
    i < |text| && OpensItem(text, i, Digit.Has(text[i]))
  }

  /** A line that a paragraph takes in. */
  predicate Continues(lines: seq<SourceLine>, i: nat)
    requires i < |lines|
  {
    var text := lines[i].text;
    && HasText(text) && !StartsHeading(text) && !StartsFence(text) && !Quotes(text) && !StartsItem(text)
    && !OpensTable(lines, i)
  }

  lemma {:induction false} DeeperScanned(text: string, indent: nat)
    ensures !Blank(text) && Lead(text) > indent <==> Deeper(text, indent)
  {
    hide Blank;
    BlankScanned(text);
  }

  lemma {:induction false} QuotesScanned(text: string)
    ensures IsQuote(text) <==> Quotes(text)
    ensures Quotes(text) <==> Lead(text) < |text| && text[Lead(text)] == '>'
  {
    hide IsQuote;
    QuoteScanned(text);
    if Quotes(text) {
      var i :| 0 <= i < |text| && text[i] == '>' && forall k | 0 <= k < i :: IsSpace(text[k]);
      LeadIs(text, i);
    }
  }

  lemma {:induction false} ClosesScanned(text: string, mark: char, count: nat)
    requires count >= 1 && !IsSpace(mark)
    ensures ClosesFence(text, mark, count) <==> Closes(text, mark, count)
  {
    hide ClosesFence;
    ClosingScanned(text, mark, count);
    var i := Lead(text);
    var e := MarkEnd(text, mark, i);
    if Closes(text, mark, count) {
      var i', e' :| 0 <= i' && i' + count <= e' <= |text| && MarksBetween(text, mark, i', e');
      LeadIs(text, i');
      RunIs(Only({mark}), text, i', e');
    }
    if e - i >= count && forall k | e <= k < |text| :: IsSpace(text[k]) {
      assert MarksBetween(text, mark, i, e);
    }
  }

  const DashPattern: Pattern := [Maybe(':'), AtLeast(3, Only({'-'})), Maybe(':'), End]

  lemma {:induction false} DashesScanned(text: string)
    ensures Matches([Maybe(':'), AtLeast(3, Only({'-'})), Maybe(':'), End], text) <==> Dashes(text)
  {
    hide MatchAt, Dashes, Parses;
    var p: Pattern := [Maybe(':'), AtLeast(3, Only({'-'})), Maybe(':'), End];
    assert p == DashPattern;
    MatchIsPreferred(DashPattern, text, 0);
    if Matches(p, text) { DashesNeeded(text, MatchAt(DashPattern, text, 0).value); }
    if Dashes(text) { var m := DashesParse(text); }
  }

  lemma {:induction false} DashesNeeded(text: string, m: seq<nat>)
    requires Parses(DashPattern, text, m) && m[0] == 0
    ensures Dashes(text)
  {
    var p := DashPattern;
    assert Accepts(p, text, m, 0) && Accepts(p, text, m, 1) && Accepts(p, text, m, 2) && Accepts(p, text, m, 3);
    assert text[..m[1]] == if m[1] == 0 then "" else ":";
    assert text[m[2]..] == if m[2] == |text| then "" else ":";
    assert DashesBetween(text, m[1], m[2]);
  }

  lemma {:induction false} DashesParse(text: string) returns (m: seq<nat>)
    requires Dashes(text)
    ensures Parses(DashPattern, text, m) && m[0] == 0
  {
    var p := DashPattern;
    var a, b :| 0 <= a <= 1 && a <= b <= |text| && DashesBetween(text, a, b);
    assert a == 1 ==> text[..a][0] == ':';
    assert b < |text| ==> text[b..][0] == ':';
    m := [0, a, b, |text|, |text|];
    assert Accepts(p, text, m, 0) && Accepts(p, text, m, 1) && Accepts(p, text, m, 2) && Accepts(p, text, m, 3);
  }

  lemma {:induction false} TableScanned(lines: seq<SourceLine>, i: nat)
    requires i < |lines|
    ensures StartsTable(lines, i) <==> OpensTable(lines, i)
    ensures OpensTable(lines, i) ==> '|' in lines[i].text
  {
    hide Cells, Matches, Dashes;
    if i + 1 < |lines| {
      forall c <- Cells(lines[i + 1])
        ensures Matches([Maybe(':'), AtLeast(3, Only({'-'})), Maybe(':'), End], c.text) <==> Dashes(c.text)
      {
        DashesScanned(c.text);
      }
    }
  }

  lemma {:induction false} ItemScanned(text: string, indent: nat, ordered: bool)
    ensures IsItem(text, indent, ordered) <==> OpensItem(text, indent, ordered)
    ensures ListForm(text).Some? <==> OpensList(text)
    ensures OpensList(text) ==> ListForm(text).value.indent == Lead(text)
                                && ListForm(text).value.content == MarkerSpace(text, Lead(text)) + 1
                                && ListForm(text).value.ordered == Digit.Has(text[Lead(text)])
  {
    hide ListForm, Lead, MarkerAt;
    ListScanned(text);
  }

  // ---------------------------------------------------------------- the kind of a block

  /** The characters decide the kind. A table goes before a quote or a list that has a pipe, and a rule
      before a list; no two of the other shapes fit one line. */
  lemma {:induction false} BlockKinds(lines: seq<SourceLine>, i: nat)
    requires i < |lines|
    ensures var node, text := BlockAt(lines, i).node, lines[i].text;
            && (node.CodeBlock? <==> OpensFence(text))
            && (node.Heading? <==> OpensHeading(text))
            && (node.Rule? <==> OpensRule(text))
            && (node.Table? <==> OpensTable(lines, i) && !OpensFence(text) && !OpensHeading(text))
            && (node.Quote? <==> Quotes(text) && !OpensTable(lines, i))
            && (node.List? <==> OpensList(text) && !OpensRule(text) && !OpensTable(lines, i))
  {
    hide FenceForm, HeadingForm, ListForm, IsRule, StartsTable, IsQuote, IsAlert, OpensFence, OpensHeading, OpensRule,
         OpensTable, Quotes, OpensList, ScanEnd, ListEnd, Items, Unquoted, RowCells, Cells, Blocks;
    var text := lines[i].text;
    FenceScanned(text);
    HeadingScanned(text);
    HeadingLine(text);
    RuleLine(text);
    TableScanned(lines, i);
    QuotesScanned(text);
    ItemScanned(text, 0, false);
    ShapesDiffer(text);
  }

  lemma {:induction false} HeadingLine(text: string)
    ensures HeadingForm(text).Some? <==> OpensHeading(text)
  {
    hide HeadingForm;
    HeadingScanned(text);
  }

  lemma {:induction false} RuleLine(text: string)
    ensures IsRule(text) <==> OpensRule(text)
  {
    hide IsRule;
    RuleScanned(text);
  }

  lemma {:induction false} ShapesDiffer(text: string)
    ensures OpensFence(text) ==> !OpensHeading(text) && !OpensRule(text) && !Quotes(text) && !OpensList(text)
    ensures OpensHeading(text) ==> !OpensRule(text) && !Quotes(text) && !OpensList(text)
    ensures OpensRule(text) ==> !Quotes(text) && '|' !in text
    ensures Quotes(text) ==> !OpensList(text)
  {
    hide RuleOf;
    QuotesScanned(text);
    if OpensRule(text) {
      var c :| c in RuleMarks && RuleOf(text, c);
      RuleStart(text, c);
      RuleHasNoPipe(text, c);
    }
    if OpensHeading(text) { LeadIs(text, 0); }
  }

  lemma {:induction false} RuleHasNoPipe(text: string, c: char)
    requires c in RuleMarks && RuleOf(text, c)
    ensures '|' !in text
  {
  }

  // ---------------------------------------------------------------- the lines of a block, and what it holds

  /** From i to j runs the longest stretch of lines with the property. */
  ghost predicate LongestRun(lines: seq<SourceLine>, i: nat, j: nat, p: string -> bool) {
    && i <= j <= |lines| && (forall k | i <= k < j :: p(lines[k].text))
    && (j < |lines| ==> !p(lines[j].text))
  }

  /** A fence holds every line up to the first that closes it; that line is taken too. */
  lemma {:induction false} FenceShape(lines: seq<SourceLine>, i: nat)
    requires i < |lines| && OpensFence(lines[i].text)
    ensures var b, text := BlockAt(lines, i), lines[i].text;
            && b.node.CodeBlock?
            && var s := Lead(text);
               var e := MarkEnd(text, text[s], s);
               var end := i + 1 + |b.node.body|;
               && b.node.info == Trim(text[e..])
               && LongestRun(lines, i + 1, end, t => !Closes(t, text[s], e - s))
               && b.node.body == lines[i + 1..end]
               && b.to == if end < |lines| then end + 1 else end
  {
    hide FenceForm, ClosesFence, Closes, Trim, Lead, LongestRun;
    var text := lines[i].text;
    FenceScanned(text);
    var s := Lead(text);
    var e := MarkEnd(text, text[s], s);
    FenceRun(lines, i + 1, text[s], e - s);
    assert |lines[i + 1..ScanEnd(FenceBody(text[s], e - s), lines, i + 1)]|
           == ScanEnd(FenceBody(text[s], e - s), lines, i + 1) - (i + 1);
  }

  lemma {:induction false} FenceRun(lines: seq<SourceLine>, i: nat, mark: char, count: nat)
    requires i <= |lines| && count >= 1 && !IsSpace(mark)
    ensures LongestRun(lines, i, ScanEnd(FenceBody(mark, count), lines, i), t => !Closes(t, mark, count))
  {
    hide ClosesFence, Closes;
    var scan := FenceBody(mark, count);
    var end := ScanEnd(scan, lines, i);
    forall k | i <= k < |lines| ensures Takes(scan, lines, k) <==> !Closes(lines[k].text, mark, count) {
      ClosesScanned(lines[k].text, mark, count);
    }
  }

  /** A heading is one line; its title starts after the white space that follows the marks. */
  lemma {:induction false} HeadingShape(lines: seq<SourceLine>, i: nat)
    requires i < |lines| && OpensHeading(lines[i].text)
    ensures var b, text := BlockAt(lines, i), lines[i].text;
            && b.to == i + 1 && b.node.Heading? && b.node.level == MarkEnd(text, '#', 0)
            && var at := RunEnd(Space, text, MarkEnd(text, '#', 0), None);
               if at < |text| then b.node.title == lines[i].Cut(at, |text|) else b.node.title.text == ""
  {
    hide FenceForm, HeadingForm, IndexOf, OpensFence, MatchAt;
    var text := lines[i].text;
    HeadingLine(text);
    HeadingScanned(text);
    HeadingInPlace(text);
    FenceScanned(text);
    ShapesDiffer(text);
    var n, at := MarkEnd(text, '#', 0), RunEnd(Space, text, MarkEnd(text, '#', 0), None);
    var t := HeadingForm(text).value;
    if t.from < t.to { RunIs(Space, text, n, t.from); } else { RunIs(Space, text, n, |text|); }
  }

  /** A rule is one line. */
  lemma {:induction false} RuleShape(lines: seq<SourceLine>, i: nat)
    requires i < |lines| && OpensRule(lines[i].text)
    ensures BlockAt(lines, i) == Block(i, i + 1, Rule)
  {
    hide FenceForm, HeadingForm, IsRule, OpensFence, OpensHeading, OpensRule;
    var text := lines[i].text;
    FenceScanned(text);
    HeadingLine(text);
    RuleLine(text);
    ShapesDiffer(text);
  }

  /** A table has the cells of its first line as header, and each line of the longest run of lines with a
      pipe after the separator as a row. */
  lemma {:induction false} TableShape(lines: seq<SourceLine>, i: nat)
    requires i < |lines| && OpensTable(lines, i) && !OpensFence(lines[i].text) && !OpensHeading(lines[i].text)
    ensures var b := BlockAt(lines, i);
            && b.node.Table? && b.node.header == Cells(lines[i])
            && LongestRun(lines, i + 2, b.to, t => '|' in t)
            && |b.node.rows| == b.to - (i + 2)
            && forall r | 0 <= r < |b.node.rows| :: b.node.rows[r] == Cells(lines[i + 2 + r])
  {
    hide Cells, Blank, RowCells, OpensTable, FenceForm, HeadingForm, ListForm, IsRule, StartsTable, IsQuote;
    BlockKinds(lines, i);
    TableBranch(lines, i);
    var end := ScanEnd(TableRows, lines, i + 2);
    RowsAre(lines, i + 2, end);
    forall k | i + 2 <= k < |lines| ensures Takes(TableRows, lines, k) <==> '|' in lines[k].text {
      PipeIsText(lines[k].text);
    }
  }

  lemma {:induction false} TableBranch(lines: seq<SourceLine>, i: nat)
    requires i < |lines| && BlockAt(lines, i).node.Table?
    ensures i + 2 <= |lines|
    ensures var end := ScanEnd(TableRows, lines, i + 2);
            BlockAt(lines, i) == Block(i, end, Table(Cells(lines[i]), RowCells(lines, i + 2, end)))
  {
    hide FenceForm, HeadingForm, ListForm, IsRule, IsQuote, IsAlert, IsSeparator, ListEnd, Items, Unquoted, RowCells,
         Cells, Blocks, ScanEnd;
  }

  lemma {:induction false} PipeIsText(text: string)
    ensures '|' in text ==> !Blank(text)
  {
    hide Blank;
    BlankScanned(text);
    if '|' in text {
      var k :| 0 <= k < |text| && text[k] == '|';
      assert !IsSpace(text[k]);
    }
  }

  lemma {:induction false} RowsAre(lines: seq<SourceLine>, i: nat, j: nat)
    requires i <= j <= |lines|
    ensures |RowCells(lines, i, j)| == j - i
    ensures forall r | 0 <= r < j - i :: RowCells(lines, i, j)[r] == Cells(lines[i + r])
    decreases j - i
  {
    hide Cells;
    if i < j {
      RowsAre(lines, i + 1, j);
      forall r | 0 <= r < j - i ensures RowCells(lines, i, j)[r] == Cells(lines[i + r]) {
        if r > 0 { assert RowCells(lines, i, j)[r] == RowCells(lines, i + 1, j)[r - 1]; }
      }
    }
  }

  /** A quoted line without its white space, its ">" and one space after it. */
  function Bare(l: SourceLine): SourceLine {
    var i := Lead(l.text);
    if i < |l.text| && l.text[i] == '>'
    then l.Cut(if i + 1 < |l.text| && l.text[i + 1] == ' ' then i + 2 else i + 1, |l.text|) else l
  }

  const ALERTS := {"[!NOTE]", "[!TIP]", "[!IMPORTANT]", "[!WARNING]", "[!CAUTION]"}

  /** A quote holds the bare lines of the longest run of quoted lines. If the first of them is an alert
      label, that is shown instead of it. */
  lemma {:induction false} QuoteShape(lines: seq<SourceLine>, i: nat) returns (bare: seq<SourceLine>)
    requires i < |lines| && Quotes(lines[i].text) && !OpensTable(lines, i)
    ensures var b := BlockAt(lines, i);
            && b.node.Quote? && LongestRun(lines, i, b.to, Quotes)
            && |bare| == b.to - i && (forall k | 0 <= k < |bare| :: bare[k] == Bare(lines[i + k]))
            && if bare[0].text in ALERTS
               then b.node == Quote(Some(bare[0].Cut(2, |bare[0].text| - 1)), Blocks(bare[1..]))
               else b.node == Quote(None, Blocks(bare))
  {
    hide IsQuote, Quotes, OpensTable, Bare, Unquote, Blocks, IsAlert, FenceForm, HeadingForm, ListForm, IsRule,
         StartsTable;
    BlockKinds(lines, i);
    QuoteBranch(lines, i);
    var end := ScanEnd(QuotedLines, lines, i);
    bare := Unquoted(lines, i, end);
    BareLines(lines, i, end);
    AlertScanned(bare[0].text);
    forall k | i <= k < |lines| ensures Takes(QuotedLines, lines, k) <==> Quotes(lines[k].text) {
      QuotesScanned(lines[k].text);
    }
    assert end < |lines| ==> !Takes(QuotedLines, lines, end);
  }

  lemma {:induction false} QuoteBranch(lines: seq<SourceLine>, i: nat)
    requires i < |lines| && BlockAt(lines, i).node.Quote?
    ensures var end := ScanEnd(QuotedLines, lines, i);
            && i < end && |Unquoted(lines, i, end)| == end - i
            && var quote := Unquoted(lines, i, end);
               BlockAt(lines, i) == Block(i, end, Quote(AlertLabel(quote[0]),
                                          Blocks(if IsAlert(quote[0].text) then quote[1..] else quote)))
  {
    hide FenceForm, HeadingForm, ListForm, IsRule, IsQuote, IsAlert, StartsTable, ListEnd, Items, RowCells,
         Cells, Blocks, Unquote;
    UnquotedShrinks(lines, i, ScanEnd(QuotedLines, lines, i));
  }

  lemma {:induction false} AlertScanned(text: string)
    ensures IsAlert(text) <==> text in ALERTS
  {
    if IsAlert(text) {
      var name := text[2..|text| - 1];
      assert text == text[..2] + name + text[|text| - 1..];
      assert text[|text| - 1..] == "]";
      assert text == "[!" + name + "]";
      assert "[!" + "NOTE" + "]" == "[!NOTE]" && "[!" + "TIP" + "]" == "[!TIP]"
             && "[!" + "IMPORTANT" + "]" == "[!IMPORTANT]" && "[!" + "WARNING" + "]" == "[!WARNING]"
             && "[!" + "CAUTION" + "]" == "[!CAUTION]";
    }
    if text in ALERTS {
      var name := if text == "[!NOTE]" then "NOTE" else if text == "[!TIP]" then "TIP"
                  else if text == "[!IMPORTANT]" then "IMPORTANT" else if text == "[!WARNING]" then "WARNING"
                  else "CAUTION";
      assert text[2..|text| - 1] == name && text[..2] == "[!";
    }
  }

  lemma {:induction false} BareLines(lines: seq<SourceLine>, i: nat, j: nat)
    requires i <= j <= |lines| && forall k | i <= k < j :: Takes(QuotedLines, lines, k)
    ensures |Unquoted(lines, i, j)| == j - i
    ensures forall k | 0 <= k < j - i :: Unquoted(lines, i, j)[k] == Bare(lines[i + k])
    decreases j - i
  {
    hide IsQuote, Bare, Unquote;
    if i < j {
      assert Takes(QuotedLines, lines, i);
      BareLine(lines[i]);
      BareLines(lines, i + 1, j);
      forall k | 0 <= k < j - i ensures Unquoted(lines, i, j)[k] == Bare(lines[i + k]) {
        if k > 0 { assert Unquoted(lines, i, j)[k] == Unquoted(lines, i + 1, j)[k - 1]; }
      }
    }
  }

  lemma {:induction false} BareLine(l: SourceLine)
    requires IsQuote(l.text)
    ensures Unquote(l) == Bare(l)
  {
    hide IsQuote, QuotePrefix;
    QuoteScanned(l.text);
  }

  /** A paragraph takes every line that continues it. */
  lemma {:induction false} ParagraphShape(lines: seq<SourceLine>, i: nat)
    requires i < |lines| && !OpensTable(lines, i)
    requires var text := lines[i].text;
             !OpensFence(text) && !OpensHeading(text) && !OpensRule(text) && !Quotes(text) && !OpensList(text)
    ensures var b := BlockAt(lines, i);
            && b.node == Paragraph(lines[i..b.to])
            && (forall k | i < k < b.to :: Continues(lines, k)) && (b.to < |lines| ==> !Continues(lines, b.to))
  {
    hide OpensTable, OpensFence, OpensHeading, OpensRule, Quotes, OpensList, FenceForm, HeadingForm, ListForm, IsRule,
         IsQuote, StartsTable, Continues, Takes, ListEnd, Items, Unquoted, RowCells, Cells, Blocks;
    BlockKinds(lines, i);
    forall k | i < k < |lines| ensures Takes(ParagraphTail, lines, k) <==> Continues(lines, k) {
      ContinuesScanned(lines, k);
    }
  }

  lemma {:induction false} ContinuesScanned(lines: seq<SourceLine>, i: nat)
    requires i < |lines|
    ensures Takes(ParagraphTail, lines, i) <==> Continues(lines, i)
  {
    hide Blank, HasText, StopsParagraph, StartsHeading, StartsFence, StartsItem, IsQuote, Quotes, StartsTable,
         OpensTable;
    BlankScanned(lines[i].text);
    StopsScanned(lines[i].text);
    QuotesScanned(lines[i].text);
    TableScanned(lines, i);
  }

  // ---------------------------------------------------------------- lists

  /** A child line loses its white space, but no more of it than the width of the item's marker. */
  predicate MovedLeft(l: SourceLine, moved: SourceLine, width: nat) {
    exists n: nat | n <= |l.text| ::
      && moved == l.Cut(n, |l.text|) && n <= width && (forall k | 0 <= k < n :: IsSpace(l.text[k]))
      && (n < width && n < |l.text| ==> !IsSpace(l.text[n]))
  }

  lemma {:induction false} MovedLines(lines: seq<SourceLine>, i: nat, j: nat, width: nat)
    requires i <= j <= |lines|
    ensures |Dedented(lines, i, j, width)| == j - i
    ensures forall k | 0 <= k < j - i :: MovedLeft(lines[i + k], Dedented(lines, i, j, width)[k], width)
    decreases j - i
  {
    hide MovedLeft, Dedent;
    if i < j {
      MovedLines(lines, i + 1, j, width);
      MovedLine(lines[i], width);
      forall k | 0 <= k < j - i ensures MovedLeft(lines[i + k], Dedented(lines, i, j, width)[k], width) {
        if k > 0 { assert Dedented(lines, i, j, width)[k] == Dedented(lines, i + 1, j, width)[k - 1]; }
      }
    }
  }

  lemma {:induction false} MovedLine(l: SourceLine, width: nat)
    ensures MovedLeft(l, Dedent(l, width), width)
  {
    var n := if width < Lead(l.text) then width else Lead(l.text);
    assert Dedent(l, width) == l.Cut(n, |l.text|);
  }

  /** A check box and a space at the start of an item's text. */
  function Box(text: string): Option<bool> {
    if "[ ] " <= text then Some(false) else if "[x] " <= text || "[X] " <= text then Some(true) else None
  }

  lemma {:induction false} BoxScanned(text: string)
    ensures TaskForm(text) == Box(text)
  {
    if |text| >= 4 { assert text[..4] == [text[0], text[1], text[2], text[3]]; }
  }

  /** The item on a line with the lines [from + 1, to) as its children. */
  ghost predicate IsItemOf(item: ListItem, lines: seq<SourceLine>, from: nat, to: nat)
    requires from < to <= |lines| && OpensList(lines[from].text)
  {
    var line := lines[from];
    var width := MarkerSpace(line.text, Lead(line.text)) + 1;
    var text := line.Cut(width, |line.text|);
    && item.task == Box(text.text)
    && item.first == text.Cut(if Box(text.text).Some? then 4 else 0, |text.text|)
    && exists moved: seq<SourceLine> | |moved| == to - from - 1 ::
         && (forall k | 0 <= k < |moved| :: MovedLeft(lines[from + 1 + k], moved[k], width))
         && item.children == Blocks(moved)
  }

  /** An item of this indentation and kind, with the longest run of deeper lines as its children. */
  ghost predicate Spans(item: ListItem, lines: seq<SourceLine>, from: nat, to: nat, indent: nat, ordered: bool) {
    && from < to <= |lines| && OpensList(lines[from].text)
    && OpensItem(lines[from].text, indent, ordered) && LongestRun(lines, from + 1, to, t => Deeper(t, indent))
    && IsItemOf(item, lines, from, to)
  }

  /** The lines at which the items of a list start, and the line after the list. */
  ghost predicate Divides(starts: seq<nat>, items: seq<ListItem>, lines: seq<SourceLine>, indent: nat, ordered: bool) {
    && |starts| == |items| + 1
    && (forall n | 0 <= n < |items| :: Spans(items[n], lines, starts[n], starts[n + 1], indent, ordered))
    && var end := starts[|items|];
       end <= |lines| && (end < |lines| ==> !OpensItem(lines[end].text, indent, ordered))
  }

  lemma {:induction false} ChildRun(lines: seq<SourceLine>, i: nat, indent: nat)
    requires i < |lines|
    ensures LongestRun(lines, i + 1, ItemEnd(lines, i, indent), t => Deeper(t, indent))
  {
    hide Deeper, Blank, Lead;
    forall k | i < k < |lines| ensures Takes(ChildLines(indent), lines, k) <==> Deeper(lines[k].text, indent) {
      DeeperScanned(lines[k].text, indent);
    }
  }

  lemma {:induction false} ItemAsWritten(lines: seq<SourceLine>, i: nat, next: nat)
    requires i < next <= |lines| && OpensList(lines[i].text)
    ensures ListForm(lines[i].text).Some?
    ensures IsItemOf(ListItem(TaskOf(lines[i]), FirstLine(lines[i]),
                              Blocks(Dedented(lines, i + 1, next, ListForm(lines[i].text).value.content))),
                     lines, i, next)
  {
    hide ListForm, TaskForm, Box, Dedented, Blocks, MovedLeft, OpensList, Lead, MarkerSpace;
    ItemScanned(lines[i].text, 0, false);
    BoxScanned(ItemText(lines[i]).text);
    MovedLines(lines, i + 1, next, ListForm(lines[i].text).value.content);
  }

  lemma {:induction false} ItemsDivide(lines: seq<SourceLine>, i: nat, indent: nat, ordered: bool)
    returns (starts: seq<nat>)
    requires i <= |lines|
    ensures Divides(starts, Items(lines, i, indent, ordered), lines, indent, ordered)
    ensures starts[0] == i && starts[|starts| - 1] == ListEnd(lines, i, indent, ordered)
    decreases |lines| - i
  {
    hide ListForm, OpensItem, IsItemOf, LongestRun, TaskOf, FirstLine, Dedented, Blocks, ItemEnd, IsItem;
    if i < |lines| { ItemScanned(lines[i].text, indent, ordered); }
    if i == |lines| || !IsItem(lines[i].text, indent, ordered) {
      starts := [i];
    } else {
      var next := ItemEnd(lines, i, indent);
      var rest := ItemsDivide(lines, next, indent, ordered);
      ItemOpensList(lines[i].text, indent, ordered);
      ItemAsWritten(lines, i, next);
      ChildRun(lines, i, indent);
      FirstItem(lines, i, indent, ordered);
      starts := [i] + rest;
      DividesCons(lines, i, indent, ordered, Items(lines, i, indent, ordered)[0], Items(lines, next, indent, ordered),
                  rest);
    }
  }

  lemma {:induction false} FirstItem(lines: seq<SourceLine>, i: nat, indent: nat, ordered: bool)
    requires i < |lines| && IsItem(lines[i].text, indent, ordered)
    ensures var next, content := ItemEnd(lines, i, indent), ListForm(lines[i].text).value.content;
            Items(lines, i, indent, ordered) ==
            [ListItem(TaskOf(lines[i]), FirstLine(lines[i]), Blocks(Dedented(lines, i + 1, next, content)))]
            + Items(lines, next, indent, ordered)
  {
    hide ListForm, TaskOf, FirstLine, Blocks, Dedented, ItemEnd;
  }

  lemma {:induction false} ItemOpensList(text: string, indent: nat, ordered: bool)
    requires OpensItem(text, indent, ordered)
    ensures OpensList(text)
  {
  }

  lemma {:induction false} DividesCons(lines: seq<SourceLine>, i: nat, indent: nat, ordered: bool, item: ListItem,
                                       items: seq<ListItem>, rest: seq<nat>)
    requires Divides(rest, items, lines, indent, ordered) && Spans(item, lines, i, rest[0], indent, ordered)
    ensures Divides([i] + rest, [item] + items, lines, indent, ordered)
  {
    hide OpensItem, Spans;
    var starts, all := [i] + rest, [item] + items;
    forall n | 0 <= n < |all| ensures Spans(all[n], lines, starts[n], starts[n + 1], indent, ordered) {
      if n > 0 { assert starts[n] == rest[n - 1] && starts[n + 1] == rest[n] && all[n] == items[n - 1]; }
    }
  }

  /** A list is made of the items of the first one's indentation and kind that follow one another, each
      with the longest run of deeper lines after it as its children. */
  lemma {:induction false} ListShape(lines: seq<SourceLine>, i: nat) returns (starts: seq<nat>)
    requires i < |lines| && OpensList(lines[i].text) && !OpensRule(lines[i].text) && !OpensTable(lines, i)
    ensures var b, text := BlockAt(lines, i), lines[i].text;
            && b.node.List? && b.node.ordered == Digit.Has(text[Lead(text)])
            && Divides(starts, b.node.items, lines, Lead(text), Digit.Has(text[Lead(text)]))
            && |starts| > 1 && starts[0] == i && starts[|starts| - 1] == b.to
  {
    hide OpensList, OpensRule, OpensTable, OpensItem, IsItemOf, ListForm, ListEnd, Items, LongestRun, StartsTable;
    BlockKinds(lines, i);
    ListBranch(lines, i);
    var text := lines[i].text;
    ItemScanned(text, 0, false);
    starts := ItemsDivide(lines, i, ListForm(text).value.indent, ListForm(text).value.ordered);
  }

  lemma {:induction false} ListBranch(lines: seq<SourceLine>, i: nat)
    requires i < |lines| && BlockAt(lines, i).node.List?
    ensures ListForm(lines[i].text).Some?
    ensures var m := ListForm(lines[i].text).value;
            && BlockAt(lines, i) == Block(i, ListEnd(lines, i, m.indent, m.ordered),
                                          List(m.ordered, Items(lines, i, m.indent, m.ordered)))
            && i < ListEnd(lines, i, m.indent, m.ordered)
  {
    hide FenceForm, HeadingForm, ListForm, IsRule, IsQuote, StartsTable, IsAlert, Items, RowCells, Cells, Unquoted,
         Blocks;
  }

  /** Neighbouring lines with markers of one indentation and kind are two items; the first has no
      children. */
  lemma {:induction false} SiblingItems(lines: seq<SourceLine>, i: nat) returns (to: nat)
    requires i + 1 < |lines| && OpensList(lines[i].text) && !OpensRule(lines[i].text) && !OpensTable(lines, i)
    requires var text := lines[i].text; OpensItem(lines[i + 1].text, Lead(text), Digit.Has(text[Lead(text)]))
    ensures var b, text := BlockAt(lines, i), lines[i].text;
            && b.node.List? && |b.node.items| >= 2 && b.node.items[0].children == []
            && Spans(b.node.items[1], lines, i + 1, to, Lead(text), Digit.Has(text[Lead(text)]))
  {
    hide BlockAt, IsItemOf, OpensList, OpensTable, OpensRule;
    var starts := ListShape(lines, i);
    var items, indent := BlockAt(lines, i).node.items, Lead(lines[i].text);
    assert Spans(items[0], lines, i, starts[1], indent, Digit.Has(lines[i].text[indent]));
    assert !Deeper(lines[i + 1].text, indent);
    assert starts[1] == i + 1;
    NoChildren(items[0], lines, i);
    to := starts[2];
  }

  lemma {:induction false} NoChildren(item: ListItem, lines: seq<SourceLine>, i: nat)
    requires i < |lines| && OpensList(lines[i].text) && IsItemOf(item, lines, i, i + 1)
    ensures item.children == []
  {
    hide OpensList, MovedLeft, MarkerSpace, Box;
    assert forall moved: seq<SourceLine> | |moved| == 0 :: Blocks(moved) == [];
  }

  // ---------------------------------------------------------------- the blocks of the lines

  /** Each block is the one that starts on its first line. */
  lemma {:induction false} BlocksInPlace(lines: seq<SourceLine>, i: nat)
    requires i <= |lines|
    ensures forall b <- BlocksFrom(lines, i) :: b.from < |lines| && b == BlockAt(lines, b.from)
    decreases |lines| - i
  {
    hide Blank, BlockAt;
    if i < |lines| { BlocksInPlace(lines, if Blank(lines[i].text) then i + 1 else BlockAt(lines, i).to); }
  }
}
