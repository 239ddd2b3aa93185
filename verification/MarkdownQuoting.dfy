/** Quoting a document: putting "> " before every line yields one quote block that holds exactly the
    blocks of the bare lines, each fragment still at its own place in the source. */
module MarkdownQuoting {
  import opened Options
  import opened Regex
  import opened SourceText
  import opened Strings
  import opened MarkdownTables
  import opened LineForms
  import opened LineScanners
  import opened MarkdownBlocks

  predicate IsQuoted(l: SourceLine) { |l.text| >= 2 && l.text[0] == '>' && l.text[1] == ' ' }

  /** The lines without the two characters of their quote marks. */
  function Bare(lines: seq<SourceLine>): seq<SourceLine>
    requires forall l <- lines :: IsQuoted(l)
  {
    seq(|lines|, k requires 0 <= k < |lines| => assert IsQuoted(lines[k]); lines[k].Cut(2, |lines[k].text|))
  }

  /** For all lines, whatever the bare ones hold: fences, tables, lists, further quotes. */
  lemma {:induction false} QuoteWrapsBlocks(lines: seq<SourceLine>)
    requires lines != [] && forall l <- lines :: IsQuoted(l)
    ensures var bare := Bare(lines);
            Blocks(lines) == [Block(0, |lines|, Quote(AlertLabel(bare[0]),
                                                      Blocks(if IsAlert(bare[0].text) then bare[1..] else bare)))]
  {
    hide FenceForm, HeadingForm, IsRule, IsAlert, IsQuote, QuotePrefix, StartsTable, ListForm, Blank, Items, RowCells;
    QuotedLine(lines[0]);
    NotATable(lines, 0);
    AllTaken(lines, 0);
    BareUnquotes(lines, 0);
    assert Bare(lines)[0..] == Bare(lines);
    AloneAtEnd(lines);
  }

  lemma {:induction false} AloneAtEnd(lines: seq<SourceLine>)
    requires lines != [] && !Blank(lines[0].text) && BlockAt(lines, 0).to == |lines|
    ensures Blocks(lines) == [BlockAt(lines, 0)]
  {
    hide BlockAt, Blank;
    assert BlocksFrom(lines, |lines|) == [];
  }

  lemma {:induction false} AllTaken(lines: seq<SourceLine>, i: nat)
    requires i <= |lines| && forall l <- lines :: IsQuoted(l)
    ensures ScanEnd(QuotedLines, lines, i) == |lines|
    decreases |lines| - i
  {
    hide IsQuote;
    if i < |lines| {
      QuotedLine(lines[i]);
      AllTaken(lines, i + 1);
    }
  }

  lemma {:induction false} BareUnquotes(lines: seq<SourceLine>, i: nat)
    requires i <= |lines| && forall l <- lines :: IsQuoted(l)
    requires forall k | i <= k < |lines| :: Takes(QuotedLines, lines, k)
    ensures Unquoted(lines, i, |lines|) == Bare(lines)[i..]
    decreases |lines| - i
  {
    hide IsQuote, QuotePrefix;
    if i < |lines| {
      assert Takes(QuotedLines, lines, i);
      QuotedLine(lines[i]);
      BareUnquotes(lines, i + 1);
      assert Bare(lines)[i..] == [Bare(lines)[i]] + Bare(lines)[i + 1..];
    }
  }

  /** No other form of line starts with the quote mark, and the mark takes one space with it. */
  lemma {:induction false} QuotedLine(l: SourceLine)
    requires IsQuoted(l)
    ensures IsQuote(l.text) && QuotePrefix(l.text) == 2
    ensures FenceForm(l.text).None? && HeadingForm(l.text).None? && !IsRule(l.text) && !Blank(l.text)
  {
    hide FenceForm, HeadingForm, IsRule, IsQuote, QuotePrefix, RuleOf;
    var text := l.text;
    assert Lead(text) == 0;
    QuoteScanned(text);
    FenceScanned(text);
    HeadingScanned(text);
    RuleScanned(text);
    forall c <- RuleMarks ensures !RuleOf(text, c) { NoRuleOf(text, c); }
    NotBlank(text);
  }

  lemma {:induction false} NoRuleOf(text: string, c: char)
    requires text != "" && text[0] == '>' && c in RuleMarks
    ensures !RuleOf(text, c)
  {
    assert RuleOf(text, c) ==> text[0] == c || IsSpace(text[0]);
  }

  lemma {:induction false} NotBlank(text: string)
    requires text != "" && !IsSpace(text[0])
    ensures !Blank(text) && Trim(text)[0] == text[0]
  {
    assert Lead(text) == 0;
    assert TrailEnd(text, 0, |text|) > 0;
  }

  /** A pattern whose first two items accept no part of the text matches nowhere. */
  lemma {:induction false} NoMatch(p: Pattern, text: string)
    requires |p| >= 2
    requires forall m: seq<nat> | |m| == |p| + 1 && m[0] == 0 :: !(Accepts(p, text, m, 0) && Accepts(p, text, m, 1))
    ensures MatchAt(p, text, 0).None?
  {
    hide MatchAt, Accepts;
    MatchIsPreferred(p, text, 0);
  }

  /** The first cell of a quoted line starts with the quote mark, so no table starts above one. */
  lemma {:induction false} NotATable(lines: seq<SourceLine>, i: nat)
    requires i < |lines| && forall l <- lines :: IsQuoted(l)
    ensures !StartsTable(lines, i)
  {
    hide CellsFrom, Matches;
    if i + 1 < |lines| {
      var line := lines[i + 1];
      FirstCell(line, 0, false);
      var c := Cells(line)[0];
      NotDashes(c.text);
    }
  }

  lemma {:induction false} NotDashes(text: string)
    requires text != "" && text[0] == '>'
    ensures !Matches([Maybe(':'), AtLeast(3, Only({'-'})), Maybe(':'), End], text)
  {
    hide MatchAt;
    NoMatch([Maybe(':'), AtLeast(3, Only({'-'})), Maybe(':'), End], text);
  }

  lemma {:induction false} FirstCell(line: SourceLine, i: nat, ticks: bool)
    requires i <= |line.text| && IsQuoted(line)
    ensures CellsFrom(line, i, 0, ticks) != []
    ensures CellsFrom(line, i, 0, ticks)[0].text != "" && CellsFrom(line, i, 0, ticks)[0].text[0] == '>'
    decreases |line.text| - i
  {
    hide Trim, TrimmedAt;
    var ticks' := ticks != (i < |line.text| && line.text[i] == '`');
    if SplitsHere(line.text, i, ticks') {
      NotBlank(line.text[0..i]);
    } else {
      FirstCell(line, i + 1, ticks');
    }
  }
}
