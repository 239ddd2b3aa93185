/** Tables over their characters: where a row is split into cells, and which cells are shown. */
module TableShapes {
  import opened Options
  import opened Regex
  import opened SourceText
  import opened Strings
  import opened MarkdownTables
  import opened LineScanners
  import opened MarkdownInline
  import opened MarkdownBlocks
  import opened MarkdownDocument
  import opened BlockShapes
  import opened TextShown

  // ---------------------------------------------------------------- cells

  /** A pipe that is not escaped and has an even number of ticks before it. */
  predicate Divider(text: string, i: nat) {
    i < |text| && text[i] == '|' && (i == 0 || text[i - 1] != '\\') && CountTo(text, '`', i) % 2 == 0
  }

  function NextDivider(text: string, i: nat): (b: nat)
    requires i <= |text|
    ensures i <= b <= |text| && (b < |text| ==> Divider(text, b)) && forall k | i <= k < b :: !Divider(text, k)
    decreases |text| - i
  {
    if i == |text| || Divider(text, i) then i else NextDivider(text, i + 1)
  }

  /** The trimmed text of columns [from, to), at its own place; one without text stands at `from`. */
  predicate IsCell(c: SourceLine, line: SourceLine, from: nat, to: nat)
    requires from <= to <= |line.text|
  {
    exists a, b | from <= a <= b <= to :: Trims(c, line, from, to, a, b)
  }

  predicate Trims(c: SourceLine, line: SourceLine, from: nat, to: nat, a: nat, b: nat)
    requires from <= a <= b <= to <= |line.text|
  {
    && c == line.Cut(a, b)
    && (forall k | from <= k < a :: IsSpace(line.text[k])) && (forall k | b <= k < to :: IsSpace(line.text[k]))
    && if a == b then a == from else !IsSpace(line.text[a]) && !IsSpace(line.text[b - 1])
  }

  /** Cells from column `from` on: the stretches between dividers, without the one before a leading and the
      one after a trailing divider if they have no text. */
  ghost predicate AreCells(cs: seq<SourceLine>, line: SourceLine, from: nat)
    requires from <= |line.text|
    decreases |line.text| - from
  {
    var to := NextDivider(line.text, from);
    if HasText(line.text[from..to]) || (from != 0 && to != |line.text|)
    then
      && cs != [] && IsCell(cs[0], line, from, to)
      && if to == |line.text| then cs[1..] == [] else AreCells(cs[1..], line, to + 1)
    else if to == |line.text| then cs == [] else AreCells(cs, line, to + 1)
  }

  lemma {:induction false} CellScanned(line: SourceLine, from: nat, to: nat)
    requires from <= to <= |line.text|
    ensures IsCell(Cell(line, from, to), line, from, to)
    ensures Cell(line, from, to).text != "" <==> HasText(line.text[from..to])
  {
    hide TrimmedAt, Trim;
    var raw := line.text[from..to];
    var t, at := Trim(raw), TrimmedAt(raw);
    TrimSplits(raw);
    BlankScanned(raw);
    var a, b := from + at, from + at + |t|;
    SliceOfSlice(line.text, from, to, at, at + |t|);
    assert forall k | from <= k < to :: line.text[k] == raw[k - from];
    assert Trims(Cell(line, from, to), line, from, to, a, b);
  }

  lemma {:induction false} SplitScanned(text: string, i: nat)
    requires i <= |text|
    ensures var ticks := (CountTo(text, '`', i) % 2 == 1) != (i < |text| && text[i] == '`');
            && (SplitsHere(text, i, ticks) <==> i == |text| || Divider(text, i))
            && (i < |text| ==> ticks == (CountTo(text, '`', i + 1) % 2 == 1))
  {
  }

  lemma {:induction false} CellsFromScanned(line: SourceLine, i: nat, from: nat, ticks: bool)
    requires from <= i <= |line.text| && ticks == (CountTo(line.text, '`', i) % 2 == 1)
    requires forall k | from <= k < i :: !Divider(line.text, k)
    ensures AreCells(CellsFrom(line, i, from, ticks), line, from)
    decreases |line.text| - i
  {
    hide Cell, SplitsHere, Divider, IsCell, CountTo, HasText;
    var text := line.text;
    var ticks' := ticks != (i < |text| && text[i] == '`');
    SplitScanned(text, i);
    if i < |text| && !Divider(text, i) {
      CellsFromScanned(line, i + 1, from, ticks');
    } else {
      NextIs(text, from, i);
      CellScanned(line, from, i);
      if i < |text| { CellsFromScanned(line, i + 1, i + 1, ticks'); }
      var rest := CellsFrom(line, i + 1, i + 1, ticks');
      assert ([Cell(line, from, i)] + rest)[1..] == rest && [] + rest == rest;
    }
  }

  lemma {:induction false} NextIs(text: string, from: nat, i: nat)
    requires from <= i <= |text| && (i == |text| || Divider(text, i))
    requires forall k | from <= k < i :: !Divider(text, k)
    ensures NextDivider(text, from) == i
  {
    hide Divider;
  }

  /** The cells of a row are the stretches between its dividers. */
  lemma {:induction false} CellsScanned(line: SourceLine)
    ensures AreCells(Cells(line), line, 0)
  {
    CellsFromScanned(line, 0, 0, false);
  }

  // ---------------------------------------------------------------- the cells that are shown

  /** A letter of a row's cell is shown exactly if the header has a cell for its column. */
  lemma {:induction false} RowShows(source: string, row: seq<SourceLine>, lo: nat, hi: nat, columns: nat, c: nat,
                                    k: nat)
    requires Mapped(source, row, lo, hi) && c < |row| && LetterAt(row[c], k)
    ensures Shows(RowFragments(columns, row), k) <==> c < columns
  {
    hide LetterAt, InlineOf, SliceOf;
    var n := if columns < |row| then columns else |row|;
    var shown := row[..n];
    MappedElements(source, row, lo, hi);
    MappedBounds(source, row, lo, hi);
    if c < columns {
      InlineAllShows(shown, c, k);
    } else {
      LetterInside(row[c], k);
      MappedFromElements(source, shown, lo, row[c].start);
      InlineAllMapped(source, shown, lo, row[c].start);
      NothingOutside(source, InlineAll(shown), lo, row[c].start, k);
    }
  }

  lemma {:induction false} LetterInside(l: SourceLine, k: nat)
    requires LetterAt(l, k)
    ensures l.start <= k < l.End()
  {
  }

  lemma {:induction false} NothingOutside(source: string, fs: seq<SourceLine>, lo: nat, hi: nat, k: nat)
    requires Mapped(source, fs, lo, hi) && !(lo <= k < hi)
    ensures !Shows(fs, k)
  {
    MappedElements(source, fs, lo, hi);
  }

  lemma {:induction false} RowsShow(source: string, lines: seq<SourceLine>, lo: nat, hi: nat, i: nat, j: nat,
                                    columns: nat, n: nat, k: nat)
    requires Mapped(source, lines, lo, hi) && i <= n < j <= |lines| && lines[n].start <= k < lines[n].End()
    ensures Shows(RowsFragments(columns, RowCells(lines, i, j)), k) <==>
            Shows(RowFragments(columns, Cells(lines[n])), k)
    decreases j - i
  {
    hide Mapped, RowFragments, Cells, Shows;
    var row, rest := Cells(lines[i]), RowCells(lines, i + 1, j);
    assert RowCells(lines, i, j)[1..] == rest;
    ShowsConcat(RowFragments(columns, row), RowsFragments(columns, rest), k);
    LineInPlace(source, lines, lo, hi, i);
    if n == i {
      RowsMapped(source, lines, lo, hi, i + 1, j, columns);
      OriginsAscend(source, lines, lo, hi, i + 1, j);
      NothingOutside(source, RowsFragments(columns, rest), Origin(lines, i + 1, hi), Origin(lines, j, hi), k);
    } else {
      OriginsAscend(source, lines, lo, hi, i + 1, n);
      RowMapped(source, lines[i], columns);
      NothingOutside(source, RowFragments(columns, row), lines[i].start, lines[i].End(), k);
      RowsShow(source, lines, lo, hi, i + 1, j, columns, n, k);
    }
  }

  /** In a table, a letter of a cell below the header is shown exactly if the header reaches its column. */
  lemma {:induction false} TableShows(source: string, lines: seq<SourceLine>, lo: nat, hi: nat, i: nat, n: nat, c: nat,
                                      k: nat)
    requires Mapped(source, lines, lo, hi) && i + 2 <= n < |lines|
    requires OpensTable(lines, i) && !OpensFence(lines[i].text) && !OpensHeading(lines[i].text)
    requires n < BlockAt(lines, i).to && c < |Cells(lines[n])| && LetterAt(Cells(lines[n])[c], k)
    ensures Shows(BlockFragments(BlockAt(lines, i)), k) <==> c < |Cells(lines[i])|
  {
    hide Mapped, Cells, OpensTable, OpensFence, OpensHeading, LetterAt, RowFragments, RowCells, BlockAt, SliceOf;
    BlockKinds(lines, i);
    var b := BlockAt(lines, i);
    TableBranch(lines, i);
    var header := Cells(lines[i]);
    LineInPlace(source, lines, lo, hi, n);
    LineInPlace(source, lines, lo, hi, i);
    OriginsAscend(source, lines, lo, hi, i + 1, n);
    CellsMapped(source, lines[n]);
    MappedCell(source, Cells(lines[n]), lines[n].start, lines[n].End(), c);
    LetterInside(Cells(lines[n])[c], k);
    RowShows(source, Cells(lines[n]), lines[n].start, lines[n].End(), |header|, c, k);
    RowsShow(source, lines, lo, hi, i + 2, b.to, |header|, n, k);
    RowMapped(source, lines[i], 0);
    NothingOutside(source, InlineAll(header), lines[i].start, lines[i].End(), k);
    ShowsConcat(InlineAll(header), RowsFragments(|header|, RowCells(lines, i + 2, b.to)), k);
  }

  lemma {:induction false} MappedCell(source: string, row: seq<SourceLine>, lo: nat, hi: nat, c: nat)
    requires Mapped(source, row, lo, hi) && c < |row|
    ensures lo <= row[c].start && row[c].End() <= hi
  {
    MappedElements(source, row, lo, hi);
  }
}
