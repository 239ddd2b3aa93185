/** Splitting a table row into cells that keep their source offsets. */
module MarkdownTables {
  import opened Options
  import opened Regex
  import opened SourceText
  import opened Strings

  /** A suffix that starts with no white space is found where it stands, although the search for it
      starts in the white space before it; an empty one is found at once. */
  lemma {:induction false} TrimmedIsFoundInPlace(s: string, from: nat, at: nat, to: nat)
    requires from <= at <= to <= |s|
    requires forall k | from <= k < at :: IsSpace(s[k])
    requires at < to ==> !IsSpace(s[at])
    ensures IndexOf(s, s[at..to], from) == Some(if at < to then at else from)
  {
    assert OccursAt(s, s[at..to], at);
    if at < to {
      forall k | from <= k < at ensures !OccursAt(s, s[at..to], k) {
        assert s[at..to][0] == s[at];
        if k + (to - at) <= |s| { assert s[k..k + (to - at)][0] == s[k]; }
      }
    } else {
      assert OccursAt(s, s[at..to], from);
    }
  }

  /** Where the trimmed text is first found in the raw one: at its own place, or at 0 if it is empty. */
  function TrimmedAt(raw: string): (at: nat)
    ensures OccursAt(raw, Trim(raw), at)
    ensures at == if Blank(raw) then 0 else Lead(raw)
  {
    hide RunEnd, TrailEnd, IndexOf;
    TrimmedIsFoundInPlace(raw, 0, Lead(raw), TrailEnd(raw, Lead(raw), |raw|));
    IndexOf(raw, Trim(raw), 0).value
  }

  function Cell(line: SourceLine, from: nat, to: nat): SourceLine
    requires from <= to <= |line.text|
  {
    var raw := line.text[from..to];
    SourceLine(Trim(raw), line.start + from + TrimmedAt(raw))
  }

  predicate SplitsHere(text: string, i: nat, ticks: bool)
    requires i <= |text|
  {
    i == |text| || (text[i] == '|' && !ticks && !(i > 0 && text[i - 1] == '\\'))
  }

  /** The cells that remain at column i, the current one having started at column `from`. */
  function CellsFrom(line: SourceLine, i: nat, from: nat, ticks: bool): seq<SourceLine>
    requires from <= i <= |line.text| + 1
    decreases |line.text| + 1 - i
  {
    if i > |line.text| then []
    else
      var ticks' := ticks != (i < |line.text| && line.text[i] == '`');
      if !SplitsHere(line.text, i, ticks') then CellsFrom(line, i + 1, from, ticks')
      else
        var cell := Cell(line, from, i);
        var kept := cell.text != "" || (from != 0 && i != |line.text|);
        (if kept then [cell] else []) + CellsFrom(line, i + 1, i + 1, ticks')
  }

  function Cells(line: SourceLine): seq<SourceLine> { CellsFrom(line, 0, 0, false) }

  /** Cells as the renderer splits them: at pipes that are neither escaped nor inside a code span. */
  method TableCells(line: SourceLine) returns (result: seq<SourceLine>)
    ensures result == Cells(line)
  {
    result := [];
    var from, ticks := 0, false;
    for i := 0 to |line.text| + 1
      invariant from <= i
      invariant result + CellsFrom(line, i, from, ticks) == Cells(line)
    {
      if i < |line.text| && line.text[i] == '`' { ticks := !ticks; }
      if SplitsHere(line.text, i, ticks) {
        var cell := Cell(line, from, i);
        if cell.text != "" || (from != 0 && i != |line.text|) { result := result + [cell]; }
        from := i + 1;
      }
    }
  }

  lemma {:induction false} CellMapped(source: string, line: SourceLine, from: nat, to: nat)
    requires SliceOf(source, line) && from <= to <= |line.text|
    ensures Mapped(source, [Cell(line, from, to)], line.start + from, line.start + to)
    ensures Mapped(source, [], line.start + from, line.start + to)
  {
    hide TrimmedAt, Trim;
    var raw := line.text[from..to];
    var at := TrimmedAt(raw);
    var n := |Trim(raw)|;
    SliceOfSlice(line.text, from, to, at, at + n);
    CutIsSlice(source, line, from + at, from + at + n);
    assert Cell(line, from, to) == line.Cut(from + at, from + at + n);
    assert [Cell(line, from, to)][1..] == [];
  }

  lemma {:induction false} JoinCells(source: string, line: SourceLine, from: nat, i: nat, kept: bool,
                                     rest: seq<SourceLine>)
    requires SliceOf(source, line) && from <= i <= |line.text|
    requires Mapped(source, rest, line.start + i, line.End())
    ensures Mapped(source, (if kept then [Cell(line, from, i)] else []) + rest, line.start + from, line.End())
  {
    hide Cell, Mapped, SliceOf;
    CellMapped(source, line, from, i);
    MappedConcat(source, if kept then [Cell(line, from, i)] else [], rest,
                 line.start + from, line.start + i, line.End());
  }

  lemma {:induction false} CellsFromMapped(source: string, line: SourceLine, i: nat, from: nat, ticks: bool)
    requires SliceOf(source, line) && from <= i <= |line.text| + 1
    ensures from <= |line.text| ==>
              Mapped(source, CellsFrom(line, i, from, ticks), line.start + from, line.End())
    ensures from > |line.text| ==> CellsFrom(line, i, from, ticks) == []
    decreases |line.text| + 1 - i
  {
    hide Cell, SplitsHere, Mapped, SliceOf;
    if i > |line.text| {
      EmptyMapped(source, line.start + from, line.End());
    } else {
      var ticks' := ticks != (i < |line.text| && line.text[i] == '`');
      if SplitsHere(line.text, i, ticks') {
        CellsFromMapped(source, line, i + 1, i + 1, ticks');
        var rest := CellsFrom(line, i + 1, i + 1, ticks');
        if i < |line.text| { MappedWiden(source, rest, line.start + i + 1, line.End(), line.start + i, line.End()); }
        else { EmptyMapped(source, line.start + i, line.End()); }
        var kept := Cell(line, from, i).text != "" || (from != 0 && i != |line.text|);
        JoinCells(source, line, from, i, kept, rest);
      } else {
        CellsFromMapped(source, line, i + 1, from, ticks');
      }
    }
  }

  lemma {:induction false} CellsMapped(source: string, line: SourceLine)
    requires SliceOf(source, line)
    ensures Mapped(source, Cells(line), line.start, line.End())
  {
    CellsFromMapped(source, line, 0, 0, false);
  }
}
