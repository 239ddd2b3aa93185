/** The contents list of a document, read off its lines without the block parser, and when the two agree. */
module Outline {
  import opened Options
  import opened Regex
  import opened SourceText
  import opened Strings
  import opened LineForms
  import opened LineScanners
  import opened MarkdownBlocks

  /** An entry leads to the rendered heading that carries the offset of its line. */
  datatype Entry = Entry(level: nat, start: nat)

  datatype Marks = Marks(mark: char, count: nat)

  /** Three or more of one fence mark after the white space, whatever follows them. */
  function FenceMarksOf(text: string): Option<Marks> {
    var i := Lead(text);
    if i < |text| && text[i] in {'`', '~'} && MarkEnd(text, text[i], i) >= i + 3
    then Some(Marks(text[i], MarkEnd(text, text[i], i) - i)) else None
  }

  /** Any line of enough marks ends a fence here, even with text after them. */
  function Toggle(open: Option<Marks>, m: Marks): Option<Marks> {
    if open.None? then Some(m)
    else if m.mark == open.value.mark && m.count >= open.value.count then None else open
  }

  /** The entries of the lines from i on, inside the given fence or outside any. */
  function EntriesFrom(lines: seq<SourceLine>, i: nat, open: Option<Marks>): seq<Entry>
    requires i <= |lines|
    decreases |lines| - i
  {
    if i == |lines| then []
    else
      var text, marks := lines[i].text, FenceMarksOf(lines[i].text);
      if marks.Some? then EntriesFrom(lines, i + 1, Toggle(open, marks.value))
      else if open.None? && StartsHeading(text)
      then [Entry(MarkEnd(text, '#', 0), lines[i].start)] + EntriesFrom(lines, i + 1, open)
      else EntriesFrom(lines, i + 1, open)
  }

  method MarkdownHeadings(text: string) returns (entries: seq<Entry>)
    ensures entries == EntriesFrom(LinesFrom(text, 0), 0, None)
  {
    hide FenceMarksOf, StartsHeading, LinesFrom;
    var lines := SourceLines(text);
    var open: Option<Marks> := None;
    entries := [];
    for i := 0 to |lines|
      invariant entries + EntriesFrom(lines, i, open) == EntriesFrom(lines, 0, None)
    {
      var marks := FenceMarksOf(lines[i].text);
      if marks.Some? {
        open := Toggle(open, marks.value);
      } else if open.None? && StartsHeading(lines[i].text) {
        entries := entries + [Entry(MarkEnd(lines[i].text, '#', 0), lines[i].start)];
      }
    }
  }

  /** The headings that the blocks render outside quotes and lists, each with the offset in its id. */
  function Rendered(lines: seq<SourceLine>, bs: seq<Block>): seq<Entry>
    requires forall b <- bs :: b.from < |lines|
  {
    if bs == [] then []
    else (if bs[0].node.Heading? then [Entry(bs[0].node.level, lines[bs[0].from].start)] else [])
         + Rendered(lines, bs[1..])
  }

  // ---------------------------------------------------------------- exactly when the two agree

  /** The fence that the outline is in before line k. */
  function StateAt(lines: seq<SourceLine>, k: nat): Option<Marks>
    requires k <= |lines|
  {
    if k == 0 then None
    else
      var marks := FenceMarksOf(lines[k - 1].text);
      if marks.Some? then Toggle(StateAt(lines, k - 1), marks.value) else StateAt(lines, k - 1)
  }

  /** A line that the outline lists outside a fence. */
  predicate Headlike(text: string) { FenceMarksOf(text).None? && StartsHeading(text) }

  function Listed(lines: seq<SourceLine>): set<nat> {
    set k: nat | k < |lines| && Headlike(lines[k].text) && StateAt(lines, k).None?
  }

  /** The lines at which blocks render a heading. */
  function HeadingLines(bs: seq<Block>): set<nat> { set b | b in bs && b.node.Heading? :: b.from }

  /** The entries of some of the lines from i on. */
  function Picked(lines: seq<SourceLine>, i: nat, ks: set<nat>): seq<Entry>
    requires i <= |lines|
    decreases |lines| - i
  {
    if i == |lines| then []
    else (if i in ks then [Entry(MarkEnd(lines[i].text, '#', 0), lines[i].start)] else []) + Picked(lines, i + 1, ks)
  }

  lemma {:induction false} EntriesArePicked(lines: seq<SourceLine>, i: nat)
    requires i <= |lines|
    ensures EntriesFrom(lines, i, StateAt(lines, i)) == Picked(lines, i, Listed(lines))
    decreases |lines| - i
  {
    hide FenceMarksOf, StartsHeading;
    if i < |lines| { EntriesArePicked(lines, i + 1); }
  }

  lemma {:induction false} PickedSame(lines: seq<SourceLine>, i: nat, a: set<nat>, b: set<nat>)
    requires i <= |lines| && forall k | i <= k < |lines| :: k in a <==> k in b
    ensures Picked(lines, i, a) == Picked(lines, i, b)
    decreases |lines| - i
  {
    if i < |lines| { PickedSame(lines, i + 1, a, b); }
  }

  lemma {:induction false} PickedSkips(lines: seq<SourceLine>, i: nat, j: nat, ks: set<nat>)
    requires i <= j <= |lines| && forall k | i <= k < j :: k !in ks
    ensures Picked(lines, i, ks) == Picked(lines, j, ks)
    decreases j - i
  {
    if i < j { PickedSkips(lines, i + 1, j, ks); }
  }

  predicate Ascending(lines: seq<SourceLine>) {
    forall j, k | 0 <= j < k < |lines| :: lines[j].start < lines[k].start
  }

  lemma {:induction false} PickedLater(lines: seq<SourceLine>, i: nat, ks: set<nat>)
    requires i <= |lines|
    ensures forall x <- Picked(lines, i, ks) :: exists k | i <= k < |lines| :: x.start == lines[k].start
    decreases |lines| - i
  {
    if i < |lines| { PickedLater(lines, i + 1, ks); }
  }

  /** As the offsets ascend, equal entries come from equal lines. */
  lemma {:induction false} PickedExactly(lines: seq<SourceLine>, i: nat, a: set<nat>, b: set<nat>)
    requires i <= |lines| && Ascending(lines) && Picked(lines, i, a) == Picked(lines, i, b)
    ensures forall k | i <= k < |lines| :: k in a <==> k in b
    decreases |lines| - i
  {
    if i < |lines| {
      var p, q := Picked(lines, i + 1, a), Picked(lines, i + 1, b);
      PickedLater(lines, i + 1, a);
      PickedLater(lines, i + 1, b);
      var here := Entry(MarkEnd(lines[i].text, '#', 0), lines[i].start);
      assert here !in p && here !in q;
      var x, y := if i in a then [here] else [], if i in b then [here] else [];
      assert here in x + p <==> i in a;
      assert here in y + q <==> i in b;
      assert p == (x + p)[|x|..] && q == (y + q)[|y|..];
      assert p == q;
      PickedExactly(lines, i + 1, a, b);
    }
  }

  lemma {:induction false} BlocksInside(lines: seq<SourceLine>, i: nat)
    requires i <= |lines|
    ensures forall b <- BlocksFrom(lines, i) :: i <= b.from < |lines|
    decreases |lines| - i
  {
    hide BlockAt;
    if i < |lines| && Blank(lines[i].text) {
      BlocksInside(lines, i + 1);
    } else if i < |lines| {
      BlocksInside(lines, BlockAt(lines, i).to);
    }
  }

  /** A rendered heading is a line that the outline can list, with the same level. */
  lemma {:induction false} HeadingIsHeadlike(lines: seq<SourceLine>, i: nat)
    requires i < |lines| && BlockAt(lines, i).node.Heading?
    ensures Headlike(lines[i].text) && BlockAt(lines, i).node.level == MarkEnd(lines[i].text, '#', 0)
  {
    hide FenceForm, HeadingForm, ListForm, IsRule, IsQuote, Unquoted, Items, RowCells, IsAlert, ListEnd, StartsTable,
         ScanEnd;
    HeadingScanned(lines[i].text);
  }

  lemma {:induction false} HeadingLinesSplit(b: Block, bs: seq<Block>)
    ensures HeadingLines([b] + bs) == (if b.node.Heading? then {b.from} else {}) + HeadingLines(bs)
  {
    assert forall x <- bs :: x in [b] + bs;
    assert b in [b] + bs;
  }

  lemma {:induction false} RenderedIsPicked(lines: seq<SourceLine>, i: nat)
    requires i <= |lines|
    ensures forall b <- BlocksFrom(lines, i) :: i <= b.from < |lines|
    ensures Rendered(lines, BlocksFrom(lines, i)) == Picked(lines, i, HeadingLines(BlocksFrom(lines, i)))
    ensures forall k <- HeadingLines(BlocksFrom(lines, i)) :: i <= k < |lines| && Headlike(lines[k].text)
    decreases |lines| - i
  {
    hide BlockAt, Headlike, Blank;
    BlocksInside(lines, i);
    if i == |lines| {
    } else if Blank(lines[i].text) {
      RenderedIsPicked(lines, i + 1);
    } else {
      var b := BlockAt(lines, i);
      var rest := BlocksFrom(lines, b.to);
      RenderedIsPicked(lines, b.to);
      HeadingLinesSplit(b, rest);
      var ks := HeadingLines(BlocksFrom(lines, i));
      assert BlocksFrom(lines, i) == [b] + rest && ([b] + rest)[1..] == rest;
      if b.node.Heading? { HeadingIsHeadlike(lines, i); }
      PickedSkips(lines, i + 1, b.to, ks);
      PickedSame(lines, b.to, ks, HeadingLines(rest));
    }
  }

  /** The contents list is the list of the headings rendered outside quotes and lists, in order and with
      their levels and ids, exactly if the outline is outside every fence at just those lines, among the
      lines that look like headings, at which the blocks render one. */
  lemma {:induction false} SameEntries(lines: seq<SourceLine>)
    requires Ascending(lines)
    ensures forall b <- Blocks(lines) :: b.from < |lines|
    ensures EntriesFrom(lines, 0, None) == Rendered(lines, Blocks(lines)) <==>
            forall k: nat | k < |lines| && Headlike(lines[k].text) ::
              StateAt(lines, k).None? <==> k in HeadingLines(Blocks(lines))
  {
    hide Headlike, BlockAt, BlocksFrom, HeadingLines;
    EntriesArePicked(lines, 0);
    RenderedIsPicked(lines, 0);
    var listed, shown := Listed(lines), HeadingLines(Blocks(lines));
    if EntriesFrom(lines, 0, None) == Rendered(lines, Blocks(lines)) {
      PickedExactly(lines, 0, listed, shown);
      forall k: nat | k < |lines| && Headlike(lines[k].text) ensures StateAt(lines, k).None? <==> k in shown {
        assert k in listed <==> k in shown;
      }
    }
    if forall k: nat | k < |lines| && Headlike(lines[k].text) :: StateAt(lines, k).None? <==> k in shown {
      forall k | 0 <= k < |lines| ensures k in listed <==> k in shown { }
      PickedSame(lines, 0, listed, shown);
    }
  }

  lemma {:induction false} LinesAscend(text: string, p: nat)
    requires p <= |text|
    ensures Ascending(LinesFrom(text, p)) && forall l <- LinesFrom(text, p) :: p <= l.start
    decreases |text| - p
  {
    var next := NextLine(text, LineEnd(text, p));
    if next != p {
      LinesAscend(text, next);
      var lines, rest := LinesFrom(text, p), LinesFrom(text, next);
      assert lines == [lines[0]] + rest;
      forall j, k | 0 <= j < k < |lines| ensures lines[j].start < lines[k].start { assert lines[k] == rest[k - 1]; }
    }
  }

  /** The same for every text. */
  lemma {:induction false} OutlineIsRendered(text: string)
    ensures var lines := LinesFrom(text, 0);
            && (forall b <- Blocks(lines) :: b.from < |lines|)
            && (EntriesFrom(lines, 0, None) == Rendered(lines, Blocks(lines)) <==>
                  forall k: nat | k < |lines| && Headlike(lines[k].text) ::
                    StateAt(lines, k).None? <==> k in HeadingLines(Blocks(lines)))
  {
    hide LinesFrom, Blocks, Rendered, EntriesFrom, Headlike;
    LinesAscend(text, 0);
    SameEntries(LinesFrom(text, 0));
  }

  // ---------------------------------------------------------------- documents on which they agree

  /** A line that the outline passes over outside a fence. */
  predicate Passed(text: string) { FenceMarksOf(text).None? && !StartsHeading(text) }

  /** The outline would end the fence at this line. */
  predicate EndsFence(text: string, mark: char, count: nat) {
    var m := FenceMarksOf(text);
    m.Some? && m.value.mark == mark && m.value.count >= count
  }

  /** The fences that the outline sees from i to j end there, and outside them it lists nothing. */
  predicate Balanced(lines: seq<SourceLine>, i: nat, j: nat, open: Option<Marks>)
    requires i <= j <= |lines|
    decreases j - i
  {
    if i == j then open.None?
    else
      var text, marks := lines[i].text, FenceMarksOf(lines[i].text);
      if marks.Some? then Balanced(lines, i + 1, j, Toggle(open, marks.value))
      else !(open.None? && StartsHeading(text)) && Balanced(lines, i + 1, j, open)
  }

  /** What the outline can get wrong: a line of fenced code that ends in text after enough marks, and tables
      and lists with lines that look like headings, or like fences that do not end with the block. */
  predicate InStep(lines: seq<SourceLine>, b: Block)
    requires b.from < b.to <= |lines|
  {
    match b.node
    case CodeBlock(_, _) =>
      var f := FenceForm(lines[b.from].text);
      f.Some? ==> forall k | b.from < k < b.to && EndsFence(lines[k].text, f.value.mark, f.value.count) ::
                    ClosesFence(lines[k].text, f.value.mark, f.value.count)
    case Table(_, _) => Balanced(lines, b.from, b.to, None)
    case List(_, _) => Balanced(lines, b.from, b.to, None)
    case _ => true
  }

  ghost predicate AllInStep(lines: seq<SourceLine>, i: nat)
    requires i <= |lines|
    decreases |lines| - i
  {
    i == |lines|
    || if Blank(lines[i].text) then AllInStep(lines, i + 1)
       else var b := BlockAt(lines, i); InStep(lines, b) && AllInStep(lines, b.to)
  }

  /** Without the line terminators that "." does not match, both see the same fences and headings. */
  lemma {:induction false} SameForms(text: string)
    requires OneLine(text, 0)
    ensures FenceForm(text).Some? <==> FenceMarksOf(text).Some?
    ensures FenceForm(text).Some? ==>
              FenceMarksOf(text).value == Marks(FenceForm(text).value.mark, FenceForm(text).value.count)
    ensures HeadingForm(text).Some? <==> StartsHeading(text)
    ensures HeadingForm(text).Some? ==> HeadingForm(text).value.level == MarkEnd(text, '#', 0)
  {
    hide FenceForm, HeadingForm, Trim;
    FenceScanned(text);
    HeadingScanned(text);
  }

  lemma {:induction false} BlankPassed(text: string)
    requires Blank(text)
    ensures Passed(text)
  {
    BlankIsSpace(text);
    RunIs(Space, text, 0, |text|);
    if text != "" { RunIs(Only({'#'}), text, 0, 0); }
  }

  lemma {:induction false} QuotePassed(text: string)
    requires IsQuote(text)
    ensures Passed(text)
  {
    hide IsQuote;
    QuoteScanned(text);
    RunIs(Only({'#'}), text, 0, 0);
  }

  lemma {:induction false} TailPassed(text: string)
    requires !StopsParagraph(text)
    ensures Passed(text)
  {
    hide StopsParagraph, IsQuote;
    StopsScanned(text);
  }

  lemma {:induction false} PassOver(lines: seq<SourceLine>, i: nat, j: nat)
    requires i <= j <= |lines| && forall k | i <= k < j :: Passed(lines[k].text)
    ensures EntriesFrom(lines, i, None) == EntriesFrom(lines, j, None)
    decreases j - i
  {
    hide FenceMarksOf, StartsHeading;
    if i < j { PassOver(lines, i + 1, j); }
  }

  lemma {:induction false} InsideFence(lines: seq<SourceLine>, i: nat, j: nat, m: Marks)
    requires i <= j <= |lines| && forall k | i <= k < j :: !EndsFence(lines[k].text, m.mark, m.count)
    ensures EntriesFrom(lines, i, Some(m)) == EntriesFrom(lines, j, Some(m))
    decreases j - i
  {
    hide FenceMarksOf, StartsHeading;
    if i < j { InsideFence(lines, i + 1, j, m); }
  }

  lemma {:induction false} ClosingEnds(text: string, mark: char, count: nat)
    requires ClosesFence(text, mark, count) && count >= 3 && mark in {'`', '~'}
    ensures EndsFence(text, mark, count)
  {
    hide ClosesFence;
    ClosingScanned(text, mark, count);
  }

  // A code block: the outline enters the fence with it and leaves it with its last line.
  lemma {:induction false} CodeInStep(lines: seq<SourceLine>, i: nat)
    requires i < |lines| && OneLine(lines[i].text, 0) && FenceForm(lines[i].text).Some?
    requires InStep(lines, BlockAt(lines, i))
    ensures EntriesFrom(lines, i, None) == EntriesFrom(lines, BlockAt(lines, i).to, None)
  {
    hide FenceForm, ClosesFence, HeadingForm, ListForm, FenceMarksOf, StartsHeading, OneLine;
    var f := FenceForm(lines[i].text).value;
    SameForms(lines[i].text);
    FenceKind(lines[i].text);
    var m := Marks(f.mark, f.count);
    var end := ScanEnd(FenceBody(f.mark, f.count), lines, i + 1);
    assert BlockAt(lines, i).to == if end < |lines| then end + 1 else end;
    assert BlockAt(lines, i).node.CodeBlock?;
    forall k | i < k < end ensures !EndsFence(lines[k].text, f.mark, f.count) {
      assert Takes(FenceBody(f.mark, f.count), lines, k);
    }
    InsideFence(lines, i + 1, end, m);
    if end < |lines| { ClosingEnds(lines[end].text, f.mark, f.count); }
  }

  lemma {:induction false} FenceKind(text: string)
    requires FenceForm(text).Some?
    ensures FenceForm(text).value.mark in {'`', '~'} && FenceForm(text).value.count >= 3
  {
    hide Trim, FenceOf;
    FenceScanned(text);
  }

  lemma {:induction false} BalancedOver(lines: seq<SourceLine>, i: nat, j: nat, open: Option<Marks>)
    requires i <= j <= |lines| && Balanced(lines, i, j, open)
    ensures EntriesFrom(lines, i, open) == EntriesFrom(lines, j, None)
    decreases j - i
  {
    hide FenceMarksOf, StartsHeading;
    if i < j {
      var marks := FenceMarksOf(lines[i].text);
      BalancedOver(lines, i + 1, j, if marks.Some? then Toggle(open, marks.value) else open);
    }
  }

  // Any other block: the outline takes its heading, and passes over everything else.
  lemma {:induction false} OtherInStep(lines: seq<SourceLine>, i: nat)
    requires i < |lines| && OneLine(lines[i].text, 0) && FenceForm(lines[i].text).None?
    requires InStep(lines, BlockAt(lines, i))
    ensures var b := BlockAt(lines, i);
            EntriesFrom(lines, i, None)
            == (if b.node.Heading? then [Entry(b.node.level, lines[i].start)] else []) + EntriesFrom(lines, b.to, None)
  {
    hide FenceForm, ClosesFence, HeadingForm, ListForm, FenceMarksOf, StartsHeading, OneLine, IsRule, IsQuote,
         StopsParagraph, Unquoted, Items, RowCells, IsAlert, ListEnd;
    var b := BlockAt(lines, i);
    SameForms(lines[i].text);
    if b.node.Table? || b.node.List? {
      BalancedOver(lines, i, b.to, None);
    } else if !b.node.Heading? {
      forall k | i <= k < b.to ensures Passed(lines[k].text) { OthersPassed(lines, i, k); }
      PassOver(lines, i, b.to);
    }
  }

  lemma {:induction false} OthersPassed(lines: seq<SourceLine>, i: nat, k: nat)
    requires i < |lines| && OneLine(lines[i].text, 0) && FenceForm(lines[i].text).None?
    requires InStep(lines, BlockAt(lines, i))
    requires !BlockAt(lines, i).node.Heading? && !BlockAt(lines, i).node.Table? && !BlockAt(lines, i).node.List?
    requires i <= k < BlockAt(lines, i).to
    ensures Passed(lines[k].text)
  {
    hide FenceForm, ClosesFence, HeadingForm, ListForm, FenceMarksOf, StartsHeading, OneLine, IsRule, IsQuote,
         StopsParagraph, Unquoted, Items, RowCells, IsAlert, ListEnd;
    var b := BlockAt(lines, i);
    SameForms(lines[i].text);
    match b.node
    case Quote(_, _) =>
      assert Takes(QuotedLines, lines, k);
      QuotePassed(lines[k].text);
    case Paragraph(_) =>
      if k > i {
        assert Takes(ParagraphTail, lines, k);
        TailPassed(lines[k].text);
      }
    case _ =>
  }

  /** They agree on every document all of whose blocks are ones that the outline gets right, provided that
      no line holds a terminator that "." does not match, which are U+2028 and U+2029. */
  lemma {:induction false} PlainBlocksAgree(lines: seq<SourceLine>, i: nat)
    requires i <= |lines| && AllInStep(lines, i) && forall k | i <= k < |lines| :: OneLine(lines[k].text, 0)
    ensures forall b <- BlocksFrom(lines, i) :: b.from < |lines|
    ensures EntriesFrom(lines, i, None) == Rendered(lines, BlocksFrom(lines, i))
    decreases |lines| - i
  {
    hide BlockAt, InStep, OneLine, FenceMarksOf, StartsHeading, Blank;
    BlocksInside(lines, i);
    if i < |lines| && Blank(lines[i].text) {
      BlankPassed(lines[i].text);
      PlainBlocksAgree(lines, i + 1);
    } else if i < |lines| {
      var b := BlockAt(lines, i);
      PlainBlocksAgree(lines, b.to);
      assert BlocksFrom(lines, i)[1..] == BlocksFrom(lines, b.to);
      OneInStep(lines, i);
    }
  }

  lemma {:induction false} OneInStep(lines: seq<SourceLine>, i: nat)
    requires i < |lines| && OneLine(lines[i].text, 0) && InStep(lines, BlockAt(lines, i))
    ensures var b := BlockAt(lines, i);
            EntriesFrom(lines, i, None)
            == (if b.node.Heading? then [Entry(b.node.level, lines[i].start)] else []) + EntriesFrom(lines, b.to, None)
  {
    if FenceForm(lines[i].text).Some? {
      CodeInStep(lines, i);
      assert BlockAt(lines, i).node.CodeBlock?;
    } else {
      OtherInStep(lines, i);
    }
  }

  /** A document on which they differ: a fence around a line of marks with text after them, and a heading.
      The outline lists the heading, which the blocks show as code. */
  lemma {:induction false} LooseFenceExample()
    ensures var lines := LinesFrom("```\n```x\n# t\n```", 0);
            EntriesFrom(lines, 0, None) == [Entry(1, 9)] && |Blocks(lines)| == 1 && Blocks(lines)[0].node.CodeBlock?
  {
    hide LinesFrom, Blocks, EntriesFrom, FenceMarksOf, StartsHeading, Lead, MarkEnd;
    ExampleLines("```\n```x\n# t\n```");
    ExampleMarks();
    var lines := LinesFrom("```\n```x\n# t\n```", 0);
    LooseEntries(lines);
    LooseBlock(lines);
  }

  lemma {:induction false} ExampleMarks()
    ensures Lead("```") == 0 && MarkEnd("```", '`', 0) == 3 && Lead("```x") == 0 && MarkEnd("```x", '`', 0) == 3
    ensures Lead("# t") == 0 && MarkEnd("# t", '`', 0) == 0 && MarkEnd("# t", '#', 0) == 1 && StartsHeading("# t")
    ensures FenceMarksOf("```") == FenceMarksOf("```x") == Some(Marks('`', 3)) && FenceMarksOf("# t").None?
  {
    RunIs(Only({'`'}), "```", 0, 3);
    RunIs(Only({'`'}), "```x", 0, 3);
    RunIs(Only({'#'}), "# t", 0, 1);
    RunIs(Only({'`'}), "# t", 0, 0);
    RunIs(Space, "```", 0, 0);
    RunIs(Space, "```x", 0, 0);
    RunIs(Space, "# t", 0, 0);
  }

  lemma {:induction false} ExampleLines(text: string)
    requires text == "```\n```x\n# t\n```"
    ensures LinesFrom(text, 0)
            == [SourceLine("```", 0), SourceLine("```x", 4), SourceLine("# t", 9), SourceLine("```", 13)]
  {
    hide LinesFrom;
    LineIs(text, 0, 3);
    LineIs(text, 4, 8);
    LineIs(text, 9, 12);
    LastLine(text, 13);
    assert text[0..3] == "```" && text[4..8] == "```x" && text[9..12] == "# t" && text[13..] == "```";
  }

  lemma {:induction false} LineIs(text: string, p: nat, e: nat)
    requires p <= e < |text| && text[e] == '\n' && forall k | p <= k < e :: !IsTerminator(text[k])
    ensures LinesFrom(text, p) == [SourceLine(text[p..e], p)] + LinesFrom(text, e + 1)
  {
  }

  lemma {:induction false} LastLine(text: string, p: nat)
    requires p < |text| && forall k | p <= k < |text| :: !IsTerminator(text[k])
    ensures LinesFrom(text, p) == [SourceLine(text[p..], p)]
  {
    assert LineEnd(text, p) == |text| && text[p..|text|] == text[p..];
    assert LinesFrom(text, |text|) == [];
  }

  lemma {:induction false} LooseEntries(lines: seq<SourceLine>)
    requires lines == [SourceLine("```", 0), SourceLine("```x", 4), SourceLine("# t", 9), SourceLine("```", 13)]
    requires FenceMarksOf("```") == FenceMarksOf("```x") == Some(Marks('`', 3)) && FenceMarksOf("# t").None?
    requires StartsHeading("# t") && MarkEnd("# t", '#', 0) == 1
    ensures EntriesFrom(lines, 0, None) == [Entry(1, 9)]
  {
    hide FenceMarksOf, StartsHeading, MarkEnd;
    var f := Some(Marks('`', 3));
    assert EntriesFrom(lines, 4, f) == [];
    assert EntriesFrom(lines, 3, None) == [];
    assert EntriesFrom(lines, 2, None) == [Entry(1, 9)];
    assert EntriesFrom(lines, 1, f) == EntriesFrom(lines, 2, None);
  }

  lemma {:induction false} LooseBlock(lines: seq<SourceLine>)
    requires lines == [SourceLine("```", 0), SourceLine("```x", 4), SourceLine("# t", 9), SourceLine("```", 13)]
    requires Lead("```") == 0 && MarkEnd("```", '`', 0) == 3 && Lead("```x") == 0 && MarkEnd("```x", '`', 0) == 3
    requires Lead("# t") == 0 && MarkEnd("# t", '`', 0) == 0
    ensures |Blocks(lines)| == 1 && Blocks(lines)[0].node.CodeBlock?
  {
    hide FenceForm, ClosesFence, HeadingForm, ListForm, Lead, MarkEnd, Trim, Blank;
    FenceScanned("```");
    ClosingScanned("```x", '`', 3);
    ClosingScanned("# t", '`', 3);
    ClosingScanned("```", '`', 3);
    var scan := FenceBody('`', 3);
    assert !Blank("```") by { NotBlank("```"); }
    assert "```x"[3] == 'x';
    assert !ClosesFence("```x", '`', 3);
    assert ScanEnd(scan, lines, 3) == 3;
    assert ScanEnd(scan, lines, 2) == 3;
    assert ScanEnd(scan, lines, 1) == 3;
    assert BlockAt(lines, 0).to == 4;
    assert BlocksFrom(lines, 4) == [];
  }

  lemma {:induction false} NotBlank(text: string)
    requires text != "" && !IsSpace(text[0])
    ensures !Blank(text)
  {
  }
}
