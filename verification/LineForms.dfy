/** The line shapes that start or end a Markdown block, each the regular expression the parser tests. */
module LineForms {
  import opened Options
  import opened Regex
  import opened GreedyMatching
  import opened SourceText
  import opened Strings
  import opened MarkdownTables

  const HeadingPattern: Pattern := [Rep(Only({'#'}), 1, Some(6), true), Plus(Space), Star(AnyChar), End]

  /** A heading: its level, and its title as the columns [from, to) of the line. */
  datatype Title = Title(level: nat, from: nat, to: nat)

  /** The title is the last part of the match, placed by a search that starts after the marks. */
  function HeadingForm(text: string): (r: Option<Title>)
    ensures r.Some? ==> 1 <= r.value.level <= 6 && r.value.level <= r.value.from <= r.value.to <= |text|
  {
    hide IndexOf;
    var m := MatchAt(HeadingPattern, text, 0);
    if m.None? then None
    else
      HeadingMarks(text);
      var level, at := m.value[1], m.value[2];
      TrimmedIsFoundInPlace(text, level, at, |text|);
      var from := IndexOf(text, text[at..|text|], level).value;
      Some(Title(level, from, from + (|text| - at)))
  }

  /** The white space after the marks is taken whole, so a title starts with none. */
  lemma {:induction false} HeadingMarks(text: string)
    requires MatchAt(HeadingPattern, text, 0).Some?
    ensures var m := MatchAt(HeadingPattern, text, 0).value;
            && |m| == 5 && m[0] == 0 && 1 <= m[1] <= 6 && m[1] < m[2] <= m[3] == m[4] == |text|
            && (forall k | 0 <= k < m[1] :: text[k] == '#') && (forall k | m[1] <= k < m[2] :: IsSpace(text[k]))
            && (m[2] < |text| ==> !IsSpace(text[m[2]]))
  {
    hide MatchAt, RunEnd;
    var p := HeadingPattern;
    MatchIsPreferred(p, text, 0);
    var m := MatchAt(p, text, 0).value;
    HeadingParts(text, m);
    HeadingGreedy(text, m[1], m[2]);
    var all := [0, m[1], RunEnd(Space, text, m[1], None), |text|, |text|];
    GreedyMatch(p, text, all);
    HeadingParts(text, all);
  }

  // What a parse of a heading says.
  lemma {:induction false} HeadingParts(text: string, m: seq<nat>)
    requires Parses(HeadingPattern, text, m) && m[0] == 0
    ensures |m| == 5 && 1 <= m[1] <= 6 && m[1] < m[2] <= m[3] == m[4] == |text|
    ensures (forall k | 0 <= k < m[1] :: text[k] == '#') && forall k | m[1] <= k < m[2] :: IsSpace(text[k])
    ensures forall k | m[2] <= k < |text| :: AnyChar.Has(text[k])
    ensures m[1] < |text| && !Only({'#'}).Has(text[m[1]])
  {
    var p := HeadingPattern;
    assert Accepts(p, text, m, 0) && Accepts(p, text, m, 1) && Accepts(p, text, m, 2) && Accepts(p, text, m, 3);
  }

  // Its greedy form is a parse that takes all it can.
  lemma {:induction false} HeadingGreedy(text: string, level: nat, at: nat)
    requires 1 <= level <= 6 && level < at <= |text| && forall k | 0 <= k < level :: text[k] == '#'
    requires (forall k | level <= k < at :: IsSpace(text[k])) && forall k | at <= k < |text| :: AnyChar.Has(text[k])
    ensures var all := [0, level, RunEnd(Space, text, level, None), |text|, |text|];
            && Parses(HeadingPattern, text, all) && TakesAll(HeadingPattern, text, all)
            && (all[2] < |text| ==> !IsSpace(text[all[2]]))
  {
    var p := HeadingPattern;
    var all := [0, level, RunEnd(Space, text, level, None), |text|, |text|];
    assert Accepts(p, text, all, 0) && Accepts(p, text, all, 1) && Accepts(p, text, all, 2) && Accepts(p, text, all, 3);
  }

  /** A heading of level n starts with exactly n marks, and its title stands where the expression matched
      it, unless it is empty. */
  lemma {:induction false} HeadingInPlace(text: string)
    requires HeadingForm(text).Some?
    ensures var t := HeadingForm(text).value;
            && t.level < |text| && (forall k | 0 <= k < t.level :: text[k] == '#') && IsSpace(text[t.level])
            && (t.from < t.to ==> t.to == |text| && !IsSpace(text[t.from])
                                  && forall k | t.level <= k < t.from :: IsSpace(text[k]))
            && (t.from == t.to ==> forall k | t.level <= k < |text| :: IsSpace(text[k]))
  {
    hide IndexOf;
    HeadingMarks(text);
    var m := MatchAt(HeadingPattern, text, 0).value;
    TrimmedIsFoundInPlace(text, m[1], m[2], |text|);
  }

  /** An opening fence: its mark, how many, and the text after it. */
  datatype Fence = Fence(mark: char, count: nat, info: string)

  function FencePattern(mark: char): Pattern { [Star(Space), AtLeast(3, Only({mark})), Star(AnyChar), End] }

  function FenceOf(mark: char, text: string): (r: Option<Fence>)
    ensures r.Some? ==> r.value.count >= 3
  {
    var m := MatchAt(FencePattern(mark), text, 0);
    if m.None? then None
    else
      FenceMarks(mark, text);
      Some(Fence(mark, m.value[2] - m.value[1], Trim(text[m.value[2]..])))
  }

  lemma {:induction false} FenceMarks(mark: char, text: string)
    requires MatchAt(FencePattern(mark), text, 0).Some?
    ensures var m := MatchAt(FencePattern(mark), text, 0).value;
            |m| == 5 && m[1] + 3 <= m[2] <= |text|
  {
    var p := FencePattern(mark);
    var m := MatchAt(p, text, 0).value;
    MatchIsPreferred(p, text, 0);
    assert Accepts(p, text, m, 1);
  }

  function FenceForm(text: string): (r: Option<Fence>)
    ensures r.Some? ==> r.value.count >= 3
  {
    if FenceOf('`', text).Some? then FenceOf('`', text) else FenceOf('~', text)
  }

  predicate ClosesFence(text: string, mark: char, count: nat) {
    Matches([Star(Space), AtLeast(count, Only({mark})), Star(Space), End], text)
  }

  function Repeat(p: Pattern, n: nat): Pattern { if n == 0 then [] else p + Repeat(p, n - 1) }

  /** One of - * _ , then itself n times more, white space allowed anywhere. */
  function RulePattern(n: nat): Pattern {
    [Star(Space), One(Only(RuleMarks))] + Repeat([Star(Space), Ref(1)], n) + [Star(Space), End]
  }

  const RuleMarks := {'-', '*', '_'}

  predicate IsRule(text: string) { exists n | 2 <= n <= |text| :: Matches(RulePattern(n), text) }

  predicate IsQuote(text: string) { Matches([Star(Space), Lit('>')], text) }

  const QuotePattern: Pattern := [Star(Space), Lit('>'), Maybe(' ')]

  /** The length of the quote mark, with the white space before it and one space after it. */
  function QuotePrefix(text: string): (n: nat)
    requires IsQuote(text)
    ensures 1 <= n <= |text|
  {
    QuoteMarks(text);
    MatchAt(QuotePattern, text, 0).value[3]
  }

  lemma {:induction false} QuoteMarks(text: string)
    requires IsQuote(text)
    ensures var m := MatchAt(QuotePattern, text, 0); m.Some? && |m.value| == 4 && 1 <= m.value[3] <= |text|
  {
    var short: Pattern := [Star(Space), Lit('>')];
    MatchIsPreferred(short, text, 0);
    var s := MatchAt(short, text, 0).value;
    assert Accepts(short, text, s, 0) && Accepts(short, text, s, 1);
    var other := [s[0], s[1], s[2], s[2]];
    assert Accepts(QuotePattern, text, other, 0) && Accepts(QuotePattern, text, other, 1)
           && Accepts(QuotePattern, text, other, 2);
    assert Parses(QuotePattern, text, other) && other[0] == 0;
    MatchIsPreferred(QuotePattern, text, 0);
    var m := MatchAt(QuotePattern, text, 0).value;
    assert Accepts(QuotePattern, text, m, 0) && Accepts(QuotePattern, text, m, 1) && Accepts(QuotePattern, text, m, 2);
  }

  /** A list marker: the white space before it, where the item's text starts, and its kind. */
  datatype Marker = Marker(indent: nat, content: nat, ordered: bool)

  const BulletPattern: Pattern := [Star(Space), One(Only({'-', '*', '+'})), Lit(' '), Star(AnyChar), End]
  const OrderedPattern: Pattern := [Star(Space), Plus(Digit), One(Only({'.', ')'})), Lit(' '), Star(AnyChar), End]

  function ListForm(text: string): (r: Option<Marker>)
    ensures r.Some? ==> r.value.indent + 2 <= r.value.content <= |text|
  {
    ListMarks(text);
    var b, o := MatchAt(BulletPattern, text, 0), MatchAt(OrderedPattern, text, 0);
    if b.Some? then Some(Marker(b.value[1], b.value[3], false))
    else if o.Some? then Some(Marker(o.value[1], o.value[4], true))
    else None
  }

  lemma {:induction false} ListMarks(text: string)
    ensures var b := MatchAt(BulletPattern, text, 0);
            b.Some? ==> |b.value| == 6 && b.value[1] + 2 <= b.value[3] <= |text|
    ensures var o := MatchAt(OrderedPattern, text, 0);
            o.Some? ==> |o.value| == 7 && o.value[1] + 2 <= o.value[4] <= |text|
  {
    var b, o := MatchAt(BulletPattern, text, 0), MatchAt(OrderedPattern, text, 0);
    MatchIsPreferred(BulletPattern, text, 0);
    MatchIsPreferred(OrderedPattern, text, 0);
    if b.Some? { assert Accepts(BulletPattern, text, b.value, 1) && Accepts(BulletPattern, text, b.value, 2); }
    if o.Some? {
      assert Accepts(OrderedPattern, text, o.value, 1) && Accepts(OrderedPattern, text, o.value, 2);
      assert Accepts(OrderedPattern, text, o.value, 3);
    }
  }

  /** The check box of a task item, and whether it is ticked. */
  function TaskForm(text: string): (r: Option<bool>)
    ensures r.Some? ==> |text| >= 4
  {
    if |text| >= 4 && text[0] == '[' && text[1] in {' ', 'x', 'X'} && text[2] == ']' && text[3] == ' '
    then Some(text[1] != ' ') else None
  }

  const AlertNames := {"NOTE", "TIP", "IMPORTANT", "WARNING", "CAUTION"}

  /** "[!NAME]" and nothing else. */
  predicate IsAlert(text: string) {
    |text| >= 3 && text[..2] == "[!" && text[|text| - 1] == ']' && text[2..|text| - 1] in AlertNames
  }

  /** Lines that cannot continue a paragraph. */
  predicate StopsParagraph(text: string) {
    || Matches([Rep(Only({'#'}), 1, Some(6), true), One(Space)], text)
    || Matches([Star(Space), Rep(Only({'`', '~'}), 3, Some(3), true)], text)
    || IsQuote(text)
    || Matches([Star(Space), One(Only({'-', '*', '+'})), Lit(' ')], text)
    || Matches([Star(Space), Plus(Digit), One(Only({'.', ')'})), Lit(' ')], text)
  }

  /** A row of dashes; a row without cells, such as a blank line, also counts. */
  predicate IsSeparator(cells: seq<SourceLine>) {
    forall c <- cells :: Matches([Maybe(':'), AtLeast(3, Only({'-'})), Maybe(':'), End], c.text)
  }
}
