/** The line shapes without backtracking: what each regular expression of the block parser accepts, and
    where its parts end, as a scan from left to right. */
module LineScanners {
  import opened Options
  import opened Regex
  import opened GreedyMatching
  import opened SourceText
  import opened Strings
  import opened LineForms

  /** Where a run of one character ends. */
  function MarkEnd(text: string, c: char, i: nat): (e: nat)
    requires i <= |text|
    ensures i <= e <= |text|
  {
    RunEnd(Only({c}), text, i, None)
  }

  /** No line terminator from i on, so that ".*" reaches the end. */
  predicate OneLine(text: string, i: nat) { forall k | i <= k < |text| :: AnyChar.Has(text[k]) }

  /** White space before a character that is none is taken whole. */
  lemma {:induction false} LeadIs(text: string, i: nat)
    requires i < |text| && !IsSpace(text[i]) && forall k | 0 <= k < i :: IsSpace(text[k])
    ensures Lead(text) == i
  {
  }

  lemma {:induction false} RunIs(cls: Class, text: string, i: nat, e: nat)
    requires i <= e <= |text| && (forall k | i <= k < e :: cls.Has(text[k])) && (e < |text| ==> !cls.Has(text[e]))
    ensures RunEnd(cls, text, i, None) == e
  {
  }

  // ---------------------------------------------------------------- quotes

  /** A quoted line has ">" after its white space; its prefix takes one space that follows. */
  lemma {:induction false} QuoteScanned(text: string)
    ensures IsQuote(text) <==> Lead(text) < |text| && text[Lead(text)] == '>'
    ensures IsQuote(text) ==>
              var i := Lead(text);
              QuotePrefix(text) == if i + 1 < |text| && text[i + 1] == ' ' then i + 2 else i + 1
  {
    hide MatchAt;
    var short: Pattern := [Star(Space), Lit('>')];
    var i := Lead(text);
    MatchIsPreferred(short, text, 0);
    if IsQuote(text) {
      var m := MatchAt(short, text, 0).value;
      assert Accepts(short, text, m, 0) && Accepts(short, text, m, 1);
      LeadIs(text, m[1]);
    }
    if i < |text| && text[i] == '>' {
      var m := [0, i, i + 1];
      assert Accepts(short, text, m, 0) && Accepts(short, text, m, 1);
      assert Parses(short, text, m);
      var p := QuotePattern;
      var g := [0, i, i + 1, if i + 1 < |text| && text[i + 1] == ' ' then i + 2 else i + 1];
      assert Accepts(p, text, g, 0) && Accepts(p, text, g, 1) && Accepts(p, text, g, 2);
      GreedyMatch(p, text, g);
    }
  }

  // ---------------------------------------------------------------- fences

  predicate OpensFence(text: string) {
    var i := Lead(text);
    && i < |text| && text[i] in {'`', '~'}
    && MarkEnd(text, text[i], i) >= i + 3 && OneLine(text, MarkEnd(text, text[i], i))
  }

  /** A fence opens with three or more of one mark after the white space; its count is the length of the
      whole run, and the rest of the line, trimmed, is its info. */
  lemma {:induction false} FenceScanned(text: string)
    ensures FenceForm(text).Some? <==> OpensFence(text)
    ensures OpensFence(text) ==>
              var i := Lead(text);
              var e := MarkEnd(text, text[i], i);
              FenceForm(text) == Some(Fence(text[i], e - i, Trim(text[e..])))
  {
    hide Trim, MatchAt;
    FenceOfScanned('`', text);
    FenceOfScanned('~', text);
  }

  lemma {:induction false} FenceOfScanned(mark: char, text: string)
    requires mark in {'`', '~'}
    ensures var i := Lead(text);
            FenceOf(mark, text) == if OpensFence(text) && text[i] == mark
                                   then Some(Fence(mark, MarkEnd(text, mark, i) - i,
                                                   Trim(text[MarkEnd(text, mark, i)..])))
                                   else None
  {
    hide Trim, MatchAt, Lead, MarkEnd;
    if MatchAt(FencePattern(mark), text, 0).Some? { FenceNeeds(mark, text); }
    if OpensFence(text) && text[Lead(text)] == mark { FenceMatch(mark, text); }
  }

  lemma {:induction false} FenceNeeds(mark: char, text: string)
    requires mark in {'`', '~'} && MatchAt(FencePattern(mark), text, 0).Some?
    ensures OpensFence(text) && text[Lead(text)] == mark
  {
    hide MatchAt, Lead;
    var p := FencePattern(mark);
    MatchIsPreferred(p, text, 0);
    var m := MatchAt(p, text, 0).value;
    assert Accepts(p, text, m, 0) && Accepts(p, text, m, 1) && Accepts(p, text, m, 2) && Accepts(p, text, m, 3);
    LeadIs(text, m[1]);
    assert MarkEnd(text, mark, m[1]) >= m[2];
  }

  lemma {:induction false} FenceMatch(mark: char, text: string)
    requires OpensFence(text) && text[Lead(text)] == mark
    ensures var i := Lead(text);
            MatchAt(FencePattern(mark), text, 0) == Some([0, i, MarkEnd(text, mark, i), |text|, |text|])
  {
    hide MatchAt, Lead;
    var p, i := FencePattern(mark), Lead(text);
    LeadIsRun(text);
    var g := [0, i, MarkEnd(text, mark, i), |text|, |text|];
    RunIs(AnyChar, text, g[2], |text|);
    assert Accepts(p, text, g, 0) && Accepts(p, text, g, 1) && Accepts(p, text, g, 2) && Accepts(p, text, g, 3);
    GreedyMatch(p, text, g);
  }

  lemma {:induction false} LeadIsRun(text: string)
    ensures Lead(text) == RunEnd(Space, text, 0, None)
  {
  }

  /** A fence closes with at least as many of its mark, and only white space around them. */
  lemma {:induction false} ClosingScanned(text: string, mark: char, count: nat)
    requires count >= 1 && !IsSpace(mark)
    ensures ClosesFence(text, mark, count) <==>
              var e := MarkEnd(text, mark, Lead(text));
              e - Lead(text) >= count && forall k | e <= k < |text| :: IsSpace(text[k])
  {
    hide MatchAt, Lead;
    var p: Pattern := [Star(Space), AtLeast(count, Only({mark})), Star(Space), End];
    var i := Lead(text);
    LeadIsRun(text);
    MatchIsPreferred(p, text, 0);
    if MatchAt(p, text, 0).Some? {
      var m := MatchAt(p, text, 0).value;
      assert Accepts(p, text, m, 0) && Accepts(p, text, m, 1) && Accepts(p, text, m, 2) && Accepts(p, text, m, 3);
      LeadIs(text, m[1]);
      RunIs(Only({mark}), text, m[1], m[2]);
    }
    var e := MarkEnd(text, mark, i);
    if e - i >= count && forall k | e <= k < |text| :: IsSpace(text[k]) {
      var g := [0, i, e, |text|, |text|];
      assert Accepts(p, text, g, 0) && Accepts(p, text, g, 1) && Accepts(p, text, g, 2) && Accepts(p, text, g, 3);
      assert Parses(p, text, g);
    }
  }

  // ---------------------------------------------------------------- headings

  /** A heading is one to six marks and white space; its level is the length of the run of marks. */
  lemma {:induction false} HeadingScanned(text: string)
    ensures var n := MarkEnd(text, '#', 0);
            && (HeadingForm(text).Some? <==>
                  1 <= n <= 6 && n < |text| && IsSpace(text[n]) && OneLine(text, RunEnd(Space, text, n, None)))
            && (HeadingForm(text).Some? ==> HeadingForm(text).value.level == n)
  {
    hide MatchAt, IndexOf;
    var p, n := HeadingPattern, MarkEnd(text, '#', 0);
    MatchIsPreferred(p, text, 0);
    if MatchAt(p, text, 0).Some? {
      HeadingMarks(text);
      var m := MatchAt(p, text, 0).value;
      assert Accepts(p, text, m, 2);
      RunIs(Only({'#'}), text, 0, m[1]);
      RunIs(Space, text, m[1], m[2]);
    }
    if 1 <= n <= 6 && n < |text| && IsSpace(text[n]) && OneLine(text, RunEnd(Space, text, n, None)) {
      var g := [0, n, RunEnd(Space, text, n, None), |text|, |text|];
      assert Accepts(p, text, g, 0) && Accepts(p, text, g, 1) && Accepts(p, text, g, 2) && Accepts(p, text, g, 3);
      assert Parses(p, text, g);
    }
  }

  // ---------------------------------------------------------------- list items

  /** A marker stands at i and ends before its space at e. */
  predicate MarkerAt(text: string, i: nat, e: nat) {
    && i < e < |text| && text[e] == ' ' && OneLine(text, e + 1)
    && if Digit.Has(text[i]) then e == RunEnd(Digit, text, i, None) + 1 && text[e - 1] in {'.', ')'}
       else e == i + 1 && text[i] in {'-', '*', '+'}
  }

  /** Where a marker that starts at i would have its space. */
  function MarkerSpace(text: string, i: nat): nat
    requires i < |text|
  {
    if Digit.Has(text[i]) then RunEnd(Digit, text, i, None) + 1 else i + 1
  }

  /** A list item is a bullet, or digits and a point or bracket, then one space; the item's text starts
      right after that space. */
  lemma {:induction false} ListScanned(text: string)
    ensures var i := Lead(text);
            ListForm(text) == if i < |text| && MarkerAt(text, i, MarkerSpace(text, i))
                              then Some(Marker(i, MarkerSpace(text, i) + 1, Digit.Has(text[i]))) else None
  {
    hide MatchAt, Lead;
    BulletScanned(text);
    OrderedScanned(text);
  }

  lemma {:induction false} BulletScanned(text: string)
    ensures var i, m := Lead(text), MatchAt(BulletPattern, text, 0);
            && (m.Some? <==> i < |text| && !Digit.Has(text[i]) && MarkerAt(text, i, i + 1))
            && (m.Some? ==> |m.value| == 6 && m.value[1] == i && m.value[3] == i + 2)
  {
    hide MatchAt, Lead;
    var p, i := BulletPattern, Lead(text);
    LeadIsRun(text);
    MatchIsPreferred(p, text, 0);
    if MatchAt(p, text, 0).Some? {
      var m := MatchAt(p, text, 0).value;
      assert Accepts(p, text, m, 0) && Accepts(p, text, m, 1) && Accepts(p, text, m, 2) && Accepts(p, text, m, 3)
             && Accepts(p, text, m, 4);
      LeadIs(text, m[1]);
    }
    if i < |text| && !Digit.Has(text[i]) && MarkerAt(text, i, i + 1) {
      var g := [0, i, i + 1, i + 2, |text|, |text|];
      assert Accepts(p, text, g, 0) && Accepts(p, text, g, 1) && Accepts(p, text, g, 2) && Accepts(p, text, g, 3)
             && Accepts(p, text, g, 4);
      assert Parses(p, text, g);
    }
  }

  lemma {:induction false} OrderedScanned(text: string)
    ensures var i, m := Lead(text), MatchAt(OrderedPattern, text, 0);
            && (m.Some? <==> i < |text| && Digit.Has(text[i]) && MarkerAt(text, i, MarkerSpace(text, i)))
            && (m.Some? ==> |m.value| == 7 && m.value[1] == i && m.value[4] == MarkerSpace(text, i) + 1)
  {
    hide MatchAt, Lead, MarkerAt, MarkerSpace;
    var i := Lead(text);
    if MatchAt(OrderedPattern, text, 0).Some? { OrderedNeeds(text); }
    if i < |text| && Digit.Has(text[i]) && MarkerAt(text, i, MarkerSpace(text, i)) { OrderedParses(text); }
  }

  lemma {:induction false} OrderedNeeds(text: string)
    requires MatchAt(OrderedPattern, text, 0).Some?
    ensures var i, m := Lead(text), MatchAt(OrderedPattern, text, 0).value;
            && i < |text| && Digit.Has(text[i]) && MarkerAt(text, i, MarkerSpace(text, i))
            && |m| == 7 && m[1] == i && m[4] == MarkerSpace(text, i) + 1
  {
    hide MatchAt, Lead;
    var p := OrderedPattern;
    MatchIsPreferred(p, text, 0);
    var m := MatchAt(p, text, 0).value;
    assert Accepts(p, text, m, 0) && Accepts(p, text, m, 1) && Accepts(p, text, m, 2) && Accepts(p, text, m, 3);
    assert Accepts(p, text, m, 4) && Accepts(p, text, m, 5);
    LeadIs(text, m[1]);
    RunIs(Digit, text, m[1], m[2]);
  }

  lemma {:induction false} OrderedParses(text: string)
    requires var i := Lead(text); i < |text| && Digit.Has(text[i]) && MarkerAt(text, i, MarkerSpace(text, i))
    ensures MatchAt(OrderedPattern, text, 0).Some?
  {
    hide MatchAt, Lead;
    var p, i := OrderedPattern, Lead(text);
    LeadIsRun(text);
    MatchIsPreferred(p, text, 0);
    var e := MarkerSpace(text, i);
    var g := [0, i, e - 1, e, e + 1, |text|, |text|];
    assert Accepts(p, text, g, 0) && Accepts(p, text, g, 1) && Accepts(p, text, g, 2) && Accepts(p, text, g, 3);
    assert Accepts(p, text, g, 4) && Accepts(p, text, g, 5);
    assert Parses(p, text, g);
  }

  // ---------------------------------------------------------------- rules

  /** How often a character stands before position j. */
  function CountTo(text: string, c: char, j: nat): nat
    requires j <= |text|
  {
    if j == 0 then 0 else CountTo(text, c, j - 1) + if text[j - 1] == c then 1 else 0
  }

  /** Nothing but white space and the mark before position j. */
  predicate OnlyMarks(text: string, c: char, j: nat)
    requires j <= |text|
  {
    forall k | 0 <= k < j :: text[k] == c || IsSpace(text[k])
  }

  predicate RuleOf(text: string, c: char) { OnlyMarks(text, c, |text|) && CountTo(text, c, |text|) >= 3 }

  /** A rule is three or more of one mark with nothing but white space around and between them. */
  lemma {:induction false} RuleScanned(text: string)
    ensures IsRule(text) <==> exists c <- RuleMarks :: RuleOf(text, c)
  {
    hide Matches, RuleOf, RulePattern;
    if IsRule(text) {
      var n :| 2 <= n <= |text| && Matches(RulePattern(n), text);
      RuleNeeds(text, n);
    }
    if exists c <- RuleMarks :: RuleOf(text, c) {
      var c :| c in RuleMarks && RuleOf(text, c);
      RuleParses(text, c);
    }
  }

  lemma {:induction false} RepeatAt(p: Pattern, n: nat, k: nat)
    requires |p| == 2 && k < 2 * n
    ensures |Repeat(p, n)| == 2 * n && Repeat(p, n)[k] == p[k % 2]
    decreases n
  {
    if k >= 2 { RepeatAt(p, n - 1, k - 2); } else if n > 1 { RepeatAt(p, n - 1, 0); }
  }

  /** The pattern of a rule, item by item. */
  lemma {:induction false} RuleItem(n: nat, k: nat)
    requires n >= 1 && k < 2 * n + 4
    ensures |RulePattern(n)| == 2 * n + 4
    ensures RulePattern(n)[k] == if k % 2 == 0 then Star(Space) else if k == 1 then One(Only(RuleMarks))
                                 else if k == 2 * n + 3 then End else Ref(1)
  {
    hide Repeat;
    RepeatAt([Star(Space), Ref(1)], n, if 2 <= k < 2 * n + 2 then k - 2 else 0);
  }

  lemma {:induction false} CountSpaces(text: string, c: char, i: nat, j: nat)
    requires i <= j <= |text| && !IsSpace(c) && forall k | i <= k < j :: IsSpace(text[k])
    ensures CountTo(text, c, j) == CountTo(text, c, i)
    decreases j
  {
    if i < j { CountSpaces(text, c, i, j - 1); }
  }

  lemma {:induction false} MarksAreVisible(c: char)
    requires c in RuleMarks
    ensures !IsSpace(c)
  {
  }

  lemma {:induction false} RuleNeeds(text: string, n: nat)
    requires n >= 2 && Matches(RulePattern(n), text)
    ensures exists c <- RuleMarks :: RuleOf(text, c)
  {
    hide MatchAt, RulePattern, IsSpace, Accepts;
    var p := RulePattern(n);
    RuleItem(n, 1);
    RuleItem(n, 2 * n + 3);
    MatchIsPreferred(p, text, 0);
    var m := MatchAt(p, text, 0).value;
    FirstMark(text, p, m);
    var c := text[m[1]];
    RuleUpTo(text, n, m, 2 * n + 3);
    LastMark(text, p, m);
    assert RuleOf(text, c);
  }

  lemma {:induction false} FirstMark(text: string, p: Pattern, m: seq<nat>)
    requires Parses(p, text, m) && |p| >= 2 && p[1] == One(Only(RuleMarks))
    ensures m[1] + 1 == m[2] <= |text| && text[m[1]] in RuleMarks && text[m[1]..m[2]] == [text[m[1]]]
  {
    assert Accepts(p, text, m, 1);
  }

  lemma {:induction false} LastMark(text: string, p: Pattern, m: seq<nat>)
    requires Parses(p, text, m) && p != [] && p[|p| - 1] == End
    ensures m[|p| - 1] == |text|
  {
    assert Accepts(p, text, m, |p| - 1);
  }

  // Up to mark k there is only white space and the first mark, which each odd item adds once.
  lemma {:induction false} RuleUpTo(text: string, n: nat, m: seq<nat>, k: nat)
    requires n >= 1 && k <= 2 * n + 3 && Parses(RulePattern(n), text, m) && |m| == 2 * n + 5 && m[0] == 0
    requires m[1] + 1 == m[2] <= |text| && text[m[1]] in RuleMarks && text[m[1]..m[2]] == [text[m[1]]]
    ensures m[k] <= |text| && OnlyMarks(text, text[m[1]], m[k]) && CountTo(text, text[m[1]], m[k]) == k / 2
    decreases k
  {
    hide RulePattern, IsSpace;
    if k > 0 {
      RuleUpTo(text, n, m, k - 1);
      RuleItem(n, k - 1);
      assert Accepts(RulePattern(n), text, m, k - 1);
      var c, a, b := text[m[1]], m[k - 1], m[k];
      if (k - 1) % 2 == 0 {
        MarksAreVisible(c);
        CountSpaces(text, c, a, b);
      } else {
        assert text[a..b] == [c];
        assert b == a + 1 && text[a] == c;
      }
    }
  }

  lemma {:induction false} RuleParses(text: string, c: char)
    requires c in RuleMarks && RuleOf(text, c)
    ensures IsRule(text)
  {
    hide RulePattern, MatchAt, IsSpace;
    var n := CountTo(text, c, |text|) - 1;
    CountBound(text, c, |text|);
    RuleItem(n, 0);
    assert Partial(RulePattern(n), text, [0]);
    RuleFrom(text, c, n, [0], 0);
    MatchIsPreferred(RulePattern(n), text, 0);
    assert Matches(RulePattern(n), text);
  }

  lemma {:induction false} CountBound(text: string, c: char, j: nat)
    requires j <= |text|
    ensures CountTo(text, c, j) <= j
    decreases j
  {
    if j > 0 { CountBound(text, c, j - 1); }
  }

  lemma {:induction false} CountAscends(text: string, c: char, i: nat, j: nat)
    requires i <= j <= |text|
    ensures CountTo(text, c, i) <= CountTo(text, c, j)
    decreases j
  {
    if i < j { CountAscends(text, c, i, j - 1); }
  }

  // After j marks, each with the white space before it, the rest of the text parses too.
  lemma {:induction false} RuleFrom(text: string, c: char, n: nat, marks: seq<nat>, j: nat)
    requires c in RuleMarks && OnlyMarks(text, c, |text|) && n >= 1 && CountTo(text, c, |text|) == n + 1
    requires j <= n + 1 && |marks| == 2 * j + 1 && Partial(RulePattern(n), text, marks)
    requires CountTo(text, c, marks[2 * j]) == j
    requires j > 0 ==> marks[1] + 1 == marks[2] && text[marks[1]] == c
    ensures exists m: seq<nat> :: Parses(RulePattern(n), text, m) && m[0] == marks[0]
    decreases n + 1 - j
  {
    hide RulePattern, IsSpace, Accepts, CountTo, Partial, Within, RunEnd, OnlyMarks;
    RuleSpace(text, c, n, marks, j);
    var e := RunEnd(Space, text, marks[2 * j], None);
    var more := marks + [e];
    if j == n + 1 {
      RuleEnd(text, c, n, more);
      assert (more + [|text|])[0] == marks[0];
    } else {
      RuleMark(text, c, n, more, j);
      RuleFrom(text, c, n, more + [e + 1], j + 1);
    }
  }

  lemma {:induction false} RuleSpace(text: string, c: char, n: nat, marks: seq<nat>, j: nat)
    requires c in RuleMarks && OnlyMarks(text, c, |text|) && n >= 1 && CountTo(text, c, |text|) == n + 1
    requires j <= n + 1 && |marks| == 2 * j + 1 && Partial(RulePattern(n), text, marks)
             && CountTo(text, c, marks[2 * j]) == j
    ensures marks[2 * j] <= |text|
    ensures var e := RunEnd(Space, text, marks[2 * j], None);
            && Partial(RulePattern(n), text, marks + [e]) && CountTo(text, c, e) == j
            && (e < |text| <==> j < n + 1) && (e < |text| ==> text[e] == c)
  {
    hide RulePattern;
    RuleItem(n, 2 * j);
    var p := marks[2 * j];
    var e := RunEnd(Space, text, p, None);
    assert Accepts(RulePattern(n), text, marks + [e], 2 * j);
    PartialExtends(RulePattern(n), text, marks, e);
    MarksAreVisible(c);
    CountSpaces(text, c, p, e);
    if e < |text| { CountAscends(text, c, e + 1, |text|); }
  }

  lemma {:induction false} RuleMark(text: string, c: char, n: nat, marks: seq<nat>, j: nat)
    requires c in RuleMarks && n >= 1 && j <= n && |marks| == 2 * j + 2 && Partial(RulePattern(n), text, marks)
    requires var e := marks[2 * j + 1]; e < |text| && text[e] == c && CountTo(text, c, e) == j
    requires j > 0 ==> marks[1] + 1 == marks[2] && text[marks[1]] == c
    ensures var e := marks[2 * j + 1];
            Partial(RulePattern(n), text, marks + [e + 1]) && CountTo(text, c, e + 1) == j + 1
  {
    hide RulePattern;
    RuleItem(n, 2 * j + 1);
    var e := marks[2 * j + 1];
    var more := marks + [e + 1];
    assert text[e..e + 1] == [c];
    if j > 0 { assert text[marks[1]..marks[2]] == [c]; }
    assert Accepts(RulePattern(n), text, more, 2 * j + 1);
    PartialExtends(RulePattern(n), text, marks, e + 1);
  }

  lemma {:induction false} RuleEnd(text: string, c: char, n: nat, marks: seq<nat>)
    requires n >= 1 && |marks| == 2 * n + 4 && Partial(RulePattern(n), text, marks) && marks[2 * n + 3] == |text|
    ensures Parses(RulePattern(n), text, marks + [|text|])
  {
    hide RulePattern;
    RuleItem(n, 2 * n + 3);
    assert Accepts(RulePattern(n), text, marks + [|text|], 2 * n + 3);
    PartialExtends(RulePattern(n), text, marks, |text|);
    assert Within(marks + [|text|], text) && (marks + [|text|])[0] <= |text|;
  }

  // ---------------------------------------------------------------- where a paragraph ends

  predicate StartsHeading(text: string) {
    var n := MarkEnd(text, '#', 0);
    1 <= n <= 6 && n < |text| && IsSpace(text[n])
  }

  predicate StartsFence(text: string) {
    var i := Lead(text);
    i + 3 <= |text| && forall k | i <= k < i + 3 :: text[k] in {'`', '~'}
  }

  predicate StartsItem(text: string) {
    var i := Lead(text);
    && i < |text|
    && var e := MarkerSpace(text, i);
       e < |text| && text[e] == ' '
       && if Digit.Has(text[i]) then text[e - 1] in {'.', ')'} else text[i] in {'-', '*', '+'}
  }

  /** What ends a paragraph looks only at the start of the line. */
  lemma {:induction false} StopsScanned(text: string)
    ensures StopsParagraph(text) <==> StartsHeading(text) || StartsFence(text) || IsQuote(text) || StartsItem(text)
  {
    hide Matches, StartsHeading, StartsFence, StartsItem, IsQuote;
    HeadingStart(text);
    FenceStart(text);
    BulletStart(text);
    OrderedStart(text);
  }

  lemma {:induction false} HeadingStart(text: string)
    ensures Matches([Rep(Only({'#'}), 1, Some(6), true), One(Space)], text) <==> StartsHeading(text)
  {
    hide MatchAt;
    var p: Pattern := [Rep(Only({'#'}), 1, Some(6), true), One(Space)];
    var n := MarkEnd(text, '#', 0);
    MatchIsPreferred(p, text, 0);
    if Matches(p, text) {
      var m := MatchAt(p, text, 0).value;
      assert Accepts(p, text, m, 0) && Accepts(p, text, m, 1);
      RunIs(Only({'#'}), text, 0, m[1]);
    }
    if StartsHeading(text) {
      var g := [0, n, n + 1];
      assert Accepts(p, text, g, 0) && Accepts(p, text, g, 1);
      assert Parses(p, text, g);
    }
  }

  lemma {:induction false} FenceStart(text: string)
    ensures Matches([Star(Space), Rep(Only({'`', '~'}), 3, Some(3), true)], text) <==> StartsFence(text)
  {
    hide MatchAt, Lead;
    var p: Pattern := [Star(Space), Rep(Only({'`', '~'}), 3, Some(3), true)];
    var i := Lead(text);
    LeadIsRun(text);
    MatchIsPreferred(p, text, 0);
    if Matches(p, text) {
      var m := MatchAt(p, text, 0).value;
      assert Accepts(p, text, m, 0) && Accepts(p, text, m, 1);
      LeadIs(text, m[1]);
    }
    if StartsFence(text) {
      var g := [0, i, i + 3];
      assert Accepts(p, text, g, 0) && Accepts(p, text, g, 1);
      assert Parses(p, text, g);
    }
  }

  lemma {:induction false} BulletStart(text: string)
    ensures var i := Lead(text);
            Matches([Star(Space), One(Only({'-', '*', '+'})), Lit(' ')], text) <==>
              StartsItem(text) && !Digit.Has(text[i])
  {
    hide MatchAt, Lead;
    var p: Pattern := [Star(Space), One(Only({'-', '*', '+'})), Lit(' ')];
    var i := Lead(text);
    LeadIsRun(text);
    MatchIsPreferred(p, text, 0);
    if Matches(p, text) {
      var m := MatchAt(p, text, 0).value;
      assert Accepts(p, text, m, 0) && Accepts(p, text, m, 1) && Accepts(p, text, m, 2);
      LeadIs(text, m[1]);
    }
    if StartsItem(text) && !Digit.Has(text[i]) {
      var g := [0, i, i + 1, i + 2];
      assert Accepts(p, text, g, 0) && Accepts(p, text, g, 1) && Accepts(p, text, g, 2);
      assert Parses(p, text, g);
    }
  }

  lemma {:induction false} OrderedStart(text: string)
    ensures var i := Lead(text);
            Matches([Star(Space), Plus(Digit), One(Only({'.', ')'})), Lit(' ')], text) <==>
              StartsItem(text) && Digit.Has(text[i])
  {
    hide MatchAt, Lead;
    var p: Pattern := [Star(Space), Plus(Digit), One(Only({'.', ')'})), Lit(' ')];
    var i := Lead(text);
    LeadIsRun(text);
    MatchIsPreferred(p, text, 0);
    if Matches(p, text) {
      var m := MatchAt(p, text, 0).value;
      assert Accepts(p, text, m, 0) && Accepts(p, text, m, 1) && Accepts(p, text, m, 2) && Accepts(p, text, m, 3);
      LeadIs(text, m[1]);
      RunIs(Digit, text, m[1], m[2]);
      assert MarkerSpace(text, i) == m[2] + 1;
    }
    if StartsItem(text) && Digit.Has(text[i]) {
      var e := MarkerSpace(text, i);
      var g := [0, i, e - 1, e, e + 1];
      assert Accepts(p, text, g, 0) && Accepts(p, text, g, 1) && Accepts(p, text, g, 2) && Accepts(p, text, g, 3);
      assert Parses(p, text, g);
    }
  }

  /** A paragraph never runs over a line that would open a fence, a heading, a quote or a list. */
  lemma {:induction false} BlocksStopParagraphs(text: string)
    requires FenceForm(text).Some? || HeadingForm(text).Some? || IsQuote(text) || ListForm(text).Some?
    ensures StopsParagraph(text)
  {
    hide FenceForm, HeadingForm, IsQuote, ListForm, StopsParagraph, Lead;
    StopsScanned(text);
    FenceScanned(text);
    HeadingScanned(text);
    ListScanned(text);
  }

  /** A rule under a paragraph stays in the paragraph, exactly unless it could also start a bullet. */
  lemma {:induction false} RuleStays(text: string)
    requires IsRule(text)
    ensures var i := Lead(text);
            StopsParagraph(text) <==> i + 1 < |text| && text[i] in {'-', '*'} && text[i + 1] == ' '
  {
    hide IsRule, IsQuote, StopsParagraph, RuleOf;
    RuleScanned(text);
    var c :| c in RuleMarks && RuleOf(text, c);
    StopsScanned(text);
    QuoteScanned(text);
    RuleStart(text, c);
  }

  lemma {:induction false} RuleStart(text: string, c: char)
    requires c in RuleMarks && RuleOf(text, c)
    ensures Lead(text) < |text| && text[Lead(text)] == c
    ensures !StartsHeading(text) && !StartsFence(text)
  {
    var i := Lead(text);
    if i == |text| { CountSpaces(text, c, 0, |text|); }
    if text != "" { assert text[0] == c || IsSpace(text[0]); }
  }
}
