/** What an author writes is what the inline renderer shows: markup printed as source text is rendered as
    its leaves, each at its offset, at any depth of nesting. */
module InlinePrinting {
  import opened Options
  import opened Regex
  import opened SourceText
  import opened MarkdownInline
  import opened InlineShapes

  datatype Markup =
    | Plain(text: string)
    | Verbatim(ticks: nat, code: string)
    | Escaped(c: char)
    | Bold(mark: char, parts: seq<Markup>)
    | Italic(mark: char, parts: seq<Markup>)
    | Struck(parts: seq<Markup>)
    | Anchor(parts: seq<Markup>, target: string)

  const SPECIAL := {'`', '*', '_', '~', '[', '\\'}

  function Ticks(n: nat): (r: string)
    ensures |r| == n && forall k | 0 <= k < n :: r[k] == '`'
  {
    if n == 0 then "" else "`" + Ticks(n - 1)
  }

  /** What stands before the content. */
  function Opening(m: Markup): string {
    match m
    case Plain(_) => ""
    case Verbatim(n, _) => Ticks(n)
    case Escaped(_) => "\\"
    case Bold(c, _) => [c, c]
    case Italic(c, _) => [c]
    case Struck(_) => "~~"
    case Anchor(_, _) => "["
  }

  /** What stands after it. */
  function Closing(m: Markup): string {
    match m
    case Anchor(_, target) => "](" + target + ")"
    case Escaped(_) => ""
    case _ => Opening(m)
  }

  function Content(m: Markup): string
    decreases m, 0
  {
    match m
    case Plain(text) => text
    case Verbatim(_, code) => code
    case Escaped(c) => [c]
    case _ => PrintAll(m.parts)
  }

  function Print(m: Markup): string
    decreases m, 1
  {
    Opening(m) + Content(m) + Closing(m)
  }

  function PrintAll(ms: seq<Markup>): string { if ms == [] then "" else Print(ms[0]) + PrintAll(ms[1..]) }

  predicate Free(text: string, chars: set<char>) { forall k | 0 <= k < |text| :: text[k] !in chars }

  /** Text that an author can write: plain text has no marks, and no content holds its own delimiter. */
  predicate Fits(m: Markup) {
    match m
    case Plain(text) => text != "" && Free(text, SPECIAL + {'\n'})
    case Verbatim(n, code) => n > 0 && code != "" && Free(code, {'`', '\n'})
    case Escaped(c) => c in ESCAPABLE
    case Bold(c, parts) => c in {'*', '_'} && FitsAll(parts) && parts != [] && Free(PrintAll(parts), {c})
    case Italic(c, parts) => c in {'*', '_'} && FitsAll(parts) && parts != [] && Free(PrintAll(parts), {c})
    case Struck(parts) => FitsAll(parts) && parts != [] && Free(PrintAll(parts), {'~'})
    case Anchor(parts, target) =>
      && FitsAll(parts) && parts != [] && Free(PrintAll(parts), {']'})
      && target != "" && forall k | 0 <= k < |target| :: target[k] != ')' && !IsSpace(target[k])
  }

  /** Neighbouring plain texts are one. */
  predicate FitsAll(ms: seq<Markup>) {
    ms != [] ==> Fits(ms[0]) && FitsAll(ms[1..]) && !(|ms| > 1 && ms[0].Plain? && ms[1].Plain?)
  }

  predicate Accepted(target: string) {
    StartsWith(target, "http://") || StartsWith(target, "https://") || StartsWith(target, "mailto:")
  }

  /** The texts shown for markup that stands at an offset: code and escapes are not read further, and a
      link with another target is shown as it was written. */
  function Leaves(m: Markup, start: nat): seq<SourceLine> {
    match m
    case Plain(text) => [SourceLine(text, start)]
    case Verbatim(n, code) => [SourceLine(code, start + n)]
    case Escaped(c) => [SourceLine([c], start + 1)]
    case Anchor(parts, target) =>
      if Accepted(target) then AllLeaves(parts, start + 1) else [SourceLine(Print(m), start)]
    case _ => AllLeaves(m.parts, start + |Opening(m)|)
  }

  function AllLeaves(ms: seq<Markup>, start: nat): seq<SourceLine> {
    if ms == [] then [] else Leaves(ms[0], start) + AllLeaves(ms[1..], start + |Print(ms[0])|)
  }

  // ---------------------------------------------------------------- printed markup has no line ends

  lemma {:induction false} NoNewline(m: Markup)
    requires Fits(m)
    ensures Free(Print(m), {'\n'}) && Free(Content(m), {'\n'}) && Content(m) != ""
    decreases m, 0
  {
    hide IsSpace;
    if m.Bold? || m.Italic? || m.Struck? || m.Anchor? {
      NoNewlines(m.parts);
    }
    if m.Anchor? { TargetHasNoNewline(m.target); }
    assert Free(Opening(m), {'\n'}) && Free(Content(m), {'\n'}) && Free(Closing(m), {'\n'});
  }

  lemma {:induction false} TargetHasNoNewline(target: string)
    requires forall k | 0 <= k < |target| :: !IsSpace(target[k])
    ensures Free("](" + target + ")", {'\n'})
  {
  }

  lemma {:induction false} NoNewlines(ms: seq<Markup>)
    requires FitsAll(ms)
    ensures Free(PrintAll(ms), {'\n'}) && (ms != [] ==> PrintAll(ms) != "")
    decreases ms, 1
  {
    if ms != [] {
      NoNewline(ms[0]);
      NoNewlines(ms[1..]);
    }
  }

  // ---------------------------------------------------------------- printed markup is matched where it stands

  predicate StandsAt(text: string, p: nat, s: string) { p + |s| <= |text| && text[p..p + |s|] == s }

  function TokenFor(m: Markup, p: nat): Token
    requires !m.Plain?
  {
    var style := match m
                 case Verbatim(_, _) => Code
                 case Escaped(_) => Escape
                 case Bold(_, _) => Strong
                 case Italic(_, _) => Emphasis
                 case Struck(_) => Deleted
                 case Anchor(_, _) => Link;
    var a := p + |Opening(m)|;
    Token(style, p, a, a + |Content(m)|, p + |Print(m)|)
  }

  lemma {:induction false} PartsStand(text: string, p: nat, m: Markup)
    requires StandsAt(text, p, Print(m))
    ensures var a := p + |Opening(m)|;
            && StandsAt(text, p, Opening(m)) && StandsAt(text, a, Content(m))
            && StandsAt(text, a + |Content(m)|, Closing(m))
            && p + |Print(m)| == a + |Content(m)| + |Closing(m)|
  {
    hide Opening, Content, Closing;
    var a, b, c := Opening(m), Content(m), Closing(m);
    var whole := a + b + c;
    assert a == whole[0..|a|] && b == whole[|a|..|a| + |b|] && c == whole[|a| + |b|..|whole|];
    SliceOfSlice(text, p, p + |whole|, 0, |a|);
    SliceOfSlice(text, p, p + |whole|, |a|, |a| + |b|);
    SliceOfSlice(text, p, p + |whole|, |a| + |b|, |whole|);
  }

  lemma {:induction false} CharAt(text: string, p: nat, s: string, k: nat)
    requires StandsAt(text, p, s) && k < |s|
    ensures text[p + k] == s[k]
  {
    assert text[p..p + |s|][k] == s[k];
  }

  lemma {:induction false} CharsAt(text: string, p: nat, s: string)
    requires StandsAt(text, p, s)
    ensures forall k | p <= k < p + |s| :: text[k] == s[k - p]
  {
    forall k | p <= k < p + |s| ensures text[k] == s[k - p] { CharAt(text, p, s, k - p); }
  }

  lemma {:induction false} MarkupIsToken(text: string, p: nat, m: Markup)
    requires !m.Plain? && Fits(m) && StandsAt(text, p, Print(m))
    ensures TokenAt(text, p, 0) == Some(TokenFor(m, p))
  {
    hide TokenAt, Fits, Print;
    PartsStand(text, p, m);
    NoNewline(m);
    ShapeOfMarkup(text, p, m);
    TokenScanned(text, TokenFor(m, p));
  }

  lemma {:induction false} ShapeOfMarkup(text: string, p: nat, m: Markup)
    requires !m.Plain? && Fits(m) && Free(Content(m), {'\n'}) && Content(m) != ""
    requires var a := p + |Opening(m)|;
             && StandsAt(text, p, Opening(m)) && StandsAt(text, a, Content(m))
             && StandsAt(text, a + |Content(m)|, Closing(m))
    ensures IsToken(text, TokenFor(m, p))
  {
    hide StandsAt, CodeAt, ShortestPairAt, LoneAt, LinkAt, EscapeAt, PrintAll, FitsAll;
    match m
    case Verbatim(n, code) => CodeStands(text, p, n, code);
    case Escaped(c) => EscapeStands(text, p, c);
    case Bold(c, parts) => PairStands(text, p, c, PrintAll(parts));
    case Italic(c, parts) => SingleStands(text, p, c, PrintAll(parts));
    case Struck(parts) => PairStands(text, p, '~', PrintAll(parts));
    case Anchor(parts, target) => LinkStands(text, p, PrintAll(parts), target);
  }

  lemma {:induction false} CodeStands(text: string, p: nat, n: nat, s: string)
    requires n > 0 && s != "" && Free(s, {'`', '\n'})
    requires StandsAt(text, p, Ticks(n)) && StandsAt(text, p + n, s) && StandsAt(text, p + n + |s|, Ticks(n))
    ensures CodeAt(text, p, p + n, p + n + |s|, p + n + |s| + n)
  {
    CharsAt(text, p, Ticks(n));
    CharsAt(text, p + n, s);
    CharsAt(text, p + n + |s|, Ticks(n));
  }

  lemma {:induction false} EscapeStands(text: string, p: nat, c: char)
    requires c in ESCAPABLE && StandsAt(text, p, "\\") && StandsAt(text, p + 1, [c])
    ensures EscapeAt(text, p)
  {
    CharAt(text, p, "\\", 0);
    CharAt(text, p + 1, [c], 0);
  }

  lemma {:induction false} PairStands(text: string, p: nat, c: char, s: string)
    requires s != "" && Free(s, {c}) && Free(s, {'\n'})
    requires StandsAt(text, p, [c, c]) && StandsAt(text, p + 2, s) && StandsAt(text, p + 2 + |s|, [c, c])
    ensures ShortestPairAt(text, c, p, p + 2 + |s|)
  {
    CharsAt(text, p, [c, c]);
    CharsAt(text, p + 2, s);
    CharsAt(text, p + 2 + |s|, [c, c]);
  }

  lemma {:induction false} SingleStands(text: string, p: nat, c: char, s: string)
    requires s != "" && Free(s, {c}) && Free(s, {'\n'})
    requires StandsAt(text, p, [c]) && StandsAt(text, p + 1, s) && StandsAt(text, p + 1 + |s|, [c])
    ensures LoneAt(text, c, p, p + 1 + |s|)
  {
    CharsAt(text, p, [c]);
    CharsAt(text, p + 1, s);
    CharsAt(text, p + 1 + |s|, [c]);
    assert text[p + 1] == s[0];
  }

  lemma {:induction false} LinkStands(text: string, p: nat, s: string, target: string)
    requires s != "" && Free(s, {']'}) && Free(s, {'\n'}) && target != ""
    requires forall k | 0 <= k < |target| :: target[k] != ')' && !IsSpace(target[k])
    requires StandsAt(text, p, "[") && StandsAt(text, p + 1, s) && StandsAt(text, p + 1 + |s|, "](" + target + ")")
    ensures LinkAt(text, p, p + 1 + |s|, p + 1 + |s| + |target| + 3)
  {
    hide IsSpace;
    CharsAt(text, p, "[");
    CharsAt(text, p + 1, s);
    var tail := "](" + target + ")";
    CharsAt(text, p + 1 + |s|, tail);
    assert tail[0] == ']' && tail[1] == '(' && tail[|tail| - 1] == ')';
    assert forall k | 0 <= k < |target| :: tail[k + 2] == target[k];
  }

  // ---------------------------------------------------------------- printed markup is shown as its leaves

  lemma {:induction false} TokenStartsSpecial(text: string, p: nat)
    requires p <= |text| && TokenAt(text, p, 0).Some?
    ensures p < |text| && text[p] in SPECIAL
  {
    hide TokenAt;
    TokenScanned(text, TokenAt(text, p, 0).value);
  }

  lemma {:induction false} SkipsPlain(text: string, p: nat, q: nat)
    requires p <= q <= |text| && forall k | p <= k < q :: text[k] !in SPECIAL
    ensures NextToken(text, p) == NextToken(text, q)
    decreases q - p
  {
    hide TokenAt;
    if p < q {
      if TokenAt(text, p, 0).Some? { TokenStartsSpecial(text, p); }
      SkipsPlain(text, p + 1, q);
    }
  }

  /** Plain text up to the end or to a match is one call. */
  lemma {:induction false} PlainShown(text: string, start: nat, p: nat, q: nat)
    requires p < q <= |text| && forall k | p <= k < q :: text[k] !in SPECIAL
    requires q == |text| || TokenAt(text, q, 0).Some?
    ensures Fragments(Inline(text, start, p)) ==
            [SourceLine(text[p..q], start + p)] + Fragments(Inline(text, start, q))
  {
    hide TokenAt, TokenPieces, Inline, Fragments;
    SkipsPlain(text, p, q);
    StepFragments(text, start, p);
    StepFragments(text, start, q);
    GapShown(text, start, p, q);
    GapShown(text, start, q, q);
    assert NextToken(text, q).Some? ==> NextToken(text, q).value.at == q;
  }

  lemma {:induction false} Peel(text: string, p: nat, m: Markup, rest: seq<Markup>)
    requires p <= |text| && text[p..] == PrintAll([m] + rest)
    ensures StandsAt(text, p, Print(m)) && text[p + |Print(m)|..] == PrintAll(rest)
  {
    hide Print;
    assert ([m] + rest)[1..] == rest;
    var a, b := Print(m), PrintAll(rest);
    assert text[p..] == a + b;
    assert |text| == p + |a| + |b|;
    assert (a + b)[..|a|] == a && (a + b)[|a|..] == b;
    assert text[p..][..|a|] == text[p..p + |a|];
    assert text[p..][|a|..] == text[p + |a|..];
  }

  /** Rendering printed markup shows its leaves, from any position on. */
  lemma {:induction false} LeavesShown(text: string, start: nat, p: nat, ms: seq<Markup>)
    requires FitsAll(ms) && p <= |text| && text[p..] == PrintAll(ms)
    ensures Fragments(Inline(text, start, p)) == AllLeaves(ms, start + p)
    decreases ms, 1
  {
    hide TokenAt, NextToken, Print, Fits, TokenPieces, Inline, Leaves;
    if ms == [] {
      NothingLeft(text, start);
    } else {
      var m, rest := ms[0], ms[1..];
      assert [m] + rest == ms;
      Peel(text, p, m, rest);
      var q := p + |Print(m)|;
      LeavesShown(text, start, q, rest);
      if m.Plain? {
        PlainLeaf(text, start, p, m, rest);
      } else {
        MarkupIsToken(text, p, m);
        TokenLeaves(text, start, p, m);
        TokenShown(text, start, p, TokenFor(m, p));
      }
    }
  }

  lemma {:induction false} NothingLeft(text: string, start: nat)
    ensures Fragments(Inline(text, start, |text|)) == []
  {
    hide TokenAt;
  }

  /** A match at the cursor is shown before the rest. */
  lemma {:induction false} TokenShown(text: string, start: nat, p: nat, t: Token)
    requires p < |text| && t.at == p < t.inner < t.innerEnd <= t.end <= |text| && TokenAt(text, p, 0) == Some(t)
    ensures Fragments(Inline(text, start, p)) ==
            Fragments(TokenPieces(text, start, t)) + Fragments(Inline(text, start, t.end))
  {
    hide TokenAt, TokenPieces, Inline, Fragments;
    assert NextToken(text, p) == Some(t);
    StepFragments(text, start, p);
    GapShown(text, start, p, p);
    assert [] + Fragments(TokenPieces(text, start, t)) == Fragments(TokenPieces(text, start, t));
  }

  lemma {:induction false} PlainLeaf(text: string, start: nat, p: nat, m: Markup, rest: seq<Markup>)
    requires m.Plain? && FitsAll([m] + rest) && StandsAt(text, p, Print(m))
             && text[p + |Print(m)|..] == PrintAll(rest)
    ensures Fragments(Inline(text, start, p)) ==
            Leaves(m, start + p) + Fragments(Inline(text, start, p + |Print(m)|))
  {
    hide TokenAt, TokenPieces, Inline, Fragments, NextToken, PrintAll, Opening, Content, Closing;
    var q := p + |Print(m)|;
    PlainPrints(m);
    CharsAt(text, p, m.text);
    assert ([m] + rest)[0] == m;
    assert forall k | p <= k < q :: text[k] !in SPECIAL;
    if rest != [] { NextIsToken(text, q, m, rest); } else { assert PrintAll(rest) == "" by { PrintsNothing(); } }
    PlainShown(text, start, p, q);
  }

  lemma {:induction false} PrintsNothing()
    ensures PrintAll([]) == ""
  {
  }

  lemma {:induction false} PlainPrints(m: Markup)
    requires m.Plain?
    ensures Print(m) == m.text
  {
  }

  lemma {:induction false} NextIsToken(text: string, q: nat, m: Markup, rest: seq<Markup>)
    requires m.Plain? && rest != [] && FitsAll([m] + rest) && q <= |text| && text[q..] == PrintAll(rest)
    ensures TokenAt(text, q, 0).Some?
  {
    hide TokenAt, Print, PrintAll, Fits;
    assert ([m] + rest)[0] == m && ([m] + rest)[1..] == rest && ([m] + rest)[1] == rest[0];
    assert [rest[0]] + rest[1..] == rest;
    Peel(text, q, rest[0], rest[1..]);
    MarkupIsToken(text, q, rest[0]);
  }

  /** The calls for a match are the leaves of its markup. */
  lemma {:induction false} TokenLeaves(text: string, start: nat, p: nat, m: Markup)
    requires !m.Plain? && Fits(m) && StandsAt(text, p, Print(m))
    ensures MarkdownInline.Within(text, TokenFor(m, p))
    ensures Fragments(TokenPieces(text, start, TokenFor(m, p))) == Leaves(m, start + p)
    decreases m, 0
  {
    hide TokenAt, TokenPieces, Inline, Fragments, NextToken, Opening, Content, Closing, Fits, AcceptedTarget;
    var t := TokenFor(m, p);
    TokenBounds(text, p, m);
    var content := SourceLine(text[t.inner..t.innerEnd], start + t.inner);
    if m.Verbatim? || m.Escaped? {
      InsideFragments(text, start, t, [content]);
      ContentIs(m);
    } else {
      PartsFit(m);
      assert content.text[0..] == content.text;
      LeavesShown(content.text, content.start, 0, m.parts);
      if m.Anchor? { TargetRead(text, p, m); }
      var whole := SourceLine(text[t.at..t.end], start + t.at);
      InsideFragments(text, start, t,
                      if IsPlainLink(text, t) then [whole] else Fragments(Inline(content.text, content.start, 0)));
      ContentIs(m);
    }
  }

  lemma {:induction false} TokenBounds(text: string, p: nat, m: Markup)
    requires !m.Plain? && Fits(m) && StandsAt(text, p, Print(m))
    ensures var t := TokenFor(m, p);
            && MarkdownInline.Within(text, t) && t.at == p && t.end == p + |Print(m)|
            && text[t.inner..t.innerEnd] == Content(m) && text[t.at..t.end] == Print(m)
            && t.inner == p + |Opening(m)|
  {
    hide Print, Content, Closing;
    PartsStand(text, p, m);
    NoNewline(m);
    assert |Opening(m)| > 0;
  }

  lemma {:induction false} PartsFit(m: Markup)
    requires m.Bold? || m.Italic? || m.Struck? || m.Anchor?
    requires Fits(m)
    ensures FitsAll(m.parts) && Content(m) == PrintAll(m.parts)
  {
  }

  lemma {:induction false} ContentIs(m: Markup)
    requires !m.Plain?
    ensures m.Verbatim? ==> Content(m) == m.code && |Opening(m)| == m.ticks
    ensures m.Escaped? ==> Content(m) == [m.c] && |Opening(m)| == 1
    ensures m.Anchor? ==> |Opening(m)| == 1
  {
  }

  /** The target that is tested is the one that was written. */
  lemma {:induction false} TargetRead(text: string, p: nat, m: Markup)
    requires m.Anchor? && Fits(m) && StandsAt(text, p, Print(m)) && MarkdownInline.Within(text, TokenFor(m, p))
    ensures IsPlainLink(text, TokenFor(m, p)) <==> !Accepted(m.target)
  {
    hide PrintAll, Print, AcceptedTarget, FitsAll, StartsWith;
    PartsStand(text, p, m);
    var t := TokenFor(m, p);
    var tail := "](" + m.target + ")";
    assert Closing(m) == tail && text[t.innerEnd..t.innerEnd + |tail|] == tail && t.innerEnd + |tail| == t.end;
    assert tail[2..|tail| - 1] == m.target;
    SliceOfSlice(text, t.innerEnd, t.end, 2, |tail| - 1);
    TargetScanned(m.target);
  }

  /** Rendering undoes printing. */
  lemma {:induction false} PrintedIsShown(ms: seq<Markup>, start: nat)
    requires FitsAll(ms)
    ensures Fragments(Inline(PrintAll(ms), start, 0)) == AllLeaves(ms, start)
  {
    LeavesShown(PrintAll(ms), start, 0, ms);
  }
}
