/** The inline renderer: emphasis, code spans, links and escapes inside one line of source. */
module MarkdownInline {
  import opened Options
  import opened Regex
  import opened SourceText

  datatype Style = Code | Strong | Emphasis | Deleted | Link | Escape

  /** One alternative of the inline expression: its content is item `opens` of the pattern. */
  datatype Alternative = Alternative(style: Style, pattern: Pattern, opens: nat)

  // The shortest content between two doubled marks, and the longest between two single ones.
  function Doubled(c: char): Pattern { [Lit(c), Lit(c), LazyPlus(Except({'\n'})), Lit(c), Lit(c)] }
  function Single(c: char): Pattern { [Lit(c), Plus(Except({c, '\n'})), Lit(c)] }
  const Ticked: Pattern := [Plus(Only({'`'})), Plus(Except({'`', '\n'})), Ref(0)]
  const Linked: Pattern :=
    [Lit('['), Plus(Except({']', '\n'})), Lit(']'), Lit('('), Plus(NonSpaceExcept({')'})), Lit(')')]

  const Escapable := {'\\', '`', '*', '_', '{', '}', '[', ']', '(', ')', '#', '+', '.', '!', '|', '>', '-'}

  /** The alternatives in the order in which they are tried. */
  const Alternatives: seq<Alternative> := [
    Alternative(Code, Ticked, 1),
    Alternative(Strong, Doubled('*'), 2),
    Alternative(Strong, Doubled('_'), 2),
    Alternative(Emphasis, Single('*'), 1),
    Alternative(Emphasis, Single('_'), 1),
    Alternative(Deleted, Doubled('~'), 2),
    Alternative(Link, Linked, 1),
    Alternative(Escape, [Lit('\\'), One(Only(Escapable))], 1)
  ]

  /** A match: the delimiters are text[at..inner] and text[innerEnd..end]. */
  datatype Token = Token(style: Style, at: nat, inner: nat, innerEnd: nat, end: nat)

  /** The first alternative, from the k-th on, that matches at p. */
  function TokenAt(text: string, p: nat, k: nat): (r: Option<Token>)
    requires p <= |text| && k <= |Alternatives|
    ensures r.Some? ==> var t := r.value; t.at == p < t.inner < t.innerEnd <= t.end <= |text|
    decreases |Alternatives| - k
  {
    if k == |Alternatives| then None
    else
      var a := Alternatives[k];
      var m := MatchAt(a.pattern, text, p);
      if m.None? then TokenAt(text, p, k + 1)
      else
        MatchBounds(text, p, k);
        var marks := m.value;
        Some(Token(a.style, p, marks[a.opens], marks[a.opens + 1], marks[|a.pattern|]))
  }

  lemma {:induction false} MatchBounds(text: string, p: nat, k: nat)
    requires p <= |text| && k < |Alternatives|
    requires MatchAt(Alternatives[k].pattern, text, p).Some?
    ensures var a, m := Alternatives[k], MatchAt(Alternatives[k].pattern, text, p).value;
            Parses(a.pattern, text, m) && m[0] == p < m[a.opens] < m[a.opens + 1] <= m[|a.pattern|] <= |text|
  {
    var a := Alternatives[k];
    var m := MatchAt(a.pattern, text, p).value;
    MatchIsPreferred(a.pattern, text, p);
    assert Accepts(a.pattern, text, m, 0) && Accepts(a.pattern, text, m, 1);
    if a.opens == 2 { assert Accepts(a.pattern, text, m, 2); }
    MarksAscend(a.pattern, text, m, a.opens + 1, |a.pattern|);
  }

  /** The leftmost match at or after p. */
  function NextToken(text: string, p: nat): (r: Option<Token>)
    requires p <= |text|
    ensures r.Some? ==>
              var t := r.value;
              p <= t.at < t.inner < t.innerEnd <= t.end <= |text| && TokenAt(text, t.at, 0) == r
    ensures forall q | p <= q < (if r.Some? then r.value.at else |text|) :: TokenAt(text, q, 0).None?
    decreases |text| - p
  {
    hide TokenAt;
    if p == |text| then None
    else if TokenAt(text, p, 0).Some? then TokenAt(text, p, 0)
    else NextToken(text, p + 1)
  }

  function AnyCase(c: char): Item {
    One(Only({c, if 'a' <= c <= 'z' then (c as int - 32) as char else c}))
  }

  function Word(w: string): Pattern { seq(|w|, i requires 0 <= i < |w| => AnyCase(w[i])) }

  /** Only web and mail addresses become links. */
  predicate AcceptedTarget(target: string) {
    || Matches(Word("http") + [Rep(Only({'s', 'S'}), 0, Some(1), true)] + Word("://"), target)
    || Matches(Word("mailto:"), target)
  }

  function Target(text: string, t: Token): string
    requires t.innerEnd + 3 <= t.end <= |text|
  {
    text[t.innerEnd + 2..t.end - 1]
  }

  /** Shown pieces are the renderer's calls; hidden ones are the syntax it leaves out. */
  datatype Piece = Shown(line: SourceLine) | Hidden(line: SourceLine)

  function Gap(text: string, start: nat, from: nat, to: nat): seq<Piece>
    requires from <= to <= |text|
  {
    if from < to then [Shown(SourceLine(text[from..to], start + from))] else []
  }

  /** Everything from the cursor on, in source order. */
  function Inline(text: string, start: nat, cursor: nat): seq<Piece>
    requires cursor <= |text|
    decreases |text|, |text| - cursor, 1
  {
    match NextToken(text, cursor)
    case None => Gap(text, start, cursor, |text|)
    case Some(t) => Gap(text, start, cursor, t.at) + TokenPieces(text, start, t) + Inline(text, start, t.end)
  }

  predicate Within(text: string, t: Token) { t.at < t.inner < t.innerEnd <= t.end <= |text| }

  predicate IsPlainLink(text: string, t: Token)
    requires Within(text, t)
  {
    t.style == Link && !(t.innerEnd + 3 <= t.end && AcceptedTarget(Target(text, t)))
  }

  function TokenPieces(text: string, start: nat, t: Token): seq<Piece>
    requires Within(text, t)
    decreases |text|, 0, 0
  {
    var whole := SourceLine(text, start);
    var content := whole.Cut(t.inner, t.innerEnd);
    if IsPlainLink(text, t) then [Shown(whole.Cut(t.at, t.end))]
    else
      [Hidden(whole.Cut(t.at, t.inner))]
      + (if t.style == Code || t.style == Escape then [Shown(content)]
         else Inline(content.text, content.start, 0))
      + [Hidden(whole.Cut(t.innerEnd, t.end))]
  }

  /** The calls made to the source renderer, in order. */
  function Fragments(pieces: seq<Piece>): seq<SourceLine> {
    if pieces == [] then []
    else if pieces[0].Shown? then [pieces[0].line] + Fragments(pieces[1..])
    else Fragments(pieces[1..])
  }

  lemma {:induction false} FragmentsConcat(a: seq<Piece>, b: seq<Piece>)
    ensures Fragments(a + b) == Fragments(a) + Fragments(b)
  {
    if a == [] {
      assert a + b == b;
    } else {
      assert (a + b)[0] == a[0] && (a + b)[1..] == a[1..] + b;
      FragmentsConcat(a[1..], b);
    }
  }

  lemma {:induction false} StepFragments(text: string, start: nat, cursor: nat)
    requires cursor <= |text|
    ensures Fragments(Inline(text, start, cursor)) ==
            match NextToken(text, cursor)
            case None => Fragments(Gap(text, start, cursor, |text|))
            case Some(t) =>
              Fragments(Gap(text, start, cursor, t.at)) + Fragments(TokenPieces(text, start, t))
              + Fragments(Inline(text, start, t.end))
  {
    hide NextToken, TokenPieces, Fragments;
    var next := NextToken(text, cursor);
    if next.Some? {
      var t := next.value;
      var gap, inside := Gap(text, start, cursor, t.at), TokenPieces(text, start, t);
      FragmentsConcat(gap, inside);
      FragmentsConcat(gap + inside, Inline(text, start, t.end));
    }
  }

  lemma {:induction false} Regroup<T>(a: seq<T>, b: seq<T>, c: seq<T>, d: seq<T>)
    ensures a + (b + c + d) == a + b + c + d
  {
  }

  lemma {:induction false} Adjacent(s: string, a: nat, b: nat, c: nat)
    requires a <= b <= c <= |s|
    ensures s[a..b] + s[b..c] == s[a..c]
  {
  }

  ghost function GapFragments(text: string, start: nat, from: nat, to: nat): seq<SourceLine>
    requires from <= to <= |text|
  {
    if from < to then [SourceLine(text[from..to], start + from)] else []
  }

  lemma {:induction false} LoopStep(text: string, start: nat, cursor: nat, parts: seq<SourceLine>)
    requires cursor <= |text|
    ensures parts + Fragments(Inline(text, start, cursor)) ==
            match NextToken(text, cursor)
            case None => parts + GapFragments(text, start, cursor, |text|)
            case Some(t) =>
              parts + GapFragments(text, start, cursor, t.at) + Fragments(TokenPieces(text, start, t))
              + Fragments(Inline(text, start, t.end))
  {
    hide NextToken, TokenPieces, Inline, Fragments;
    StepFragments(text, start, cursor);
    match NextToken(text, cursor)
    case None => GapShown(text, start, cursor, |text|);
    case Some(t) =>
      GapShown(text, start, cursor, t.at);
      Regroup(parts, GapFragments(text, start, cursor, t.at), Fragments(TokenPieces(text, start, t)),
              Fragments(Inline(text, start, t.end)));
  }

  lemma {:induction false} GapShown(text: string, start: nat, from: nat, to: nat)
    requires from <= to <= |text|
    ensures Fragments(Gap(text, start, from, to)) == GapFragments(text, start, from, to)
  {
  }

  /** The renderer as it runs: one pass over the matches with a cursor. */
  method RenderInline(text: string, start: nat) returns (parts: seq<SourceLine>)
    ensures parts == Fragments(Inline(text, start, 0))
    decreases |text|, 1
  {
    hide NextToken, TokenPieces, Inline, Fragments, Gap, IsPlainLink;
    parts := [];
    var cursor := 0;
    var token := NextToken(text, 0);
    while token.Some?
      invariant cursor <= |text| && token == NextToken(text, cursor)
      invariant parts + Fragments(Inline(text, start, cursor)) == Fragments(Inline(text, start, 0))
      decreases |text| - cursor
    {
      var t := token.value;
      ghost var before := parts;
      LoopStep(text, start, cursor, before);
      if t.at > cursor { parts := parts + [SourceLine(text[cursor..t.at], start + cursor)]; }
      assert parts == before + GapFragments(text, start, cursor, t.at);
      var shown := RenderToken(text, start, t);
      parts := parts + shown;
      cursor := t.end;
      token := NextToken(text, cursor);
    }
    LoopStep(text, start, cursor, parts);
    if cursor < |text| { parts := parts + [SourceLine(text[cursor..|text|], start + cursor)]; }
  }

  method RenderToken(text: string, start: nat, t: Token) returns (shown: seq<SourceLine>)
    requires Within(text, t)
    ensures shown == Fragments(TokenPieces(text, start, t))
    decreases |text|, 0
  {
    hide NextToken, TokenPieces, Inline, Fragments, IsPlainLink;
    if IsPlainLink(text, t) {
      shown := [SourceLine(text[t.at..t.end], start + t.at)];
    } else if t.style == Code || t.style == Escape {
      shown := [SourceLine(text[t.inner..t.innerEnd], start + t.inner)];
    } else {
      shown := RenderInline(text[t.inner..t.innerEnd], start + t.inner);
    }
    InsideFragments(text, start, t, shown);
  }

  lemma {:induction false} InsideFragments(text: string, start: nat, t: Token, shown: seq<SourceLine>)
    requires Within(text, t)
    requires var content := SourceLine(text[t.inner..t.innerEnd], start + t.inner);
             shown == if IsPlainLink(text, t) then [SourceLine(text[t.at..t.end], start + t.at)]
                      else if t.style == Code || t.style == Escape then [content]
                      else Fragments(Inline(content.text, content.start, 0))
    ensures Fragments(TokenPieces(text, start, t)) == shown
  {
    hide Inline, IsPlainLink;
    if !IsPlainLink(text, t) {
      var whole := SourceLine(text, start);
      var content := whole.Cut(t.inner, t.innerEnd);
      var open, close := [Hidden(whole.Cut(t.at, t.inner))], [Hidden(whole.Cut(t.innerEnd, t.end))];
      var middle := if t.style == Code || t.style == Escape then [Shown(content)]
                    else Inline(content.text, content.start, 0);
      FragmentsConcat(open, middle);
      FragmentsConcat(open + middle, close);
      assert Fragments(open) == [] && Fragments(close) == [];
    }
  }

  // ---------------------------------------------------------------- conservation

  /** The pieces stand side by side and spell the text out: nothing is lost, repeated or moved. */
  ghost predicate Tiles(pieces: seq<Piece>, text: string, start: nat) {
    if pieces == [] then text == ""
    else
      var l := pieces[0].line;
      l.start == start && l.text <= text && Tiles(pieces[1..], text[|l.text|..], start + |l.text|)
  }

  lemma {:induction false} TilesConcat(a: seq<Piece>, b: seq<Piece>, s: string, t: string, start: nat)
    requires Tiles(a, s, start) && Tiles(b, t, start + |s|)
    ensures Tiles(a + b, s + t, start)
  {
    if a == [] {
      assert a + b == b && s + t == t;
    } else {
      var n := |a[0].line.text|;
      assert (s + t)[n..] == s[n..] + t && (a + b)[1..] == a[1..] + b;
      TilesConcat(a[1..], b, s[n..], t, start + n);
    }
  }

  lemma {:induction false} TilesOne(p: Piece, s: string, start: nat)
    requires p.line == SourceLine(s, start)
    ensures Tiles([p], s, start)
  {
    assert s[|s|..] == "";
  }

  /** What may be hidden: the delimiters of each style, and nothing else. */
  predicate IsSyntax(s: string) {
    || (forall c <- s :: c == '`')
    || s in {"*", "**", "_", "__", "~~", "[", "\\"}
    || IsLinkTail(s)
  }

  /** "](target)" for an accepted target. */
  predicate IsLinkTail(s: string) {
    && 3 <= |s| && s[..2] == "](" && s[|s| - 1] == ')'
    && AcceptedTarget(s[2..|s| - 1])
  }

  /** Shown pieces are never empty; hidden ones are delimiters. */
  ghost predicate Clean(pieces: seq<Piece>) {
    forall p <- pieces :: if p.Shown? then p.line.text != "" else IsSyntax(p.line.text)
  }

  lemma {:induction false} CleanConcat(a: seq<Piece>, b: seq<Piece>)
    requires Clean(a) && Clean(b)
    ensures Clean(a + b)
  {
  }

  lemma {:induction false} GapTiles(text: string, start: nat, from: nat, to: nat)
    requires from <= to <= |text|
    ensures Tiles(Gap(text, start, from, to), text[from..to], start + from) && Clean(Gap(text, start, from, to))
  {
    if from < to { TilesOne(Gap(text, start, from, to)[0], text[from..to], start + from); }
  }

  lemma {:induction false} DoubledDelimiters(text: string, m: seq<nat>, c: char)
    requires Parses(Doubled(c), text, m)
    ensures m[0] <= m[2] <= m[3] <= m[5] <= |text| && text[m[0]..m[2]] == [c, c] == text[m[3]..m[5]]
  {
    assert Accepts(Doubled(c), text, m, 0) && Accepts(Doubled(c), text, m, 1) && Accepts(Doubled(c), text, m, 2);
    assert Accepts(Doubled(c), text, m, 3) && Accepts(Doubled(c), text, m, 4);
    assert text[m[0]] == c && text[m[0] + 1] == c && text[m[3]] == c && text[m[3] + 1] == c;
  }

  lemma {:induction false} SingleDelimiters(text: string, m: seq<nat>, c: char)
    requires Parses(Single(c), text, m)
    ensures m[0] <= m[1] <= m[2] <= m[3] <= |text| && text[m[0]..m[1]] == [c] == text[m[2]..m[3]]
  {
    assert Accepts(Single(c), text, m, 0) && Accepts(Single(c), text, m, 1) && Accepts(Single(c), text, m, 2);
    assert text[m[0]] == c && text[m[2]] == c;
  }

  lemma {:induction false} TickedDelimiters(text: string, m: seq<nat>)
    requires Parses(Ticked, text, m)
    ensures m[0] <= m[1] <= m[2] <= m[3] <= |text| && text[m[0]..m[1]] == text[m[2]..m[3]]
    ensures forall c <- text[m[0]..m[1]] :: c == '`'
    ensures forall c <- text[m[1]..m[2]] :: c != '`' && c != '\n'
  {
    assert Accepts(Ticked, text, m, 0) && Accepts(Ticked, text, m, 1) && Accepts(Ticked, text, m, 2);
  }

  lemma {:induction false} LinkedDelimiters(text: string, m: seq<nat>)
    requires Parses(Linked, text, m)
    ensures m[0] + 1 == m[1] <= m[2] && m[2] + 3 < m[6] <= |text| && text[m[0]..m[1]] == "["
    ensures text[m[2]] == ']' && text[m[2] + 1] == '(' && text[m[6] - 1] == ')'
  {
    assert Accepts(Linked, text, m, 0) && Accepts(Linked, text, m, 1) && Accepts(Linked, text, m, 2);
    assert Accepts(Linked, text, m, 3) && Accepts(Linked, text, m, 4) && Accepts(Linked, text, m, 5);
  }

  lemma {:induction false} TokenDelimiters(text: string, p: nat, k: nat)
    requires p <= |text| && k <= |Alternatives| && TokenAt(text, p, k).Some?
    ensures var t := TokenAt(text, p, k).value;
            !IsPlainLink(text, t) ==> IsSyntax(text[t.at..t.inner]) && IsSyntax(text[t.innerEnd..t.end])
    decreases |Alternatives| - k
  {
    hide AcceptedTarget, MatchAt;
    var a := Alternatives[k];
    var m := MatchAt(a.pattern, text, p);
    if m.None? {
      TokenDelimiters(text, p, k + 1);
    } else {
      MatchBounds(text, p, k);
      var t := TokenAt(text, p, k).value;
      match a.style
      case Code => TickedDelimiters(text, m.value);
      case Strong => DoubledDelimiters(text, m.value, if k == 1 then '*' else '_');
      case Emphasis => SingleDelimiters(text, m.value, if k == 3 then '*' else '_');
      case Deleted => DoubledDelimiters(text, m.value, '~');
      case Link =>
        LinkedDelimiters(text, m.value);
        var close := text[t.innerEnd..t.end];
        assert close[..2] == "](" && close[2..|close| - 1] == Target(text, t);
      case Escape =>
        assert Accepts(a.pattern, text, m.value, 0);
        assert text[t.at..t.inner] == [text[p]] && text[t.innerEnd..t.end] == "";
    }
  }

  lemma {:induction false} InlineTiles(text: string, start: nat, cursor: nat)
    requires cursor <= |text|
    ensures Tiles(Inline(text, start, cursor), text[cursor..|text|], start + cursor)
    ensures Clean(Inline(text, start, cursor))
    decreases |text|, |text| - cursor, 1
  {
    hide NextToken, TokenAt, TokenPieces, IsSyntax, Clean, Tiles, Gap;
    match NextToken(text, cursor)
    case None =>
      GapTiles(text, start, cursor, |text|);
    case Some(t) =>
      var gap, inside, rest := Gap(text, start, cursor, t.at), TokenPieces(text, start, t), Inline(text, start, t.end);
      GapTiles(text, start, cursor, t.at);
      TokenTiles(text, start, t);
      InlineTiles(text, start, t.end);
      TilesConcat(gap, inside, text[cursor..t.at], text[t.at..t.end], start + cursor);
      Adjacent(text, cursor, t.at, t.end);
      TilesConcat(gap + inside, rest, text[cursor..t.end], text[t.end..|text|], start + cursor);
      Adjacent(text, cursor, t.end, |text|);
      CleanConcat(gap, inside);
      CleanConcat(gap + inside, rest);
  }

  lemma {:induction false} TokenTiles(text: string, start: nat, t: Token)
    requires Within(text, t) && TokenAt(text, t.at, 0) == Some(t)
    ensures Tiles(TokenPieces(text, start, t), text[t.at..t.end], start + t.at)
    ensures Clean(TokenPieces(text, start, t))
    decreases |text|, 0, 0
  {
    hide NextToken, TokenAt, Inline, IsSyntax, AcceptedTarget;
    var whole := SourceLine(text, start);
    if IsPlainLink(text, t) {
      TilesOne(Shown(whole.Cut(t.at, t.end)), text[t.at..t.end], start + t.at);
    } else {
      var content := whole.Cut(t.inner, t.innerEnd);
      var open, close := Hidden(whole.Cut(t.at, t.inner)), Hidden(whole.Cut(t.innerEnd, t.end));
      var middle := if t.style == Code || t.style == Escape then [Shown(content)]
                    else Inline(content.text, content.start, 0);
      TokenDelimiters(text, t.at, 0);
      TilesOne(open, text[t.at..t.inner], start + t.at);
      TilesOne(close, text[t.innerEnd..t.end], start + t.innerEnd);
      if t.style == Code || t.style == Escape {
        TilesOne(Shown(content), content.text, content.start);
      } else {
        InlineTiles(content.text, content.start, 0);
        assert content.text[0..|content.text|] == content.text;
      }
      TilesConcat([open], middle, open.line.text, content.text, start + t.at);
      TilesConcat([open] + middle, [close], open.line.text + content.text, close.line.text, start + t.at);
      Adjacent(text, t.at, t.inner, t.innerEnd);
      Adjacent(text, t.at, t.innerEnd, t.end);
    }
  }

  /** Shown fragments of a tiling are slices of the source, in order and disjoint. */
  lemma {:induction false} TilesMapped(source: string, pieces: seq<Piece>, text: string, start: nat)
    requires Tiles(pieces, text, start) && SliceOf(source, SourceLine(text, start))
    ensures Mapped(source, Fragments(pieces), start, start + |text|)
  {
    if pieces != [] {
      var n := |pieces[0].line.text|;
      CutIsSlice(source, SourceLine(text, start), n, |text|);
      CutIsSlice(source, SourceLine(text, start), 0, n);
      assert text[..n] == pieces[0].line.text;
      TilesMapped(source, pieces[1..], text[n..], start + n);
      var rest := Fragments(pieces[1..]);
      if pieces[0].Shown? {
        assert Fragments(pieces) == [pieces[0].line] + rest;
        assert Fragments(pieces)[1..] == rest;
      } else {
        assert Fragments(pieces) == rest;
        MappedWiden(source, rest, start + n, start + |text|, start, start + |text|);
      }
    }
  }

  lemma {:induction false} CleanFragments(pieces: seq<Piece>)
    requires Clean(pieces)
    ensures forall l <- Fragments(pieces) :: l.text != ""
  {
    if pieces != [] { CleanFragments(pieces[1..]); }
  }

  /** Source fidelity, order and non-emptiness of one inline call, at any depth of nesting. */
  lemma {:induction false} InlineMapped(source: string, line: SourceLine)
    requires SliceOf(source, line)
    ensures Mapped(source, Fragments(Inline(line.text, line.start, 0)), line.start, line.End())
    ensures forall l <- Fragments(Inline(line.text, line.start, 0)) :: l.text != ""
  {
    hide NextToken, TokenAt;
    InlineTiles(line.text, line.start, 0);
    assert line.text[0..|line.text|] == line.text;
    TilesMapped(source, Inline(line.text, line.start, 0), line.text, line.start);
    CleanFragments(Inline(line.text, line.start, 0));
  }
}
