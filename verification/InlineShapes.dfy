/** The inline syntax read off the characters: what the alternatives of the inline expression match, and
    which link targets are accepted. */
module InlineShapes {
  import opened Options
  import opened Regex
  import opened GreedyMatching
  import opened LineScanners
  import opened MarkdownInline

  /** A run of ticks, text without ticks, and as many ticks again. */
  predicate CodeAt(text: string, p: nat, a: nat, b: nat, e: nat) {
    && p < a < b < e <= |text| && a - p == e - b
    && (forall k | p <= k < a :: text[k] == '`') && (forall k | b <= k < e :: text[k] == '`')
    && forall k | a <= k < b :: text[k] != '`' && text[k] != '\n'
  }

  /** A doubled mark, text, and the doubled mark again. */
  predicate PairAt(text: string, c: char, p: nat, b: nat) {
    && p + 3 <= b && b + 2 <= |text|
    && text[p] == c && text[p + 1] == c && text[b] == c && text[b + 1] == c
    && forall k | p + 2 <= k < b :: text[k] != '\n'
  }

  predicate ShortestPairAt(text: string, c: char, p: nat, b: nat) {
    PairAt(text, c, p, b) && forall s: nat | s < b :: !PairAt(text, c, p, s)
  }

  /** A mark, text without it, and the mark again. */
  predicate SingleAt(text: string, c: char, p: nat, b: nat) {
    && p + 1 < b < |text| && text[p] == c && text[b] == c
    && forall k | p < k < b :: text[k] != c && text[k] != '\n'
  }

  /** "[", text without "]", "](", a target without white space or ")", and ")". */
  predicate LinkAt(text: string, p: nat, b: nat, e: nat) {
    && p + 1 < b && b + 3 < e <= |text|
    && text[p] == '[' && text[b] == ']' && text[b + 1] == '(' && text[e - 1] == ')'
    && (forall k | p < k < b :: text[k] != ']' && text[k] != '\n')
    && forall k | b + 2 <= k < e - 1 :: text[k] != ')' && !IsSpace(text[k])
  }

  const ESCAPABLE := "\\`*_{}[]()#+.!|>-"

  predicate EscapeAt(text: string, p: nat) { p + 1 < |text| && text[p] == '\\' && text[p + 1] in ESCAPABLE }

  /** What matches at a position. A doubled mark goes before a single one. */
  predicate IsToken(text: string, t: Token) {
    var p, a, b, e := t.at, t.inner, t.innerEnd, t.end;
    match t.style
    case Code => CodeAt(text, p, a, b, e)
    case Strong => a == p + 2 && e == b + 2 && (ShortestPairAt(text, '*', p, b) || ShortestPairAt(text, '_', p, b))
    case Emphasis => a == p + 1 && e == b + 1 && (LoneAt(text, '*', p, b) || LoneAt(text, '_', p, b))
    case Deleted => a == p + 2 && e == b + 2 && ShortestPairAt(text, '~', p, b)
    case Link => a == p + 1 && LinkAt(text, p, b, e)
    case Escape => a == p + 1 && b == p + 2 == e && EscapeAt(text, p)
  }

  predicate LoneAt(text: string, c: char, p: nat, b: nat) {
    SingleAt(text, c, p, b) && NoPairAt(text, c, p)
  }

  predicate NoPairAt(text: string, c: char, p: nat) { forall s: nat | s < |text| :: !PairAt(text, c, p, s) }

  lemma {:induction false} TickedScanned(text: string, p: nat, m: seq<nat>)
    requires p <= |text|
    ensures MatchAt(Ticked, text, p) == Some(m) <==> |m| == 4 && m[0] == p && CodeAt(text, p, m[1], m[2], m[3])
  {
    hide MatchAt;
    MatchIsPreferred(Ticked, text, p);
    if MatchAt(Ticked, text, p) == Some(m) {
      assert Accepts(Ticked, text, m, 0) && Accepts(Ticked, text, m, 1) && Accepts(Ticked, text, m, 2);
      assert forall k | m[2] <= k < m[3] :: text[k] == text[m[2]..m[3]][k - m[2]];
      assert forall k | m[0] <= k < m[1] :: text[k] == text[m[0]..m[1]][k - m[0]];
    }
    if |m| == 4 && m[0] == p && CodeAt(text, p, m[1], m[2], m[3]) { CodeMatches(text, m); }
  }

  lemma {:induction false} CodeMatches(text: string, m: seq<nat>)
    requires |m| == 4 && CodeAt(text, m[0], m[1], m[2], m[3])
    ensures MatchAt(Ticked, text, m[0]) == Some(m)
  {
    hide MatchAt, RunEnd;
    SameTicks(text, m[0], m[1], m[2], m[3]);
    assert Accepts(Ticked, text, m, 0) && Accepts(Ticked, text, m, 1) && Accepts(Ticked, text, m, 2);
    RunIs(Only({'`'}), text, m[0], m[1]);
    RunIs(Except({'`', '\n'}), text, m[1], m[2]);
    GreedyMatch(Ticked, text, m);
  }

  lemma {:induction false} SameTicks(text: string, p: nat, a: nat, b: nat, e: nat)
    requires CodeAt(text, p, a, b, e)
    ensures text[p..a] == text[b..e]
  {
  }

  lemma {:induction false} SingleScanned(text: string, c: char, p: nat, m: seq<nat>)
    requires p <= |text|
    ensures MatchAt(Single(c), text, p) == Some(m) <==>
            |m| == 4 && m[0] == p && m[1] == p + 1 && m[3] == m[2] + 1 && SingleAt(text, c, p, m[2])
  {
    hide MatchAt;
    var q := Single(c);
    MatchIsPreferred(q, text, p);
    if MatchAt(q, text, p) == Some(m) {
      assert Accepts(q, text, m, 0) && Accepts(q, text, m, 1) && Accepts(q, text, m, 2);
    }
    if |m| == 4 && m[0] == p && m[1] == p + 1 && m[3] == m[2] + 1 && SingleAt(text, c, p, m[2]) {
      assert Accepts(q, text, m, 0) && Accepts(q, text, m, 1) && Accepts(q, text, m, 2);
      GreedyMatch(q, text, m);
    }
  }

  /** The marks of a link whose text ends at b and which itself ends at e. */
  predicate LinkMarks(m: seq<nat>, p: nat) {
    && |m| == 7 && m[0] == p && m[1] == p + 1 && m[3] == m[2] + 1 && m[4] == m[2] + 2 && m[6] == m[5] + 1
  }

  lemma {:induction false} LinkedScanned(text: string, p: nat, m: seq<nat>)
    requires p <= |text|
    ensures MatchAt(Linked, text, p) == Some(m) <==> LinkMarks(m, p) && LinkAt(text, p, m[2], m[6])
  {
    hide MatchAt, LinkAt;
    MatchIsPreferred(Linked, text, p);
    if MatchAt(Linked, text, p) == Some(m) { LinkNeeded(text, p, m); }
    if LinkMarks(m, p) && LinkAt(text, p, m[2], m[6]) { LinkMatches(text, p, m); }
  }

  lemma {:induction false} LinkNeeded(text: string, p: nat, m: seq<nat>)
    requires Parses(Linked, text, m) && m[0] == p
    ensures LinkMarks(m, p) && LinkAt(text, p, m[2], m[6])
  {
    assert Accepts(Linked, text, m, 0) && Accepts(Linked, text, m, 1) && Accepts(Linked, text, m, 2);
    assert Accepts(Linked, text, m, 3) && Accepts(Linked, text, m, 4) && Accepts(Linked, text, m, 5);
  }

  lemma {:induction false} LinkMatches(text: string, p: nat, m: seq<nat>)
    requires p <= |text| && LinkMarks(m, p) && LinkAt(text, p, m[2], m[6])
    ensures MatchAt(Linked, text, p) == Some(m)
  {
    hide MatchAt;
    assert Accepts(Linked, text, m, 0) && Accepts(Linked, text, m, 1) && Accepts(Linked, text, m, 2);
    assert Accepts(Linked, text, m, 3) && Accepts(Linked, text, m, 4) && Accepts(Linked, text, m, 5);
    GreedyMatch(Linked, text, m);
  }

  lemma {:induction false} EscapeScanned(text: string, p: nat, m: seq<nat>)
    requires p <= |text|
    ensures MatchAt([Lit('\\'), One(Only(Escapable))], text, p) == Some(m) <==>
            |m| == 3 && m[0] == p && m[1] == p + 1 && m[2] == p + 2 && EscapeAt(text, p)
  {
    hide MatchAt;
    var q: Pattern := [Lit('\\'), One(Only(Escapable))];
    MatchIsPreferred(q, text, p);
    if MatchAt(q, text, p) == Some(m) {
      assert Accepts(q, text, m, 0) && Accepts(q, text, m, 1);
    }
    if |m| == 3 && m[0] == p && m[1] == p + 1 && m[2] == p + 2 && EscapeAt(text, p) {
      assert Accepts(q, text, m, 0) && Accepts(q, text, m, 1);
      GreedyMatch(q, text, m);
    }
  }

  /** The marks of a doubled mark whose content ends at b. */
  function PairMarks(p: nat, b: nat): seq<nat> { [p, p + 1, p + 2, b, b + 1, b + 2] }

  lemma {:induction false} PairParses(text: string, c: char, p: nat, m: seq<nat>)
    requires p <= |text|
    ensures Parses(Doubled(c), text, m) && m[0] == p <==>
            |m| == 6 && m == PairMarks(p, m[3]) && PairAt(text, c, p, m[3])
  {
    var q := Doubled(c);
    if Parses(q, text, m) && m[0] == p {
      assert Accepts(q, text, m, 0) && Accepts(q, text, m, 1) && Accepts(q, text, m, 2);
      assert Accepts(q, text, m, 3) && Accepts(q, text, m, 4);
    }
    if |m| == 6 && m == PairMarks(p, m[3]) && PairAt(text, c, p, m[3]) {
      assert Accepts(q, text, m, 0) && Accepts(q, text, m, 1) && Accepts(q, text, m, 2);
      assert Accepts(q, text, m, 3) && Accepts(q, text, m, 4);
    }
  }

  /** Lazy repetition finds the shortest content. */
  lemma {:induction false} DoubledScanned(text: string, c: char, p: nat, m: seq<nat>)
    requires p <= |text|
    ensures MatchAt(Doubled(c), text, p) == Some(m) <==>
            |m| == 6 && m == PairMarks(p, m[3]) && ShortestPairAt(text, c, p, m[3])
  {
    hide MatchAt, Parses, PairAt;
    var q := Doubled(c);
    MatchIsPreferred(q, text, p);
    PairParses(text, c, p, m);
    if MatchAt(q, text, p).Some? {
      var r := MatchAt(q, text, p).value;
      PairParses(text, c, p, r);
      forall s: nat | PairAt(text, c, p, s) ensures r[3] <= s {
        PairParses(text, c, p, PairMarks(p, s));
        PreferredIsShorter(q, r, PairMarks(p, s), p);
      }
    }
  }

  lemma {:induction false} PreferredIsShorter(q: Pattern, r: seq<nat>, m: seq<nat>, p: nat)
    requires |q| == 5 && q[2].Rep? && !q[2].greedy && (r == m || Preferred(q, r, m))
    requires |r| == 6 && r == PairMarks(p, r[3]) && |m| == 6 && m == PairMarks(p, m[3])
    ensures r[3] <= m[3]
  {
    if r != m {
      var k: nat :| DiffersFirst(q, r, m, k);
    }
  }

  // ---------------------------------------------------------------- the alternatives together

  /** What the k-th alternative matches. */
  predicate IsAlternative(text: string, t: Token, k: nat) {
    var p, a, b, e := t.at, t.inner, t.innerEnd, t.end;
    if k == 0 then t.style == Code && CodeAt(text, p, a, b, e)
    else if k in {1, 2, 5} then
      && t.style == (if k == 5 then Deleted else Strong) && a == p + 2 && e == b + 2
      && ShortestPairAt(text, if k == 1 then '*' else if k == 2 then '_' else '~', p, b)
    else if k in {3, 4} then
      t.style == Emphasis && a == p + 1 && e == b + 1 && SingleAt(text, if k == 3 then '*' else '_', p, b)
    else if k == 6 then t.style == Link && a == p + 1 && LinkAt(text, p, b, e)
    else t.style == Escape && a == p + 1 && b == p + 2 == e && EscapeAt(text, p)
  }

  function TokenOf(text: string, p: nat, k: nat): Option<Token>
    requires p <= |text| && k < |Alternatives|
  {
    var a := Alternatives[k];
    var m := MatchAt(a.pattern, text, p);
    if m.None? then None
    else
      MatchBounds(text, p, k);
      Some(Token(a.style, p, m.value[a.opens], m.value[a.opens + 1], m.value[|a.pattern|]))
  }

  lemma {:induction false} AlternativeScanned(text: string, k: nat, t: Token)
    requires t.at <= |text| && k < |Alternatives|
    ensures TokenOf(text, t.at, k) == Some(t) <==> IsAlternative(text, t, k)
  {
    hide MatchAt, CodeAt, ShortestPairAt, SingleAt, LinkAt, EscapeAt;
    if TokenOf(text, t.at, k).Some? {
      AlternativeMarks(text, t.at, k, MatchAt(Alternatives[k].pattern, text, t.at).value);
    }
    if IsAlternative(text, t, k) {
      TokenEnds(text, t, k);
      AlternativeMarks(text, t.at, k, MarksOf(t, k));
    }
  }

  /** The marks of a token of the k-th alternative. */
  function MarksOf(t: Token, k: nat): seq<nat> {
    var p, b := t.at, t.innerEnd;
    if k == 0 then [p, t.inner, b, t.end]
    else if k in {1, 2, 5} then PairMarks(p, b)
    else if k in {3, 4} then [p, p + 1, b, b + 1]
    else if k == 6 then [p, p + 1, b, b + 1, b + 2, if t.end == 0 then 0 else t.end - 1, t.end]
    else [p, p + 1, p + 2]
  }

  lemma {:induction false} TokenEnds(text: string, t: Token, k: nat)
    requires IsAlternative(text, t, k)
    ensures t.end > 0
  {
  }

  /** The marks with which the k-th alternative matches. */
  predicate AreMarks(text: string, p: nat, k: nat, m: seq<nat>) {
    if k == 0 then |m| == 4 && m[0] == p && CodeAt(text, p, m[1], m[2], m[3])
    else if k in {1, 2, 5} then
      && |m| == 6 && m == PairMarks(p, m[3])
      && ShortestPairAt(text, if k == 1 then '*' else if k == 2 then '_' else '~', p, m[3])
    else if k in {3, 4} then
      && |m| == 4 && m[0] == p && m[1] == p + 1 && m[3] == m[2] + 1
      && SingleAt(text, if k == 3 then '*' else '_', p, m[2])
    else if k == 6 then
      && |m| == 7 && m[0] == p && m[1] == p + 1 && m[3] == m[2] + 1 && m[4] == m[2] + 2 && m[6] == m[5] + 1
      && LinkAt(text, p, m[2], m[6])
    else |m| == 3 && m[0] == p && m[1] == p + 1 && m[2] == p + 2 && EscapeAt(text, p)
  }

  lemma {:induction false} AlternativeMarks(text: string, p: nat, k: nat, m: seq<nat>)
    requires p <= |text| && k < |Alternatives|
    ensures MatchAt(Alternatives[k].pattern, text, p) == Some(m) <==> AreMarks(text, p, k, m)
  {
    hide MatchAt, CodeAt, ShortestPairAt, SingleAt, LinkAt, EscapeAt, PairMarks;
    TickedScanned(text, p, m);
    DoubledScanned(text, '*', p, m);
    DoubledScanned(text, '_', p, m);
    DoubledScanned(text, '~', p, m);
    SingleScanned(text, '*', p, m);
    SingleScanned(text, '_', p, m);
    LinkedScanned(text, p, m);
    EscapeScanned(text, p, m);
  }

  /** The first alternative from k on that matches, if any does. */
  lemma {:induction false} FirstAlternative(text: string, p: nat, k: nat, n: nat)
    requires p <= |text| && k <= n <= |Alternatives| && forall j | k <= j < n :: TokenOf(text, p, j).None?
    ensures TokenAt(text, p, k) == if n == |Alternatives| then None
                                   else if TokenOf(text, p, n).Some? then TokenOf(text, p, n)
                                   else TokenAt(text, p, n + 1)
    decreases n - k
  {
    hide MatchAt;
    if k < n {
      FirstAlternative(text, p, k + 1, n);
      assert TokenOf(text, p, k).None?;
    }
  }

  /** The marks that the alternatives start with. */
  function MarkOf(k: nat): char {
    if k == 0 then '`' else if k in {1, 3} then '*' else if k in {2, 4} then '_' else if k == 5 then '~'
    else if k == 6 then '[' else '\\'
  }

  lemma {:induction false} StartsWithMark(text: string, t: Token, k: nat)
    requires k < |Alternatives| && IsAlternative(text, t, k)
    ensures t.at < |text| && text[t.at] == MarkOf(k)
  {
  }

  lemma {:induction false} OtherMark(text: string, p: nat, k: nat)
    requires p <= |text| && k < |Alternatives| && (p < |text| ==> text[p] != MarkOf(k))
    ensures TokenOf(text, p, k).None?
  {
    hide TokenOf, IsAlternative;
    if TokenOf(text, p, k).Some? {
      var t := TokenOf(text, p, k).value;
      TokenStartsAt(text, p, k);
      AlternativeScanned(text, k, t);
      StartsWithMark(text, t, k);
    }
  }

  lemma {:induction false} TokenStartsAt(text: string, p: nat, k: nat)
    requires p <= |text| && k < |Alternatives| && TokenOf(text, p, k).Some?
    ensures TokenOf(text, p, k).value.at == p
  {
  }

  lemma {:induction false} FirstMatch(text: string, p: nat, k: nat) returns (n: nat)
    requires p <= |text| && k <= |Alternatives| && TokenAt(text, p, k).Some?
    ensures k <= n < |Alternatives| && TokenOf(text, p, n) == TokenAt(text, p, k)
    ensures forall j: nat | k <= j < n :: TokenOf(text, p, j).None?
    decreases |Alternatives| - k
  {
    hide MatchAt;
    if TokenOf(text, p, k).Some? { n := k; } else { n := FirstMatch(text, p, k + 1); }
  }

  /** Where the doubled mark does not match there is none. */
  lemma {:induction false} NoPair(text: string, p: nat, k: nat)
    requires k in {1, 2} && p <= |text| && TokenOf(text, p, k).None?
    ensures NoPairAt(text, MarkOf(k), p)
  {
    hide TokenOf, PairAt;
    if s: nat :| s < |text| && PairAt(text, MarkOf(k), p, s) {
      var b := ShortestPair(text, MarkOf(k), p, s);
      AlternativeScanned(text, k, Token(Strong, p, p + 2, b, b + 2));
    }
  }

  lemma {:induction false} ShortestPair(text: string, c: char, p: nat, s: nat) returns (b: nat)
    requires PairAt(text, c, p, s)
    ensures ShortestPairAt(text, c, p, b)
    decreases s
  {
    hide PairAt;
    if n: nat :| n < s && PairAt(text, c, p, n) { b := ShortestPair(text, c, p, n); } else { b := s; }
  }

  lemma {:induction false} FirstIsToken(text: string, t: Token, n: nat)
    requires n < |Alternatives| && IsAlternative(text, t, n)
    requires n in {3, 4} ==> NoPairAt(text, MarkOf(n), t.at)
    ensures IsToken(text, t)
  {
    hide CodeAt, ShortestPairAt, SingleAt, LinkAt, EscapeAt, NoPairAt;
  }

  lemma {:induction false} TokenIndex(text: string, t: Token) returns (n: nat)
    requires IsToken(text, t)
    ensures n < |Alternatives| && IsAlternative(text, t, n) && t.at < |text| && text[t.at] == MarkOf(n)
    ensures n in {3, 4} ==> NoPairAt(text, MarkOf(n), t.at)
  {
    n := match t.style
         case Code => 0
         case Strong => if ShortestPairAt(text, '*', t.at, t.innerEnd) then 1 else 2
         case Emphasis => if LoneAt(text, '*', t.at, t.innerEnd) then 3 else 4
         case Deleted => 5
         case Link => 6
         case Escape => 7;
  }

  lemma {:induction false} PairOfToken(text: string, p: nat, k: nat)
    requires k in {1, 2} && p <= |text| && TokenOf(text, p, k).Some?
    ensures exists s: nat :: s < |text| && PairAt(text, MarkOf(k), p, s)
  {
    hide TokenOf;
    var t := TokenOf(text, p, k).value;
    TokenStartsAt(text, p, k);
    AlternativeScanned(text, k, t);
    assert PairAt(text, MarkOf(k), p, t.innerEnd);
  }

  lemma {:induction false} PairIsAbsent(text: string, p: nat, k: nat)
    requires k in {1, 2} && p <= |text| && NoPairAt(text, MarkOf(k), p)
    ensures TokenOf(text, p, k).None?
  {
    hide TokenOf;
    if TokenOf(text, p, k).Some? { PairOfToken(text, p, k); }
  }

  /** What matches at a position, over the characters from there on. */
  lemma {:induction false} TokenScanned(text: string, t: Token)
    requires t.at <= |text|
    ensures TokenAt(text, t.at, 0) == Some(t) <==> IsToken(text, t)
  {
    hide TokenAt, TokenOf, IsToken, IsAlternative;
    if TokenAt(text, t.at, 0) == Some(t) {
      var n := FirstMatch(text, t.at, 0);
      AlternativeScanned(text, n, t);
      if n in {3, 4} {
        NoPair(text, t.at, n - 2);
        assert MarkOf(n) == MarkOf(n - 2);
      }
      FirstIsToken(text, t, n);
    }
    if IsToken(text, t) {
      var n := TokenIndex(text, t);
      AlternativeScanned(text, n, t);
      forall j: nat | j < n ensures TokenOf(text, t.at, j).None? {
        if MarkOf(j) != MarkOf(n) { OtherMark(text, t.at, j); } else { PairIsAbsent(text, t.at, j); }
      }
      FirstAlternative(text, t.at, 0, n);
    }
  }

  // ---------------------------------------------------------------- link targets

  function Lower(c: char): char { if 'A' <= c <= 'Z' then (c as int + 32) as char else c }

  /** The text starts with the word, in capitals or not. */
  predicate StartsWith(text: string, word: string) {
    |word| <= |text| && forall k | 0 <= k < |word| :: Lower(text[k]) == word[k]
  }

  /** Only web and mail addresses are accepted. */
  lemma {:induction false} TargetScanned(target: string)
    ensures AcceptedTarget(target) <==>
            StartsWith(target, "http://") || StartsWith(target, "https://") || StartsWith(target, "mailto:")
  {
    hide Matches, StartsWith;
    WebScanned(target);
    WordScanned("mailto:", target);
  }

  /** A word of small letters and punctuation. */
  predicate IsWord(w: string) { forall k | 0 <= k < |w| :: 'a' <= w[k] <= 'z' || w[k] in {':', '/'} }

  lemma {:induction false} AnyCaseHas(c: char, d: char)
    requires 'a' <= c <= 'z' || c in {':', '/'}
    ensures AnyCase(c).cls.Has(d) <==> Lower(d) == c
  {
  }

  /** The marks of a match character by character. */
  function Steps(n: nat): seq<nat> { seq(n + 1, i => i) }

  lemma {:induction false} WordScanned(w: string, text: string)
    requires IsWord(w)
    ensures Matches(Word(w), text) <==> StartsWith(text, w)
  {
    hide MatchAt, AnyCase;
    var p := Word(w);
    MatchIsPreferred(p, text, 0);
    if Matches(p, text) {
      var m := MatchAt(p, text, 0).value;
      WordSteps(w, text, m, |w|);
      forall k | 0 <= k < |w| ensures k < |text| && Lower(text[k]) == w[k] {
        WordSteps(w, text, m, k + 1);
        assert Accepts(p, text, m, k);
        LetterAccepts(p, text, m, k, w[k]);
      }
    }
    if StartsWith(text, w) {
      forall k | 0 <= k < |w| ensures Accepts(p, text, Steps(|w|), k) { LetterFits(p, text, Steps(|w|), k, w[k]); }
      assert Parses(p, text, Steps(|w|));
    }
  }

  lemma {:induction false} LetterAccepts(p: Pattern, text: string, m: seq<nat>, k: nat, c: char)
    requires k < |p| && k + 1 < |m| && p[k] == AnyCase(c) && ('a' <= c <= 'z' || c in {':', '/'})
    requires Accepts(p, text, m, k)
    ensures m[k + 1] == m[k] + 1 <= |text| && Lower(text[m[k]]) == c
  {
    AnyCaseHas(c, text[m[k]]);
  }

  lemma {:induction false} LetterFits(p: Pattern, text: string, m: seq<nat>, k: nat, c: char)
    requires k < |p| && k + 1 < |m| && p[k] == AnyCase(c) && ('a' <= c <= 'z' || c in {':', '/'})
    requires m[k + 1] == m[k] + 1 <= |text| && Lower(text[m[k]]) == c
    ensures Accepts(p, text, m, k)
  {
    AnyCaseHas(c, text[m[k]]);
  }

  lemma {:induction false} WordSteps(w: string, text: string, m: seq<nat>, k: nat)
    requires IsWord(w) && Parses(Word(w), text, m) && m[0] == 0 && k <= |w|
    ensures m[k] == k <= |text|
    decreases k
  {
    hide AnyCase, Accepts;
    if k > 0 {
      WordSteps(w, text, m, k - 1);
      assert Accepts(Word(w), text, m, k - 1);
      LetterAccepts(Word(w), text, m, k - 1, w[k - 1]);
    }
  }

  const WEB: Pattern := Word("http") + [Rep(Only({'s', 'S'}), 0, Some(1), true)] + Word("://")

  lemma {:induction false} WebItem(k: nat)
    requires k < 8
    ensures |WEB| == 8
    ensures k < 4 ==> WEB[k] == AnyCase("http"[k])
    ensures k == 4 ==> WEB[k] == Rep(Only({'s', 'S'}), 0, Some(1), true)
    ensures k > 4 ==> WEB[k] == AnyCase("://"[k - 5])
  {
    hide AnyCase;
  }

  lemma {:induction false} WebScanned(target: string)
    ensures Matches(WEB, target) <==> StartsWith(target, "http://") || StartsWith(target, "https://")
  {
    hide MatchAt, WEB;
    WebItem(0);
    MatchIsPreferred(WEB, target, 0);
    if Matches(WEB, target) { WebNeeds(target, MatchAt(WEB, target, 0).value); }
    if StartsWith(target, "http://") {
      WebFits(target, [0, 1, 2, 3, 4, 4, 5, 6, 7]);
    } else if StartsWith(target, "https://") {
      WebFits(target, [0, 1, 2, 3, 4, 5, 6, 7, 8]);
    }
  }

  lemma {:induction false} WebNeeds(target: string, m: seq<nat>)
    requires Parses(WEB, target, m) && |WEB| == 8 && m[0] == 0
    ensures StartsWith(target, "http://") || StartsWith(target, "https://")
  {
    hide AnyCase, Accepts, WEB;
    WebLetters(target, m);
    SecureMark(target, m);
    if m[5] == 4 {
      assert m[7] == 6;
      forall k | 0 <= k < 7 ensures k < |target| && Lower(target[k]) == "http://"[k] {
        if k >= 4 { assert m[k + 1] == k && "http://"[k] == "://"[k - 4]; }
      }
    } else {
      assert m[7] == 7;
      forall k | 0 <= k < 8 ensures k < |target| && Lower(target[k]) == "https://"[k] {
        if k >= 5 { assert m[k] == k && "https://"[k] == "://"[k - 5]; }
      }
    }
  }

  lemma {:induction false} SecureMark(target: string, m: seq<nat>)
    requires Parses(WEB, target, m) && |WEB| == 8
    ensures m[4] <= m[5] <= m[4] + 1 && m[5] <= |target| && (m[5] == m[4] + 1 ==> Lower(target[m[4]]) == 's')
  {
    hide AnyCase, WEB;
    WebItem(4);
    assert Accepts(WEB, target, m, 4);
  }

  lemma {:induction false} WebLetters(target: string, m: seq<nat>)
    requires Parses(WEB, target, m) && |WEB| == 8 && m[0] == 0
    ensures forall k | 0 <= k < 4 :: m[k] == k < |target| && Lower(target[k]) == "http"[k]
    ensures m[4] == 4
    ensures forall k | 5 <= k < 8 :: m[k] < |target| && m[k] == m[5] + k - 5 && Lower(target[m[k]]) == "://"[k - 5]
  {
    hide AnyCase, Accepts, WEB;
    WebLetter(target, m, 0);
    WebLetter(target, m, 1);
    WebLetter(target, m, 2);
    WebLetter(target, m, 3);
    WebLetter(target, m, 5);
    WebLetter(target, m, 6);
    WebLetter(target, m, 7);
  }

  lemma {:induction false} WebLetter(target: string, m: seq<nat>, k: nat)
    requires Parses(WEB, target, m) && |WEB| == 8 && k < 8 && k != 4
    ensures m[k + 1] == m[k] + 1 <= |target|
    ensures Lower(target[m[k]]) == if k < 4 then "http"[k] else "://"[k - 5]
  {
    hide AnyCase, WEB;
    WebItem(k);
    assert Accepts(WEB, target, m, k);
    LetterAccepts(WEB, target, m, k, if k < 4 then "http"[k] else "://"[k - 5]);
  }

  lemma {:induction false} WebFits(target: string, m: seq<nat>)
    requires || (m == [0, 1, 2, 3, 4, 4, 5, 6, 7] && StartsWith(target, "http://"))
             || (m == [0, 1, 2, 3, 4, 5, 6, 7, 8] && StartsWith(target, "https://"))
    ensures |WEB| == 8 && Parses(WEB, target, m)
  {
    hide AnyCase, WEB, Accepts;
    WebItem(0);
    forall k: nat | k < 8 ensures Accepts(WEB, target, m, k) {
      WebItem(k);
      if k != 4 {
        LetterFits(WEB, target, m, k, if k < 4 then "http"[k] else "://"[k - 5]);
      } else {
        SecureFits(target, m);
      }
    }
  }

  lemma {:induction false} SecureFits(target: string, m: seq<nat>)
    requires |WEB| == 8 && |m| == 9 && m[4] <= m[5] <= m[4] + 1 && m[5] <= |target|
    requires m[5] == m[4] + 1 ==> Lower(target[m[4]]) == 's'
    ensures Accepts(WEB, target, m, 4)
  {
    hide AnyCase, WEB;
    WebItem(4);
  }
}
