/** The fragment of JavaScript regular expressions that the Markdown renderer uses: a pattern is a
    sequence of items, each a repeated character class, a back-reference or the end anchor, and
    matching backtracks over the repetitions in the order ECMAScript prescribes (section 22.2.2 of
    ECMA-262). A match is given by its marks: item k matched the text between marks k and k + 1. */
module Regex {
  import opened Options

  datatype Class =
    | Only(chars: set<char>) | Except(chars: set<char>) | Space | NonSpaceExcept(chars: set<char>) | Digit
  {
    predicate Has(c: char) {
      match this
      case Only(cs) => c in cs
      case Except(cs) => c !in cs
      case Space => IsSpace(c)
      case NonSpaceExcept(cs) => !IsSpace(c) && c !in cs
      case Digit => '0' <= c <= '9'
    }
  }

  /** A greedy repetition prefers the longest run, a lazy one the shortest. */
  datatype Item =
    | Rep(cls: Class, min: nat, max: Option<nat>, greedy: bool)
    | Ref(group: nat)
    | End

  type Pattern = seq<Item>

  /** White space and line terminators, the class that \s and trim() share. */
  predicate IsSpace(c: char) {
    || '\U{0009}' <= c <= '\U{000D}' || c == ' ' || c == '\U{00A0}' || c == '\U{1680}'
    || '\U{2000}' <= c <= '\U{200A}' || c == '\U{2028}' || c == '\U{2029}' || c == '\U{202F}'
    || c == '\U{205F}' || c == '\U{3000}' || c == '\U{FEFF}'
  }

  /** White space one by one: tabs, line and page ends, the spaces of the Unicode category Zs, the two
      separators, and the byte order mark. */
  lemma {:induction false} SpacesListed(c: char)
    ensures IsSpace(c) <==>
            c in {'\U{0009}', '\U{000A}', '\U{000B}', '\U{000C}', '\U{000D}', '\U{0020}', '\U{00A0}', '\U{1680}',
                  '\U{2000}', '\U{2001}', '\U{2002}', '\U{2003}', '\U{2004}', '\U{2005}', '\U{2006}', '\U{2007}',
                  '\U{2008}', '\U{2009}', '\U{200A}', '\U{2028}', '\U{2029}', '\U{202F}', '\U{205F}', '\U{3000}',
                  '\U{FEFF}'}
  {
  }

  lemma {:induction false} DigitsListed(c: char)
    ensures Digit.Has(c) <==> c in {'0', '1', '2', '3', '4', '5', '6', '7', '8', '9'}
  {
  }

  const AnyChar := Except({'\n', '\r', '\U{2028}', '\U{2029}'})

  function One(cls: Class): Item { Rep(cls, 1, Some(1), true) }
  function Lit(c: char): Item { One(Only({c})) }
  function Star(cls: Class): Item { Rep(cls, 0, None, true) }
  function Plus(cls: Class): Item { Rep(cls, 1, None, true) }
  function LazyPlus(cls: Class): Item { Rep(cls, 1, None, false) }
  function AtLeast(n: nat, cls: Class): Item { Rep(cls, n, None, true) }
  function Maybe(c: char): Item { Rep(Only({c}), 0, Some(1), true) }

  /** Item k of the pattern accepts the text between its two marks. */
  predicate Accepts(items: Pattern, s: string, marks: seq<nat>, k: nat)
    requires k < |items| && k + 1 < |marks|
  {
    var a, b := marks[k], marks[k + 1];
    && a <= b <= |s|
    && match items[k] {
         case Rep(cls, min, max, _) =>
           min <= b - a && (max.Some? ==> b - a <= max.value) && forall j | a <= j < b :: cls.Has(s[j])
         case Ref(g) =>
           g < k && marks[g] <= marks[g + 1] <= |s| && s[a..b] == s[marks[g]..marks[g + 1]]
         case End => a == b == |s|
       }
  }

  predicate Within(marks: seq<nat>, s: string) { forall k | 0 <= k < |marks| :: marks[k] <= |s| }

  /** The marks parse the text: every item accepts its part. */
  ghost predicate Parses(items: Pattern, s: string, marks: seq<nat>) {
    |marks| == |items| + 1 && marks[0] <= |s| && forall k | 0 <= k < |items| :: Accepts(items, s, marks, k)
  }

  /** The position where a run of the class from p ends, at most max characters on. */
  function RunEnd(cls: Class, s: string, p: nat, max: Option<nat>): (e: nat)
    requires p <= |s|
    ensures p <= e <= |s| && (max.Some? ==> e - p <= max.value)
    ensures forall j | p <= j < e :: cls.Has(s[j])
    ensures e < |s| && (max.Some? ==> e - p < max.value) ==> !cls.Has(s[e])
    decreases |s| - p
  {
    if p < |s| && max != Some(0) && cls.Has(s[p])
    then RunEnd(cls, s, p + 1, if max.Some? then Some(max.value - 1) else None)
    else p
  }

  /** The only end that a back-reference or an anchor can have. */
  function FixedEnd(items: Pattern, s: string, marks: seq<nat>): (e: Option<nat>)
    requires 1 <= |marks| <= |items| && Within(marks, s) && !items[|marks| - 1].Rep?
    ensures e.Some? ==> marks[|marks| - 1] <= e.value <= |s|
  {
    var i := |marks| - 1;
    var p := marks[i];
    match items[i]
    case Ref(g) =>
      if g < i && marks[g] <= marks[g + 1] then
        var e := p + marks[g + 1] - marks[g];
        if e <= |s| && s[p..e] == s[marks[g]..marks[g + 1]] then Some(e) else None
      else None
    case End => if p == |s| then Some(p) else None
  }

  /** Extends the marks item by item; the first completion in the order of preference wins. */
  function Search(items: Pattern, s: string, marks: seq<nat>): (r: Option<seq<nat>>)
    requires 1 <= |marks| <= |items| + 1 && Within(marks, s)
    decreases |items| + 1 - |marks|, 1, 0
  {
    var i := |marks| - 1;
    var p := marks[i];
    if i == |items| then Some(marks)
    else match items[i] {
      case Rep(cls, min, max, greedy) =>
        var hi := RunEnd(cls, s, p, max);
        if p + min <= hi then Try(items, s, marks, p + min, hi, greedy) else None
      case _ =>
        var e := FixedEnd(items, s, marks);
        if e.Some? then Search(items, s, marks + [e.value]) else None
    }
  }

  /** Tries the ends lo..hi of a repetition, from the preferred side. */
  function Try(items: Pattern, s: string, marks: seq<nat>, lo: nat, hi: nat, greedy: bool): (r: Option<seq<nat>>)
    requires 1 <= |marks| <= |items| && Within(marks, s)
    requires lo <= hi <= |s|
    decreases |items| + 1 - |marks|, 0, hi - lo
  {
    var r := Search(items, s, marks + [if greedy then hi else lo]);
    if r.Some? || lo == hi then r
    else if greedy then Try(items, s, marks, lo, hi - 1, greedy)
    else Try(items, s, marks, lo + 1, hi, greedy)
  }

  /** The match of the pattern that starts at p. */
  function MatchAt(items: Pattern, s: string, p: nat): (r: Option<seq<nat>>)
    requires p <= |s|
  {
    Search(items, s, [p])
  }

  /** A pattern anchored at the start of the text. */
  predicate Matches(items: Pattern, s: string) { MatchAt(items, s, 0).Some? }

  /** a is chosen before b: where they first differ, a has the longer greedy or the shorter lazy run. */
  ghost predicate Preferred(items: Pattern, a: seq<nat>, b: seq<nat>) {
    exists k :: DiffersFirst(items, a, b, k)
  }

  predicate DiffersFirst(items: Pattern, a: seq<nat>, b: seq<nat>, k: nat) {
    && 0 < k <= |items| && k < |a| && k < |b|
    && a[..k] == b[..k] && items[k - 1].Rep?
    && if items[k - 1].greedy then a[k] > b[k] else a[k] < b[k]
  }

  lemma {:induction false} MarksAscend(items: Pattern, s: string, marks: seq<nat>, i: nat, j: nat)
    requires Parses(items, s, marks) && i <= j <= |items|
    ensures marks[i] <= marks[j] <= |s|
    decreases j
  {
    if j > 0 {
      assert Accepts(items, s, marks, j - 1);
      if i < j { MarksAscend(items, s, marks, i, j - 1); }
    }
  }

  // The items left of the last mark have all been accepted.
  ghost predicate Partial(items: Pattern, s: string, marks: seq<nat>) {
    && 1 <= |marks| <= |items| + 1 && Within(marks, s)
    && forall k | 0 <= k < |marks| - 1 :: Accepts(items, s, marks, k)
  }

  lemma {:induction false} PartialExtends(items: Pattern, s: string, marks: seq<nat>, e: nat)
    requires Partial(items, s, marks) && |marks| <= |items| && e <= |s|
    requires Accepts(items, s, marks + [e], |marks| - 1)
    ensures Partial(items, s, marks + [e])
  {
    var more := marks + [e];
    forall k | 0 <= k < |more| - 1 ensures Accepts(items, s, more, k) {
      if k < |marks| - 1 { assert Accepts(items, s, marks, k); }
    }
  }

  lemma {:induction false} SearchSound(items: Pattern, s: string, marks: seq<nat>)
    requires Partial(items, s, marks)
    ensures Search(items, s, marks).Some? ==>
              Parses(items, s, Search(items, s, marks).value) && marks <= Search(items, s, marks).value
    decreases |items| + 1 - |marks|, 1, 0
  {
    var i := |marks| - 1;
    var p := marks[i];
    if i < |items| && Search(items, s, marks).Some? {
      match items[i]
      case Rep(cls, min, max, greedy) => TrySound(items, s, marks, p + min, RunEnd(cls, s, p, max), greedy);
      case _ =>
        var e := FixedEnd(items, s, marks).value;
        FixedEndAccepts(items, s, marks, e);
        PartialExtends(items, s, marks, e);
        SearchSound(items, s, marks + [e]);
    }
  }

  lemma {:induction false} TrySound(items: Pattern, s: string, marks: seq<nat>, lo: nat, hi: nat, greedy: bool)
    requires Partial(items, s, marks) && |marks| <= |items| && lo <= hi <= |s|
    requires forall e | lo <= e <= hi :: Accepts(items, s, marks + [e], |marks| - 1)
    ensures Try(items, s, marks, lo, hi, greedy).Some? ==>
              var r := Try(items, s, marks, lo, hi, greedy).value;
              Parses(items, s, r) && marks <= r
    decreases |items| + 1 - |marks|, 0, hi - lo
  {
    var e := if greedy then hi else lo;
    PartialExtends(items, s, marks, e);
    SearchSound(items, s, marks + [e]);
    if Search(items, s, marks + [e]).None? && lo < hi {
      if greedy {
        TrySound(items, s, marks, lo, hi - 1, greedy);
      } else {
        TrySound(items, s, marks, lo + 1, hi, greedy);
      }
    }
  }

  /** Backtracking misses no parse, and returns the preferred one. */
  lemma {:induction false} SearchComplete(items: Pattern, s: string, marks: seq<nat>, other: seq<nat>)
    requires Partial(items, s, marks) && Parses(items, s, other) && marks <= other
    ensures Search(items, s, marks).Some?
    ensures var r := Search(items, s, marks).value; r == other || Preferred(items, r, other)
    decreases |items| + 1 - |marks|, 1, 0
  {
    hide Accepts, RunEnd, Try, DiffersFirst;
    var i := |marks| - 1;
    if i == |items| {
      assert marks == other;
    } else if items[i].Rep? {
      RunCovers(items, s, marks, other);
      TryComplete(items, s, marks, marks[i] + items[i].min, RunEnd(items[i].cls, s, marks[i], items[i].max), other);
    } else {
      FixedCovers(items, s, marks, other);
      PartialExtends(items, s, marks, other[i + 1]);
      SearchComplete(items, s, marks + [other[i + 1]], other);
    }
  }

  // The ends that a repetition tries are those it accepts, and the other parse's end is among them.
  lemma {:induction false} RunCovers(items: Pattern, s: string, marks: seq<nat>, other: seq<nat>)
    requires Partial(items, s, marks) && Parses(items, s, other) && marks <= other && |marks| <= |items|
             && items[|marks| - 1].Rep?
    ensures var i := |marks| - 1;
            var lo, hi := marks[i] + items[i].min, RunEnd(items[i].cls, s, marks[i], items[i].max);
            lo <= other[i + 1] <= hi && forall e | lo <= e <= hi :: Accepts(items, s, marks + [e], i)
  {
    assert Accepts(items, s, other, |marks| - 1);
  }

  // A back-reference or an anchor leaves no choice.
  lemma {:induction false} FixedCovers(items: Pattern, s: string, marks: seq<nat>, other: seq<nat>)
    requires Partial(items, s, marks) && Parses(items, s, other) && marks <= other && |marks| <= |items|
             && !items[|marks| - 1].Rep?
    ensures var e := other[|marks|];
            && e <= |s| && Accepts(items, s, marks + [e], |marks| - 1) && marks + [e] <= other
            && Search(items, s, marks) == Search(items, s, marks + [e])
  {
    hide Search;
    FixedAccepts(items, s, marks, other);
    FixedSearch(items, s, marks, other[|marks|]);
  }

  lemma {:induction false} FixedAccepts(items: Pattern, s: string, marks: seq<nat>, other: seq<nat>)
    requires Parses(items, s, other) && 1 <= |marks| <= |items| && marks <= other
    ensures var e := other[|marks|]; e <= |s| && Accepts(items, s, marks + [e], |marks| - 1) && marks + [e] <= other
  {
    assert Accepts(items, s, other, |marks| - 1);
    assert marks + [other[|marks|]] == other[..|marks| + 1];
  }

  lemma {:induction false} FixedSearch(items: Pattern, s: string, marks: seq<nat>, e: nat)
    requires 1 <= |marks| <= |items| && Within(marks, s) && e <= |s| && !items[|marks| - 1].Rep?
    requires Accepts(items, s, marks + [e], |marks| - 1)
    ensures Search(items, s, marks) == Search(items, s, marks + [e])
  {
    FixedEndAccepts(items, s, marks, e);
    hide Try, RunEnd, FixedEnd, Accepts;
  }

  /** The fixed end is the one end that the item accepts. */
  lemma {:induction false} FixedEndAccepts(items: Pattern, s: string, marks: seq<nat>, e: nat)
    requires 1 <= |marks| <= |items| && Within(marks, s) && e <= |s| && !items[|marks| - 1].Rep?
    ensures Accepts(items, s, marks + [e], |marks| - 1) <==> FixedEnd(items, s, marks) == Some(e)
  {
    var i := |marks| - 1;
    if items[i].Ref? && items[i].group < i && marks[i] <= e {
      var g := items[i].group;
      assert |s[marks[i]..e]| == e - marks[i];
      assert marks[g] <= marks[g + 1] ==> |s[marks[g]..marks[g + 1]]| == marks[g + 1] - marks[g];
    }
  }

  lemma {:induction false} TryComplete(items: Pattern, s: string, marks: seq<nat>, lo: nat, hi: nat, other: seq<nat>)
    requires Partial(items, s, marks) && |marks| <= |items| && items[|marks| - 1].Rep?
    requires Parses(items, s, other) && marks <= other
    requires lo <= other[|marks|] <= hi <= |s|
    requires forall e | lo <= e <= hi :: Accepts(items, s, marks + [e], |marks| - 1)
    ensures var r := Try(items, s, marks, lo, hi, items[|marks| - 1].greedy);
            r.Some? && (r.value == other || Preferred(items, r.value, other))
    decreases |items| + 1 - |marks|, 0, hi - lo
  {
    var n, greedy := |marks|, items[|marks| - 1].greedy;
    var e := if greedy then hi else lo;
    PartialExtends(items, s, marks, e);
    if e == other[n] {
      assert marks + [e] == other[..n + 1];
      SearchComplete(items, s, marks + [e], other);
    } else {
      SearchSound(items, s, marks + [e]);
      var r := Search(items, s, marks + [e]);
      if r.Some? {
        assert r.value[n] == e && r.value[..n] == marks == other[..n];
        assert DiffersFirst(items, r.value, other, n);
      } else if greedy {
        TryComplete(items, s, marks, lo, hi - 1, other);
      } else {
        TryComplete(items, s, marks, lo + 1, hi, other);
      }
    }
  }

  /** What a match of the pattern at p is: the preferred parse among all that start at p, if any does. */
  lemma {:induction false} MatchIsPreferred(items: Pattern, s: string, p: nat)
    requires p <= |s|
    ensures MatchAt(items, s, p).Some? <==> exists m: seq<nat> :: Parses(items, s, m) && m[0] == p
    ensures MatchAt(items, s, p).Some? ==> Parses(items, s, MatchAt(items, s, p).value)
                                           && MatchAt(items, s, p).value[0] == p
    ensures MatchAt(items, s, p).Some? ==>
              forall m: seq<nat> | Parses(items, s, m) && m[0] == p ::
                m == MatchAt(items, s, p).value || Preferred(items, MatchAt(items, s, p).value, m)
  {
    SearchSound(items, s, [p]);
    forall m: seq<nat> | Parses(items, s, m) && m[0] == p
      ensures MatchAt(items, s, p).Some?
      ensures m == MatchAt(items, s, p).value || Preferred(items, MatchAt(items, s, p).value, m)
    {
      assert [p] <= m;
      SearchComplete(items, s, [p], m);
    }
  }
}
