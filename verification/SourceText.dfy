/** Text that remembers where in the source document it came from. A string is a sequence of UTF-16
    code units; a surrogate code unit, which no scanner tells from any other ordinary character, is
    represented by a character above U+FFFF, so an index here is a UTF-16 offset. */
module SourceText {
  import opened Options
  import opened Regex

  /** A piece of text and its offset in the source; what the renderer is called with. */
  datatype SourceLine = SourceLine(text: string, start: nat) {
    function End(): nat { start + |text| }

    function Cut(from: nat, to: nat): SourceLine
      requires from <= to <= |text|
    {
      SourceLine(text[from..to], start + from)
    }
  }

  predicate SliceOf(source: string, l: SourceLine) {
    l.End() <= |source| && source[l.start..l.End()] == l.text
  }

  /** Every fragment is the slice of the source at its offset, and the fragments run from left to
      right without overlap inside [lo, hi]. */
  ghost predicate Mapped(source: string, ls: seq<SourceLine>, lo: nat, hi: nat) {
    if ls == [] then lo <= hi
    else lo <= ls[0].start && SliceOf(source, ls[0]) && Mapped(source, ls[1..], ls[0].End(), hi)
  }

  lemma {:induction false} SliceOfSlice(s: string, a: nat, b: nat, c: nat, d: nat)
    requires a <= b <= |s| && c <= d <= b - a
    ensures s[a..b][c..d] == s[a + c..a + d]
  {
    var u, v := s[a..b][c..d], s[a + c..a + d];
    assert forall k | 0 <= k < d - c :: u[k] == s[a + c + k] == v[k];
  }

  lemma {:induction false} CutIsSlice(source: string, l: SourceLine, from: nat, to: nat)
    requires SliceOf(source, l) && from <= to <= |l.text|
    ensures SliceOf(source, l.Cut(from, to))
  {
    SliceOfSlice(source, l.start, l.End(), from, to);
  }

  lemma {:induction false} EmptyMapped(source: string, lo: nat, hi: nat)
    ensures Mapped(source, [], lo, hi) <==> lo <= hi
  {
  }

  lemma {:induction false} MappedBounds(source: string, ls: seq<SourceLine>, lo: nat, hi: nat)
    requires Mapped(source, ls, lo, hi)
    ensures lo <= hi
  {
    if ls != [] { MappedBounds(source, ls[1..], ls[0].End(), hi); }
  }

  lemma {:induction false} MappedWiden(source: string, ls: seq<SourceLine>, lo: nat, hi: nat, lo': nat, hi': nat)
    requires Mapped(source, ls, lo, hi) && lo' <= lo && hi <= hi'
    ensures Mapped(source, ls, lo', hi')
  {
    if ls != [] { MappedWiden(source, ls[1..], ls[0].End(), hi, ls[0].End(), hi'); }
  }

  lemma {:induction false} MappedConcat(source: string, a: seq<SourceLine>, b: seq<SourceLine>, lo: nat, mid: nat,
                                        hi: nat)
    requires Mapped(source, a, lo, mid) && Mapped(source, b, mid, hi)
    ensures Mapped(source, a + b, lo, hi)
  {
    if a == [] {
      assert a + b == b;
      MappedWiden(source, b, mid, hi, lo, hi);
    } else {
      assert (a + b)[1..] == a[1..] + b;
      MappedConcat(source, a[1..], b, a[0].End(), mid, hi);
    }
  }

  /** Mapped, element by element: fidelity, bounds, order and disjointness. */
  lemma {:induction false} MappedElements(source: string, ls: seq<SourceLine>, lo: nat, hi: nat)
    requires Mapped(source, ls, lo, hi)
    ensures forall i | 0 <= i < |ls| :: SliceOf(source, ls[i]) && lo <= ls[i].start && ls[i].End() <= hi
    ensures forall i, j | 0 <= i < j < |ls| :: ls[i].End() <= ls[j].start
  {
    if ls != [] {
      MappedElements(source, ls[1..], ls[0].End(), hi);
      MappedBounds(source, ls[1..], ls[0].End(), hi);
      forall i | 0 <= i < |ls|
        ensures SliceOf(source, ls[i]) && lo <= ls[i].start && ls[i].End() <= hi
        ensures forall j | i < j < |ls| :: ls[i].End() <= ls[j].start
      {
        if i > 0 { assert ls[i] == ls[1..][i - 1]; }
        forall j | i < j < |ls| ensures ls[i].End() <= ls[j].start { assert ls[j] == ls[1..][j - 1]; }
      }
    }
  }

  lemma {:induction false} MappedFromElements(source: string, ls: seq<SourceLine>, lo: nat, hi: nat)
    requires lo <= hi
    requires forall i | 0 <= i < |ls| :: SliceOf(source, ls[i]) && lo <= ls[i].start && ls[i].End() <= hi
    requires forall i, j | 0 <= i < j < |ls| :: ls[i].End() <= ls[j].start
    ensures Mapped(source, ls, lo, hi)
  {
    if ls != [] { MappedFromElements(source, ls[1..], ls[0].End(), hi); }
  }

  /** A stretch of a mapped sequence is mapped between its own ends. */
  lemma {:induction false} MappedSlice(source: string, ls: seq<SourceLine>, lo: nat, hi: nat, i: nat, j: nat)
    requires Mapped(source, ls, lo, hi) && i <= j <= |ls|
    ensures Mapped(source, ls[i..j], if i < |ls| then ls[i].start else hi, if j < |ls| then ls[j].start else hi)
  {
    MappedElements(source, ls, lo, hi);
    MappedFromElements(source, ls[i..j], if i < |ls| then ls[i].start else hi, if j < |ls| then ls[j].start else hi);
  }

  // ---------------------------------------------------------------- lines of the document

  predicate IsTerminator(c: char) { c == '\n' || c == '\r' }

  /** Where the line that starts at p ends. */
  function LineEnd(text: string, p: nat): (e: nat)
    requires p <= |text|
    ensures p <= e <= |text| && forall k | p <= k < e :: !IsTerminator(text[k])
    ensures e < |text| ==> IsTerminator(text[e])
    decreases |text| - p
  {
    if p < |text| && !IsTerminator(text[p]) then LineEnd(text, p + 1) else p
  }

  /** Where the next line starts: past "\r\n", "\n" or "\r". */
  function NextLine(text: string, e: nat): (next: nat)
    requires e <= |text|
    ensures e <= next <= |text| && (e < next <==> e < |text| && IsTerminator(text[e]))
  {
    if e == |text| || !IsTerminator(text[e]) then e
    else if text[e] == '\r' && e + 1 < |text| && text[e + 1] == '\n' then e + 2
    else e + 1
  }

  function LinesFrom(text: string, p: nat): seq<SourceLine>
    requires p <= |text|
    decreases |text| - p
  {
    var e := LineEnd(text, p);
    var next := NextLine(text, e);
    if next == p then [] else [SourceLine(text[p..e], p)] + LinesFrom(text, next)
  }

  /** The lines of a document, with offsets that count every terminator as it stands. */
  method SourceLines(text: string) returns (lines: seq<SourceLine>)
    ensures lines == LinesFrom(text, 0)
  {
    lines := [];
    var p := 0;
    while true
      invariant p <= |text| && lines + LinesFrom(text, p) == LinesFrom(text, 0)
      decreases |text| - p
    {
      var e := LineEnd(text, p);
      var next := NextLine(text, e);
      if next == p { break; }
      var line := SourceLine(text[p..e], p);
      assert lines + LinesFrom(text, p) == (lines + [line]) + LinesFrom(text, next);
      lines := lines + [line];
      p := next;
    }
  }

  /** Each line is what stands between terminators, and only one terminator stands between lines. */
  ghost predicate SplitsAt(text: string, lines: seq<SourceLine>, p: nat) {
    if lines == [] then p == |text|
    else
      var l := lines[0];
      && l.start == p && SliceOf(text, l)
      && l.End() == LineEnd(text, p) && NextLine(text, l.End()) > p
      && SplitsAt(text, lines[1..], NextLine(text, l.End()))
  }

  lemma {:induction false} LinesSplit(text: string, p: nat)
    requires p <= |text|
    ensures SplitsAt(text, LinesFrom(text, p), p)
    ensures Mapped(text, LinesFrom(text, p), p, |text|)
    decreases |text| - p
  {
    var e := LineEnd(text, p);
    var next := NextLine(text, e);
    if next != p {
      LinesSplit(text, next);
      MappedWiden(text, LinesFrom(text, next), next, |text|, e, |text|);
      assert LinesFrom(text, p)[1..] == LinesFrom(text, next);
    }
  }

  /** Lines and what ends them, put together. */
  function Joined(lines: seq<SourceLine>, ends: seq<string>): string
    requires |lines| == |ends|
  {
    if lines == [] then "" else lines[0].text + ends[0] + Joined(lines[1..], ends[1..])
  }

  /** A line feed, a carriage return, or both in this order; only the last line, if it has text, can do
      without. A carriage return and a line feed after it are one. */
  predicate Ends(lines: seq<SourceLine>, ends: seq<string>, k: nat)
    requires k < |lines| == |ends|
  {
    && (ends[k] in {"\n", "\r", "\r\n"} || (k == |ends| - 1 && ends[k] == "" && lines[k].text != ""))
    && (ends[k] == "\r" && k + 1 < |ends| && lines[k + 1].text == "" ==> ends[k + 1] != "\n")
  }

  /** The lines of a text, with their ends, spell it out from any of their starts; they hold no line end, and
      each starts where the one before it ends. */
  lemma {:induction false} LinesSpell(text: string, p: nat) returns (ends: seq<string>)
    requires p <= |text|
    ensures var lines := LinesFrom(text, p);
            && |ends| == |lines| && Joined(lines, ends) == text[p..]
            && (forall k | 0 <= k < |lines| ::
                  Ends(lines, ends, k) && '\n' !in lines[k].text && '\r' !in lines[k].text)
            && (lines != [] ==> lines[0].start == p)
            && forall k | 0 <= k < |lines| - 1 :: lines[k + 1].start == lines[k].End() + |ends[k]|
    decreases |text| - p
  {
    hide LineEnd, NextLine, Ends;
    var e := LineEnd(text, p);
    var next := NextLine(text, e);
    if next == p {
      ends := [];
      AtTheEnd(text, p);
    } else {
      var more := LinesSpell(text, next);
      var line, rest := SourceLine(text[p..e], p), LinesFrom(text, next);
      ends := [text[e..next]] + more;
      var lines := LinesFrom(text, p);
      assert lines == [line] + rest && lines[1..] == rest && ends[1..] == more;
      assert text[p..] == text[p..e] + text[e..next] + text[next..];
      FirstEnds(text, p, rest, more);
      forall k | 0 <= k < |lines|
        ensures Ends(lines, ends, k) && '\n' !in lines[k].text && '\r' !in lines[k].text
      {
        if k > 0 { EndsLater(line, ends[0], rest, more, k - 1); }
      }
      forall k | 0 <= k < |lines| - 1 ensures lines[k + 1].start == lines[k].End() + |ends[k]| {
        if k > 0 { assert lines[k] == rest[k - 1] && lines[k + 1] == rest[k] && ends[k] == more[k - 1]; }
      }
    }
  }

  lemma {:induction false} AtTheEnd(text: string, p: nat)
    requires p <= |text| && NextLine(text, LineEnd(text, p)) == p
    ensures p == |text|
  {
  }

  lemma {:induction false} EndsLater(line: SourceLine, end: string, rest: seq<SourceLine>, more: seq<string>, k: nat)
    requires k < |rest| == |more| && Ends(rest, more, k)
    ensures Ends([line] + rest, [end] + more, k + 1)
  {
  }

  // The first line, what ends it, and what follows.
  lemma {:induction false} FirstEnds(text: string, p: nat, rest: seq<SourceLine>, more: seq<string>)
    requires p <= |text| && NextLine(text, LineEnd(text, p)) != p
    requires var next := NextLine(text, LineEnd(text, p));
             && rest == LinesFrom(text, next) && |more| == |rest| && Joined(rest, more) == text[next..]
    ensures var e := LineEnd(text, p);
            && Ends([SourceLine(text[p..e], p)] + rest, [text[e..NextLine(text, e)]] + more, 0)
            && '\n' !in text[p..e] && '\r' !in text[p..e]
  {
    var e := LineEnd(text, p);
    var next := NextLine(text, e);
    if next < |text| && rest != [] && rest[0].text == "" && more[0] == "\n" {
      assert Joined(rest, more) == "" + "\n" + Joined(rest[1..], more[1..]);
      assert text[next..][0] == '\n';
    }
    if next == |text| { assert rest == []; }
    if next == e + 1 { assert text[e..next] == [text[e]]; }
    if next == e + 2 { assert text[e..next] == [text[e], text[e + 1]] == "\r\n"; }
  }
}
