/** The overlay that cuts every rendered fragment at annotation boundaries, so that a piece of text is
    either wholly inside or wholly outside each annotation. */
module AnnotationOverlay {
  import opened Options
  import opened SourceText
  import MarkdownDocument
  import MarkdownBlocks

  /** An annotation, with its number in the list and its code-unit offsets in the source. */
  datatype Range = Range(id: string, number: nat, start: nat, end: nat)

  /** The selection that a new annotation would cover. */
  datatype Selection = Selection(start: nat, end: nat)

  /** A rendered piece: its text and offset, the annotations it is marked with, the badges shown
      before it, and whether it shows as selected. */
  datatype Run = Run(line: SourceLine, marks: seq<Range>, badges: seq<Range>, pending: bool)

  // ---------------------------------------------------------------- the cut points

  /** Adds a number to an ascending list, once. */
  function Insert(sorted: seq<nat>, n: nat): seq<nat> {
    if sorted == [] || n < sorted[0] then [n] + sorted
    else if n == sorted[0] then sorted
    else [sorted[0]] + Insert(sorted[1..], n)
  }

  /** The distinct numbers of a list in ascending order. */
  function Distinct(ns: seq<nat>): seq<nat> { if ns == [] then [] else Insert(Distinct(ns[1..]), ns[0]) }

  /** Offsets strictly inside the fragment. */
  function Inside(ns: seq<nat>, start: nat, end: nat): seq<nat> {
    if ns == [] then []
    else (if start < ns[0] < end then [ns[0]] else []) + Inside(ns[1..], start, end)
  }

  function Ends(ranges: seq<Range>): seq<nat> {
    if ranges == [] then [] else [ranges[0].start, ranges[0].end] + Ends(ranges[1..])
  }

  function SelectionEnds(pending: Option<Selection>): seq<nat> {
    if pending.Some? then [pending.value.start, pending.value.end] else []
  }

  function Bounds(start: nat, end: nat, ranges: seq<Range>, pending: Option<Selection>): seq<nat> {
    Distinct([start, end] + Inside(SelectionEnds(pending), start, end) + Inside(Ends(ranges), start, end))
  }

  function Covering(ranges: seq<Range>, a: nat, b: nat): seq<Range> {
    if ranges == [] then []
    else (if ranges[0].start <= a && ranges[0].end >= b then [ranges[0]] else []) + Covering(ranges[1..], a, b)
  }

  function StartingAt(ranges: seq<Range>, a: nat): seq<Range> {
    if ranges == [] then []
    else (if ranges[0].start == a then [ranges[0]] else []) + StartingAt(ranges[1..], a)
  }

  function RunOf(l: SourceLine, ranges: seq<Range>, pending: Option<Selection>, a: nat, b: nat): Run
    requires l.start <= a <= b <= l.End()
  {
    var marks := Covering(ranges, a, b);
    Run(l.Cut(a - l.start, b - l.start), marks, StartingAt(marks, a),
        marks == [] && pending.Some? && pending.value.start <= a && pending.value.end >= b)
  }

  predicate Ascending(ns: seq<nat>) { forall i, j | 0 <= i < j < |ns| :: ns[i] < ns[j] }

  predicate BoundsOf(l: SourceLine, bounds: seq<nat>) {
    && bounds != [] && Ascending(bounds) && bounds[|bounds| - 1] == l.End()
    && forall i | 0 <= i < |bounds| :: l.start <= bounds[i] <= l.End()
  }

  function RunsBetween(l: SourceLine, ranges: seq<Range>, pending: Option<Selection>, bounds: seq<nat>): seq<Run>
    requires BoundsOf(l, bounds)
  {
    if |bounds| < 2 then []
    else [RunOf(l, ranges, pending, bounds[0], bounds[1])] + RunsBetween(l, ranges, pending, bounds[1..])
  }

  /** The source renderer: what one fragment turns into. */
  function RenderSource(l: SourceLine, ranges: seq<Range>, pending: Option<Selection>): seq<Run> {
    BoundsFit(l, ranges, pending);
    RunsBetween(l, ranges, pending, Bounds(l.start, l.End(), ranges, pending))
  }

  lemma {:induction false} InsertAdds(sorted: seq<nat>, n: nat)
    ensures forall k: nat :: k in Insert(sorted, n) <==> k == n || k in sorted
  {
    if sorted != [] && n > sorted[0] { InsertAdds(sorted[1..], n); }
  }

  lemma {:induction false} InsertSorts(sorted: seq<nat>, n: nat)
    requires Ascending(sorted)
    ensures Ascending(Insert(sorted, n))
  {
    if sorted != [] && n > sorted[0] {
      InsertSorts(sorted[1..], n);
      InsertAdds(sorted[1..], n);
      var rest := Insert(sorted[1..], n);
      assert forall k <- rest :: sorted[0] < k;
      assert forall i | 0 <= i < |rest| :: rest[i] in rest;
    }
  }

  lemma {:induction false} DistinctSorts(ns: seq<nat>)
    ensures Ascending(Distinct(ns))
    ensures forall k: nat :: k in Distinct(ns) <==> k in ns
  {
    if ns != [] {
      DistinctSorts(ns[1..]);
      InsertSorts(Distinct(ns[1..]), ns[0]);
      InsertAdds(Distinct(ns[1..]), ns[0]);
    }
  }

  lemma {:induction false} InsideFilters(ns: seq<nat>, start: nat, end: nat)
    ensures forall k: nat :: k in Inside(ns, start, end) <==> k in ns && start < k < end
  {
    if ns != [] { InsideFilters(ns[1..], start, end); }
  }

  predicate Cuts(ranges: seq<Range>, pending: Option<Selection>, k: nat) {
    (exists r <- ranges :: k == r.start || k == r.end)
    || (pending.Some? && (k == pending.value.start || k == pending.value.end))
  }

  lemma {:induction false} EndsOfRanges(ranges: seq<Range>)
    ensures forall k: nat :: k in Ends(ranges) <==> exists r <- ranges :: k == r.start || k == r.end
  {
    if ranges != [] {
      EndsOfRanges(ranges[1..]);
      forall k: nat ensures k in Ends(ranges) <==> exists r <- ranges :: k == r.start || k == r.end {
        if r :| r in ranges && (k == r.start || k == r.end) { assert r == ranges[0] || r in ranges[1..]; }
      }
    }
  }

  /** The cut points, in ascending order: both ends of the fragment and every boundary inside it. */
  lemma {:induction false} BoundsAreCuts(start: nat, end: nat, ranges: seq<Range>, pending: Option<Selection>)
    requires start <= end
    ensures Ascending(Bounds(start, end, ranges, pending))
    ensures forall k: nat :: k in Bounds(start, end, ranges, pending)
                             <==> k == start || k == end || (start < k < end && Cuts(ranges, pending, k))
  {
    hide Distinct, Inside, Ends;
    var all := [start, end] + Inside(SelectionEnds(pending), start, end) + Inside(Ends(ranges), start, end);
    DistinctSorts(all);
    InsideFilters(SelectionEnds(pending), start, end);
    InsideFilters(Ends(ranges), start, end);
    EndsOfRanges(ranges);
  }

  // ---------------------------------------------------------------- the reference: character by character

  predicate Contains(r: Range, k: nat) { r.start <= k < r.end }

  /** The annotations that contain the character at offset k. */
  function MarksAt(ranges: seq<Range>, k: nat): seq<Range> {
    if ranges == [] then []
    else (if Contains(ranges[0], k) then [ranges[0]] else []) + MarksAt(ranges[1..], k)
  }

  predicate Selected(pending: Option<Selection>, k: nat) {
    pending.Some? && pending.value.start <= k < pending.value.end
  }

  predicate StartsAt(r: Range, k: nat) { r.start == k < r.end }

  /** The badges that belong before the character at offset k. */
  function BadgesAt(ranges: seq<Range>, k: nat): seq<Range> {
    if ranges == [] then []
    else (if StartsAt(ranges[0], k) then [ranges[0]] else []) + BadgesAt(ranges[1..], k)
  }

  /** A run shows all its characters as the reference does, and only its first one can have badges. */
  ghost predicate Faithful(run: Run, ranges: seq<Range>, pending: Option<Selection>) {
    && run.line.text != ""
    && run.badges == BadgesAt(ranges, run.line.start)
    && forall k | run.line.start <= k < run.line.End() ::
         && run.marks == MarksAt(ranges, k)
         && run.pending == (MarksAt(ranges, k) == [] && Selected(pending, k))
         && (run.line.start < k ==> BadgesAt(ranges, k) == [])
  }

  ghost predicate AllFaithful(runs: seq<Run>, ranges: seq<Range>, pending: Option<Selection>) {
    forall run <- runs :: Faithful(run, ranges, pending)
  }

  // No boundary lies strictly between a and b.
  ghost predicate Uncut(ranges: seq<Range>, a: nat, b: nat) {
    a < b && forall r <- ranges :: !(a < r.start < b) && !(a < r.end < b)
  }

  lemma {:induction false} UncutMarks(ranges: seq<Range>, a: nat, b: nat, k: nat)
    requires Uncut(ranges, a, b) && a <= k < b
    ensures Covering(ranges, a, b) == MarksAt(ranges, k)
    ensures a < k ==> BadgesAt(ranges, k) == []
  {
    if ranges != [] {
      assert ranges[0] in ranges && forall q <- ranges[1..] :: q in ranges;
      UncutMarks(ranges[1..], a, b, k);
    }
  }

  lemma {:induction false} UncutBadges(ranges: seq<Range>, a: nat, b: nat)
    requires Uncut(ranges, a, b)
    ensures StartingAt(Covering(ranges, a, b), a) == BadgesAt(ranges, a)
  {
    if ranges != [] {
      var r := ranges[0];
      assert r in ranges && forall q <- ranges[1..] :: q in ranges;
      UncutBadges(ranges[1..], a, b);
      var rest := Covering(ranges[1..], a, b);
      assert [r] + rest == Covering(ranges, a, b) || rest == Covering(ranges, a, b);
      assert ([r] + rest)[1..] == rest;
    }
  }

  lemma {:induction false} BetweenFaithful(l: SourceLine, ranges: seq<Range>, pending: Option<Selection>,
                                           bounds: seq<nat>)
    requires BoundsOf(l, bounds)
    requires forall k: nat | bounds[0] < k < l.End() && Cuts(ranges, pending, k) :: k in bounds
    ensures AllFaithful(RunsBetween(l, ranges, pending, bounds), ranges, pending)
  {
    hide RunOf, Faithful, Cuts;
    if |bounds| >= 2 {
      var a, b := bounds[0], bounds[1];
      var rest := bounds[1..];
      assert rest[|rest| - 1] == bounds[|bounds| - 1];
      forall k: nat | b < k < l.End() && Cuts(ranges, pending, k) ensures k in rest {
        assert k in bounds && k != a;
      }
      BetweenFaithful(l, ranges, pending, rest);
      forall k: nat | a < k < b ensures !Cuts(ranges, pending, k) { NothingBetween(bounds, k); }
      SpanFaithful(l, ranges, pending, a, b);
    }
  }

  lemma {:induction false} NothingBetween(bounds: seq<nat>, k: nat)
    requires Ascending(bounds) && |bounds| >= 2 && bounds[0] < k < bounds[1]
    ensures k !in bounds
  {
  }

  lemma {:induction false} SpanFaithful(l: SourceLine, ranges: seq<Range>, pending: Option<Selection>, a: nat, b: nat)
    requires l.start <= a < b <= l.End()
    requires forall k: nat | a < k < b :: !Cuts(ranges, pending, k)
    ensures Faithful(RunOf(l, ranges, pending, a, b), ranges, pending)
  {
    hide Covering, StartingAt, MarksAt, BadgesAt;
    forall r <- ranges ensures !(a < r.start < b) && !(a < r.end < b) {
      assert Cuts(ranges, pending, r.start) && Cuts(ranges, pending, r.end);
    }
    if pending.Some? { assert Cuts(ranges, pending, pending.value.start) && Cuts(ranges, pending, pending.value.end); }
    UncutBadges(ranges, a, b);
    forall k | a <= k < b
      ensures Covering(ranges, a, b) == MarksAt(ranges, k) && (a < k ==> BadgesAt(ranges, k) == [])
    {
      UncutMarks(ranges, a, b, k);
    }
  }

  // ---------------------------------------------------------------- one fragment

  function Lines(runs: seq<Run>): seq<SourceLine> { if runs == [] then [] else [runs[0].line] + Lines(runs[1..]) }

  function TextOf(ls: seq<SourceLine>): string { if ls == [] then "" else ls[0].text + TextOf(ls[1..]) }

  /** Runs that stand side by side from one offset to another. */
  ghost predicate Abut(runs: seq<Run>, lo: nat, hi: nat) {
    if runs == [] then lo == hi else runs[0].line.start == lo && Abut(runs[1..], runs[0].line.End(), hi)
  }

  lemma {:induction false} BetweenAbut(l: SourceLine, ranges: seq<Range>, pending: Option<Selection>, bounds: seq<nat>)
    requires BoundsOf(l, bounds)
    ensures var runs := RunsBetween(l, ranges, pending, bounds);
            Abut(runs, bounds[0], l.End()) && TextOf(Lines(runs)) == l.text[bounds[0] - l.start..]
  {
    hide RunOf;
    if |bounds| >= 2 {
      var rest := bounds[1..];
      BetweenAbut(l, ranges, pending, rest);
      RunText(l, ranges, pending, bounds[0], bounds[1]);
      var runs := RunsBetween(l, ranges, pending, bounds);
      assert runs[1..] == RunsBetween(l, ranges, pending, rest);
      assert Lines(runs)[1..] == Lines(runs[1..]);
    }
  }

  lemma {:induction false} RunText(l: SourceLine, ranges: seq<Range>, pending: Option<Selection>, a: nat, b: nat)
    requires l.start <= a <= b <= l.End()
    ensures var line := RunOf(l, ranges, pending, a, b).line;
            line.start == a && line.End() == b && line.text + l.text[b - l.start..] == l.text[a - l.start..]
  {
    var u, v := l.text[a - l.start..b - l.start] + l.text[b - l.start..], l.text[a - l.start..];
    assert u == v;
  }

  lemma {:induction false} BoundsFit(l: SourceLine, ranges: seq<Range>, pending: Option<Selection>)
    ensures var bounds := Bounds(l.start, l.End(), ranges, pending); BoundsOf(l, bounds) && bounds[0] == l.start
  {
    hide Bounds, Cuts;
    var bounds := Bounds(l.start, l.End(), ranges, pending);
    BoundsAreCuts(l.start, l.End(), ranges, pending);
    assert l.start in bounds && l.End() in bounds;
    assert bounds[0] in bounds && bounds[|bounds| - 1] in bounds;
    assert forall i | 0 <= i < |bounds| :: bounds[i] in bounds;
  }

  /** The pieces of a fragment stand side by side, spell it out, and every character carries exactly
      the annotations that contain it. */
  lemma {:induction false} FragmentOverlay(l: SourceLine, ranges: seq<Range>, pending: Option<Selection>)
    ensures var runs := RenderSource(l, ranges, pending);
            && Abut(runs, l.start, l.End()) && TextOf(Lines(runs)) == l.text
            && AllFaithful(runs, ranges, pending)
  {
    hide Bounds, RunsBetween, Abut, TextOf, Lines, AllFaithful;
    var bounds := Bounds(l.start, l.End(), ranges, pending);
    BoundsFit(l, ranges, pending);
    BoundsAreCuts(l.start, l.End(), ranges, pending);
    BetweenAbut(l, ranges, pending, bounds);
    BetweenFaithful(l, ranges, pending, bounds);
    assert l.text[0..] == l.text;
  }

  // ---------------------------------------------------------------- badges and marked text

  /** How often the badge of an annotation is shown. */
  function BadgeCount(runs: seq<Run>, r: Range): nat {
    if runs == [] then 0 else multiset(runs[0].badges)[r] + BadgeCount(runs[1..], r)
  }

  /** The text marked with an annotation. */
  function Marked(runs: seq<Run>, r: Range): string {
    if runs == [] then ""
    else (if r in runs[0].marks then runs[0].line.text else "") + Marked(runs[1..], r)
  }

  /** The part of a text, starting at lo, that the annotation covers. */
  function Clip(text: string, lo: nat, r: Range): string {
    var a := if r.start < lo then lo else r.start;
    var b := if r.end < lo + |text| then r.end else lo + |text|;
    if a < b then text[a - lo..b - lo] else ""
  }

  lemma {:induction false} BadgesCounted(ranges: seq<Range>, k: nat, r: Range)
    ensures multiset(BadgesAt(ranges, k))[r] == if StartsAt(r, k) then multiset(ranges)[r] else 0
  {
    if ranges != [] {
      BadgesCounted(ranges[1..], k, r);
      assert ranges == [ranges[0]] + ranges[1..];
      assert multiset(ranges) == multiset{ranges[0]} + multiset(ranges[1..]);
    }
  }

  lemma {:induction false} MarksContain(ranges: seq<Range>, k: nat, r: Range)
    ensures r in MarksAt(ranges, k) <==> r in ranges && Contains(r, k)
  {
    if ranges != [] { MarksContain(ranges[1..], k, r); }
  }

  lemma {:induction false} AbutGrows(runs: seq<Run>, lo: nat, hi: nat)
    requires Abut(runs, lo, hi)
    ensures lo + |TextOf(Lines(runs))| == hi
  {
    if runs != [] {
      AbutGrows(runs[1..], runs[0].line.End(), hi);
      assert Lines(runs)[1..] == Lines(runs[1..]);
    }
  }

  lemma {:induction false} BadgesInPlace(runs: seq<Run>, lo: nat, hi: nat, ranges: seq<Range>,
                                         pending: Option<Selection>, r: Range)
    requires Abut(runs, lo, hi) && AllFaithful(runs, ranges, pending)
    ensures BadgeCount(runs, r) == if lo <= r.start < hi && r.start < r.end then multiset(ranges)[r] else 0
  {
    hide MarksAt, BadgesAt;
    AbutGrows(runs, lo, hi);
    if runs != [] {
      var first := runs[0];
      assert first in runs && Faithful(first, ranges, pending);
      assert forall q <- runs[1..] :: q in runs;
      BadgesInPlace(runs[1..], first.line.End(), hi, ranges, pending, r);
      AbutGrows(runs[1..], first.line.End(), hi);
      BadgesCounted(ranges, lo, r);
      if lo < r.start < first.line.End() { BadgesCounted(ranges, r.start, r); }
    }
  }

  lemma {:induction false} MarkedInPlace(runs: seq<Run>, lo: nat, hi: nat, ranges: seq<Range>,
                                         pending: Option<Selection>, r: Range)
    requires Abut(runs, lo, hi) && AllFaithful(runs, ranges, pending) && r in ranges
    ensures Marked(runs, r) == Clip(TextOf(Lines(runs)), lo, r)
  {
    hide MarksAt, BadgesAt, Clip;
    if runs != [] {
      var first, rest := runs[0], runs[1..];
      var e := first.line.End();
      assert first in runs && Faithful(first, ranges, pending);
      assert forall q <- rest :: q in runs;
      MarkedInPlace(rest, e, hi, ranges, pending, r);
      assert Lines(runs)[1..] == Lines(rest);
      forall k | lo <= k < e ensures r in first.marks <==> Contains(r, k) { MarksContain(ranges, k, r); }
      ClipStep(first.line.text, TextOf(Lines(rest)), lo, r, r in first.marks);
    } else {
      assert Clip("", lo, r) == "" by { ClipNothing(lo, r); }
    }
  }

  lemma {:induction false} ClipNothing(lo: nat, r: Range)
    ensures Clip("", lo, r) == ""
  {
  }

  lemma {:induction false} ClipStep(a: string, b: string, lo: nat, r: Range, inside: bool)
    requires a != "" && forall k | lo <= k < lo + |a| :: inside <==> Contains(r, k)
    ensures Clip(a + b, lo, r) == (if inside then a else "") + Clip(b, lo + |a|, r)
  {
    var e := lo + |a|;
    assert inside <==> Contains(r, lo);
    assert inside <==> Contains(r, e - 1);
    assert lo <= r.start < e ==> (inside <==> Contains(r, r.start));
    var u, v := Clip(a + b, lo, r), (if inside then a else "") + Clip(b, e, r);
    if inside {
      assert u == v;
    } else if r.start < r.end && r.start < e {
      assert r.end <= lo;
    }
  }

  // ---------------------------------------------------------------- a whole view

  function Overlay(fs: seq<SourceLine>, ranges: seq<Range>, pending: Option<Selection>): seq<Run> {
    if fs == [] then [] else RenderSource(fs[0], ranges, pending) + Overlay(fs[1..], ranges, pending)
  }

  function Clips(fs: seq<SourceLine>, r: Range): string {
    if fs == [] then "" else Clip(fs[0].text, fs[0].start, r) + Clips(fs[1..], r)
  }

  predicate Holds(l: SourceLine, k: nat) { l.start <= k < l.End() }

  lemma {:induction false} CountConcat(a: seq<Run>, b: seq<Run>, r: Range)
    ensures BadgeCount(a + b, r) == BadgeCount(a, r) + BadgeCount(b, r)
  {
    if a == [] {
      assert a + b == b;
    } else {
      assert (a + b)[1..] == a[1..] + b && (a + b)[0] == a[0];
      CountConcat(a[1..], b, r);
    }
  }

  lemma {:induction false} MarkedConcat(a: seq<Run>, b: seq<Run>, r: Range)
    ensures Marked(a + b, r) == Marked(a, r) + Marked(b, r)
  {
    if a == [] {
      assert a + b == b;
    } else {
      assert (a + b)[1..] == a[1..] + b && (a + b)[0] == a[0];
      MarkedConcat(a[1..], b, r);
    }
  }

  lemma {:induction false} LinesConcat(a: seq<Run>, b: seq<Run>)
    ensures Lines(a + b) == Lines(a) + Lines(b)
  {
    if a == [] {
      assert a + b == b;
    } else {
      assert (a + b)[1..] == a[1..] + b && (a + b)[0] == a[0];
      LinesConcat(a[1..], b);
    }
  }

  lemma {:induction false} AbutMapped(source: string, l: SourceLine, runs: seq<Run>, lo: nat)
    requires SliceOf(source, l) && l.start <= lo <= l.End()
    requires Abut(runs, lo, l.End()) && TextOf(Lines(runs)) == l.text[lo - l.start..]
    ensures Mapped(source, Lines(runs), lo, l.End())
  {
    if runs != [] {
      var first := runs[0].line;
      AbutGrows(runs[1..], first.End(), l.End());
      var rest := TextOf(Lines(runs[1..]));
      assert Lines(runs)[1..] == Lines(runs[1..]);
      assert first.text + rest == l.text[lo - l.start..];
      assert rest == l.text[lo - l.start..][|first.text|..] == l.text[first.End() - l.start..];
      assert first.text == l.text[lo - l.start..][..|first.text|] == l.text[lo - l.start..first.End() - l.start];
      CutIsSlice(source, l, lo - l.start, first.End() - l.start);
      AbutMapped(source, l, runs[1..], first.End());
    }
  }

  /** Over fragments that are mapped to the source: the pieces are mapped too, every character carries
      exactly the annotations that contain it, an annotation's badge shows at most once, exactly when
      some fragment shows its first character, and what is marked is what the fragments show of it. */
  lemma {:induction false} ViewOverlay(source: string, fs: seq<SourceLine>, lo: nat, hi: nat, ranges: seq<Range>,
                                       pending: Option<Selection>, r: Range)
    requires Mapped(source, fs, lo, hi)
    ensures var runs := Overlay(fs, ranges, pending);
            && Mapped(source, Lines(runs), lo, hi) && AllFaithful(runs, ranges, pending)
            && BadgeCount(runs, r)
               == (if r.start < r.end && exists f <- fs :: Holds(f, r.start) then multiset(ranges)[r] else 0)
            && (r in ranges ==> Marked(runs, r) == Clips(fs, r))
  {
    hide RenderSource, Clip, Abut, SliceOf, Faithful;
    if fs != [] {
      var l, rest := fs[0], Overlay(fs[1..], ranges, pending);
      var runs := RenderSource(l, ranges, pending);
      FragmentOverlay(l, ranges, pending);
      assert l.text[0..] == l.text;
      AbutMapped(source, l, runs, l.start);
      BadgesInPlace(runs, l.start, l.End(), ranges, pending, r);
      if r in ranges { MarkedInPlace(runs, l.start, l.End(), ranges, pending, r); }
      ViewOverlay(source, fs[1..], l.End(), hi, ranges, pending, r);
      CountConcat(runs, rest, r);
      MarkedConcat(runs, rest, r);
      LinesConcat(runs, rest);
      MappedWiden(source, Lines(runs), l.start, l.End(), lo, l.End());
      MappedConcat(source, Lines(runs), Lines(rest), lo, l.End(), hi);
      MappedElements(source, fs[1..], l.End(), hi);
      assert forall f <- fs :: f == l || f in fs[1..];
      assert l in fs && forall f <- fs[1..] :: f in fs;
    }
  }

  /** Annotations numbered from one in list order, as the component numbers them. */
  predicate Numbered(ranges: seq<Range>) { forall i | 0 <= i < |ranges| :: ranges[i].number == i + 1 }

  lemma {:induction false} NumberedOnce(ranges: seq<Range>, r: Range)
    requires Numbered(ranges) && r in ranges
    ensures multiset(ranges)[r] == 1
  {
    var i :| 0 <= i < |ranges| && ranges[i] == r;
    assert ranges == ranges[..i] + [r] + ranges[i + 1..];
    assert r !in ranges[..i] && r !in ranges[i + 1..];
    assert multiset(ranges) == multiset(ranges[..i]) + multiset{r} + multiset(ranges[i + 1..]);
  }

  /** The raw view: a non-empty annotation inside the text is marked in full, with one badge. */
  lemma {:induction false} RawView(text: string, ranges: seq<Range>, pending: Option<Selection>, r: Range)
    requires Numbered(ranges) && r in ranges && r.start < r.end <= |text|
    ensures var runs := RenderSource(SourceLine(text, 0), ranges, pending);
            BadgeCount(runs, r) == 1 && Marked(runs, r) == text[r.start..r.end]
  {
    hide RenderSource, Abut;
    var l := SourceLine(text, 0);
    var runs := RenderSource(l, ranges, pending);
    FragmentOverlay(l, ranges, pending);
    BadgesInPlace(runs, 0, |text|, ranges, pending, r);
    MarkedInPlace(runs, 0, |text|, ranges, pending, r);
    NumberedOnce(ranges, r);
  }

  /** The formatted view: at most one badge for each annotation, and one exactly when the character it
      starts at is shown; syntax that the formatting hides can hide the badge. */
  lemma {:induction false} FormattedView(text: string, ranges: seq<Range>, pending: Option<Selection>, r: Range)
    requires Numbered(ranges) && r in ranges
    ensures var fs := MarkdownDocument.BlocksFragments(MarkdownBlocks.Blocks(LinesFrom(text, 0)));
            var runs := Overlay(fs, ranges, pending);
            && Mapped(text, Lines(runs), 0, |text|) && AllFaithful(runs, ranges, pending)
            && Marked(runs, r) == Clips(fs, r)
            && BadgeCount(runs, r) == if r.start < r.end && exists f <- fs :: Holds(f, r.start) then 1 else 0
  {
    hide Mapped, MarkdownDocument.BlocksFragments, MarkdownBlocks.Blocks, LinesFrom, Overlay;
    MarkdownDocument.DocumentMapped(text);
    var fs := MarkdownDocument.BlocksFragments(MarkdownBlocks.Blocks(LinesFrom(text, 0)));
    ViewOverlay(text, fs, 0, |text|, ranges, pending, r);
    NumberedOnce(ranges, r);
  }
}
