/** Reading a selection back into source offsets, over the leaves that the overlay has drawn. */
module SelectionCapture {
  import opened Options
  import opened SourceText
  import opened AnnotationOverlay

  /** An end of the selection: so many characters into a leaf; in text that is no leaf, such as a badge;
      or between elements, after so many leaves. */
  datatype Point = InLeaf(leaf: nat, offset: nat) | InOther | Between(leaves: nat)

  predicate OnPage(leaves: seq<SourceLine>, p: Point) {
    match p
    case InLeaf(i, o) => i < |leaves| && o <= |leaves[i].text|
    case InOther => true
    case Between(i) => i <= |leaves|
  }

  /** The source offset of an end: the start looks forward to the next leaf, the end back to the last. */
  function SourceEndpoint(leaves: seq<SourceLine>, p: Point, end: bool): Option<nat>
    requires OnPage(leaves, p)
  {
    match p
    case InLeaf(i, o) => Some(leaves[i].start + o)
    case InOther => None
    case Between(i) =>
      if end then (if i > 0 then Some(leaves[i - 1].End()) else None)
      else if i < |leaves| then Some(leaves[i].start) else None
  }

  /** The source range that a selection is taken to mean, if it is taken at all; never an empty one. */
  function Captured(leaves: seq<SourceLine>, p: Point, q: Point): (r: Option<Selection>)
    requires OnPage(leaves, p) && OnPage(leaves, q)
    ensures r.Some? ==> r.value.start < r.value.end
  {
    var start, end := SourceEndpoint(leaves, p, false), SourceEndpoint(leaves, q, true);
    if start.Some? && end.Some? && start.value < end.value then Some(Selection(start.value, end.value)) else None
  }

  // ---------------------------------------------------------------- what is selected on the page

  /** How many characters of leaf j stand before a point. */
  function Before(p: Point, j: nat, length: nat): nat {
    match p
    case InLeaf(i, o) => if j < i then length else if j == i && o <= length then o else 0
    case InOther => 0
    case Between(i) => if j < i then length else 0
  }

  function SelectedPart(leaf: SourceLine, p: Point, q: Point, j: nat): string {
    var a, b := Before(p, j, |leaf.text|), Before(q, j, |leaf.text|);
    if a < b then leaf.text[a..b] else ""
  }

  /** The text of the leaves between two points, from leaf j on. */
  function SelectedText(leaves: seq<SourceLine>, p: Point, q: Point, j: nat): string
    requires j <= |leaves|
    decreases |leaves| - j
  {
    if j == |leaves| then "" else SelectedPart(leaves[j], p, q, j) + SelectedText(leaves, p, q, j + 1)
  }

  // ---------------------------------------------------------------- the two agree

  // The characters of a leaf before a point are those before its source offset.
  lemma {:induction false} BeforeIsClamped(leaves: seq<SourceLine>, p: Point, end: bool, j: nat, at: nat)
    requires forall i, k | 0 <= i < k < |leaves| :: leaves[i].End() <= leaves[k].start
    requires OnPage(leaves, p) && SourceEndpoint(leaves, p, end) == Some(at) && j < |leaves|
    ensures var l := leaves[j];
            Before(p, j, |l.text|) == if at <= l.start then 0 else if at >= l.End() then |l.text| else at - l.start
  {
  }

  lemma {:induction false} PartIsClip(source: string, leaves: seq<SourceLine>, lo: nat, hi: nat, p: Point, q: Point,
                                      j: nat, r: Range)
    requires Mapped(source, leaves, lo, hi) && OnPage(leaves, p) && OnPage(leaves, q) && j < |leaves|
    requires SourceEndpoint(leaves, p, false) == Some(r.start) && SourceEndpoint(leaves, q, true) == Some(r.end)
    ensures SelectedPart(leaves[j], p, q, j) == Clip(leaves[j].text, leaves[j].start, r)
  {
    hide Mapped, Before, SourceEndpoint, OnPage, SliceOf;
    MappedElements(source, leaves, lo, hi);
    BeforeIsClamped(leaves, p, false, j, r.start);
    BeforeIsClamped(leaves, q, true, j, r.end);
    PartOfClamped(leaves[j], p, q, j, r);
  }

  lemma {:induction false} PartOfClamped(l: SourceLine, p: Point, q: Point, j: nat, r: Range)
    requires Before(p, j, |l.text|)
             == if r.start <= l.start then 0 else if r.start >= l.End() then |l.text| else r.start - l.start
    requires Before(q, j, |l.text|)
             == if r.end <= l.start then 0 else if r.end >= l.End() then |l.text| else r.end - l.start
    ensures SelectedPart(l, p, q, j) == Clip(l.text, l.start, r)
  {
    hide Before;
  }

  /** The leaves' characters inside the captured range are those that the selection covers, each at its
      place, whatever syntax is hidden between them. */
  lemma {:induction false} CaptureExact(source: string, leaves: seq<SourceLine>, lo: nat, hi: nat, p: Point, q: Point,
                                        j: nat, r: Range)
    requires Mapped(source, leaves, lo, hi) && OnPage(leaves, p) && OnPage(leaves, q) && j <= |leaves|
    requires SourceEndpoint(leaves, p, false) == Some(r.start) && SourceEndpoint(leaves, q, true) == Some(r.end)
    ensures SelectedText(leaves, p, q, j) == Clips(leaves[j..], r)
    decreases |leaves| - j
  {
    hide Mapped, SelectedPart, Clip, OnPage;
    if j < |leaves| {
      PartIsClip(source, leaves, lo, hi, p, q, j, r);
      CaptureExact(source, leaves, lo, hi, p, q, j + 1, r);
      assert leaves[j..][1..] == leaves[j + 1..];
    }
  }

  // A slice of two parts put together, by where it lies.
  lemma {:induction false} SliceBefore(a: string, b: string, x: nat, y: nat)
    requires x <= y <= |a|
    ensures (a + b)[x..y] == a[x..y]
  {
  }

  lemma {:induction false} SliceAfter(a: string, b: string, x: nat, y: nat)
    requires |a| <= x <= y <= |a| + |b|
    ensures (a + b)[x..y] == b[x - |a|..y - |a|]
  {
  }

  lemma {:induction false} SliceAcross(a: string, b: string, x: nat, y: nat)
    requires x <= |a| <= y <= |a| + |b|
    ensures (a + b)[x..y] == a[x..] + b[..y - |a|]
  {
  }

  // The range ends before the seam, starts after it, or lies across it.
  lemma {:induction false} ClipBefore(a: string, b: string, lo: nat, r: Range)
    requires r.end <= lo + |a|
    ensures Clip(a + b, lo, r) == Clip(a, lo, r) && Clip(b, lo + |a|, r) == ""
  {
    var x := if r.start < lo then lo else r.start;
    if x < r.end { SliceBefore(a, b, x - lo, r.end - lo); }
  }

  lemma {:induction false} ClipAfter(a: string, b: string, lo: nat, r: Range)
    requires r.start >= lo + |a|
    ensures Clip(a + b, lo, r) == Clip(b, lo + |a|, r) && Clip(a, lo, r) == ""
  {
    var y := if r.end < lo + |a| + |b| then r.end else lo + |a| + |b|;
    if r.start < y { SliceAfter(a, b, r.start - lo, y - lo); }
  }

  lemma {:induction false} ClipAcross(a: string, b: string, lo: nat, r: Range)
    requires r.start < lo + |a| < r.end
    ensures Clip(a + b, lo, r) == Clip(a, lo, r) + Clip(b, lo + |a|, r)
  {
    var x := if r.start < lo then 0 else r.start - lo;
    var y := if r.end < lo + |a| + |b| then r.end - lo else |a| + |b|;
    assert |a + b| == |a| + |b|;
    assert Clip(a + b, lo, r) == (a + b)[x..y];
    assert Clip(a, lo, r) == a[x..|a|] == a[x..];
    assert Clip(b, lo + |a|, r) == b[..y - |a|] by {
      if b != "" { assert b[0..y - |a|] == b[..y - |a|]; }
    }
    hide Clip;
    SliceAcross(a, b, x, y);
  }

  lemma {:induction false} ClipConcat(a: string, b: string, lo: nat, r: Range)
    ensures Clip(a + b, lo, r) == Clip(a, lo, r) + Clip(b, lo + |a|, r)
  {
    hide Clip;
    if r.end <= lo + |a| {
      ClipBefore(a, b, lo, r);
    } else if r.start >= lo + |a| {
      ClipAfter(a, b, lo, r);
    } else {
      ClipAcross(a, b, lo, r);
    }
  }

  lemma {:induction false} ClipsConcat(a: seq<SourceLine>, b: seq<SourceLine>, r: Range)
    ensures Clips(a + b, r) == Clips(a, r) + Clips(b, r)
  {
    hide Clip;
    if a == [] {
      assert a + b == b;
    } else {
      assert (a + b)[1..] == a[1..] + b && (a + b)[0] == a[0];
      ClipsConcat(a[1..], b, r);
    }
  }

  // Cutting a fragment into pieces does not change what an annotation covers of it.
  lemma {:induction false} PiecesClip(runs: seq<Run>, lo: nat, hi: nat, r: Range)
    requires Abut(runs, lo, hi)
    ensures Clips(Lines(runs), r) == Clip(TextOf(Lines(runs)), lo, r)
  {
    hide Clip;
    if runs == [] {
      ClipNothing(lo, r);
    } else {
      PiecesClip(runs[1..], runs[0].line.End(), hi, r);
      assert Lines(runs)[1..] == Lines(runs[1..]);
      ClipConcat(runs[0].line.text, TextOf(Lines(runs[1..])), lo, r);
    }
  }

  lemma {:induction false} OverlayClips(fs: seq<SourceLine>, ranges: seq<Range>, pending: Option<Selection>, r: Range)
    ensures Clips(Lines(Overlay(fs, ranges, pending)), r) == Clips(fs, r)
  {
    hide Clip, RenderSource, Abut;
    if fs != [] {
      var runs, rest := RenderSource(fs[0], ranges, pending), Overlay(fs[1..], ranges, pending);
      FragmentOverlay(fs[0], ranges, pending);
      PiecesClip(runs, fs[0].start, fs[0].End(), r);
      OverlayClips(fs[1..], ranges, pending, r);
      LinesConcat(runs, rest);
      ClipsConcat(Lines(runs), Lines(rest), r);
    }
  }

  /** From selection to annotation and back: an annotation made of the captured range marks, in the view
      drawn with it, exactly the text that was selected in the view drawn without it. */
  lemma {:induction false} CapturedIsMarked(source: string, fs: seq<SourceLine>, lo: nat, hi: nat, ranges: seq<Range>,
                                            pending: Option<Selection>, p: Point, q: Point, after: seq<Range>, r: Range)
    requires Mapped(source, fs, lo, hi)
    requires OnPage(Lines(Overlay(fs, ranges, pending)), p) && OnPage(Lines(Overlay(fs, ranges, pending)), q)
    requires r in after && Captured(Lines(Overlay(fs, ranges, pending)), p, q) == Some(Selection(r.start, r.end))
    ensures Marked(Overlay(fs, after, None), r) == SelectedText(Lines(Overlay(fs, ranges, pending)), p, q, 0)
  {
    hide Mapped, Overlay, SelectedText, Clips, Marked, OnPage;
    var leaves := Lines(Overlay(fs, ranges, pending));
    ViewOverlay(source, fs, lo, hi, ranges, pending, r);
    ViewOverlay(source, fs, lo, hi, after, None, r);
    CaptureExact(source, leaves, lo, hi, p, q, 0, r);
    OverlayClips(fs, ranges, pending, r);
    assert leaves[0..] == leaves;
  }

  /** A selection of some visible text, with neither end in text that is no leaf, is always taken. */
  lemma {:induction false} SelectionTaken(source: string, leaves: seq<SourceLine>, lo: nat, hi: nat, p: Point, q: Point,
                                          j: nat)
    requires Mapped(source, leaves, lo, hi) && OnPage(leaves, p) && OnPage(leaves, q) && j < |leaves|
    requires SelectedPart(leaves[j], p, q, j) != "" && !p.InOther?
    ensures Captured(leaves, p, q).Some?
  {
    MappedElements(source, leaves, lo, hi);
    var start, end := SourceEndpoint(leaves, p, false), SourceEndpoint(leaves, q, true);
    assert start.Some? && end.Some?;
    BeforeIsClamped(leaves, p, false, j, start.value);
    BeforeIsClamped(leaves, q, true, j, end.value);
    hide Mapped, Before, SourceEndpoint, OnPage;
  }
}
