/** Trimming and searching strings as JavaScript does. */
module Strings {
  import opened Options
  import opened Regex

  /** The length of the white space a line starts with. */
  function Lead(s: string): nat { RunEnd(Space, s, 0, None) }

  function TrailEnd(s: string, from: nat, e: nat): (r: nat)
    requires from <= e <= |s|
    ensures from <= r <= e && (from < r ==> !IsSpace(s[r - 1])) && forall k | r <= k < e :: IsSpace(s[k])
  {
    if from < e && IsSpace(s[e - 1]) then TrailEnd(s, from, e - 1) else e
  }

  function Trim(s: string): string {
    var from := Lead(s);
    s[from..TrailEnd(s, from, |s|)]
  }

  /** What is left of the text when the white space at both ends is gone. */
  lemma {:induction false} TrimSplits(s: string)
    ensures var t, at := Trim(s), Lead(s);
            && at + |t| <= |s| && s[at..at + |t|] == t
            && (forall k | 0 <= k < at || at + |t| <= k < |s| :: IsSpace(s[k]))
            && (t != "" ==> !IsSpace(t[0]) && !IsSpace(t[|t| - 1]))
  {
  }

  predicate Blank(s: string) { Trim(s) == "" }

  predicate HasText(text: string) { exists k | 0 <= k < |text| :: !IsSpace(text[k]) }

  lemma {:induction false} BlankScanned(text: string)
    ensures Blank(text) <==> !HasText(text)
  {
    TrimSplits(text);
    if HasText(text) {
      var k :| 0 <= k < |text| && !IsSpace(text[k]);
      assert Lead(text) <= k;
    } else {
      assert Lead(text) == |text|;
    }
  }

  predicate OccursAt(hay: string, needle: string, at: nat) {
    at + |needle| <= |hay| && hay[at..at + |needle|] == needle
  }

  /** The first occurrence at or after `from`. */
  function IndexOf(hay: string, needle: string, from: nat): (r: Option<nat>)
    requires from <= |hay|
    ensures r.Some? ==> from <= r.value && OccursAt(hay, needle, r.value)
    ensures forall k | from <= k < (if r.Some? then r.value else |hay| + 1) :: !OccursAt(hay, needle, k)
    decreases |hay| - from
  {
    if OccursAt(hay, needle, from) then Some(from)
    else if from == |hay| then None
    else IndexOf(hay, needle, from + 1)
  }
}
