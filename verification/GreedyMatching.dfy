/** Matches found without backtracking. */
module GreedyMatching {
  import opened Options
  import opened Regex

  /** Every repetition takes all it can. */
  predicate TakesAll(items: Pattern, s: string, marks: seq<nat>) {
    && |marks| == |items| + 1 && Within(marks, s)
    && forall k | 0 <= k < |items| ::
         items[k].Rep? ==> items[k].greedy && marks[k + 1] == RunEnd(items[k].cls, s, marks[k], items[k].max)
  }

  /** A parse whose repetitions are greedy and each take all they can is the match. */
  lemma {:induction false} GreedyMatch(items: Pattern, s: string, marks: seq<nat>)
    requires Parses(items, s, marks) && TakesAll(items, s, marks)
    ensures MatchAt(items, s, marks[0]) == Some(marks)
  {
    hide MatchAt, RunEnd, Accepts;
    MatchIsPreferred(items, s, marks[0]);
    var r := MatchAt(items, s, marks[0]).value;
    forall k: nat ensures !DiffersFirst(items, r, marks, k) {
      if 0 < k <= |items| && items[k - 1].Rep? { RunIsLongest(items, s, r, k - 1); }
      assert 0 < k <= |r| && k <= |marks| && r[..k] == marks[..k] ==> r[k - 1] == marks[k - 1];
    }
  }

  lemma {:induction false} RunIsLongest(items: Pattern, s: string, marks: seq<nat>, k: nat)
    requires Parses(items, s, marks) && k < |items| && items[k].Rep?
    ensures marks[k] <= |s| && marks[k + 1] <= RunEnd(items[k].cls, s, marks[k], items[k].max)
  {
    assert Accepts(items, s, marks, k);
  }
}
