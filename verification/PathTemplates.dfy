/** The API client's path templating: placeholders are replaced one after the other, each time in the
    whole path so far. */
module PathTemplates {
  import opened Options
  import opened Strings
  import opened PercentEncoding

  /** A template in pieces: plain text, and placeholders "{name}". */
  datatype Piece = Text(text: string) | Hole(name: string)

  function Placeholder(name: string): string { "{" + name + "}" }

  function Shown(p: Piece): string { if p.Text? then p.text else Placeholder(p.name) }

  function Render(ps: seq<Piece>): string { if ps == [] then "" else Shown(ps[0]) + Render(ps[1..]) }

  predicate NoBraces(s: string) { forall k | 0 <= k < |s| :: s[k] != '{' && s[k] != '}' }

  predicate WellFormed(ps: seq<Piece>) {
    forall k | 0 <= k < |ps| :: if ps[k].Text? then NoBraces(ps[k].text) else NoBraces(ps[k].name) && ps[k].name != ""
  }

  /** No name has two placeholders. */
  predicate Distinct(ps: seq<Piece>) {
    forall j, k | 0 <= j < k < |ps| && ps[j].Hole? && ps[k].Hole? :: ps[j].name != ps[k].name
  }

  datatype Arg = Arg(name: string, value: string)

  /** Replaces the first occurrence, if there is one. The replacement is inserted as it stands, because an
      encoded value has none of the patterns that start with a dollar sign. */
  function ReplaceFirst(path: string, what: string, with: string): string {
    var at := IndexOf(path, what, 0);
    if at.None? then path else path[..at.value] + with + path[at.value + |what|..]
  }

  function FillAll(path: string, args: seq<Arg>): string
    decreases |args|
  {
    if args == [] then path
    else FillAll(ReplaceFirst(path, Placeholder(args[0].name), Encode(args[0].value)), args[1..])
  }

  /** A placeholder is left: an opening brace, something else than a closing one, a closing brace. */
  predicate HasPlaceholder(path: string) {
    exists i, j | 0 <= i < j - 1 < |path| - 1 ::
      path[i] == '{' && path[j] == '}' && forall k | i < k < j :: path[k] != '}'
  }

  datatype Filled = Path(path: string) | MissingParameter

  /** The path of a request: every argument in turn, then the check that nothing is missing. */
  method FillPath(pattern: string, args: seq<Arg>) returns (r: Filled)
    ensures r == if HasPlaceholder(FillAll(pattern, args)) then MissingParameter else Path(FillAll(pattern, args))
  {
    hide ReplaceFirst, Encode, HasPlaceholder;
    var path := pattern;
    for i := 0 to |args|
      invariant FillAll(pattern, args) == FillAll(path, args[i..])
    {
      path := ReplaceFirst(path, Placeholder(args[i].name), Encode(args[i].value));
    }
    r := if HasPlaceholder(path) then MissingParameter else Path(path);
  }

  // ---------------------------------------------------------------- the reference: all at once

  function ValueOf(args: seq<Arg>, name: string): Option<string> {
    if args == [] then None else if args[0].name == name then Some(args[0].value) else ValueOf(args[1..], name)
  }

  /** Every placeholder that has an argument gives way to its encoded value, independently of the others. */
  function Substitute(ps: seq<Piece>, args: seq<Arg>): seq<Piece> {
    seq(|ps|, k requires 0 <= k < |ps| =>
      if ps[k].Hole? && ValueOf(args, ps[k].name).Some? then Text(Encode(ValueOf(args, ps[k].name).value)) else ps[k])
  }

  function One(ps: seq<Piece>, name: string, with: string): seq<Piece> {
    seq(|ps|, k requires 0 <= k < |ps| => if ps[k] == Hole(name) then Text(with) else ps[k])
  }

  // ---------------------------------------------------------------- one replacement

  lemma {:induction false} ReplaceAt(path: string, what: string, with: string, before: string, after: string)
    requires what != "" && path == before + what + after
    requires forall k | 0 <= k < |before| :: !OccursAt(path, what, k)
    ensures ReplaceFirst(path, what, with) == before + with + after
  {
    assert path[|before|..|before| + |what|] == what;
    assert OccursAt(path, what, |before|);
    assert path[..|before|] == before && path[|before| + |what|..] == after;
  }

  lemma {:induction false} ReplaceNone(path: string, what: string, with: string)
    requires forall k | 0 <= k <= |path| :: !OccursAt(path, what, k)
    ensures ReplaceFirst(path, what, with) == path
  {
  }

  lemma {:induction false} OccurrenceChars(path: string, what: string, k: nat, j: nat)
    ensures OccursAt(path, what, k) && j < |what| ==> k + j < |path| && path[k + j] == what[j]
  {
    assert OccursAt(path, what, k) && j < |what| ==> path[k..k + |what|][j] == path[k + j];
  }

  // A placeholder starts with an opening brace.
  lemma {:induction false} NoBraceNoPlaceholder(path: string, name: string, k: nat)
    requires k < |path| ==> path[k] != '{'
    ensures !OccursAt(path, Placeholder(name), k)
  {
    OccurrenceChars(path, Placeholder(name), k, 0);
  }

  // Two placeholders that start at the same place are the same.
  lemma {:induction false} OtherPlaceholder(path: string, name: string, other: string, rest: string)
    requires path == Placeholder(other) + rest && NoBraces(name) && NoBraces(other) && name != other
    ensures !OccursAt(path, Placeholder(name), 0)
  {
    var p, q := Placeholder(name), Placeholder(other);
    var j: nat;
    if |name| < |other| {
      j := |name| + 1;
      assert q[j] == other[|name|];
    } else if |other| < |name| {
      j := |other| + 1;
      assert p[j] == name[|other|];
    } else {
      var k: nat :| k < |name| && name[k] != other[k];
      j := k + 1;
    }
    assert p[j] != q[j] && path[j] == q[j];
    OccurrenceChars(path, p, 0, j);
  }

  lemma {:induction false} TailForm(ps: seq<Piece>)
    requires ps != [] && WellFormed(ps) && Distinct(ps)
    ensures WellFormed(ps[1..]) && Distinct(ps[1..]) && WellFormed([ps[0]])
  {
  }

  lemma {:induction false} OneTail(ps: seq<Piece>, name: string, with: string)
    requires ps != []
    ensures One(ps, name, with) == [if ps[0] == Hole(name) then Text(with) else ps[0]] + One(ps[1..], name, with)
  {
  }

  lemma {:induction false} OneAbsent(ps: seq<Piece>, name: string, with: string)
    requires Distinct(ps) && ps != [] && ps[0] == Hole(name)
    ensures One(ps[1..], name, with) == ps[1..]
  {
    forall k | 0 <= k < |ps| - 1 ensures ps[1..][k] != Hole(name) { assert ps[1..][k] == ps[k + 1]; }
  }

  lemma {:induction false} RenderCons(p: Piece, ps: seq<Piece>)
    ensures Render([p] + ps) == Shown(p) + Render(ps)
  {
    assert ([p] + ps)[1..] == ps;
  }

  /** One replacement fills the one placeholder of that name, if the template has it. */
  lemma {:induction false} FirstPlaceholder(ps: seq<Piece>, name: string, with: string)
    requires WellFormed(ps) && Distinct(ps) && NoBraces(name) && name != ""
    ensures ReplaceFirst(Render(ps), Placeholder(name), with) == Render(One(ps, name, with))
    decreases |ps|
  {
    hide ReplaceFirst, Render, One, Distinct, WellFormed, NoBraces, OccursAt;
    var what := Placeholder(name);
    if ps == [] {
      NothingToReplace(name, with);
    } else {
      var p, rest := ps[0], ps[1..];
      TailForm(ps);
      OneTail(ps, name, with);
      assert ps == [p] + rest;
      RenderCons(p, rest);
      RenderCons(if p == Hole(name) then Text(with) else p, One(rest, name, with));
      if p == Hole(name) {
        OneAbsent(ps, name, with);
        assert "" + what + Render(rest) == what + Render(rest) && "" + with + Render(rest) == with + Render(rest);
        ReplaceAt(Render(ps), what, with, "", Render(rest));
      } else {
        FirstPlaceholder(rest, name, with);
        SkipPiece(p, Render(rest), name, with);
      }
    }
  }

  lemma {:induction false} NothingToReplace(name: string, with: string)
    ensures ReplaceFirst(Render([]), Placeholder(name), with) == Render(One([], name, with))
  {
    NoBraceNoPlaceholder("", name, 0);
  }

  // A piece that is not the placeholder is stepped over.
  lemma {:induction false} SkipPiece(p: Piece, rest: string, name: string, with: string)
    requires WellFormed([p]) && NoBraces(name) && p != Hole(name)
    ensures ReplaceFirst(Shown(p) + rest, Placeholder(name), with)
            == Shown(p) + ReplaceFirst(rest, Placeholder(name), with)
  {
    hide OccursAt, ReplaceFirst;
    var what, path, n := Placeholder(name), Shown(p) + rest, |Shown(p)|;
    assert [p][0] == p;
    forall k | 0 <= k < n ensures !OccursAt(path, what, k) {
      assert path[k] == Shown(p)[k];
      if p.Hole? && k == 0 { OtherPlaceholder(path, name, p.name, rest); } else { NoBraceNoPlaceholder(path, name, k); }
    }
    ShiftedSearch(Shown(p), rest, what, with);
  }

  lemma {:induction false} OccursShift(before: string, rest: string, what: string, k: nat)
    ensures OccursAt(before + rest, what, |before| + k) <==> OccursAt(rest, what, k)
  {
    var path, n := before + rest, |before|;
    assert k + |what| <= |rest| ==> path[n + k..n + k + |what|] == rest[k..k + |what|];
  }

  lemma {:induction false} ShiftedSearch(before: string, rest: string, what: string, with: string)
    requires what != "" && forall k | 0 <= k < |before| :: !OccursAt(before + rest, what, k)
    ensures ReplaceFirst(before + rest, what, with) == before + ReplaceFirst(rest, what, with)
  {
    hide OccursAt;
    var path, n := before + rest, |before|;
    var at := IndexOf(rest, what, 0);
    if at.None? {
      forall k | 0 <= k <= |path| ensures !OccursAt(path, what, k) {
        if k >= n { OccursShift(before, rest, what, k - n); }
      }
      ReplaceNone(path, what, with);
    } else {
      forall k | 0 <= k < n + at.value ensures !OccursAt(path, what, k) {
        if k >= n { OccursShift(before, rest, what, k - n); }
      }
      ShiftedFind(before, rest, what, with, at.value);
    }
  }

  lemma {:induction false} ShiftedFind(before: string, rest: string, what: string, with: string, at: nat)
    requires what != "" && OccursAt(rest, what, at)
    requires forall k | 0 <= k < |before| + at :: !OccursAt(before + rest, what, k)
    ensures ReplaceFirst(before + rest, what, with) == before + (rest[..at] + with + rest[at + |what|..])
  {
    var head, tail := rest[..at], rest[at + |what|..];
    SplitAt(rest, what, at);
    Regroup(before, head, what, tail);
    Regroup(before, head, with, tail);
    hide OccursAt, ReplaceFirst;
    ReplaceAt(before + rest, what, with, before + head, tail);
  }

  lemma {:induction false} SplitAt(s: string, what: string, at: nat)
    requires OccursAt(s, what, at)
    ensures s == s[..at] + what + s[at + |what|..]
  {
  }

  lemma {:induction false} Regroup(a: string, b: string, c: string, d: string)
    ensures a + (b + c + d) == a + b + c + d
  {
  }

  // ---------------------------------------------------------------- all replacements

  predicate DistinctArgs(args: seq<Arg>) {
    && (forall j, k | 0 <= j < k < |args| :: args[j].name != args[k].name)
    && (forall k | 0 <= k < |args| :: NoBraces(args[k].name) && args[k].name != "")
  }

  lemma {:induction false} EncodedNoBraces(value: string)
    ensures NoBraces(Encode(value))
  {
    hide Encode;
    EncodedPlain(value);
    var s := Encode(value);
    forall k | 0 <= k < |s| ensures s[k] != '{' && s[k] != '}' { assert s[k] in s; }
  }

  lemma {:induction false} OneKeeps(ps: seq<Piece>, name: string, with: string)
    requires WellFormed(ps) && Distinct(ps) && NoBraces(with)
    ensures WellFormed(One(ps, name, with)) && Distinct(One(ps, name, with))
  {
  }

  lemma {:induction false} ValueOfAbsent(args: seq<Arg>, name: string)
    requires forall k | 0 <= k < |args| :: args[k].name != name
    ensures ValueOf(args, name).None?
  {
    if args != [] { ValueOfAbsent(args[1..], name); }
  }

  lemma {:induction false} SubstituteStep(ps: seq<Piece>, args: seq<Arg>)
    requires args != [] && DistinctArgs(args)
    ensures Substitute(One(ps, args[0].name, Encode(args[0].value)), args[1..]) == Substitute(ps, args)
  {
    hide Encode;
    ValueOfAbsent(args[1..], args[0].name);
  }

  lemma {:induction false} FillsAll(ps: seq<Piece>, args: seq<Arg>)
    requires WellFormed(ps) && Distinct(ps) && DistinctArgs(args)
    ensures FillAll(Render(ps), args) == Render(Substitute(ps, args))
    decreases |args|
  {
    hide Encode, ReplaceFirst;
    if args == [] {
      assert Substitute(ps, args) == ps;
    } else {
      var name, with := args[0].name, Encode(args[0].value);
      EncodedNoBraces(args[0].value);
      FirstPlaceholder(ps, name, with);
      OneKeeps(ps, name, with);
      SubstituteStep(ps, args);
      FillsAll(One(ps, name, with), args[1..]);
    }
  }

  // ---------------------------------------------------------------- the check for missing parameters

  predicate HasHole(ps: seq<Piece>) { exists k | 0 <= k < |ps| :: ps[k].Hole? }

  lemma {:induction false} NoHoleNoBrace(ps: seq<Piece>)
    requires WellFormed(ps) && !HasHole(ps)
    ensures NoBraces(Render(ps))
  {
    if ps != [] {
      assert ps[0].Text?;
      forall k | 0 <= k < |ps[1..]| ensures !ps[1..][k].Hole? { assert ps[1..][k] == ps[k + 1]; }
      NoHoleNoBrace(ps[1..]);
    }
  }

  lemma {:induction false} HoleAtStart(name: string, rest: string)
    requires NoBraces(name) && name != ""
    ensures HasPlaceholder(Placeholder(name) + rest)
  {
    var path, n := Placeholder(name) + rest, |name|;
    assert path[0] == '{' && path[n + 1] == '}';
    assert forall k | 0 < k < n + 1 :: path[k] == name[k - 1];
  }

  lemma {:induction false} HoleShifted(before: string, rest: string)
    requires HasPlaceholder(rest)
    ensures HasPlaceholder(before + rest)
  {
    var i, j :| 0 <= i < j - 1 < |rest| - 1 && rest[i] == '{' && rest[j] == '}'
                && forall k | i < k < j :: rest[k] != '}';
    var path, n := before + rest, |before|;
    assert path[n + i] == '{' && path[n + j] == '}';
    assert forall k | n + i < k < n + j :: path[k] == rest[k - n];
  }

  lemma {:induction false} HoleShows(ps: seq<Piece>)
    requires WellFormed(ps) && HasHole(ps)
    ensures HasPlaceholder(Render(ps))
  {
    hide HasPlaceholder;
    if ps[0].Hole? {
      HoleAtStart(ps[0].name, Render(ps[1..]));
    } else {
      var h :| 0 <= h < |ps| && ps[h].Hole?;
      assert ps[1..][h - 1] == ps[h];
      HoleShows(ps[1..]);
      HoleShifted(Shown(ps[0]), Render(ps[1..]));
    }
  }

  /** For every template without repeated placeholders and every set of arguments: replacing one after the
      other is substituting all at once, and the request fails exactly when a placeholder has no argument. */
  lemma {:induction false} TemplatesFill(ps: seq<Piece>, args: seq<Arg>)
    requires WellFormed(ps) && Distinct(ps) && DistinctArgs(args)
    ensures FillAll(Render(ps), args) == Render(Substitute(ps, args))
    ensures HasPlaceholder(FillAll(Render(ps), args)) <==>
            exists k | 0 <= k < |ps| :: ps[k].Hole? && ValueOf(args, ps[k].name).None?
  {
    hide Encode, HasPlaceholder;
    var filled := Substitute(ps, args);
    FillsAll(ps, args);
    forall k | 0 <= k < |filled| && filled[k].Text? ensures NoBraces(filled[k].text) {
      if ps[k].Hole? { EncodedNoBraces(ValueOf(args, ps[k].name).value); }
    }
    if HasHole(filled) {
      HoleShows(filled);
      var k :| 0 <= k < |filled| && filled[k].Hole?;
      assert ps[k].Hole? && ValueOf(args, ps[k].name).None?;
    } else {
      NoHoleNoBrace(filled);
      NoBracesNoPlaceholder(Render(filled));
      forall k | 0 <= k < |ps| && ps[k].Hole? ensures ValueOf(args, ps[k].name).Some? { assert !filled[k].Hole?; }
    }
  }

  lemma {:induction false} NoBracesNoPlaceholder(path: string)
    requires NoBraces(path)
    ensures !HasPlaceholder(path)
  {
  }

  /** A placeholder is the name in braces: for example, in a path with one parameter. */
  lemma {:induction false} OneParameter(before: string, name: string, after: string, value: string)
    requires NoBraces(before) && NoBraces(name) && name != "" && NoBraces(after)
    ensures FillAll(before + "{" + name + "}" + after, [Arg(name, value)]) == before + Encode(value) + after
  {
    hide Encode;
    var what, path := Placeholder(name), before + "{" + name + "}" + after;
    assert path == before + what + after;
    forall k | 0 <= k < |before| ensures !OccursAt(path, what, k) {
      assert path[k] == before[k];
      NoBraceNoPlaceholder(path, name, k);
    }
    ReplaceAt(path, what, Encode(value), before, after);
    assert [Arg(name, value)][1..] == [];
  }
}
