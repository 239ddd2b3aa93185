/** The dashboard's routes: matching a path, and the links that name a route. */
module Routes {
  import opened Options
  import opened PercentEncoding

  datatype Segment = Literal(text: string) | Hole(name: string)

  datatype Route = Route(id: string, segments: seq<Segment>)

  /** The route table, in the order in which it is tried; every path starts with "/". */
  const Table: seq<Route> := [
    Route("board", [Literal("board")]),
    Route("tickets", [Literal("tickets")]),
    Route("readiness", [Literal("work"), Hole("workId"), Literal("run"), Hole("runId"), Literal("readiness")]),
    Route("run", [Literal("work"), Hole("workId"), Literal("run"), Hole("runId")]),
    Route("work", [Literal("work"), Hole("workId")]),
    Route("artifact-review", [Literal("checkpoints"), Hole("approvalId"), Literal("review")]),
    Route("checkpoints", [Literal("checkpoints")]),
    Route("agents", [Literal("agents")]),
    Route("workflows", [Literal("workflows")]),
    Route("templates", [Literal("templates")]),
    Route("settings", [Literal("settings")]),
    Route("artifacts", [Literal("artifacts")]),
    Route("artifact", [Literal("artifacts"), Hole("artifactId")])
  ]

  // ---------------------------------------------------------------- matching

  /** The text up to the next slash, and where it ends. */
  function SegmentEnd(path: string, i: nat): (e: nat)
    requires i <= |path|
    ensures i <= e <= |path| && (forall k | i <= k < e :: path[k] != '/') && (e < |path| ==> path[e] == '/')
    decreases |path| - i
  {
    if i < |path| && path[i] != '/' then SegmentEnd(path, i + 1) else i
  }

  /** The anchored expression of a route, from the slash at i on: a literal stands for itself, a hole for
      one or more characters other than a slash. The values of the holes, still encoded. */
  function MatchFrom(segments: seq<Segment>, path: string, i: nat): Option<seq<string>>
    requires i <= |path|
  {
    if segments == [] then if i == |path| then Some([]) else None
    else if i == |path| || path[i] != '/' then None
    else
      var e := SegmentEnd(path, i + 1);
      var text := path[i + 1..e];
      match segments[0]
      case Literal(t) => if text == t then MatchFrom(segments[1..], path, e) else None
      case Hole(_) =>
        var rest := MatchFrom(segments[1..], path, e);
        if text != "" && rest.Some? then Some([text] + rest.value) else None
  }

  function Normalized(path: string): string {
    if path != "/" && path != "" && path[|path| - 1] == '/' then path[..|path| - 1] else path
  }

  function DecodeAll(values: seq<string>): Option<seq<string>> {
    if values == [] then Some([])
    else
      var first, rest := Decode(values[0]), DecodeAll(values[1..]);
      if first.Some? && rest.Some? then Some([first.value] + rest.value) else None
  }

  /** What a path leads to: a route of the table and its parameters, no page, or an error if a parameter
      is not validly encoded. */
  datatype Match = Found(index: nat, params: seq<string>) | NotFound | Malformed

  function FirstMatch(path: string, k: nat): Match
    requires k <= |Table|
    decreases |Table| - k
  {
    if k == |Table| then NotFound
    else
      var values := MatchFrom(Table[k].segments, path, 0);
      if values.None? then FirstMatch(path, k + 1)
      else
        var params := DecodeAll(values.value);
        if params.None? then Malformed else Found(k, params.value)
  }

  function MatchRoute(path: string): Match {
    var normalized := Normalized(path);
    if normalized == "/" then Found(0, []) else FirstMatch(normalized, 0)
  }

  /** The lookup as it runs. */
  method FindRoute(path: string) returns (m: Match)
    ensures m == MatchRoute(path)
  {
    hide MatchFrom, DecodeAll;
    var normalized := Normalized(path);
    if normalized == "/" { return Found(0, []); }
    for k := 0 to |Table|
      invariant FirstMatch(normalized, 0) == FirstMatch(normalized, k)
    {
      var values := MatchFrom(Table[k].segments, normalized, 0);
      if values.Some? {
        var params := DecodeAll(values.value);
        return if params.None? then Malformed else Found(k, params.value);
      }
    }
    m := NotFound;
  }

  // ---------------------------------------------------------------- the patterns are disjoint

  /** Two routes that differ in length or in their first word match no common path. */
  lemma {:induction false} SameLength(a: seq<Segment>, b: seq<Segment>, path: string, i: nat)
    requires i <= |path| && MatchFrom(a, path, i).Some? && MatchFrom(b, path, i).Some?
    ensures |a| == |b|
  {
    if a != [] && b != [] {
      SameLength(a[1..], b[1..], path, SegmentEnd(path, i + 1));
    }
  }

  function FirstWord(r: Route): string {
    if r.segments != [] && r.segments[0].Literal? then r.segments[0].text else ""
  }

  lemma {:induction false} SameFirstWord(a: Route, b: Route, path: string)
    requires a.segments != [] && b.segments != [] && a.segments[0].Literal? && b.segments[0].Literal?
    requires MatchFrom(a.segments, path, 0).Some? && MatchFrom(b.segments, path, 0).Some?
    ensures FirstWord(a) == FirstWord(b) && |a.segments| == |b.segments|
  {
    SameLength(a.segments, b.segments, path, 0);
  }

  lemma {:induction false} TableIsDistinct(j: nat, k: nat)
    requires j < |Table| && k < |Table| && FirstWord(Table[j]) == FirstWord(Table[k])
             && |Table[j].segments| == |Table[k].segments|
    ensures j == k
  {
    var words := seq(|Table|, i requires 0 <= i < |Table| => FirstWord(Table[i]));
    assert words == ["board", "tickets", "work", "work", "work", "checkpoints", "checkpoints", "agents", "workflows",
                     "templates", "settings", "artifacts", "artifacts"];
    assert "board"[0] == 'b' && "tickets"[0] == 't' && "tickets"[1] == 'i' && "templates"[0] == 't'
           && "templates"[1] == 'e';
    assert |"work"| == 4 && |"workflows"| == 9 && "workflows"[0] == 'w' && "work"[0] == 'w';
    assert "checkpoints"[0] == 'c' && "settings"[0] == 's';
    assert "agents"[0] == 'a' && "agents"[1] == 'g' && "artifacts"[0] == 'a' && "artifacts"[1] == 'r';
  }

  lemma {:induction false} TableShape(k: nat)
    requires k < |Table|
    ensures Table[k].segments != [] && Table[k].segments[0].Literal?
  {
  }

  /** No path matches two routes, so the order of the table does not matter. */
  lemma {:induction false} RoutesAreDisjoint(path: string, j: nat, k: nat)
    requires j < |Table| && k < |Table|
    requires MatchFrom(Table[j].segments, path, 0).Some? && MatchFrom(Table[k].segments, path, 0).Some?
    ensures j == k
  {
    hide MatchFrom;
    TableShape(j);
    TableShape(k);
    SameFirstWord(Table[j], Table[k], path);
    TableIsDistinct(j, k);
  }

  /** Any route that matches is the one that is found. */
  lemma {:induction false} OnlyMatch(path: string, j: nat, k: nat, values: seq<string>)
    requires j <= k < |Table| && MatchFrom(Table[k].segments, path, 0) == Some(values)
    ensures FirstMatch(path, j) == if DecodeAll(values).Some? then Found(k, DecodeAll(values).value) else Malformed
    decreases |Table| - j
  {
    hide MatchFrom;
    if MatchFrom(Table[j].segments, path, 0).Some? {
      RoutesAreDisjoint(path, j, k);
    } else {
      OnlyMatch(path, j + 1, k, values);
    }
  }

  // ---------------------------------------------------------------- links

  function Holes(segments: seq<Segment>): nat {
    if segments == [] then 0 else (if segments[0].Hole? then 1 else 0) + Holes(segments[1..])
  }

  /** The link to a route: every id is encoded into its place. */
  function Link(segments: seq<Segment>, ids: seq<string>): string
    requires |ids| == Holes(segments)
  {
    if segments == [] then ""
    else match segments[0]
      case Literal(t) => "/" + t + Link(segments[1..], ids)
      case Hole(_) => "/" + Encode(ids[0]) + Link(segments[1..], ids[1..])
  }

  predicate PlainText(s: string) { s != "" && forall k | 0 <= k < |s| :: s[k] != '/' }

  predicate PlainLiterals(segments: seq<Segment>) {
    forall k | 0 <= k < |segments| :: segments[k].Literal? ==> PlainText(segments[k].text)
  }

  predicate NonEmpty(ids: seq<string>) { forall k | 0 <= k < |ids| :: ids[k] != "" }

  lemma {:induction false} EncodedIsPlain(id: string)
    requires id != ""
    ensures PlainText(Encode(id))
  {
    hide Encode;
    EncodedPlain(id);
    var s := Encode(id);
    forall k | 0 <= k < |s| ensures s[k] != '/' { assert s[k] in s; }
  }

  function EncodeAll(ids: seq<string>): seq<string> {
    if ids == [] then [] else [Encode(ids[0])] + EncodeAll(ids[1..])
  }

  lemma {:induction false} DecodesAll(ids: seq<string>)
    ensures DecodeAll(EncodeAll(ids)) == Some(ids)
  {
    hide Encode, Decode;
    if ids != [] {
      RoundTrip(ids[0]);
      DecodesAll(ids[1..]);
      assert [ids[0]] + ids[1..] == ids;
    }
  }

  // A segment that starts after a slash and is followed by another slash, or by the end.
  lemma {:induction false} SegmentAt(path: string, i: nat, text: string)
    requires i + 1 + |text| <= |path| && path[i + 1..i + 1 + |text|] == text && PlainText(text)
    requires i + 1 + |text| < |path| ==> path[i + 1 + |text|] == '/'
    ensures SegmentEnd(path, i + 1) == i + 1 + |text|
  {
    var e := SegmentEnd(path, i + 1);
    forall k | i + 1 <= k < i + 1 + |text| ensures path[k] != '/' { assert path[k] == text[k - (i + 1)]; }
  }

  lemma {:induction false} LinkStart(segments: seq<Segment>, ids: seq<string>)
    requires |ids| == Holes(segments)
    ensures segments != [] ==> Link(segments, ids) != "" && Link(segments, ids)[0] == '/'
  {
  }

  lemma {:induction false} MatchStep(segments: seq<Segment>, path: string, i: nat, text: string)
    requires segments != [] && i + 1 + |text| <= |path| && path[i] == '/' && text != ""
    requires path[i + 1..i + 1 + |text|] == text && SegmentEnd(path, i + 1) == i + 1 + |text|
    requires segments[0].Literal? ==> segments[0].text == text
    ensures var rest := MatchFrom(segments[1..], path, i + 1 + |text|);
            MatchFrom(segments, path, i) == if rest.None? then None
                                            else if segments[0].Literal? then rest else Some([text] + rest.value)
  {
  }

  lemma {:induction false} Tails(segments: seq<Segment>, ids: seq<string>)
    requires segments != [] && |ids| == Holes(segments) && PlainLiterals(segments) && NonEmpty(ids)
    ensures var rest := if segments[0].Hole? then ids[1..] else ids;
            |rest| == Holes(segments[1..]) && PlainLiterals(segments[1..]) && NonEmpty(rest)
    ensures segments[0].Literal? ==> PlainText(segments[0].text)
    ensures segments[0].Hole? ==> PlainText(Encode(ids[0]))
  {
    hide Encode, PlainText;
    if segments[0].Hole? { EncodedIsPlain(ids[0]); }
  }

  lemma {:induction false} LinkMatches(segments: seq<Segment>, ids: seq<string>, path: string, i: nat)
    requires |ids| == Holes(segments) && PlainLiterals(segments) && NonEmpty(ids)
    requires i <= |path| && path[i..] == Link(segments, ids)
    ensures MatchFrom(segments, path, i) == Some(EncodeAll(ids))
  {
    hide Encode, PlainLiterals, NonEmpty, SegmentEnd, MatchFrom, Link, EncodeAll;
    if segments == [] {
      LinkNone(ids, path, i);
    } else {
      Tails(segments, ids);
      LinkSplit(segments, ids, path, i);
      var hole := segments[0].Hole?;
      var text := if hole then Encode(ids[0]) else segments[0].text;
      LinkMatches(segments[1..], if hole then ids[1..] else ids, path, i + 1 + |text|);
      MatchStep(segments, path, i, text);
      EncodesFirst(ids);
    }
  }

  lemma {:induction false} EncodesFirst(ids: seq<string>)
    ensures ids != [] ==> EncodeAll(ids) == [Encode(ids[0])] + EncodeAll(ids[1..])
  {
  }

  lemma {:induction false} LinkNone(ids: seq<string>, path: string, i: nat)
    requires |ids| == Holes([]) && i <= |path| && path[i..] == Link([], ids)
    ensures MatchFrom([], path, i) == Some(EncodeAll(ids))
  {
    assert |path[i..]| == |path| - i;
  }

  lemma {:induction false} LinkSplit(segments: seq<Segment>, ids: seq<string>, path: string, i: nat)
    requires segments != [] && |ids| == Holes(segments) && PlainLiterals(segments) && NonEmpty(ids)
    requires i <= |path| && path[i..] == Link(segments, ids)
    ensures var hole := segments[0].Hole?;
            var text := if hole then Encode(ids[0]) else segments[0].text;
            var next := i + 1 + |text|;
            && text != "" && next <= |path| && path[i] == '/' && path[i + 1..next] == text
            && SegmentEnd(path, i + 1) == next
            && |if hole then ids[1..] else ids| == Holes(segments[1..])
            && path[next..] == Link(segments[1..], if hole then ids[1..] else ids)
  {
    hide Encode, PlainLiterals, NonEmpty, SegmentEnd;
    Tails(segments, ids);
    var hole := segments[0].Hole?;
    var text := if hole then Encode(ids[0]) else segments[0].text;
    var rest := if hole then ids[1..] else ids;
    LinkStart(segments[1..], rest);
    SplitLink(path, i, text, Link(segments[1..], rest));
    SegmentAt(path, i, text);
  }

  lemma {:induction false} SplitLink(path: string, i: nat, text: string, tail: string)
    requires i <= |path| && path[i..] == "/" + text + tail
    ensures i + 1 + |text| + |tail| == |path| && path[i] == '/'
    ensures path[i + 1..i + 1 + |text|] == text && path[i + 1 + |text|..] == tail
    ensures tail != "" ==> path[i + 1 + |text|] == tail[0]
  {
    var n := |text|;
    assert |path[i..]| == 1 + n + |tail|;
    assert path[i] == path[i..][0];
    assert path[i + 1..i + 1 + n] == path[i..][1..1 + n] == text;
    assert path[i + 1 + n..] == path[i..][1 + n..] == tail;
  }

  lemma {:induction false} WordsArePlain()
    ensures PlainText("board") && PlainText("tickets") && PlainText("work") && PlainText("run")
            && PlainText("readiness")
    ensures PlainText("checkpoints") && PlainText("review") && PlainText("agents") && PlainText("workflows")
    ensures PlainText("templates") && PlainText("settings") && PlainText("artifacts")
  {
  }

  lemma {:induction false} TableIsPlain(k: nat)
    requires k < |Table|
    ensures PlainLiterals(Table[k].segments)
  {
    WordsArePlain();
    hide PlainText;
  }

  lemma {:induction false} LinkEnd(segments: seq<Segment>, ids: seq<string>)
    requires |ids| == Holes(segments) && PlainLiterals(segments) && NonEmpty(ids) && segments != []
    ensures |Link(segments, ids)| >= 2 && Link(segments, ids)[|Link(segments, ids)| - 1] != '/'
  {
    hide Encode;
    var hole := segments[0].Hole?;
    var text := if hole then Encode(ids[0]) else segments[0].text;
    var rest := if hole then ids[1..] else ids;
    if hole { EncodedIsPlain(ids[0]); }
    var tail := Link(segments[1..], rest);
    assert Link(segments, ids) == "/" + text + tail;
    if |segments| > 1 { LinkEnd(segments[1..], rest); } else { assert tail == ""; }
  }

  /** The link to any route, with any non-empty ids, leads back to that route and those ids, with or
      without a slash at the end. */
  lemma {:induction false} LinkRoundTrip(k: nat, ids: seq<string>)
    requires k < |Table| && |ids| == Holes(Table[k].segments) && NonEmpty(ids)
    ensures MatchRoute(Link(Table[k].segments, ids)) == Found(k, ids)
    ensures MatchRoute(Link(Table[k].segments, ids) + "/") == Found(k, ids)
  {
    TableShape(k);
    TableIsPlain(k);
    RoundTripOf(k, Table[k].segments, ids);
  }

  lemma {:induction false} RoundTripOf(k: nat, segments: seq<Segment>, ids: seq<string>)
    requires k < |Table| && segments == Table[k].segments
    requires segments != [] && PlainLiterals(segments) && |ids| == Holes(segments) && NonEmpty(ids)
    ensures MatchRoute(Link(segments, ids)) == Found(k, ids) && MatchRoute(Link(segments, ids) + "/") == Found(k, ids)
  {
    hide Link, MatchFrom, FirstMatch, PlainLiterals, NonEmpty, Holes, EncodeAll, DecodeAll;
    var path := Link(segments, ids);
    LinkEnd(segments, ids);
    assert path[0..] == path;
    LinkMatches(segments, ids, path, 0);
    DecodesAll(ids);
    OnlyMatch(path, 0, k, EncodeAll(ids));
    assert (path + "/")[..|path|] == path;
  }

  // ---------------------------------------------------------------- exactly which paths lead where

  /** A path with these texts in the places of the holes. */
  function Fill(segments: seq<Segment>, values: seq<string>): string
    requires |values| == Holes(segments)
  {
    if segments == [] then ""
    else match segments[0]
      case Literal(t) => "/" + t + Fill(segments[1..], values)
      case Hole(_) => "/" + values[0] + Fill(segments[1..], values[1..])
  }

  predicate PlainValues(values: seq<string>) { forall k | 0 <= k < |values| :: PlainText(values[k]) }

  /** A path matches the segments with exactly the texts that fill them to it. */
  lemma {:induction false} MatchExactly(segments: seq<Segment>, path: string, i: nat, values: seq<string>)
    requires i <= |path| && PlainLiterals(segments)
    ensures MatchFrom(segments, path, i) == Some(values) <==>
            && |values| == Holes(segments) && PlainValues(values)
            && path[i..] == Fill(segments, values)
    decreases |segments|
  {
    hide PlainLiterals, PlainText;
    if segments == [] {
      MatchNothing(path, i, values);
    } else {
      RestIsPlain(segments);
      if MatchFrom(segments, path, i) == Some(values) { MatchFills(segments, path, i, values); }
      if |values| == Holes(segments) && PlainValues(values) && path[i..] == Fill(segments, values) {
        FillMatches(segments, path, i, values);
      }
    }
  }

  lemma {:induction false} MatchNothing(path: string, i: nat, values: seq<string>)
    requires i <= |path|
    ensures MatchFrom([], path, i) == Some(values) <==> |values| == Holes([]) && path[i..] == Fill([], values)
  {
    assert path[i..] == "" <==> i == |path|;
  }

  lemma {:induction false} RestIsPlain(segments: seq<Segment>)
    requires segments != [] && PlainLiterals(segments)
    ensures PlainLiterals(segments[1..]) && (segments[0].Literal? ==> PlainText(segments[0].text))
  {
    hide PlainText;
  }

  lemma {:induction false} MatchFills(segments: seq<Segment>, path: string, i: nat, values: seq<string>)
    requires segments != [] && i <= |path| && PlainLiterals(segments[1..])
    requires MatchFrom(segments, path, i) == Some(values)
    ensures |values| == Holes(segments) && PlainValues(values) && path[i..] == Fill(segments, values)
    decreases |segments|, 0
  {
    hide PlainLiterals, Fill, Holes;
    var e := SegmentEnd(path, i + 1);
    var text := path[i + 1..e];
    var hole := segments[0].Hole?;
    var rest := if hole then values[1..] else values;
    assert MatchFrom(segments[1..], path, e) == Some(rest);
    hide MatchFrom;
    MatchExactly(segments[1..], path, e, rest);
    assert path[i..] == "/" + text + path[e..];
    if hole { assert values == [text] + rest; }
    FillStep(segments, text, rest);
  }

  lemma {:induction false} FillStep(segments: seq<Segment>, text: string, rest: seq<string>)
    requires segments != [] && |rest| == Holes(segments[1..])
    requires segments[0].Literal? ==> segments[0].text == text
    ensures var values := if segments[0].Hole? then [text] + rest else rest;
            |values| == Holes(segments) && Fill(segments, values) == "/" + text + Fill(segments[1..], rest)
  {
    if segments[0].Hole? { assert ([text] + rest)[1..] == rest; }
  }

  lemma {:induction false} FillMatches(segments: seq<Segment>, path: string, i: nat, values: seq<string>)
    requires segments != [] && i <= |path| && PlainLiterals(segments[1..])
    requires segments[0].Literal? ==> PlainText(segments[0].text)
    requires |values| == Holes(segments) && PlainValues(values) && path[i..] == Fill(segments, values)
    ensures MatchFrom(segments, path, i) == Some(values)
    decreases |segments|, 0
  {
    hide PlainLiterals, SegmentEnd, MatchFrom;
    var hole := segments[0].Hole?;
    var text := if hole then values[0] else segments[0].text;
    var rest := if hole then values[1..] else values;
    var next := i + 1 + |text|;
    SplitLink(path, i, text, Fill(segments[1..], rest));
    FillStart(segments[1..], rest);
    SegmentAt(path, i, text);
    MatchExactly(segments[1..], path, next, rest);
    MatchStep(segments, path, i, text);
    if hole { assert values == [text] + rest; }
  }

  lemma {:induction false} FillStart(segments: seq<Segment>, values: seq<string>)
    requires |values| == Holes(segments)
    ensures segments != [] ==> Fill(segments, values) != "" && Fill(segments, values)[0] == '/'
    ensures segments == [] ==> Fill(segments, values) == ""
  {
  }

  /** The route's texts in a path; there is at most one route with any. */
  predicate Leads(path: string, k: nat, values: seq<string>)
    requires k < |Table|
  {
    |values| == Holes(Table[k].segments) && PlainValues(values) && path == Fill(Table[k].segments, values)
  }

  /** Where a path leads: without its last slash, the root is the board; another path leads to the route
      that it fills, with the texts decoded; it is malformed if one of them cannot be decoded, and leads
      nowhere if it fills no route. */
  lemma {:induction false} PathLeads(path: string)
    ensures var m := MatchRoute(path);
            var p := if |path| > 1 && path[|path| - 1] == '/' then path[..|path| - 1] else path;
            if p == "/" then m == Found(0, []) && Table[0].id == "board"
            else match m
              case Found(k, params) =>
                k < |Table| && exists values :: Leads(p, k, values) && DecodeAll(values) == Some(params)
              case Malformed => exists k: nat, values | k < |Table| :: Leads(p, k, values) && DecodeAll(values).None?
              case NotFound => forall k: nat, values | k < |Table| :: !Leads(p, k, values)
  {
    hide FirstMatch, Leads, DecodeAll;
    var p := Normalized(path);
    if p != "/" { FirstLeads(p, 0); }
  }

  lemma {:induction false} RouteLeads(p: string, k: nat, values: seq<string>)
    requires k < |Table|
    ensures MatchFrom(Table[k].segments, p, 0) == Some(values) <==> Leads(p, k, values)
  {
    hide MatchFrom, Holes, Fill, PlainLiterals;
    TableIsPlain(k);
    var segments := Table[k].segments;
    MatchExactly(segments, p, 0, values);
    assert p[0..] == p;
  }

  lemma {:induction false} FirstLeads(p: string, j: nat)
    requires j <= |Table|
    ensures match FirstMatch(p, j)
            case Found(k, params) =>
              j <= k < |Table| && exists values :: Leads(p, k, values) && DecodeAll(values) == Some(params)
            case Malformed =>
              exists k: nat, values | j <= k < |Table| :: Leads(p, k, values) && DecodeAll(values).None?
            case NotFound => forall k: nat, values | j <= k < |Table| :: !Leads(p, k, values)
    decreases |Table| - j
  {
    hide MatchFrom, Leads, DecodeAll;
    if j < |Table| {
      var values := MatchFrom(Table[j].segments, p, 0);
      if values.Some? {
        RouteLeads(p, j, values.value);
      } else {
        forall vs ensures !Leads(p, j, vs) { RouteLeads(p, j, vs); }
        FirstLeads(p, j + 1);
      }
    }
  }

  /** The path of a route as the table of the router writes it. */
  function Written(segments: seq<Segment>): string {
    if segments == [] then "" else "/" + Word(segments[0]) + Written(segments[1..])
  }

  function Word(s: Segment): string { match s case Literal(t) => t case Hole(name) => ":" + name }

  predicate IsRoute(k: nat, id: string, path: string) {
    k < |Table| && Table[k].id == id && Written(Table[k].segments) == path
  }

  lemma {:induction false} WriteOne(a: Segment)
    ensures Written([a]) == "/" + Word(a)
  {
    assert [a][1..] == [] && Written([]) == "";
  }

  lemma {:induction false} WriteMore(a: Segment, rest: seq<Segment>)
    ensures Written([a] + rest) == "/" + Word(a) + Written(rest)
  {
    assert ([a] + rest)[1..] == rest;
  }

  /** The routes that are one word. */
  lemma {:induction false} PlainRoutes()
    ensures |Table| == 13
    ensures IsRoute(0, "board", "/board") && IsRoute(1, "tickets", "/tickets")
    ensures IsRoute(6, "checkpoints", "/checkpoints") && IsRoute(7, "agents", "/agents")
    ensures IsRoute(8, "workflows", "/workflows") && IsRoute(9, "templates", "/templates")
    ensures IsRoute(10, "settings", "/settings") && IsRoute(11, "artifacts", "/artifacts")
  {
    hide Written;
    WriteOne(Literal("board"));
    WriteOne(Literal("tickets"));
    WriteOne(Literal("checkpoints"));
    WriteOne(Literal("agents"));
    WriteOne(Literal("workflows"));
    WriteOne(Literal("templates"));
    WriteOne(Literal("settings"));
    WriteOne(Literal("artifacts"));
  }

  lemma {:induction false} WriteThree(a: Segment, b: Segment, c: Segment)
    ensures Written([a, b]) == "/" + Word(a) + ("/" + Word(b))
    ensures Written([a, b, c]) == "/" + Word(a) + ("/" + Word(b) + ("/" + Word(c)))
  {
    hide Written, Word;
    WriteOne(b);
    WriteOne(c);
    WriteMore(a, [b]);
    WriteMore(b, [c]);
    WriteMore(a, [b, c]);
    assert [a] + [b] == [a, b] && [b] + [c] == [b, c] && [a] + [b, c] == [a, b, c];
  }

  /** The routes with one parameter. */
  lemma {:induction false} ParameterRoutes()
    ensures IsRoute(4, "work", "/work/:workId") && IsRoute(12, "artifact", "/artifacts/:artifactId")
  {
    hide Written;
    WriteThree(Literal("work"), Hole("workId"), Literal(""));
    WriteThree(Literal("artifacts"), Hole("artifactId"), Literal(""));
  }

  lemma {:induction false} ReviewRoute()
    ensures IsRoute(5, "artifact-review", "/checkpoints/:approvalId/review")
  {
    hide Written;
    WriteThree(Literal("checkpoints"), Hole("approvalId"), Literal("review"));
    assert Table[5].segments == [Literal("checkpoints"), Hole("approvalId"), Literal("review")];
  }

  lemma {:induction false} RunRoutes()
    ensures IsRoute(3, "run", "/work/:workId/run/:runId")
    ensures IsRoute(2, "readiness", "/work/:workId/run/:runId/readiness")
  {
    hide Written;
    var a, b, c, d, e := Literal("work"), Hole("workId"), Literal("run"), Hole("runId"), Literal("readiness");
    WriteThree(c, d, e);
    WriteMore(b, [c, d]);
    WriteMore(a, [b, c, d]);
    WriteMore(b, [c, d, e]);
    WriteMore(a, [b, c, d, e]);
    assert [b] + [c, d] == [b, c, d] && [a] + [b, c, d] == [a, b, c, d];
    assert [b] + [c, d, e] == [b, c, d, e] && [a] + [b, c, d, e] == [a, b, c, d, e];
    assert Table[3].segments == [a, b, c, d] && Table[2].segments == [a, b, c, d, e];
  }
}
