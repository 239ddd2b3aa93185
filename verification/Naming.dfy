/** Names in the workflow editor: the text form of a map, fresh identifiers, and the run inputs that an
    added sub-workflow is given. */
module Naming {
  import opened Options
  import opened Regex
  import opened Strings

  predicate IsNameChar(c: char) { 'a' <= c <= 'z' || '0' <= c <= '9' || c == '_' }

  /** A lower-case letter, then at most 63 letters, digits or underscores. */
  predicate IsIdentifier(s: string) {
    1 <= |s| <= 64 && 'a' <= s[0] <= 'z' && forall k | 0 <= k < |s| :: IsNameChar(s[k])
  }

  // ---------------------------------------------------------------- maps as text

  /** An entry of an identifier-keyed map; entries keep the order in which they were added. */
  datatype Entry = Entry(key: string, value: string)

  datatype Parsed = Valid(entries: seq<Entry>) | InvalidLine(number: nat) | Duplicate(key: string)

  function LineOf(e: Entry): string { e.key + "=" + e.value }

  function Format(es: seq<Entry>): string {
    if es == [] then "" else if |es| == 1 then LineOf(es[0]) else LineOf(es[0]) + "\n" + Format(es[1..])
  }

  function FirstNewline(s: string, i: nat): (n: nat)
    requires i <= |s|
    ensures i <= n <= |s| && (forall k | i <= k < n :: s[k] != '\n') && (n < |s| ==> s[n] == '\n')
    decreases |s| - i
  {
    if i < |s| && s[i] != '\n' then FirstNewline(s, i + 1) else i
  }

  /** A carriage return before the line feed belongs to the line break. */
  function Stripped(line: string): string {
    if line != "" && line[|line| - 1] == '\r' then line[..|line| - 1] else line
  }

  function SplitLines(s: string): seq<string> {
    var n := FirstNewline(s, 0);
    if n == |s| then [s] else [Stripped(s[..n])] + SplitLines(s[n + 1..])
  }

  function KeyOf(line: string): string {
    var at := IndexOf(line, "=", 0);
    if at.None? then "" else Trim(line[..at.value])
  }

  function ValueOf(line: string): string {
    var at := IndexOf(line, "=", 0);
    if at.None? then "" else Trim(line[at.value + 1..])
  }

  predicate HasKey(es: seq<Entry>, key: string) { exists e <- es :: e.key == key }

  function ParseLines(lines: seq<string>, k: nat, done: seq<Entry>): Parsed
    requires k <= |lines|
    decreases |lines| - k
  {
    if k == |lines| then Valid(done)
    else
      var line := lines[k];
      if Blank(line) then ParseLines(lines, k + 1, done)
      else if !IsIdentifier(KeyOf(line)) || ValueOf(line) == "" then InvalidLine(k + 1)
      else if HasKey(done, KeyOf(line)) then Duplicate(KeyOf(line))
      else ParseLines(lines, k + 1, done + [Entry(KeyOf(line), ValueOf(line))])
  }

  function Parse(text: string): Parsed { ParseLines(SplitLines(text), 0, []) }

  /** The parser as it runs, line by line into a result. */
  method Mapping(text: string) returns (r: Parsed)
    ensures r == Parse(text)
    ensures r.Valid? ==> WellFormed(r.entries)
  {
    hide KeyOf, ValueOf, Blank, IsIdentifier, WellFormed;
    var lines := SplitLines(text);
    var result: seq<Entry> := [];
    ParseSound(text);
    for k := 0 to |lines|
      invariant Parse(text) == ParseLines(lines, k, result)
    {
      var line := lines[k];
      if !Blank(line) {
        var key, item := KeyOf(line), ValueOf(line);
        if !IsIdentifier(key) || item == "" { return InvalidLine(k + 1); }
        if HasKey(result, key) { return Duplicate(key); }
        result := result + [Entry(key, item)];
      }
    }
    r := Valid(result);
  }

  predicate NoNewline(s: string) { forall k | 0 <= k < |s| :: s[k] != '\n' }

  /** Text that trimming leaves alone. */
  predicate IsTrimmed(s: string) { s != "" ==> !IsSpace(s[0]) && !IsSpace(s[|s| - 1]) }

  predicate EntryForm(e: Entry) { IsIdentifier(e.key) && e.value != "" && IsTrimmed(e.value) && NoNewline(e.value) }

  predicate WellFormed(es: seq<Entry>) {
    && (forall k | 0 <= k < |es| :: EntryForm(es[k]))
    && (forall j, k | 0 <= j < k < |es| :: es[j].key != es[k].key)
  }

  lemma {:induction false} TrimKeeps(s: string)
    requires IsTrimmed(s)
    ensures Trim(s) == s
  {
    if s != "" {
      assert Lead(s) == 0;
      assert TrailEnd(s, 0, |s|) == |s|;
    }
  }

  lemma {:induction false} TrimTrims(s: string)
    ensures IsTrimmed(Trim(s)) && (NoNewline(s) ==> NoNewline(Trim(s)))
  {
    var from := Lead(s);
    var to := TrailEnd(s, from, |s|);
    if from < to { assert Trim(s)[0] == s[from] && Trim(s)[|Trim(s)| - 1] == s[to - 1]; }
    assert forall k | 0 <= k < |Trim(s)| :: Trim(s)[k] == s[from + k];
  }

  lemma {:induction false} SplitHasNoNewline(s: string)
    ensures forall k | 0 <= k < |SplitLines(s)| :: NoNewline(SplitLines(s)[k])
  {
    var n := FirstNewline(s, 0);
    if n < |s| { SplitHasNoNewline(s[n + 1..]); }
  }

  lemma {:induction false} ValueForm(line: string)
    requires NoNewline(line)
    ensures IsTrimmed(ValueOf(line)) && NoNewline(ValueOf(line))
  {
    var at := IndexOf(line, "=", 0);
    if at.Some? { TrimTrims(line[at.value + 1..]); }
  }

  lemma {:induction false} ParseLinesSound(lines: seq<string>, k: nat, done: seq<Entry>)
    requires k <= |lines| && WellFormed(done) && forall i | 0 <= i < |lines| :: NoNewline(lines[i])
    ensures ParseLines(lines, k, done).Valid? ==> WellFormed(ParseLines(lines, k, done).entries)
    decreases |lines| - k
  {
    hide KeyOf, ValueOf, Blank, IsIdentifier, NoNewline, IsTrimmed;
    if k < |lines| {
      var line := lines[k];
      if Blank(line) {
        ParseLinesSound(lines, k + 1, done);
      } else if IsIdentifier(KeyOf(line)) && ValueOf(line) != "" && !HasKey(done, KeyOf(line)) {
        ValueForm(line);
        var e := Entry(KeyOf(line), ValueOf(line));
        forall j | 0 <= j < |done| ensures done[j].key != e.key { assert done[j] in done; }
        ParseLinesSound(lines, k + 1, done + [e]);
      }
    }
  }

  /** Whatever the text, a map that is accepted has distinct identifiers as keys and trimmed single-line values. */
  lemma {:induction false} ParseSound(text: string)
    ensures Parse(text).Valid? ==> WellFormed(Parse(text).entries)
  {
    SplitHasNoNewline(text);
    ParseLinesSound(SplitLines(text), 0, []);
  }

  // ---------------------------------------------------------------- round trip

  function LinesOf(es: seq<Entry>): seq<string> { if es == [] then [] else [LineOf(es[0])] + LinesOf(es[1..]) }

  lemma {:induction false} EntryLine(e: Entry)
    requires EntryForm(e)
    ensures NoNewline(LineOf(e)) && Stripped(LineOf(e)) == LineOf(e) && !Blank(LineOf(e))
    ensures KeyOf(LineOf(e)) == e.key && ValueOf(LineOf(e)) == e.value
  {
    hide Trim, IndexOf;
    var line, n := LineOf(e), |e.key|;
    LineChars(e);
    assert IsNameChar(e.key[0]) && IsNameChar(e.key[n - 1]);
    assert !IsSpace(e.key[0]) && !IsSpace(e.key[n - 1]);
    FirstSeparator(e);
    assert line[..n] == e.key && line[n + 1..] == e.value;
    TrimKeeps(e.key);
    TrimKeeps(e.value);
    TrimKeeps(line);
  }

  lemma {:induction false} LineChars(e: Entry)
    ensures var line, n := LineOf(e), |e.key|;
            forall k | 0 <= k < |line| ::
              line[k] == if k < n then e.key[k] else if k == n then '=' else e.value[k - n - 1]
  {
  }

  lemma {:induction false} FirstSeparator(e: Entry)
    requires IsIdentifier(e.key)
    ensures IndexOf(LineOf(e), "=", 0) == Some(|e.key|)
  {
    var line, n := LineOf(e), |e.key|;
    assert line[n..n + 1] == "=";
    assert OccursAt(line, "=", n);
    forall k | 0 <= k < n ensures !OccursAt(line, "=", k) {
      assert IsNameChar(e.key[k]) && line[k] == e.key[k];
      assert line[k..k + 1] == [e.key[k]];
    }
  }

  lemma {:induction false} FormatSplits(es: seq<Entry>)
    requires es != [] && forall k | 0 <= k < |es| :: EntryForm(es[k])
    ensures SplitLines(Format(es)) == LinesOf(es)
  {
    hide EntryForm, Stripped, LineOf, KeyOf, ValueOf, Blank;
    EntryLine(es[0]);
    var line, text := LineOf(es[0]), Format(es);
    if |es| == 1 {
      NewlineAt(line, "");
      assert line + "" == line && LinesOf(es[1..]) == [];
    } else {
      var rest := "\n" + Format(es[1..]);
      assert text == line + rest;
      NewlineAt(line, rest);
      assert text[..|line|] == line && text[|line| + 1..] == Format(es[1..]);
      FormatSplits(es[1..]);
    }
  }

  lemma {:induction false} NewlineAt(line: string, rest: string)
    requires NoNewline(line) && (rest != "" ==> rest[0] == '\n')
    ensures FirstNewline(line + rest, 0) == |line|
  {
    NewlineIs(line + rest, 0, |line|);
  }

  lemma {:induction false} NewlineIs(text: string, i: nat, n: nat)
    requires i <= n <= |text| && (forall k | i <= k < n :: text[k] != '\n') && (n < |text| ==> text[n] == '\n')
    ensures FirstNewline(text, i) == n
    decreases n - i
  {
    if i < n { NewlineIs(text, i + 1, n); }
  }

  lemma {:induction false} LinesOfAt(es: seq<Entry>, k: nat)
    requires k < |es|
    ensures |LinesOf(es)| == |es| && LinesOf(es)[k] == LineOf(es[k])
    decreases |es|
  {
    if k > 0 { LinesOfAt(es[1..], k - 1); } else if |es| > 1 { LinesOfAt(es[1..], 0); }
  }

  lemma {:induction false} ParsesBack(es: seq<Entry>, k: nat)
    requires WellFormed(es) && k <= |es| && es != []
    ensures |LinesOf(es)| == |es| && ParseLines(LinesOf(es), k, es[..k]) == Valid(es)
    decreases |es| - k
  {
    hide KeyOf, ValueOf, Blank, IsIdentifier, IsTrimmed, NoNewline, LineOf, LinesOf, Stripped;
    LinesOfAt(es, 0);
    if k < |es| {
      LinesOfAt(es, k);
      EntryLine(es[k]);
      assert EntryForm(es[k]);
      assert !HasKey(es[..k], es[k].key);
      assert es[..k] + [es[k]] == es[..k + 1];
      ParsesBack(es, k + 1);
    } else {
      assert es[..k] == es;
    }
  }

  /** Exactly which maps survive being shown and read back: those with distinct identifiers as keys and
      non-empty, trimmed, single-line values. */
  lemma {:induction false} FormatRoundTrip(es: seq<Entry>)
    ensures Parse(Format(es)) == Valid(es) <==> WellFormed(es)
  {
    hide WellFormed, SplitLines, Format, ParseLines;
    ParseSound(Format(es));
    if WellFormed(es) {
      if es == [] { EmptyForm(); } else { FullForm(es); }
    }
  }

  lemma {:induction false} EmptyForm()
    ensures Parse(Format([])) == Valid([])
  {
    assert SplitLines("") == [""];
    assert Blank("");
  }

  lemma {:induction false} FullForm(es: seq<Entry>)
    requires WellFormed(es) && es != []
    ensures Parse(Format(es)) == Valid(es)
  {
    hide Format, LinesOf, ParseLines, SplitLines, EntryForm;
    FormatSplits(es);
    ParsesBack(es, 0);
    assert es[..0] == [];
  }

  // ---------------------------------------------------------------- fresh identifiers

  function Digit(n: nat): char
    requires n < 10
  {
    (n + '0' as int) as char
  }

  function Digits(n: nat): (s: string)
    ensures s != "" && forall k | 0 <= k < |s| :: '0' <= s[k] <= '9'
  {
    if n < 10 then [Digit(n)] else Digits(n / 10) + [Digit(n % 10)]
  }

  lemma {:induction false} DigitsDiffer(m: nat, n: nat)
    requires Digits(m) == Digits(n)
    ensures m == n
  {
    var s, t := Digits(m), Digits(n);
    assert s[|s| - 1] == t[|t| - 1];
    assert (m >= 10 <==> |s| >= 2) && (n >= 10 <==> |t| >= 2);
    if m >= 10 {
      assert s[..|s| - 1] == Digits(m / 10) && t[..|t| - 1] == Digits(n / 10);
      DigitsDiffer(m / 10, n / 10);
    }
  }

  lemma {:induction false} DigitsShort(n: nat)
    requires n < 10_000
    ensures |Digits(n)| <= 4
  {
    assert |Digits(n / 10 / 10 / 10)| == 1;
    assert |Digits(n / 10 / 10)| <= 2;
    assert |Digits(n / 10)| <= 3;
  }

  function Suffix(n: nat): string { "_" + Digits(n) }

  /** The n-th candidate: the base, cut so that the whole has at most 64 characters. */
  function Candidate(base: string, n: nat): string {
    var room := 64 - |Suffix(n)|;
    (if |base| <= room then base else if room >= 0 then base[..room] else "") + Suffix(n)
  }

  lemma {:induction false} SuffixesDiffer(a: string, m: nat, b: string, n: nat)
    requires a + Suffix(m) == b + Suffix(n)
    ensures m == n
  {
    var s, p, q := a + Suffix(m), Digits(m), Digits(n);
    if |p| == |q| {
      assert s[|s| - |p|..] == p && s[|s| - |q|..] == q;
      DigitsDiffer(m, n);
    } else if |p| < |q| {
      UnderscoreAt(a, m, b, n);
    } else {
      UnderscoreAt(b, n, a, m);
    }
  }

  // The underscore of the shorter suffix would be a digit of the longer one.
  lemma {:induction false} UnderscoreAt(a: string, m: nat, b: string, n: nat)
    requires a + Suffix(m) == b + Suffix(n)
    ensures |Digits(m)| >= |Digits(n)|
  {
    var s := a + Suffix(m);
    assert s[|a|] == '_' && |s| == |a| + 1 + |Digits(m)| == |b| + 1 + |Digits(n)|;
    forall i | |b| < i < |s| ensures s[i] != '_' { assert s[i] == Digits(n)[i - |b| - 1]; }
  }

  /** Different indices give different candidates, even where the base is cut. */
  lemma {:induction false} CandidatesDiffer(base: string, m: nat, n: nat)
    requires Candidate(base, m) == Candidate(base, n)
    ensures m == n
  {
    var a, b := Candidate(base, m), Candidate(base, n);
    SuffixesDiffer(a[..|a| - |Suffix(m)|], m, b[..|b| - |Suffix(n)|], n);
  }

  ghost function Candidates(base: string, n: nat): set<string> { set i: nat | 2 <= i < n :: Candidate(base, i) }

  lemma {:induction false} CandidatesCount(base: string, n: nat)
    requires n >= 2
    ensures |Candidates(base, n)| == n - 2
  {
    hide Candidate;
    if n == 2 {
      assert Candidates(base, n) == {};
    } else {
      CandidatesCount(base, n - 1);
      var last := Candidate(base, n - 1);
      assert Candidates(base, n) == Candidates(base, n - 1) + {last};
      if last in Candidates(base, n - 1) {
        var i: nat :| 2 <= i < n - 1 && Candidate(base, i) == last;
        CandidatesDiffer(base, i, n - 1);
        assert false;
      }
    }
  }

  /** Candidate n is unused, and all before it are used. */
  ghost predicate FirstUnused(base: string, used: set<string>, n: nat) {
    2 <= n < 10_000 && Candidate(base, n) !in used && Candidates(base, n) <= used
  }

  /** The first unused name of the base and its candidates. It is absent exactly when the base and all
      9998 candidates are used, which takes at least 9998 names in use; it is an identifier if the base
      is, and has at most 64 characters if it is not the base itself. */
  method UniqueIdentifier(base: string, used: set<string>) returns (r: Option<string>)
    ensures r.Some? ==> r.value !in used
    ensures r.None? <==> base in used && Candidates(base, 10_000) <= used
    ensures |used| < 9998 ==> r.Some?
    ensures r.Some? && base !in used ==> r.value == base
    ensures r.Some? && base in used ==>
              |r.value| <= 64 && exists n :: FirstUnused(base, used, n) && r.value == Candidate(base, n)
    ensures r.Some? && base in used ==>
              exists n: nat | 2 <= n < 10_000 ::
                r.value == Candidate(base, n) && forall i: nat | 2 <= i < n :: Candidate(base, i) in used
    ensures r.Some? && IsIdentifier(base) ==> IsIdentifier(r.value)
  {
    if base !in used { return Some(base); }
    for index := 2 to 10_000
      invariant Candidates(base, index) <= used
    {
      var suffix := Suffix(index);
      var candidate := Candidate(base, index);
      CandidateForm(base, index);
      CandidatesStep(base, index);
      if candidate !in used {
        assert FirstUnused(base, used, index);
        BeforeAreUsed(base, used, index);
        return Some(candidate);
      }
    }
    CandidatesCount(base, 10_000);
    SubsetCount(Candidates(base, 10_000), used);
    r := None;
  }

  lemma {:induction false} BeforeAreUsed(base: string, used: set<string>, n: nat)
    requires Candidates(base, n) <= used
    ensures forall i: nat | 2 <= i < n :: Candidate(base, i) in used
  {
    forall i: nat | 2 <= i < n ensures Candidate(base, i) in used { assert Candidate(base, i) in Candidates(base, n); }
  }

  lemma {:induction false} CandidatesStep(base: string, n: nat)
    requires 2 <= n < 10_000
    ensures Candidates(base, n + 1) == Candidates(base, n) + {Candidate(base, n)}
    ensures Candidate(base, n) in Candidates(base, 10_000)
  {
    hide Candidate;
  }

  lemma {:induction false} CandidateForm(base: string, n: nat)
    requires n < 10_000
    ensures |Candidate(base, n)| <= 64 && (IsIdentifier(base) ==> IsIdentifier(Candidate(base, n)))
  {
    hide Digits;
    DigitsShort(n);
    var s := Candidate(base, n);
    var kept := |s| - |Suffix(n)|;
    if IsIdentifier(base) {
      forall k | 0 <= k < |s| ensures IsNameChar(s[k]) {
        if k < kept { assert s[k] == base[k]; } else { assert s[k] == Suffix(n)[k - kept]; }
      }
      assert kept > 0 && s[0] == base[0];
    }
  }

  lemma {:induction false} SubsetCount<T>(a: set<T>, b: set<T>)
    requires a <= b
    ensures |a| <= |b|
  {
    if a != {} {
      var x :| x in a;
      SubsetCount(a - {x}, b - {x});
    }
  }

  // ---------------------------------------------------------------- sub-workflow inputs

  /** A declared input: its type, and the rest of its declaration. */
  datatype Declaration = Declaration(kind: string, rest: string)

  datatype Child = Child(id: string, declaration: Declaration)

  /** The s-th run input tried for a child input. */
  function ParentName(id: string, s: nat): string { if s < 2 then id else id + Suffix(s) }

  ghost function ParentNames(id: string, n: nat): set<string> { set s: nat | 1 <= s < n :: ParentName(id, s) }

  lemma {:induction false} ParentNamesCount(id: string, n: nat)
    requires n >= 1
    ensures |ParentNames(id, n)| == n - 1
  {
    if n == 1 {
      assert ParentNames(id, n) == {};
    } else {
      ParentNamesCount(id, n - 1);
      var last := ParentName(id, n - 1);
      assert ParentNames(id, n) == ParentNames(id, n - 1) + {last};
      if last in ParentNames(id, n - 1) {
        var s: nat :| 1 <= s < n - 1 && ParentName(id, s) == last;
        assert |Suffix(n - 1)| > 0;
        if s >= 2 { SuffixesDiffer(id, s, id, n - 1); }
        assert false;
      }
    }
  }

  /** A run input that can serve the child: it is new, or it has the child's type. */
  predicate Serves(inputs: map<string, Declaration>, name: string, declaration: Declaration) {
    name !in inputs || inputs[name].kind == declaration.kind
  }

  /** The search ends for every set of run inputs: with the first name that can serve the child. */
  method ParentFor(inputs: map<string, Declaration>, child: Child) returns (parent: string, ghost s: nat)
    ensures s >= 1 && parent == ParentName(child.id, s) && Serves(inputs, parent, child.declaration)
    ensures forall t: nat | 1 <= t < s :: !Serves(inputs, ParentName(child.id, t), child.declaration)
  {
    hide Suffix;
    parent := child.id;
    s := 1;
    var suffix := 2;
    while parent in inputs && inputs[parent].kind != child.declaration.kind
      invariant suffix == s + 1 && s >= 1 && parent == ParentName(child.id, s)
      invariant forall t: nat | 1 <= t < s :: !Serves(inputs, ParentName(child.id, t), child.declaration)
      invariant ParentNames(child.id, s) <= inputs.Keys
      invariant s <= |inputs.Keys| + 1
      decreases |inputs.Keys| + 1 - s
    {
      assert ParentNames(child.id, s + 1) == ParentNames(child.id, s) + {parent};
      ParentNamesCount(child.id, s + 1);
      SubsetCount(ParentNames(child.id, s + 1), inputs.Keys);
      parent := child.id + Suffix(suffix);
      suffix := suffix + 1;
      s := s + 1;
    }
  }

  predicate GivenFor(c: Child, inputs: map<string, Declaration>, mappings: map<string, string>, name: string) {
    name in inputs && inputs[name] == c.declaration && c.id in mappings && mappings[c.id] == name
  }

  /** The child is served by a run input of its own type, and the node declares that input with it. */
  predicate Fits(c: Child, inputs: map<string, Declaration>, nodeInputs: map<string, string>,
                 mappings: map<string, string>) {
    && c.id in mappings
    && var parent := mappings[c.id];
       parent in inputs && inputs[parent].kind == c.declaration.kind && parent in nodeInputs
         && nodeInputs[parent] == c.declaration.kind
  }

  /** No existing run input has changed, every new one is the declaration of a child, and all children fit. */
  ghost predicate AllFit(root: map<string, Declaration>, children: seq<Child>, inputs: map<string, Declaration>,
                         nodeInputs: map<string, string>, mappings: map<string, string>) {
    && (forall name <- root :: name in inputs && inputs[name] == root[name])
    && (forall name <- inputs | name !in root :: exists c <- children :: GivenFor(c, inputs, mappings, name))
    && (forall c <- children :: Fits(c, inputs, nodeInputs, mappings))
    && (forall id <- mappings :: exists c <- children :: c.id == id)
  }

  lemma {:induction false} OneMoreFits(root: map<string, Declaration>, done: seq<Child>, c: Child, parent: string,
                                       inputs: map<string, Declaration>, nodeInputs: map<string, string>,
                                       mappings: map<string, string>)
    requires AllFit(root, done, inputs, nodeInputs, mappings) && Serves(inputs, parent, c.declaration)
    requires forall d <- done :: d.id != c.id
    ensures var more := if parent in inputs then inputs else inputs[parent := c.declaration];
            AllFit(root, done + [c], more, nodeInputs[parent := c.declaration.kind], mappings[c.id := parent])
  {
    var now := done + [c];
    var more := if parent in inputs then inputs else inputs[parent := c.declaration];
    var nodes, maps := nodeInputs[parent := c.declaration.kind], mappings[c.id := parent];
    hide Fits, GivenFor, Serves;
    OneMoreGiven(root, done, c, parent, inputs, nodeInputs, mappings);
    OneMoreServed(root, done, c, parent, inputs, nodeInputs, mappings);
    forall id <- maps ensures exists d <- now :: d.id == id {
      if id == c.id {
        assert c in now;
      } else {
        var d :| d in done && d.id == id;
        assert d in now;
      }
    }
  }

  lemma {:induction false} OneMoreGiven(root: map<string, Declaration>, done: seq<Child>, c: Child, parent: string,
                                        inputs: map<string, Declaration>, nodeInputs: map<string, string>,
                                        mappings: map<string, string>)
    requires AllFit(root, done, inputs, nodeInputs, mappings) && Serves(inputs, parent, c.declaration)
    requires forall d <- done :: d.id != c.id
    ensures var more := if parent in inputs then inputs else inputs[parent := c.declaration];
            forall name <- more | name !in root ::
              exists d <- done + [c] :: GivenFor(d, more, mappings[c.id := parent], name)
  {
    var now := done + [c];
    var more := if parent in inputs then inputs else inputs[parent := c.declaration];
    var maps := mappings[c.id := parent];
    hide Fits, GivenFor, Serves;
    ChildServed(c, parent, inputs, nodeInputs, mappings);
    forall name <- more | name !in root ensures exists d <- now :: GivenFor(d, more, maps, name) {
      if name in inputs {
        var d :| d in done && GivenFor(d, inputs, mappings, name);
        ChildStays(d, c, parent, inputs, nodeInputs, mappings);
        assert d in now && GivenFor(d, more, maps, name);
      } else {
        assert c in now && GivenFor(c, more, maps, name);
      }
    }
  }

  lemma {:induction false} OneMoreServed(root: map<string, Declaration>, done: seq<Child>, c: Child, parent: string,
                                         inputs: map<string, Declaration>, nodeInputs: map<string, string>,
                                         mappings: map<string, string>)
    requires AllFit(root, done, inputs, nodeInputs, mappings) && Serves(inputs, parent, c.declaration)
    requires forall d <- done :: d.id != c.id
    ensures var more := if parent in inputs then inputs else inputs[parent := c.declaration];
            forall d <- done + [c] ::
              Fits(d, more, nodeInputs[parent := c.declaration.kind], mappings[c.id := parent])
  {
    var more := if parent in inputs then inputs else inputs[parent := c.declaration];
    hide Fits, GivenFor, Serves;
    ChildServed(c, parent, inputs, nodeInputs, mappings);
    forall d <- done + [c]
      ensures Fits(d, more, nodeInputs[parent := c.declaration.kind], mappings[c.id := parent])
    {
      if d != c {
        assert d in done;
        ChildStays(d, c, parent, inputs, nodeInputs, mappings);
      }
    }
  }

  lemma {:induction false} ChildServed(c: Child, parent: string, inputs: map<string, Declaration>,
                                       nodeInputs: map<string, string>, mappings: map<string, string>)
    requires Serves(inputs, parent, c.declaration)
    ensures var more := if parent in inputs then inputs else inputs[parent := c.declaration];
            && Fits(c, more, nodeInputs[parent := c.declaration.kind], mappings[c.id := parent])
            && (parent !in inputs ==> GivenFor(c, more, mappings[c.id := parent], parent))
  {
  }

  // Serving one child takes nothing from the others.
  lemma {:induction false} ChildStays(other: Child, c: Child, parent: string, inputs: map<string, Declaration>,
                                      nodeInputs: map<string, string>, mappings: map<string, string>)
    requires Serves(inputs, parent, c.declaration) && other.id != c.id
    ensures var more := if parent in inputs then inputs else inputs[parent := c.declaration];
            && (Fits(other, inputs, nodeInputs, mappings) ==>
                  Fits(other, more, nodeInputs[parent := c.declaration.kind], mappings[c.id := parent]))
            && (forall name :: GivenFor(other, inputs, mappings, name) ==>
                GivenFor(other, more, mappings[c.id := parent], name))
  {
  }

  /** The run inputs, the node's inputs by run input, and the run input of every child input. */
  method MapInputs(root: map<string, Declaration>, children: seq<Child>)
    returns (inputs: map<string, Declaration>, nodeInputs: map<string, string>, mappings: map<string, string>)
    requires forall j, k | 0 <= j < k < |children| :: children[j].id != children[k].id
    ensures AllFit(root, children, inputs, nodeInputs, mappings)
  {
    hide AllFit;
    inputs, nodeInputs, mappings := root, map[], map[];
    NoneFit(root);
    assert children[..0] == [];
    for k := 0 to |children|
      invariant AllFit(root, children[..k], inputs, nodeInputs, mappings)
    {
      var child := children[k];
      var parent, s := ParentFor(inputs, child);
      OneMoreFits(root, children[..k], child, parent, inputs, nodeInputs, mappings);
      assert children[..k] + [child] == children[..k + 1];
      if parent !in inputs { inputs := inputs[parent := child.declaration]; }
      nodeInputs := nodeInputs[parent := child.declaration.kind];
      mappings := mappings[child.id := parent];
    }
    assert children[..|children|] == children;
  }

  lemma {:induction false} NoneFit(root: map<string, Declaration>)
    ensures AllFit(root, [], root, map[], map[])
  {
  }
}
