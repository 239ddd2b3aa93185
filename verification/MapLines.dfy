/** The text form of a map line by line, and the numbers in fresh names: what each reads and writes. */
module MapLines {
  import opened Options
  import opened Regex
  import opened Strings
  import opened Naming

  // ---------------------------------------------------------------- identifiers

  const LETTERS := "abcdefghijklmnopqrstuvwxyz"
  const NAME_CHARS := "abcdefghijklmnopqrstuvwxyz0123456789_"

  lemma {:induction false} LettersAscend()
    ensures |LETTERS| == 26 && forall k | 0 <= k < 26 :: LETTERS[k] as int == 'a' as int + k
  {
  }

  lemma {:induction false} NameChars()
    ensures NAME_CHARS == LETTERS + "0123456789" + "_"
    ensures forall k | 0 <= k < 10 :: "0123456789"[k] as int == '0' as int + k
  {
  }

  lemma {:induction false} LetterSpelled(c: char)
    ensures 'a' <= c <= 'z' <==> c in LETTERS
  {
    LettersAscend();
    if 'a' <= c <= 'z' { assert LETTERS[c as int - 'a' as int] as int == c as int; }
    if c in LETTERS {
      var k :| 0 <= k < |LETTERS| && LETTERS[k] == c;
      assert c as int == 'a' as int + k;
    }
  }

  lemma {:induction false} NameCharSpelled(c: char)
    ensures IsNameChar(c) <==> c in NAME_CHARS
  {
    LetterSpelled(c);
    NameChars();
    if '0' <= c <= '9' { assert "0123456789"[c as int - '0' as int] as int == c as int; }
    if c in "0123456789" {
      var k :| 0 <= k < 10 && "0123456789"[k] == c;
      assert c as int == '0' as int + k;
    }
  }

  /** An identifier is one to 64 small letters, digits and underscores, a letter first. */
  lemma {:induction false} IdentifierSpelled(s: string)
    ensures IsIdentifier(s) <==>
            s != "" && |s| < 65 && s[0] in LETTERS && forall k | 0 <= k < |s| :: s[k] in NAME_CHARS
  {
    hide IsNameChar;
    if s != "" { LetterSpelled(s[0]); }
    forall k | 0 <= k < |s| ensures IsNameChar(s[k]) <==> s[k] in NAME_CHARS { NameCharSpelled(s[k]); }
  }

  // ---------------------------------------------------------------- lines of a map

  /** A line gives an entry: an identifier before its first "=", and a value with text after it, both
      without the white space around them. */
  predicate Gives(line: string, e: Entry) {
    exists at: nat | at < |line| ::
      && line[at] == '=' && (forall k | 0 <= k < at :: line[k] != '=')
      && e.key == Trim(line[..at]) && e.value == Trim(line[at + 1..])
      && IsIdentifier(e.key) && HasText(line[at + 1..])
  }

  /** Lines i to j, apart from those without text, give these entries. */
  ghost predicate Lists(lines: seq<string>, i: nat, j: nat, es: seq<Entry>)
    requires i <= j <= |lines|
    decreases j - i
  {
    if i == j then es == []
    else if !HasText(lines[i]) then Lists(lines, i + 1, j, es)
    else es != [] && Gives(lines[i], es[0]) && Lists(lines, i + 1, j, es[1..])
  }

  predicate DistinctKeys(es: seq<Entry>) { forall j, k | 0 <= j < k < |es| :: es[j].key != es[k].key }

  lemma {:induction false} EqualsAt(line: string, at: nat)
    ensures OccursAt(line, "=", at) <==> at < |line| && line[at] == '='
  {
    if at < |line| { assert line[at..at + 1] == [line[at]]; }
  }

  lemma {:induction false} LineGives(line: string)
    ensures var e := Entry(KeyOf(line), ValueOf(line));
            && (IsIdentifier(e.key) && e.value != "" ==> Gives(line, e))
            && (forall f :: Gives(line, f) ==> f == e && IsIdentifier(e.key) && e.value != "")
  {
    hide IndexOf, Trim, IsIdentifier;
    var at, e := IndexOf(line, "=", 0), Entry(KeyOf(line), ValueOf(line));
    forall k: nat ensures OccursAt(line, "=", k) <==> k < |line| && line[k] == '=' { EqualsAt(line, k); }
    EmptyIsNoIdentifier();
    if at.Some? { TextOf(line[at.value + 1..]); }
    forall f | Gives(line, f) ensures f == e && IsIdentifier(e.key) && e.value != "" {
      var n: nat :| n < |line| && line[n] == '=' && (forall k | 0 <= k < n :: line[k] != '=')
                    && f.key == Trim(line[..n]) && f.value == Trim(line[n + 1..])
                    && IsIdentifier(f.key) && HasText(line[n + 1..]);
      assert at == Some(n);
    }
  }

  lemma {:induction false} EmptyIsNoIdentifier()
    ensures !IsIdentifier("")
  {
  }

  lemma {:induction false} TextOf(s: string)
    ensures HasText(s) <==> Trim(s) != ""
  {
    BlankScanned(s);
  }

  lemma {:induction false} ListsMore(lines: seq<string>, i: nat, j: nat, es: seq<Entry>, more: seq<Entry>)
    requires i <= j < |lines| && Lists(lines, i, j, es)
    requires if HasText(lines[j]) then |more| == 1 && Gives(lines[j], more[0]) else more == []
    ensures Lists(lines, i, j + 1, es + more)
    decreases j - i
  {
    hide HasText, Gives;
    if i == j {
      assert es + more == more && Lists(lines, j + 1, j + 1, []);
      if HasText(lines[j]) { assert more[1..] == []; }
    } else if HasText(lines[i]) {
      assert (es + more)[1..] == es[1..] + more;
      ListsMore(lines, i + 1, j, es[1..], more);
    } else {
      ListsMore(lines, i + 1, j, es, more);
    }
  }

  ghost predicate GivesNothing(line: string) { forall e :: !Gives(line, e) }

  /** What reading a text gives: the entries of its lines in order if all give one and the keys differ, or
      the number of the first line that gives none, or the first key that comes again. */
  ghost predicate Reads(lines: seq<string>, r: Parsed) {
    match r
    case Valid(es) => Lists(lines, 0, |lines|, es) && DistinctKeys(es)
    case InvalidLine(n) =>
      && 1 <= n <= |lines| && HasText(lines[n - 1]) && GivesNothing(lines[n - 1])
      && exists es :: Lists(lines, 0, n - 1, es) && DistinctKeys(es)
    case Duplicate(key) =>
      exists n: nat, es | n < |lines| ::
        && Lists(lines, 0, n, es) && DistinctKeys(es) && HasKey(es, key)
        && HasText(lines[n]) && exists value :: Gives(lines[n], Entry(key, value))
  }

  lemma {:induction false} ParsesFrom(lines: seq<string>, k: nat, done: seq<Entry>)
    requires k <= |lines| && Lists(lines, 0, k, done) && DistinctKeys(done)
    ensures Reads(lines, ParseLines(lines, k, done))
    decreases |lines| - k
  {
    hide HasText, Gives, KeyOf, ValueOf, Blank, IsIdentifier, Lists;
    if k < |lines| {
      var line := lines[k];
      BlankScanned(line);
      LineGives(line);
      var e := Entry(KeyOf(line), ValueOf(line));
      if Blank(line) {
        ListsMore(lines, 0, k, done, []);
        assert done + [] == done;
        ParsesFrom(lines, k + 1, done);
      } else if IsIdentifier(e.key) && e.value != "" {
        if HasKey(done, e.key) {
          assert Gives(lines[k], Entry(e.key, e.value));
        } else {
          ListsMore(lines, 0, k, done, [e]);
          NewKey(done, e);
          ParsesFrom(lines, k + 1, done + [e]);
        }
      }
    }
  }

  lemma {:induction false} NewKey(es: seq<Entry>, e: Entry)
    requires DistinctKeys(es) && !HasKey(es, e.key)
    ensures DistinctKeys(es + [e])
  {
    forall j | 0 <= j < |es| ensures es[j].key != e.key { assert es[j] in es; }
  }

  lemma {:induction false} ParseReads(text: string)
    ensures Reads(SplitLines(text), Parse(text))
  {
    hide HasText, Gives, SplitLines, ParseLines;
    var lines := SplitLines(text);
    assert Lists(lines, 0, 0, []);
    ParsesFrom(lines, 0, []);
  }

  /** Where a text is split: its lines, with the carriage returns before the line feeds, spell it out. */
  function Joined(lines: seq<string>, crs: seq<bool>): string
    requires |lines| == |crs| + 1
  {
    if crs == [] then lines[0]
    else lines[0] + (if crs[0] then "\r\n" else "\n") + Joined(lines[1..], crs[1..])
  }

  lemma {:induction false} LinesSpell(text: string) returns (crs: seq<bool>)
    ensures |SplitLines(text)| == |crs| + 1 && Joined(SplitLines(text), crs) == text
    ensures forall line <- SplitLines(text) :: '\n' !in line
    decreases |text|
  {
    hide Stripped;
    var n := FirstNewline(text, 0);
    if n == |text| {
      crs := [];
      assert SplitLines(text) == [text];
    } else {
      var raw, rest := text[..n], text[n + 1..];
      var more := LinesSpell(rest);
      LineBreak(text, n);
      crs := [EndsInReturn(raw)] + more;
      assert crs[1..] == more && SplitLines(text) == [Stripped(raw)] + SplitLines(rest);
    }
  }

  predicate EndsInReturn(raw: string) { raw != "" && raw[|raw| - 1] == '\r' }

  lemma {:induction false} LineBreak(text: string, n: nat)
    requires n < |text| && text[n] == '\n' && forall k | 0 <= k < n :: text[k] != '\n'
    ensures var raw := text[..n];
            && text == Stripped(raw) + (if EndsInReturn(raw) then "\r\n" else "\n") + text[n + 1..]
            && '\n' !in Stripped(raw)
  {
    var raw := text[..n];
    assert text == raw + "\n" + text[n + 1..];
    if EndsInReturn(raw) { assert raw == raw[..n - 1] + "\r"; }
  }

  // ---------------------------------------------------------------- numbers in names

  /** The number that decimal digits stand for. */
  function NumberOf(s: string): nat
    requires forall k | 0 <= k < |s| :: '0' <= s[k] <= '9'
  {
    if s == "" then 0 else 10 * NumberOf(s[..|s| - 1]) + (s[|s| - 1] as int - '0' as int)
  }

  lemma {:induction false} DigitsStandFor(n: nat)
    ensures NumberOf(Digits(n)) == n && (n > 0 ==> Digits(n)[0] != '0')
  {
    if n >= 10 {
      DigitsStandFor(n / 10);
      assert Digits(n)[..|Digits(n)| - 1] == Digits(n / 10);
    } else {
      assert Digits(n)[..0] == "";
    }
  }

  /** A fresh name is the base, an underscore and the number, without leading zeros; the base loses its
      last characters only if the whole would have more than 64, and then the whole has 64. */
  lemma {:induction false} CandidateSpelled(base: string, n: nat)
    requires 2 <= n < 10_000
    ensures exists kept: string, digits: string ::
              && Candidate(base, n) == kept + "_" + digits && kept <= base
              && (forall k | 0 <= k < |digits| :: '0' <= digits[k] <= '9')
              && NumberOf(digits) == n && digits != "" && digits[0] != '0'
              && (kept != base ==> |Candidate(base, n)| == 64) && |Candidate(base, n)| <= 64
  {
    hide Digits;
    DigitsShort(n);
    DigitsStandFor(n);
    var digits := Digits(n);
    var room := 64 - |Suffix(n)|;
    var kept := if |base| <= room then base else base[..room];
    assert Candidate(base, n) == kept + ("_" + digits) == kept + "_" + digits;
  }

  /** The name tried for a child's run input: its own, or its own, an underscore and a number. */
  lemma {:induction false} ParentSpelled(id: string, s: nat)
    requires s >= 1
    ensures s == 1 ==> ParentName(id, s) == id
    ensures s > 1 ==> ParentName(id, s) == id + "_" + Digits(s) && NumberOf(Digits(s)) == s
  {
    hide Digits;
    DigitsStandFor(s);
  }

  // ---------------------------------------------------------------- what the children of a sub-workflow get

  /** What adding a sub-workflow promises of the run inputs, spelled out. */
  lemma {:induction false} ChildrenServed(root: map<string, Declaration>, children: seq<Child>,
                                          inputs: map<string, Declaration>, nodeInputs: map<string, string>,
                                          mappings: map<string, string>)
    requires AllFit(root, children, inputs, nodeInputs, mappings)
    ensures forall name <- root :: name in inputs && inputs[name] == root[name]
    ensures forall c <- children :: c.id in mappings && mappings[c.id] in inputs && mappings[c.id] in nodeInputs
    ensures forall c <- children ::
              inputs[mappings[c.id]].kind == c.declaration.kind && nodeInputs[mappings[c.id]] == c.declaration.kind
    ensures forall name <- inputs | name !in root ::
              exists c <- children :: c.id in mappings && mappings[c.id] == name && inputs[name] == c.declaration
    ensures forall id <- mappings :: exists c <- children :: c.id == id
  {
    forall c <- children
      ensures c.id in mappings && mappings[c.id] in inputs && mappings[c.id] in nodeInputs
              && inputs[mappings[c.id]].kind == c.declaration.kind && nodeInputs[mappings[c.id]] == c.declaration.kind
    {
      assert Fits(c, inputs, nodeInputs, mappings);
    }
    forall name <- inputs | name !in root
      ensures exists c <- children :: c.id in mappings && mappings[c.id] == name && inputs[name] == c.declaration
    {
      var c :| c in children && GivenFor(c, inputs, mappings, name);
    }
  }
}
