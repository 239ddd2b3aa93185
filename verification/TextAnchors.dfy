/** Annotation anchors: browser string offsets, counted in UTF-16 code units, stored as offsets in the
    UTF-8 form of the text. The text is a sequence of Unicode scalar values. */
module TextAnchors {
  import opened Options
  import opened PercentEncoding

  /** A scalar value past U+FFFF is a pair of code units. */
  function Units(c: char): nat { if c as int < 0x1_0000 then 1 else 2 }

  function UnitLength(s: string): nat { if s == "" then 0 else Units(s[0]) + UnitLength(s[1..]) }

  function Bytes(s: string): seq<byte> { if s == "" then [] else Utf8(s[0]) + Bytes(s[1..]) }

  /** How many characters stand before a code-unit offset, unless it splits one or lies outside. */
  function CharAtUnit(s: string, unit: nat): (k: Option<nat>)
    ensures k.Some? ==> k.value <= |s| && (k.value == 0 <==> unit == 0)
  {
    if unit == 0 then Some(0)
    else if s == "" || unit < Units(s[0]) then None
    else
      var k := CharAtUnit(s[1..], unit - Units(s[0]));
      if k.Some? then Some(k.value + 1) else None
  }

  /** The byte offset of a code-unit offset; splitting a character is an error. */
  function Utf8OffsetAt(s: string, unit: nat): Option<nat> {
    var k := CharAtUnit(s, unit);
    if k.Some? then Some(|Bytes(s[..k.value])|) else None
  }

  /** The fatal decoder: malformed or truncated input is an error. */
  function DecodeBytes(bs: seq<byte>): Option<string> {
    if bs == [] then Some("")
    else
      var n := SequenceLength(bs[0]);
      if n == 0 || n > |bs| || FromUtf8(bs[..n]).None? then None
      else Prepend(FromUtf8(bs[..n]).value, DecodeBytes(bs[n..]))
  }

  const BYTE_ORDER_MARK: char := '\U{FEFF}'

  predicate StartsWithMark(s: string) { s != "" && s[0] == BYTE_ORDER_MARK }

  /** What the browser's decoder returns: it drops a byte order mark at the start. */
  function DecodeText(bs: seq<byte>): Option<string> {
    var d := DecodeBytes(bs);
    if d.Some? && StartsWithMark(d.value) then Some(d.value[1..]) else d
  }

  function CodeUnitOffsetAt(s: string, offset: nat): Option<nat> {
    if offset > |Bytes(s)| then None
    else
      var d := DecodeText(Bytes(s)[..offset]);
      if d.Some? then Some(UnitLength(d.value)) else None
  }

  // ---------------------------------------------------------------- decoding a prefix

  lemma {:induction false} PrefixBytes(s: string, k: nat)
    requires k <= |s|
    ensures |Bytes(s[..k])| <= |Bytes(s)| && Bytes(s)[..|Bytes(s[..k])|] == Bytes(s[..k])
  {
    hide Utf8;
    if k > 0 {
      assert s[..k][1..] == s[1..][..k - 1];
      PrefixBytes(s[1..], k - 1);
      var u, rest, tail := Utf8(s[0]), Bytes(s[1..][..k - 1]), Bytes(s[1..]);
      assert (u + tail)[..|u| + |rest|] == u + tail[..|rest|];
    }
  }

  lemma {:induction false} CharDecodes(c: char, rest: seq<byte>)
    ensures DecodeBytes(Utf8(c) + rest) == Prepend(c, DecodeBytes(rest))
  {
    Utf8RoundTrip(c);
    var u := Utf8(c);
    hide Utf8, FromUtf8, SequenceLength;
    var bs := u + rest;
    assert bs[0] == u[0] && bs[..|u|] == u && bs[|u|..] == rest;
  }

  lemma {:induction false} BytesDecode(s: string)
    ensures DecodeBytes(Bytes(s)) == Some(s)
  {
    hide Utf8, FromUtf8;
    if s != "" {
      CharDecodes(s[0], Bytes(s[1..]));
      BytesDecode(s[1..]);
      assert [s[0]] + s[1..] == s;
    }
  }

  lemma {:induction false} UnitsOfPrefix(s: string, unit: nat)
    ensures CharAtUnit(s, unit).Some? ==> UnitLength(s[..CharAtUnit(s, unit).value]) == unit
  {
    if unit > 0 && s != "" && unit >= Units(s[0]) {
      UnitsOfPrefix(s[1..], unit - Units(s[0]));
      var k := CharAtUnit(s, unit);
      if k.Some? { assert s[..k.value][1..] == s[1..][..k.value - 1]; }
    }
  }

  /** Exactly when a selection offset comes back from its stored form: unless the text starts with a byte
      order mark, which the decoder drops, so that every later offset comes back one too small. */
  lemma {:induction false} OffsetRoundTrip(s: string, unit: nat)
    requires Utf8OffsetAt(s, unit).Some?
    ensures var back := CodeUnitOffsetAt(s, Utf8OffsetAt(s, unit).value);
            && back == Some(if unit > 0 && StartsWithMark(s) then unit - 1 else unit)
            && (back == Some(unit) <==> unit == 0 || !StartsWithMark(s))
  {
    hide Utf8;
    var k := CharAtUnit(s, unit).value;
    PrefixBytes(s, k);
    BytesDecode(s[..k]);
    UnitsOfPrefix(s, unit);
  }

  /** A byte offset inside a character has no code-unit offset. */
  lemma {:induction false} SplitBytesFail(s: string, k: nat, offset: nat)
    requires k < |s| && |Bytes(s[..k])| < offset < |Bytes(s[..k])| + |Utf8(s[k])|
    ensures offset <= |Bytes(s)| && CodeUnitOffsetAt(s, offset).None?
  {
    hide Utf8, FromUtf8;
    SplitPrefix(s, k, offset);
  }

  lemma {:induction false} SplitPrefix(s: string, k: nat, offset: nat)
    requires k < |s| && |Bytes(s[..k])| < offset < |Bytes(s[..k])| + |Utf8(s[k])|
    ensures offset <= |Bytes(s)| && DecodeBytes(Bytes(s)[..offset]).None?
  {
    hide FromUtf8;
    var u, tail := Utf8(s[0]), Bytes(s[1..]);
    Utf8RoundTrip(s[0]);
    hide Utf8;
    if k == 0 {
      assert s[..0] == "";
      assert (u + tail)[..offset][0] == u[0];
    } else {
      assert s[..k][1..] == s[1..][..k - 1] && s[..k][0] == s[0];
      SplitPrefix(s[1..], k - 1, offset - |u|);
      assert (u + tail)[..offset] == u + tail[..offset - |u|];
      CharDecodes(s[0], tail[..offset - |u|]);
    }
  }

  // ---------------------------------------------------------------- anchors

  datatype Anchor = Anchor(startOffset: nat, endOffset: nat, quotedText: string)

  /** The text between two code-unit offsets, if neither splits a character. */
  function SliceUnits(s: string, from: nat, to: nat): Option<string> {
    var a, b := CharAtUnit(s, from), CharAtUnit(s, to);
    if a.Some? && b.Some? && a.value <= b.value then Some(s[a.value..b.value]) else None
  }

  const QUOTE_LIMIT: nat := 16384

  /** The anchor of a selection: not empty, not too long, and not splitting a character. */
  function CreateAnchor(s: string, from: nat, to: nat): Option<Anchor> {
    var quoted := SliceUnits(s, from, to);
    if from >= to || quoted.None? || |Bytes(quoted.value)| > QUOTE_LIMIT then None
    else Some(Anchor(Utf8OffsetAt(s, from).value, Utf8OffsetAt(s, to).value, quoted.value))
  }

  predicate ValidAnchor(s: string, anchor: Anchor) {
    var from, to := CodeUnitOffsetAt(s, anchor.startOffset), CodeUnitOffsetAt(s, anchor.endOffset);
    from.Some? && to.Some? && SliceUnits(s, from.value, to.value) == Some(anchor.quotedText)
  }

  /** An anchor leads back to its selection and to the text it quotes, in every text that does not start
      with a byte order mark. */
  lemma {:induction false} AnchorRoundTrip(s: string, from: nat, to: nat)
    requires CreateAnchor(s, from, to).Some? && !StartsWithMark(s)
    ensures var anchor := CreateAnchor(s, from, to).value;
            && ValidAnchor(s, anchor)
            && CodeUnitOffsetAt(s, anchor.startOffset) == Some(from)
            && CodeUnitOffsetAt(s, anchor.endOffset) == Some(to)
  {
    hide Bytes, CodeUnitOffsetAt, CharAtUnit;
    OffsetRoundTrip(s, from);
    OffsetRoundTrip(s, to);
  }

  /** A character of four bytes is a pair of code units, and any other is one. */
  lemma {:induction false} PairsHaveFourBytes(c: char)
    ensures Units(c) == if |Utf8(c)| == 4 then 2 else 1
  {
  }

  lemma {:induction false} CharAtItsUnit(s: string, k: nat)
    requires k <= |s|
    ensures CharAtUnit(s, UnitLength(s[..k])) == Some(k)
  {
    if k > 0 {
      assert s[..k][1..] == s[1..][..k - 1] && s[..k][0] == s[0];
      CharAtItsUnit(s[1..], k - 1);
    }
  }

  lemma {:induction false} UnitsAscend(s: string, a: nat, b: nat)
    requires a <= b <= |s|
    ensures UnitLength(s[..a]) <= UnitLength(s[..b]) && (a < b ==> UnitLength(s[..a]) < UnitLength(s[..b]))
  {
    if b > 0 {
      assert s[..b][1..] == s[1..][..b - 1] && s[..b][0] == s[0];
      if a > 0 {
        assert s[..a][1..] == s[1..][..a - 1] && s[..a][0] == s[0];
        UnitsAscend(s[1..], a - 1, b - 1);
      }
    }
  }

  /** Selecting the characters from a to b: the anchor holds their bytes and quotes them, unless there are
      none, or they have more than 16384 bytes. */
  lemma {:induction false} SelectionAnchored(s: string, a: nat, b: nat)
    requires a <= b <= |s|
    ensures CreateAnchor(s, UnitLength(s[..a]), UnitLength(s[..b])) ==
            if a < b && |Bytes(s[a..b])| <= 16_384
            then Some(Anchor(|Bytes(s[..a])|, |Bytes(s[..b])|, s[a..b])) else None
  {
    hide Bytes;
    CharAtItsUnit(s, a);
    CharAtItsUnit(s, b);
    UnitsAscend(s, a, b);
  }

  /** With a mark, the anchor of a two-letter selection quotes other text than it finds. */
  lemma {:induction false} MarkedAnchorExample()
    ensures var s := [BYTE_ORDER_MARK, 'a', 'b'];
            CreateAnchor(s, 1, 2).Some? && !ValidAnchor(s, CreateAnchor(s, 1, 2).value)
  {
    var s := [BYTE_ORDER_MARK, 'a', 'b'];
    assert s[1..] == ['a', 'b'] && s[1..][1..] == ['b'] && ['b'][1..] == [];
    assert CharAtUnit(['a', 'b'], 0) == Some(0) && CharAtUnit(['b'], 0) == Some(0);
    assert CharAtUnit(['a', 'b'], 1) == Some(1);
    assert CharAtUnit(s, 0) == Some(0) && CharAtUnit(s, 1) == Some(1) && CharAtUnit(s, 2) == Some(2);
    assert s[1..2] == ['a'] && s[0..1] == [BYTE_ORDER_MARK];
    assert SliceUnits(s, 1, 2) == Some(['a']) && SliceUnits(s, 0, 1) == Some([BYTE_ORDER_MARK]);
    assert |Bytes(['a'])| == 1 by { assert ['a'][1..] == []; }
    OffsetRoundTrip(s, 1);
    OffsetRoundTrip(s, 2);
  }
}
