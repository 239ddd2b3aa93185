/** encodeURIComponent and decodeURIComponent: percent-encoding (section 2.1 of RFC 3986) over UTF-8
    (section 3 of RFC 3629). A string is a sequence of Unicode scalar values. */
module PercentEncoding {
  import opened Options

  newtype byte = x: int | 0 <= x < 256

  predicate IsUnreserved(c: char) {
    'a' <= c <= 'z' || 'A' <= c <= 'Z' || '0' <= c <= '9' || c in {'-', '_', '.', '!', '~', '*', '\'', '(', ')'}
  }

  // ---------------------------------------------------------------- UTF-8

  /** The bytes of a scalar value, one to four of them. */
  function Utf8(c: char): (bs: seq<byte>)
    ensures 1 <= |bs| <= 4
  {
    var n := c as int;
    if n < 0x80 then [n as byte]
    else if n < 0x800 then [(0xC0 + n / 64) as byte, (0x80 + n % 64) as byte]
    else if n < 0x1_0000 then [(0xE0 + n / 4096) as byte, (0x80 + n / 64 % 64) as byte, (0x80 + n % 64) as byte]
    else [(0xF0 + n / 26_2144) as byte, (0x80 + n / 4096 % 64) as byte, (0x80 + n / 64 % 64) as byte,
          (0x80 + n % 64) as byte]
  }

  /** How many bytes a sequence has that starts with this one; none starts with 10xxxxxx or 11111xxx. */
  function SequenceLength(b: byte): nat {
    if b < 0x80 then 1 else if b < 0xC0 then 0 else if b < 0xE0 then 2
    else if b < 0xF0 then 3 else if b < 0xF8 then 4 else 0
  }

  predicate IsContinuation(b: byte) { 0x80 <= b < 0xC0 }

  /** The scalar value of a byte sequence; overlong forms, surrogates and values past U+10FFFF have none. */
  function FromUtf8(bs: seq<byte>): Option<char>
    requires bs != [] && |bs| == SequenceLength(bs[0])
  {
    var low := (k: nat) requires k < |bs| => bs[k] as int - 0x80;
    if |bs| == 1 then Some(bs[0] as char)
    else if exists k | 1 <= k < |bs| :: !IsContinuation(bs[k]) then None
    else
      var n := if |bs| == 2 then (bs[0] as int - 0xC0) * 64 + low(1)
               else if |bs| == 3 then (bs[0] as int - 0xE0) * 4096 + low(1) * 64 + low(2)
               else (bs[0] as int - 0xF0) * 26_2144 + low(1) * 4096 + low(2) * 64 + low(3);
      var least := if |bs| == 2 then 0x80 else if |bs| == 3 then 0x800 else 0x1_0000;
      if n < least || 0xD800 <= n < 0xE000 || n > 0x10_FFFF then None else Some(n as char)
  }

  lemma {:induction false} Utf8RoundTrip(c: char)
    ensures SequenceLength(Utf8(c)[0]) == |Utf8(c)| && FromUtf8(Utf8(c)) == Some(c)
  {
    var n := c as int;
    if n >= 0x1_0000 {
      FourBytes(n);
    } else if n >= 0x800 {
      ThreeBytes(n);
    }
  }

  lemma {:induction false} ThreeBytes(n: int)
    requires 0x800 <= n < 0x1_0000
    ensures n / 4096 < 16 && n / 4096 * 4096 + n / 64 % 64 * 64 + n % 64 == n
  {
  }

  lemma {:induction false} FourBytes(n: int)
    requires 0x1_0000 <= n <= 0x10_FFFF
    ensures n / 26_2144 < 8 && n / 26_2144 * 26_2144 + n / 4096 % 64 * 4096 + n / 64 % 64 * 64 + n % 64 == n
  {
    var q, r := n / 64, n / 4096;
    assert n == 64 * q + n % 64;
    assert q == 64 * r + q % 64;
    assert r == 64 * (n / 26_2144) + r % 64;
  }

  // ---------------------------------------------------------------- hexadecimal

  function HexDigit(n: nat): (c: char)
    requires n < 16
    ensures IsUnreserved(c)
  {
    if n < 10 then (n + '0' as int) as char else (n - 10 + 'A' as int) as char
  }

  function HexValue(c: char): (r: Option<nat>)
    ensures r.Some? ==> r.value < 16
  {
    if '0' <= c <= '9' then Some(c as nat - '0' as nat)
    else if 'A' <= c <= 'F' then Some(c as nat - 'A' as nat + 10)
    else if 'a' <= c <= 'f' then Some(c as nat - 'a' as nat + 10)
    else None
  }

  function Escape(b: byte): (s: string)
    ensures |s| == 3
  {
    ['%', HexDigit(b as nat / 16), HexDigit(b as nat % 16)]
  }

  /** The byte that "%XX" at position i stands for. */
  function Unescape(s: string, i: nat): Option<byte> {
    if i + 3 <= |s| && s[i] == '%' && HexValue(s[i + 1]).Some? && HexValue(s[i + 2]).Some?
    then Some((HexValue(s[i + 1]).value * 16 + HexValue(s[i + 2]).value) as byte) else None
  }

  function Escapes(bs: seq<byte>): string { if bs == [] then "" else Escape(bs[0]) + Escapes(bs[1..]) }

  // ---------------------------------------------------------------- the two functions

  function EncodeChar(c: char): string { if IsUnreserved(c) then [c] else Escapes(Utf8(c)) }

  function Encode(s: string): string { if s == "" then "" else EncodeChar(s[0]) + Encode(s[1..]) }

  /** The bytes of n escapes in a row. */
  function UnescapeAll(s: string, i: nat, n: nat): (r: Option<seq<byte>>)
    ensures r.Some? && n > 0 ==> |r.value| == n && i + 3 * n <= |s|
    ensures r.Some? && n > 0 ==> Unescape(s, i) == Some(r.value[0])
    decreases n
  {
    if n == 0 then Some([])
    else if Unescape(s, i).None? then None
    else
      var rest := UnescapeAll(s, i + 3, n - 1);
      if rest.None? then None else Some([Unescape(s, i).value] + rest.value)
  }

  /** Malformed input has no value: the function that the browser provides throws. */
  function Decode(s: string): Option<string> {
    if s == "" then Some("")
    else if s[0] != '%' then Prepend(s[0], Decode(s[1..]))
    else if Unescape(s, 0).None? then None
    else
      var n := SequenceLength(Unescape(s, 0).value);
      if n == 0 then None
      else
        var bs := UnescapeAll(s, 0, n);
        if bs.None? || FromUtf8(bs.value).None? then None
        else Prepend(FromUtf8(bs.value).value, Decode(s[3 * n..]))
  }

  function Prepend(c: char, rest: Option<string>): Option<string> {
    if rest.Some? then Some([c] + rest.value) else None
  }

  // ---------------------------------------------------------------- round trip

  lemma {:induction false} EscapeRoundTrip(b: byte, rest: string)
    ensures Unescape(Escape(b) + rest, 0) == Some(b)
  {
    var hi, lo := b as nat / 16, b as nat % 16;
    assert HexValue(HexDigit(hi)) == Some(hi) && HexValue(HexDigit(lo)) == Some(lo);
    assert hi * 16 + lo == b as nat;
  }

  lemma {:induction false} EscapesLength(bs: seq<byte>)
    ensures |Escapes(bs)| == 3 * |bs|
  {
    if bs != [] { EscapesLength(bs[1..]); }
  }

  lemma {:induction false} UnescapeShift(s: string, t: string, i: nat, n: nat)
    ensures UnescapeAll(s + t, |s| + i, n) == UnescapeAll(t, i, n)
    decreases n
  {
    if n > 0 {
      assert |s| + i + 3 <= |s + t| ==> (s + t)[|s| + i..|s| + i + 3] == t[i..i + 3];
      assert i + 3 <= |t| ==>
               (s + t)[|s| + i] == t[i] && (s + t)[|s| + i + 1] == t[i + 1] && (s + t)[|s| + i + 2] == t[i + 2];
      assert Unescape(s + t, |s| + i) == Unescape(t, i);
      UnescapeShift(s, t, i + 3, n - 1);
    }
  }

  lemma {:induction false} EscapesRoundTrip(bs: seq<byte>, rest: string)
    ensures UnescapeAll(Escapes(bs) + rest, 0, |bs|) == Some(bs)
  {
    if bs != [] {
      var tail := Escapes(bs[1..]) + rest;
      assert Escapes(bs) + rest == Escape(bs[0]) + tail;
      EscapeRoundTrip(bs[0], tail);
      EscapesRoundTrip(bs[1..], rest);
      UnescapeShift(Escape(bs[0]), tail, 0, |bs| - 1);
      assert [bs[0]] + bs[1..] == bs;
    }
  }

  lemma {:induction false} CharRoundTrip(c: char, rest: string)
    ensures Decode(EncodeChar(c) + rest) == Prepend(c, Decode(rest))
  {
    hide Utf8, FromUtf8, Unescape;
    var s := EncodeChar(c) + rest;
    if IsUnreserved(c) {
      assert s[1..] == rest;
    } else {
      var bs := Utf8(c);
      Utf8RoundTrip(c);
      EscapesLength(bs);
      EscapesRoundTrip(bs, rest);
      assert Escapes(bs)[0] == '%';
      assert Unescape(s, 0) == Some(bs[0]);
      assert s[3 * |bs|..] == rest;
    }
  }

  /** Decoding undoes encoding, for every string. */
  lemma {:induction false} RoundTrip(s: string)
    ensures Decode(Encode(s)) == Some(s)
  {
    hide EncodeChar, Decode;
    if s != "" {
      CharRoundTrip(s[0], Encode(s[1..]));
      RoundTrip(s[1..]);
      assert [s[0]] + s[1..] == s;
    } else {
      assert Decode("") == Some("") by { DecodeEmpty(); }
    }
  }

  lemma {:induction false} DecodeEmpty()
    ensures Decode("") == Some("")
  {
  }

  /** What an encoded string can be made of: nothing that separates path segments, opens or closes a
      placeholder, or is special in a replacement. */
  predicate IsEncoded(s: string) { forall c <- s :: IsUnreserved(c) || c == '%' }

  lemma {:induction false} EscapesPlain(bs: seq<byte>)
    ensures IsEncoded(Escapes(bs))
  {
    if bs != [] { EscapesPlain(bs[1..]); }
  }

  lemma {:induction false} EncodedPlain(s: string)
    ensures IsEncoded(Encode(s)) && (Encode(s) == "" <==> s == "")
  {
    if s != "" {
      EncodedPlain(s[1..]);
      EscapesPlain(Utf8(s[0]));
      EscapesLength(Utf8(s[0]));
    }
  }

  // ---------------------------------------------------------------- what stays, and what the bytes are

  predicate Stays(c: char) { 'a' <= c <= 'z' || 'A' <= c <= 'Z' || '0' <= c <= '9' || c in "-_.!~*'()" }

  /** Letters, digits and nine marks stay as they are; any other character is written as escapes. */
  lemma {:induction false} EncodedCharacter(c: char, rest: string)
    ensures Encode([c] + rest) == EncodeChar(c) + Encode(rest)
    ensures if Stays(c) then EncodeChar(c) == [c] else EncodeChar(c) == Escapes(Utf8(c)) && EncodeChar(c)[0] == '%'
  {
    assert ([c] + rest)[1..] == rest;
    EscapesLength(Utf8(c));
    assert "-_.!~*'()"[0] == '-' && "-_.!~*'()"[1] == '_' && "-_.!~*'()"[2] == '.' && "-_.!~*'()"[3] == '!'
           && "-_.!~*'()"[4] == '~' && "-_.!~*'()"[5] == '*' && "-_.!~*'()"[6] == '\'' && "-_.!~*'()"[7] == '('
           && "-_.!~*'()"[8] == ')';
  }

  /** The first byte tells the length and starts with that many ones; the others start with "10". */
  lemma {:induction false} Utf8Bytes(c: char)
    ensures var n, bs := c as int, Utf8(c);
            && (|bs| == 1 <==> n < 0x80) && (|bs| <= 2 <==> n < 0x800) && (|bs| <= 3 <==> n < 0x1_0000)
            && (|bs| == 1 ==> bs[0] as int == n)
            && (|bs| == 2 ==> 0xC0 <= bs[0] < 0xE0) && (|bs| == 3 ==> 0xE0 <= bs[0] < 0xF0)
            && (|bs| == 4 ==> 0xF0 <= bs[0] < 0xF8) && forall k | 1 <= k < |bs| :: 0x80 <= bs[k] < 0xC0
  {
  }

  /** The examples of section 7 of RFC 3629: a mathematical sign, a Greek letter and an ideograph. */
  lemma {:induction false} Utf8Examples()
    ensures Utf8('\U{2262}') == [0xE2, 0x89, 0xA2] && Utf8('\U{0391}') == [0xCE, 0x91]
    ensures Utf8('\U{233B4}') == [0xF0, 0xA3, 0x8E, 0xB4]
  {
    var a, b, c := '\U{2262}' as int, '\U{0391}' as int, '\U{233B4}' as int;
    assert a == 0x2262 && b == 0x391 && c == 0x233B4;
  }

  /** An escape is the byte in two hexadecimal digits, capitals where they are letters. */
  lemma {:induction false} EscapeDigits(b: byte)
    ensures Escape(b) == ['%', "0123456789ABCDEF"[b as nat / 16], "0123456789ABCDEF"[b as nat % 16]]
  {
    HexDigits(b as nat / 16);
    HexDigits(b as nat % 16);
  }

  lemma {:induction false} HexDigits(n: nat)
    requires n < 16
    ensures HexDigit(n) == "0123456789ABCDEF"[n]
  {
    var s := "0123456789ABCDEF";
    assert s[0] == '0' && s[1] == '1' && s[2] == '2' && s[3] == '3' && s[4] == '4' && s[5] == '5' && s[6] == '6'
           && s[7] == '7' && s[8] == '8' && s[9] == '9' && s[10] == 'A' && s[11] == 'B' && s[12] == 'C'
           && s[13] == 'D' && s[14] == 'E' && s[15] == 'F';
  }

  /** Both cases of the hexadecimal digits are read. */
  lemma {:induction false} HexRead(c: char, n: nat)
    ensures HexValue(c) == Some(n) <==> n < 16 && (c == "0123456789ABCDEF"[n] || c == "0123456789abcdef"[n])
  {
    var s := "0123456789abcdef";
    assert s[0] == '0' && s[1] == '1' && s[2] == '2' && s[3] == '3' && s[4] == '4' && s[5] == '5' && s[6] == '6'
           && s[7] == '7' && s[8] == '8' && s[9] == '9' && s[10] == 'a' && s[11] == 'b' && s[12] == 'c'
           && s[13] == 'd' && s[14] == 'e' && s[15] == 'f';
    if n < 16 { HexDigits(n); }
  }

  /** The bytes of a character are the only ones that lead to it: none longer than needed, none of a
      surrogate or beyond the last scalar value. */
  lemma {:induction false} OnlyItsBytes(bs: seq<byte>, c: char)
    requires bs != [] && |bs| == SequenceLength(bs[0])
    ensures FromUtf8(bs) == Some(c) <==> bs == Utf8(c)
  {
    Utf8RoundTrip(c);
    if FromUtf8(bs) == Some(c) {
      var n := c as int;
      if |bs| == 2 {
        assert IsContinuation(bs[1]);
        TwoBytesBack(bs[0] as int - 0xC0, bs[1] as int - 0x80, n);
      } else if |bs| == 3 {
        assert IsContinuation(bs[1]) && IsContinuation(bs[2]);
        ThreeBytesBack(bs[0] as int - 0xE0, bs[1] as int - 0x80, bs[2] as int - 0x80, n);
      } else if |bs| == 4 {
        assert IsContinuation(bs[1]) && IsContinuation(bs[2]) && IsContinuation(bs[3]);
        FourBytesBack(bs[0] as int - 0xF0, bs[1] as int - 0x80, bs[2] as int - 0x80, bs[3] as int - 0x80, n);
      }
    }
  }

  lemma {:induction false} TwoBytesBack(a: int, b: int, n: int)
    requires 0 <= a && 0 <= b < 64 && n == a * 64 + b
    ensures n / 64 == a && n % 64 == b
  {
  }

  lemma {:induction false} ThreeBytesBack(a: int, b: int, c: int, n: int)
    requires 0 <= a && 0 <= b < 64 && 0 <= c < 64 && n == a * 4096 + b * 64 + c
    ensures n / 4096 == a && n / 64 % 64 == b && n % 64 == c
  {
    TwoBytesBack(a * 64 + b, c, n);
    TwoBytesBack(a, b, a * 64 + b);
  }

  lemma {:induction false} FourBytesBack(a: int, b: int, c: int, d: int, n: int)
    requires 0 <= a && 0 <= b < 64 && 0 <= c < 64 && 0 <= d < 64 && n == a * 26_2144 + b * 4096 + c * 64 + d
    ensures n / 26_2144 == a && n / 4096 % 64 == b && n / 64 % 64 == c && n % 64 == d
  {
    TwoBytesBack(a * 4096 + b * 64 + c, d, n);
    ThreeBytesBack(a, b, c, a * 4096 + b * 64 + c);
    assert n / 4096 == a * 64 + b;
  }

  /** An escape is read exactly where a percent sign and the two digits of the byte stand. */
  lemma {:induction false} EscapeRead(s: string, i: nat, b: byte)
    ensures Unescape(s, i) == Some(b) <==>
            && i + 2 < |s| && s[i] == '%'
            && HexValue(s[i + 1]) == Some(b as nat / 16) && HexValue(s[i + 2]) == Some(b as nat % 16)
  {
  }
}
