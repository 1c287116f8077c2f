// Percent-encoding of header keys (headerKeyEscape in transport/round_trippers.go): section 2.1 of
// RFC 3986 applied to the bytes that section 3.2.6 of RFC 7230 does not allow in a token.
module HeaderEscape {
  import opened Wrappers

  const PERCENT: Byte := 37

  // The entries of legalHeaderKeyBytes that are true.
  predicate LegalHeaderByte(b: Byte) {
    || b in {33, 35, 36, 37, 38, 39, 42, 43, 45, 46, 94, 95, 96, 124, 126}
    || 48 <= b <= 57
    || 65 <= b <= 90
    || 97 <= b <= 122
  }

  predicate ShouldEscape(b: Byte) {
    !LegalHeaderByte(b) || b == PERCENT
  }

  // An upper-case hexadecimal digit.
  function HexDigit(n: Byte): Byte
    requires n < 16
  {
    if n < 10 then 48 + n else 55 + n
  }

  function EscapeByte(b: Byte): seq<Byte> {
    if ShouldEscape(b) then [PERCENT, HexDigit(b / 16), HexDigit(b % 16)] else [b]
  }

  function Escape(key: seq<Byte>): seq<Byte> {
    if key == [] then [] else EscapeByte(key[0]) + Escape(key[1..])
  }

  method HeaderKeyEscape(key: seq<Byte>) returns (buf: seq<Byte>)
    ensures buf == Escape(key)
  {
    buf := [];
    var i := 0;
    assert key[0..] == key;
    while i < |key|
      invariant 0 <= i <= |key|
      invariant buf + Escape(key[i..]) == Escape(key)
    {
      var b := key[i];
      assert key[i..][0] == b && key[i..][1..] == key[i + 1..];
      assert buf + Escape(key[i..]) == (buf + EscapeByte(b)) + Escape(key[i + 1..]);
      i := i + 1;
      if ShouldEscape(b) {
        buf := buf + [PERCENT, HexDigit(b / 16), HexDigit(b % 16)];
        continue;
      }
      buf := buf + [b];
    }
  }

  // ---- The other direction, from the standard ----

  function HexValue(d: Byte): Option<Byte> {
    if 48 <= d <= 57 then Some(d - 48)
    else if 65 <= d <= 70 then Some(d - 55)
    else if 97 <= d <= 102 then Some(d - 87)
    else None
  }

  // Percent-decoding; None where a '%' is not followed by two hexadecimal digits.
  function Unescape(s: seq<Byte>): Option<seq<Byte>> {
    if s == [] then Some([])
    else if s[0] != PERCENT then
      match Unescape(s[1..]) case None => None case Some(rest) => Some([s[0]] + rest)
    else if |s| < 3 || HexValue(s[1]).None? || HexValue(s[2]).None? then None
    else
      match Unescape(s[3..])
      case None => None
      case Some(rest) => Some([HexValue(s[1]).value * 16 + HexValue(s[2]).value] + rest)
  }

  // Decoding gives back every key, so different keys have different escapes, and no escape holds a
  // '%' without its two digits.
  lemma {:induction false} RoundTrip(key: seq<Byte>)
    ensures Unescape(Escape(key)) == Some(key)
  {
    if key != [] {
      RoundTrip(key[1..]);
      var b, rest := key[0], Escape(key[1..]);
      assert key == [b] + key[1..];
      if ShouldEscape(b) {
        var e := [PERCENT, HexDigit(b / 16), HexDigit(b % 16)] + rest;
        assert e[3..] == rest;
        DigitsMean(b);
      } else {
        assert ([b] + rest)[1..] == rest;
      }
    }
  }

  lemma DigitsMean(b: Byte)
    ensures HexValue(HexDigit(b / 16)) == Some(b / 16) && HexValue(HexDigit(b % 16)) == Some(b % 16)
    ensures (b / 16) * 16 + b % 16 == b
  {
  }

  lemma Injective(a: seq<Byte>, b: seq<Byte>)
    requires Escape(a) == Escape(b)
    ensures a == b
  {
    RoundTrip(a);
    RoundTrip(b);
  }

  // An escaped key is a token, and a key of unreserved token bytes is its own escape.
  lemma {:induction false} EscapeIsToken(key: seq<Byte>)
    ensures forall i :: 0 <= i < |Escape(key)| ==> LegalHeaderByte(Escape(key)[i])
    ensures Escape(key) == key <==> forall i :: 0 <= i < |key| ==> !ShouldEscape(key[i])
    ensures |Escape(key)| >= |key|
  {
    if key != [] {
      EscapeIsToken(key[1..]);
      var b := key[0];
      assert key == [b] + key[1..];
      if ShouldEscape(b) {
        assert |Escape(key)| > |key|;
      } else {
        assert Escape(key)[1..] == Escape(key[1..]);
        forall i | 0 < i < |key| ensures key[i] == key[1..][i - 1] {}
      }
    }
  }

  // The token characters of section 3.2.6 of RFC 7230: fifteen marks, digits and letters.
  const MARKS := {'!', '#', '$', '%', '&', '\'', '*', '+', '-', '.', '^', '_', '`', '|', '~'}

  predicate TokenChar(c: char) {
    c in MARKS || '0' <= c <= '9' || 'A' <= c <= 'Z' || 'a' <= c <= 'z'
  }

  const UPPER_HEX := "0123456789ABCDEF"

  // The table holds exactly those, and a byte is left as it is exactly if it is one other than '%'.
  lemma TokenBytes(b: Byte)
    ensures LegalHeaderByte(b) <==> TokenChar((b as int) as char)
    ensures Escape([b]) == [b] <==> TokenChar((b as int) as char) && (b as int) as char != '%'
  {
    assert [b][1..] == [] && Escape([]) == [];
    assert Escape([b]) == EscapeByte(b) + [] == EscapeByte(b);
  }

  // Every '%' in an escaped key is followed by two upper-case hexadecimal digits.
  lemma {:induction false} EscapesAreUpperCase(key: seq<Byte>, i: nat)
    requires i < |Escape(key)| && Escape(key)[i] == PERCENT
    ensures i + 2 < |Escape(key)|
    ensures (Escape(key)[i + 1] as int) as char in UPPER_HEX && (Escape(key)[i + 2] as int) as char in UPPER_HEX
  {
    var b, rest := key[0], Escape(key[1..]);
    if ShouldEscape(b) {
      UpperHex(b / 16);
      UpperHex(b % 16);
      if i >= 3 {
        EscapesAreUpperCase(key[1..], i - 3);
        assert Escape(key)[3..] == rest;
      }
    } else {
      EscapesAreUpperCase(key[1..], i - 1);
      assert Escape(key)[1..] == rest;
    }
  }

  lemma UpperHex(n: Byte)
    requires n < 16
    ensures HexDigit(n) != PERCENT && (HexDigit(n) as int) as char in UPPER_HEX
  {
    assert UPPER_HEX[n as int] == (HexDigit(n) as int) as char;
  }
}
