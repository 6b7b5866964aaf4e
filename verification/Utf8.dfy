/**
 UTF-8, decimal and hexadecimal text as bytes, with the inverses that make them injective.
 */
module Utf8 {
  import opened Text
  import opened Words
  import Fnv

  function EncodeChar(c: char): (bytes: seq<Byte>)
    ensures |bytes| == Utf8Width(c)
  {
    var code := c as int;
    if code < 0x80 then [code]
    else if code < 0x800 then [0xC0 + code / 64, 0x80 + code % 64]
    else if code < 0x10000 then [0xE0 + code / 64 / 64, 0x80 + code / 64 % 64, 0x80 + code % 64]
    else [0xF0 + code / 64 / 64 / 64, 0x80 + code / 64 / 64 % 64, 0x80 + code / 64 % 64, 0x80 + code % 64]
  }

  function Encode(text: string): (bytes: seq<Byte>)
    ensures |bytes| == Utf8Len(text)
  {
    if text == "" then [] else EncodeChar(text[0]) + Encode(text[1..])
  }

  lemma {:induction false} EncodeAppend(a: string, b: string)
    ensures Encode(a + b) == Encode(a) + Encode(b)
  {
    if a == "" {
      assert a + b == b;
    } else {
      assert (a + b)[1..] == a[1..] + b;
      EncodeAppend(a[1..], b);
    }
  }

  /** No character's bytes begin another's. */
  lemma CharsArePrefixFree(c: char, d: char, x: seq<Byte>, y: seq<Byte>)
    requires EncodeChar(c) + x == EncodeChar(d) + y
    ensures c == d && x == y
  {
    var cs, ds := EncodeChar(c), EncodeChar(d);
    assert (cs + x)[0] == cs[0] && (ds + y)[0] == ds[0];
    assert |cs| == |ds|;
    assert (cs + x)[..|cs|] == cs && (ds + y)[..|ds|] == ds;
    assert (cs + x)[|cs|..] == x && (ds + y)[|ds|..] == y;
    SameBytesSameChar(c, d);
  }

  lemma SameQuotient(a: nat, b: nat)
    requires a / 64 == b / 64 && a % 64 == b % 64
    ensures a == b
  {
  }

  lemma SameBytesSameChar(c: char, d: char)
    requires EncodeChar(c) == EncodeChar(d)
    ensures c == d
  {
    var cs, ds, m, n := EncodeChar(c), EncodeChar(d), c as int, d as int;
    assert cs[0] == ds[0];
    if |cs| == 4 {
      assert cs[1] == ds[1];
      SameQuotient(m / 64 / 64, n / 64 / 64);
    }
    if |cs| >= 3 {
      assert cs[|cs| - 2] == ds[|cs| - 2];
      SameQuotient(m / 64, n / 64);
    }
    if |cs| >= 2 {
      assert cs[|cs| - 1] == ds[|cs| - 1];
      SameQuotient(m, n);
    }
  }

  lemma {:induction false} EncodeIsInjective(a: string, b: string)
    requires Encode(a) == Encode(b)
    ensures a == b
  {
    if a == "" {
      assert b == "";
    } else {
      assert b != "";
      CharsArePrefixFree(a[0], b[0], Encode(a[1..]), Encode(b[1..]));
      EncodeIsInjective(a[1..], b[1..]);
    }
  }

  // ---- decimal ----------------------------------------------------------------------------------

  const ZERO: Byte := 48
  const MINUS: Byte := 45
  const COLON: Byte := 58

  predicate IsDigit(b: Byte) {
    ZERO <= b < ZERO + 10
  }

  function Decimal(n: nat): (text: seq<Byte>)
    ensures |text| > 0 && forall b :: b in text ==> IsDigit(b)
  {
    if n < 10 then [ZERO + n] else Decimal(n / 10) + [ZERO + n % 10]
  }

  function DecimalInt(n: int): seq<Byte> {
    if n < 0 then [MINUS] + Decimal(-n) else Decimal(n)
  }

  function Value(text: seq<Byte>): int {
    if text == [] then 0 else 10 * Value(text[..|text| - 1]) + (text[|text| - 1] - ZERO)
  }

  function ValueInt(text: seq<Byte>): int {
    if text != [] && text[0] == MINUS then -Value(text[1..]) else Value(text)
  }

  lemma {:induction false} DecimalRoundTrip(n: nat)
    ensures Value(Decimal(n)) == n
  {
    if n < 10 {
      assert Decimal(n)[..0] == [];
      assert Value([]) == 0;
    } else {
      DecimalRoundTrip(n / 10);
      assert Decimal(n)[..|Decimal(n)| - 1] == Decimal(n / 10);
    }
  }

  /** Every integer, negative ones included, reads back from its print, which holds no colon. */
  lemma DecimalIntRoundTrip(n: int)
    ensures ValueInt(DecimalInt(n)) == n && COLON !in DecimalInt(n)
  {
    if n < 0 {
      DecimalRoundTrip(-n);
      assert DecimalInt(n)[1..] == Decimal(-n);
    } else {
      DecimalRoundTrip(n);
      assert IsDigit(Decimal(n)[0]);
    }
  }

  // ---- hexadecimal --------------------------------------------------------------------------------

  function HexEncode(bytes: seq<Byte>): string {
    if bytes == [] then ""
    else [Fnv.HexDigit(bytes[0] / 16), Fnv.HexDigit(bytes[0] % 16)] + HexEncode(bytes[1..])
  }

  /** Either case is read; anything else is an error. */
  function Nibble(c: char): (nibble: Option<nat>)
    ensures nibble.Some? ==> nibble.value < 16
  {
    if '0' <= c <= '9' then Some(c as int - '0' as int)
    else if 'a' <= c <= 'f' then Some(c as int - 'a' as int + 10)
    else if 'A' <= c <= 'F' then Some(c as int - 'A' as int + 10)
    else None
  }

  function HexDecode(text: string): Option<seq<Byte>> {
    if text == "" then Some([])
    else if |text| == 1 then None
    else
      var high, low, rest := Nibble(text[0]), Nibble(text[1]), HexDecode(text[2..]);
      if high.Some? && low.Some? && rest.Some?
      then Some([16 * high.value + low.value] + rest.value)
      else None
  }

  lemma DecodeOneByte(byte: Byte, rest: string)
    ensures HexDecode([Fnv.HexDigit(byte / 16), Fnv.HexDigit(byte % 16)] + rest)
            == if HexDecode(rest).Some? then Some([byte] + HexDecode(rest).value) else None
  {
    NibbleOfDigit(byte / 16);
    NibbleOfDigit(byte % 16);
    hide Nibble, Fnv.HexDigit;
    var text := [Fnv.HexDigit(byte / 16), Fnv.HexDigit(byte % 16)] + rest;
    assert text[2..] == rest;
  }

  lemma {:induction false} HexRoundTrip(bytes: seq<Byte>)
    ensures HexDecode(HexEncode(bytes)) == Some(bytes)
  {
    if bytes != [] {
      hide HexDecode, Fnv.HexDigit;
      HexRoundTrip(bytes[1..]);
      DecodeOneByte(bytes[0], HexEncode(bytes[1..]));
      assert bytes == [bytes[0]] + bytes[1..];
    } else {
      assert HexEncode(bytes) == "";
    }
  }

  predicate IsHexDigit(c: char) {
    '0' <= c <= '9' || 'a' <= c <= 'f' || 'A' <= c <= 'F'
  }

  function LowerCase(text: string): string {
    seq(|text|, i requires 0 <= i < |text| => if 'A' <= text[i] <= 'F' then text[i] - 'A' + 'a' else text[i])
  }

  /** Exactly pairs of hexadecimal digits are read, and the case of the letters makes no difference. */
  lemma {:induction false} ReadsPairsOfDigits(text: string)
    ensures HexDecode(text).Some? <==> |text| % 2 == 0 && forall i :: 0 <= i < |text| ==> IsHexDigit(text[i])
    ensures HexDecode(LowerCase(text)) == HexDecode(text)
    decreases |text|
  {
    if |text| >= 2 {
      var lower, rest := LowerCase(text), text[2..];
      ReadsPairsOfDigits(rest);
      assert lower[2..] == LowerCase(rest);
      CaseOfNibbles(text[0]);
      CaseOfNibbles(text[1]);
      assert lower[0] == LowerCase([text[0]])[0] && lower[1] == LowerCase([text[1]])[0];
      hide Nibble, IsHexDigit, LowerCase;
      assert forall i :: 0 <= i < |rest| ==> rest[i] == text[i + 2];
      assert forall i :: 2 <= i < |text| ==> text[i] == rest[i - 2];
    }
  }

  lemma CaseOfNibbles(c: char)
    ensures Nibble(c).Some? <==> IsHexDigit(c)
    ensures Nibble(LowerCase([c])[0]) == Nibble(c)
  {
  }

  lemma NibbleOfDigit(n: nat)
    requires n < 16
    ensures Nibble(Fnv.HexDigit(n)) == Some(n)
  {
    assert Fnv.HexDigit(n) == if n < 10 then (('0' as int + n) as char) else (('a' as int + n - 10) as char);
  }
}
