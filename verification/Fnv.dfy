/**
 The 64-bit FNV-1a transcript checksum and its 16-digit hexadecimal print.
 */
module Fnv {
  import opened Words

  const FNV_OFFSET_BASIS: U64 := 0xcbf29ce484222325
  const FNV_PRIME: int := 0x100000001b3
  const FNV_PRIME_INVERSE: int := 0xce965057aff6957b

  /** `hash ^ byte`: only the low eight bits of the state take part. */
  function XorLow(hash: U64, byte: Byte): U64 {
    256 * (hash / 256) + XorByte(hash % 256, byte)
  }

  function WrappingMul(hash: U64, factor: int): U64 {
    (hash * factor) % TWO_64
  }

  /** One iteration of the checksum loop. */
  function Absorb(hash: U64, byte: Byte): U64 {
    WrappingMul(XorLow(hash, byte), FNV_PRIME)
  }

  function Fold(hash: U64, bytes: seq<Byte>): U64
    decreases |bytes|
  {
    if bytes == [] then hash else Fold(Absorb(hash, bytes[0]), bytes[1..])
  }

  lemma XorOfTheFirstLetter()
    ensures Xor(0x25, 0x61) == 0x44
  {
    assert Xor(0x02, 0x06) == 0x04;
    assert Xor(0x09, 0x18) == 0x11;
  }

  /** The published test vectors of FNV-1a for nothing and for "a". */
  lemma TestVectors()
    ensures Fold(FNV_OFFSET_BASIS, []) == 0xcbf29ce484222325
    ensures Fold(FNV_OFFSET_BASIS, [0x61]) == 0xaf63dc4c8601ec8c
  {
    XorOfTheFirstLetter();
    hide Xor;
    assert XorLow(0xcbf29ce484222325, 0x61) == 0xcbf29ce484222344;
    assert Absorb(0xcbf29ce484222325, 0x61) == 0xaf63dc4c8601ec8c;
  }

  /** Undoes `Absorb` with the inverse of the FNV prime modulo 2^64. */
  function Unabsorb(hash: U64, byte: Byte): U64 {
    XorLow(WrappingMul(hash, FNV_PRIME_INVERSE), byte)
  }

  lemma TimesPrimeThenInverse(h: U64)
    ensures WrappingMul(WrappingMul(h, FNV_PRIME), FNV_PRIME_INVERSE) == h
  {
    var product := h * 0x100000001b3;
    var quotient, remainder := product / TWO_64, product % TWO_64;
    assert remainder == WrappingMul(h, FNV_PRIME);
    var carry := 0xce9650590f * h - quotient * 0xce965057aff6957b;
    RemainderOf(remainder * 0xce965057aff6957b, carry, h);
  }

  lemma TimesInverseThenPrime(h: U64)
    ensures WrappingMul(WrappingMul(h, FNV_PRIME_INVERSE), FNV_PRIME) == h
  {
    var product := h * 0xce965057aff6957b;
    var quotient, remainder := product / TWO_64, product % TWO_64;
    assert remainder == WrappingMul(h, FNV_PRIME_INVERSE);
    var carry := 0xce9650590f * h - quotient * 0x100000001b3;
    RemainderOf(remainder * 0x100000001b3, carry, h);
  }

  lemma RemainderOf(x: int, carry: int, h: U64)
    requires x == h + carry * TWO_64
    ensures x % TWO_64 == h
  {
  }

  lemma XorLowParts(hash: U64, byte: Byte)
    ensures XorLow(hash, byte) / 256 == hash / 256
    ensures XorLow(hash, byte) % 256 == XorByte(hash % 256, byte)
  {
    var high, low := hash / 256, XorByte(hash % 256, byte);
    assert (256 * high + low) / 256 == high;
  }

  lemma XorLowTwice(hash: U64, byte: Byte)
    ensures XorLow(XorLow(hash, byte), byte) == hash
  {
    XorLowParts(hash, byte);
    XorTwice(hash % 256, byte);
  }

  /** For each byte, one checksum step is a bijection on 64-bit states. */
  lemma AbsorbIsABijection(hash: U64, byte: Byte)
    ensures Unabsorb(Absorb(hash, byte), byte) == hash
    ensures Absorb(Unabsorb(hash, byte), byte) == hash
  {
    TimesPrimeThenInverse(XorLow(hash, byte));
    TimesInverseThenPrime(hash);
    XorLowTwice(hash, byte);
    XorLowTwice(WrappingMul(hash, FNV_PRIME_INVERSE), byte);
  }

  /** Distinct bytes take a state to distinct states. */
  lemma AbsorbIsInjectiveInTheByte(hash: U64, a: Byte, b: Byte)
    requires Absorb(hash, a) == Absorb(hash, b)
    ensures a == b
  {
    TimesPrimeThenInverse(XorLow(hash, a));
    TimesPrimeThenInverse(XorLow(hash, b));
    XorLowParts(hash, a);
    XorLowParts(hash, b);
    XorCancels(hash % 256, a, b);
  }

  lemma XorCancels(x: Byte, a: Byte, b: Byte)
    requires XorByte(x, a) == XorByte(x, b)
    ensures a == b
  {
    XorCommutes(x, a);
    XorCommutes(x, b);
    XorTwice(a, x);
    XorTwice(b, x);
  }

  lemma {:induction false} FoldAppend(hash: U64, a: seq<Byte>, b: seq<Byte>)
    ensures Fold(hash, a + b) == Fold(Fold(hash, a), b)
    decreases |a|
  {
    if a == [] {
      assert a + b == b;
    } else {
      assert (a + b)[1..] == a[1..] + b;
      FoldAppend(Absorb(hash, a[0]), a[1..], b);
    }
  }

  /** Absorbing the same bytes never merges two different states. */
  lemma {:induction false} FoldKeepsStatesApart(h1: U64, h2: U64, bytes: seq<Byte>)
    ensures Fold(h1, bytes) == Fold(h2, bytes) <==> h1 == h2
    decreases |bytes|
  {
    if bytes != [] {
      FoldKeepsStatesApart(Absorb(h1, bytes[0]), Absorb(h2, bytes[0]), bytes[1..]);
      AbsorbIsABijection(h1, bytes[0]);
      AbsorbIsABijection(h2, bytes[0]);
    }
  }

  /** Two transcripts of one length that differ in exactly one byte have different checksums. */
  lemma OneByteDifferenceIsDetected(hash: U64, a: seq<Byte>, b: seq<Byte>, i: nat)
    requires |a| == |b| && i < |a|
    requires forall j :: 0 <= j < |a| && j != i ==> a[j] == b[j]
    requires a[i] != b[i]
    ensures Fold(hash, a) != Fold(hash, b)
  {
    var before, after := a[..i], a[i + 1..];
    assert a == before + ([a[i]] + after);
    assert b == before + ([b[i]] + after);
    FoldAppend(hash, before, [a[i]] + after);
    FoldAppend(hash, before, [b[i]] + after);
    var mid := Fold(hash, before);
    assert ([a[i]] + after)[1..] == after && ([b[i]] + after)[1..] == after;
    if Absorb(mid, a[i]) == Absorb(mid, b[i]) {
      AbsorbIsInjectiveInTheByte(mid, a[i], b[i]);
    }
    FoldKeepsStatesApart(Absorb(mid, a[i]), Absorb(mid, b[i]), after);
  }

  // ---- the `{:016x}` print --------------------------------------------------------------

  function HexDigit(nibble: nat): char
    requires nibble < 16
  {
    "0123456789abcdef"[nibble]
  }

  predicate IsLowerHex(c: char) {
    '0' <= c <= '9' || 'a' <= c <= 'f'
  }

  function HexDigits(value: nat, width: nat): (text: string)
    ensures |text| == width
  {
    if width == 0 then "" else HexDigits(value / 16, width - 1) + [HexDigit(value % 16)]
  }

  function Hex(hash: U64): string {
    HexDigits(hash, 16)
  }

  /** Every print passes the report verifier's checksum test: sixteen lowercase digits. */
  lemma {:induction false} HexDigitsAreLowerHex(value: nat, width: nat)
    ensures forall c :: c in HexDigits(value, width) ==> IsLowerHex(c)
  {
    if width > 0 {
      HexDigitsAreLowerHex(value / 16, width - 1);
    }
  }

  lemma HexIsCanonical(hash: U64)
    ensures |Hex(hash)| == 16 && forall c :: c in Hex(hash) ==> IsLowerHex(c)
  {
    HexDigitsAreLowerHex(hash, 16);
  }

  function Pow16(width: nat): nat {
    if width == 0 then 1 else 16 * Pow16(width - 1)
  }

  lemma LastHexDigit(n: nat, width: nat)
    requires width > 0
    ensures |HexDigits(n, width)| == width
    ensures HexDigits(n, width)[..width - 1] == HexDigits(n / 16, width - 1)
    ensures HexDigits(n, width)[width - 1] == HexDigit(n % 16)
  {
    hide HexDigit;
  }

  lemma HexDigitIsInjective(a: nat, b: nat)
    requires a < 16 && b < 16 && HexDigit(a) == HexDigit(b)
    ensures a == b
  {
  }

  lemma {:induction false} HexDigitsAreInjective(a: nat, b: nat, width: nat)
    requires a < Pow16(width) && b < Pow16(width)
    requires HexDigits(a, width) == HexDigits(b, width)
    ensures a == b
  {
    if width > 0 {
      LastHexDigit(a, width);
      LastHexDigit(b, width);
      hide HexDigits, HexDigit;
      HexDigitIsInjective(a % 16, b % 16);
      HexDigitsAreInjective(a / 16, b / 16, width - 1);
    }
  }

  /** The print loses nothing: prints are equal exactly when the checksums are. */
  lemma HexIsInjective(a: U64, b: U64)
    ensures Hex(a) == Hex(b) <==> a == b
  {
    assert Pow16(8) == 0x1_0000_0000 && Pow16(12) == 0x1_0000_0000_0000;
    assert Pow16(16) == TWO_64;
    if Hex(a) == Hex(b) {
      HexDigitsAreInjective(a, b, 16);
    }
  }
}
