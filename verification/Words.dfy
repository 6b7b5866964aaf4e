/**
 Machine words as bounded integers, with exclusive-or defined bit by bit.
 */
module Words {

  type Byte = b: int | 0 <= b < 256
  type U16 = h: int | 0 <= h < 0x1_0000
  type U64 = h: int | 0 <= h < TWO_64

  const TWO_64: int := 0x1_0000_0000_0000_0000

  /** Exclusive-or of two naturals, from the lowest bit up. */
  function Xor(a: nat, b: nat): nat
    decreases a + b
  {
    if a == 0 && b == 0 then 0 else (a + b) % 2 + 2 * Xor(a / 2, b / 2)
  }

  function Pow2(bits: nat): (p: nat)
    ensures p >= 1
  {
    if bits == 0 then 1 else 2 * Pow2(bits - 1)
  }

  lemma {:induction false} XorIsBounded(a: nat, b: nat, bits: nat)
    requires a < Pow2(bits) && b < Pow2(bits)
    ensures Xor(a, b) < Pow2(bits)
    decreases bits
  {
    if bits > 0 {
      XorIsBounded(a / 2, b / 2, bits - 1);
    }
  }

  lemma XorHalves(a: nat, b: nat)
    ensures Xor(a, b) % 2 == (a + b) % 2
    ensures Xor(a, b) / 2 == Xor(a / 2, b / 2)
  {
    var half := Xor(a / 2, b / 2);
    assert (2 * half + (a + b) % 2) / 2 == half;
  }

  lemma {:induction false} XorTwice(a: nat, b: nat)
    ensures Xor(Xor(a, b), b) == a
    decreases a + b
  {
    if a > 0 || b > 0 {
      var half := Xor(a / 2, b / 2);
      XorTwice(a / 2, b / 2);
      XorHalves(a, b);
      XorOfHalves(Xor(a, b), b, half, b / 2);
      ParityTwice(a, b, half);
    }
  }

  lemma XorOfHalves(x: nat, y: nat, halfX: nat, halfY: nat)
    requires x / 2 == halfX && y / 2 == halfY
    ensures Xor(x, y) == (x + y) % 2 + 2 * Xor(halfX, halfY)
  {
  }

  lemma ParityTwice(a: nat, b: nat, half: nat)
    ensures ((a + b) % 2 + 2 * half + b) % 2 + 2 * (a / 2) == a
  {
  }

  lemma {:induction false} XorCommutes(a: nat, b: nat)
    ensures Xor(a, b) == Xor(b, a)
    decreases a + b
  {
    if a > 0 || b > 0 {
      XorCommutes(a / 2, b / 2);
    }
  }

  function XorByte(a: Byte, b: Byte): Byte {
    assert Xor(a, b) < 256 by { ByteXorIsAByte(a, b); }
    Xor(a, b)
  }

  lemma ByteXorIsAByte(a: Byte, b: Byte)
    ensures Xor(a, b) < 256
  {
    assert Pow2(4) == 16;
    assert Pow2(8) == 256;
    XorIsBounded(a, b, 8);
  }

  function XorWord(a: U16, b: U16): U16 {
    assert Xor(a, b) < 0x1_0000 by { WordXorIsAWord(a, b); }
    Xor(a, b)
  }

  lemma WordXorIsAWord(a: U16, b: U16)
    ensures Xor(a, b) < 0x1_0000
  {
    assert Pow2(4) == 16;
    assert Pow2(8) == 256;
    assert Pow2(12) == 0x1000;
    assert Pow2(16) == 0x1_0000;
    XorIsBounded(a, b, 16);
  }
}
