/** Bytes as numbers, with the bitwise operations the firmware uses on them:
    testing, setting or clearing one pixel bit, and exclusive or. The definitions
    recurse over the bits, least significant first. */
module Bytes {

  type byte = x: int | 0 <= x < 256

  function Pow2(n: nat): (p: nat)
    ensures p > 0
  {
    if n == 0 then 1 else 2 * Pow2(n - 1)
  }

  lemma Pow2Of8()
    ensures Pow2(8) == 256
  {
    assert Pow2(4) == 16;
    assert Pow2(6) == 64;
  }

  // (b >> i) & 1
  predicate LowBit(b: nat, i: nat) {
    if i == 0 then b % 2 == 1 else LowBit(b / 2, i - 1)
  }

  // on: b | (1 << i), off: b & ~(1 << i)
  function WithLowBit(b: nat, i: nat, on: bool): nat {
    if i == 0 then b / 2 * 2 + (if on then 1 else 0) else b % 2 + 2 * WithLowBit(b / 2, i - 1, on)
  }

  // Exclusive or of the low n bits.
  function XorBits(n: nat, a: nat, b: nat): nat {
    if n == 0 then 0 else (a + b) % 2 + 2 * XorBits(n - 1, a / 2, b / 2)
  }

  // b & (0x80 >> k) != 0: bit 0 is the leftmost pixel of the byte.
  predicate Bit(b: byte, k: nat)
    requires k < 8
  {
    LowBit(b, 7 - k)
  }

  // on: b | (0x80 >> k), off: b & ~(0x80 >> k)
  function WithBit(b: byte, k: nat, on: bool): (r: byte)
    requires k < 8
    ensures forall j: nat | j < 8 :: Bit(r, j) == if j == k then on else Bit(b, j)
  {
    Pow2Of8();
    WithLowBitBound(8, b, 7 - k, on);
    WithLowBitBits(b, 7 - k, on);
    WithLowBit(b, 7 - k, on)
  }

  // The numbers behind it: pixel k from the left is worth 128 / 2^k.
  lemma LeftmostIsMsb()
    ensures forall k: nat | k < 8 ::
      var mask := [128, 64, 32, 16, 8, 4, 2, 1][k];
      WithBit(0, k, true) == mask && WithBit(255, k, false) == 255 - mask
  {
    forall k: nat | k < 8
      ensures var mask := [128, 64, 32, 16, 8, 4, 2, 1][k];
        WithBit(0, k, true) == mask && WithBit(255, k, false) == 255 - mask
    {
      if k == 0 {} else if k == 1 {} else if k == 2 {} else if k == 3 {} else if k == 4 {} else if k == 5 {} else if k == 6 {} else {}
    }
  }

  function Xor(a: byte, b: byte): byte {
    Pow2Of8();
    XorBitsBound(8, a, b);
    XorBits(8, a, b)
  }

  lemma WithLowBitBound(n: nat, b: nat, i: nat, on: bool)
    requires i < n && b < Pow2(n)
    ensures WithLowBit(b, i, on) < Pow2(n)
  {
  }

  lemma {:induction false} WithLowBitIs(b: nat, i: nat, on: bool, j: nat)
    ensures LowBit(WithLowBit(b, i, on), j) == if i == j then on else LowBit(b, j)
  {
    if i > 0 && j > 0 {
      WithLowBitIs(b / 2, i - 1, on, j - 1);
    }
  }

  lemma WithLowBitBits(b: nat, i: nat, on: bool)
    ensures forall j: nat :: LowBit(WithLowBit(b, i, on), j) == if i == j then on else LowBit(b, j)
  {
    forall j: nat
      ensures LowBit(WithLowBit(b, i, on), j) == if i == j then on else LowBit(b, j)
    {
      WithLowBitIs(b, i, on, j);
    }
  }

  lemma XorBitsBound(n: nat, a: nat, b: nat)
    ensures XorBits(n, a, b) < Pow2(n)
  {
  }

  lemma {:induction false} SameLowBits(n: nat, a: nat, b: nat)
    requires a < Pow2(n) && b < Pow2(n)
    requires forall i: nat | i < n :: LowBit(a, i) == LowBit(b, i)
    ensures a == b
  {
    if n > 0 {
      assert LowBit(a, 0) == LowBit(b, 0);
      assert forall i: nat | i < n - 1 :: LowBit(a / 2, i) == LowBit(a, i + 1) == LowBit(b, i + 1);
      SameLowBits(n - 1, a / 2, b / 2);
    }
  }

  // a byte is known by its bits
  lemma SameBits(a: byte, b: byte)
    requires forall k: nat | k < 8 :: Bit(a, k) == Bit(b, k)
    ensures a == b
  {
    Pow2Of8();
    assert forall i: nat | i < 8 :: LowBit(a, i) == Bit(a, 7 - i) == Bit(b, 7 - i);
    SameLowBits(8, a, b);
  }

  lemma ParityCancels(a: nat, b: nat)
    ensures ((a + b) % 2 + b) % 2 == a % 2
  {
  }

  lemma {:induction false} XorBitsCancels(n: nat, a: nat, b: nat)
    requires a < Pow2(n)
    ensures XorBits(n, XorBits(n, a, b), b) == a
  {
    if n > 0 {
      var c, h := XorBits(n, a, b), XorBits(n - 1, a / 2, b / 2);
      assert c / 2 == h && (c + b) % 2 == ((a + b) % 2 + b) % 2;
      ParityCancels(a, b);
      XorBitsCancels(n - 1, a / 2, b / 2);
    }
  }

  lemma {:induction false} XorBitsZero(n: nat, a: nat, b: nat)
    requires a < Pow2(n) && b < Pow2(n)
    ensures XorBits(n, a, b) == 0 <==> a == b
  {
    if n > 0 {
      XorBitsZero(n - 1, a / 2, b / 2);
      assert a == a / 2 * 2 + a % 2 && b == b / 2 * 2 + b % 2;
      if XorBits(n, a, b) == 0 {
        assert XorBits(n - 1, a / 2, b / 2) == 0;
      }
    }
  }

  lemma XorCancels(a: byte, b: byte)
    ensures Xor(Xor(a, b), b) == a
  {
    Pow2Of8();
    XorBitsCancels(8, a, b);
  }

  lemma XorZero(a: byte, b: byte)
    ensures Xor(a, b) == 0 <==> a == b
  {
    Pow2Of8();
    XorBitsZero(8, a, b);
  }
}
