/** Bytes and words, and the bit operations the emulator applies to them.

    A byte (Rust `u8`) is an integer in 0..0xFF and a word (Rust `u16`) an integer in
    0..0xFFFF. Wrap-around is written out with `%`; shifts by a constant are
    multiplication and division by a power of two; AND, OR and XOR are computed bit by
    bit from the least significant bit up. */
module Bytes {

  type u8 = x: int | 0 <= x < 0x100
  type u16 = x: int | 0 <= x < 0x10000

  /** High byte of a word (`w >> 8`). */
  function High(w: u16): u8 {
    w / 0x100
  }

  /** Low byte of a word (`w & 0xFF`). */
  function Low(w: u16): u8 {
    w % 0x100
  }

  /** The word `(hi << 8) | lo`. */
  function Pair(hi: u8, lo: u8): (w: u16)
    ensures High(w) == hi && Low(w) == lo
  {
    hi * 0x100 + lo
  }

  /** Splitting a word into its two bytes and joining them again gives the word back. */
  lemma PairOfHalves(w: u16)
    ensures Pair(High(w), Low(w)) == w
  {
  }

  /** `u16::wrapping_add`: the sum modulo 2^16. */
  function WrappingAdd(x: u16, y: u16): u16 {
    (x + y) % 0x10000
  }

  /** `u16::wrapping_sub`: the difference modulo 2^16. */
  function WrappingSub(x: u16, y: u16): u16 {
    (x - y) % 0x10000
  }

  /** Adding one and then subtracting one, with wrap-around, gives the word back, and
      so does the other order. */
  lemma WrappingInverse(x: u16)
    ensures WrappingSub(WrappingAdd(x, 1), 1) == x
    ensures WrappingAdd(WrappingSub(x, 1), 1) == x
  {
  }

  /** `1 << k`. */
  function Pow2(k: nat): (p: nat)
    ensures p >= 1
  {
    if k == 0 then 1 else 2 * Pow2(k - 1)
  }

  /** `1 << b` is below `1 << w` when `b < w`. */
  lemma {:induction false} Pow2Below(b: nat, w: nat)
    requires b < w
    ensures Pow2(b) < Pow2(w)
  {
    if b < w - 1 {
      Pow2Below(b, w - 1);
    }
  }

  /** `x >> k`: `k` halvings, each dropping the lowest bit. */
  function Shr(x: nat, k: nat): nat {
    if k == 0 then x else Shr(x / 2, k - 1)
  }

  /** Bit `k` of `x` is 1 (bit 0 is the least significant). */
  predicate Bit(x: nat, k: nat) {
    Shr(x, k) % 2 == 1
  }

  /** The bits of `2 * y + b` are `b` followed by the bits of `y`. */
  lemma BitOfDouble(y: nat, b: nat, k: nat)
    requires b < 2
    ensures Bit(2 * y + b, 0) <==> b == 1
    ensures k > 0 ==> (Bit(2 * y + b, k) <==> Bit(y, k - 1))
  {
    assert (2 * y + b) / 2 == y;
  }

  /** The AND of the low `w` bits of `x` and `y`. */
  function AndBits(x: nat, y: nat, w: nat): (r: nat)
    ensures r < Pow2(w)
  {
    if w == 0 then 0
    else 2 * AndBits(x / 2, y / 2, w - 1) + (if x % 2 == 1 && y % 2 == 1 then 1 else 0)
  }

  /** The OR of the low `w` bits of `x` and `y`. */
  function OrBits(x: nat, y: nat, w: nat): (r: nat)
    ensures r < Pow2(w)
  {
    if w == 0 then 0
    else 2 * OrBits(x / 2, y / 2, w - 1) + (if x % 2 == 1 || y % 2 == 1 then 1 else 0)
  }

  /** The exclusive OR of the low `w` bits of `x` and `y`. */
  function XorBits(x: nat, y: nat, w: nat): (r: nat)
    ensures r < Pow2(w)
  {
    if w == 0 then 0
    else 2 * XorBits(x / 2, y / 2, w - 1) + (if (x % 2 == 1) != (y % 2 == 1) then 1 else 0)
  }

  /** A bit of `x / 2` is the next bit of `x`. */
  lemma BitOfHalf(x: nat, k: nat)
    ensures Bit(x / 2, k) <==> Bit(x, k + 1)
  {
  }

  /** Each bit of the AND is set exactly when it is set in both operands. */
  lemma {:induction false} AndBitsBit(x: nat, y: nat, w: nat, k: nat)
    requires k < w
    ensures Bit(AndBits(x, y, w), k) <==> Bit(x, k) && Bit(y, k)
  {
    var b := if x % 2 == 1 && y % 2 == 1 then 1 else 0;
    BitOfDouble(AndBits(x / 2, y / 2, w - 1), b, k);
    if k > 0 {
      AndBitsBit(x / 2, y / 2, w - 1, k - 1);
    }
  }

  /** Each bit of the OR is set exactly when it is set in either operand. */
  lemma {:induction false} OrBitsBit(x: nat, y: nat, w: nat, k: nat)
    requires k < w
    ensures Bit(OrBits(x, y, w), k) <==> Bit(x, k) || Bit(y, k)
  {
    var b := if x % 2 == 1 || y % 2 == 1 then 1 else 0;
    BitOfDouble(OrBits(x / 2, y / 2, w - 1), b, k);
    if k > 0 {
      OrBitsBit(x / 2, y / 2, w - 1, k - 1);
    }
  }

  /** Each bit of the XOR is set exactly when it is set in one operand only. */
  lemma {:induction false} XorBitsBit(x: nat, y: nat, w: nat, k: nat)
    requires k < w
    ensures Bit(XorBits(x, y, w), k) <==> Bit(x, k) != Bit(y, k)
  {
    var b := if (x % 2 == 1) != (y % 2 == 1) then 1 else 0;
    BitOfDouble(XorBits(x / 2, y / 2, w - 1), b, k);
    if k > 0 {
      XorBitsBit(x / 2, y / 2, w - 1, k - 1);
    }
  }

  /** OR with 0 keeps the low `w` bits. */
  lemma {:induction false} OrZero(y: nat, w: nat)
    requires y < Pow2(w)
    ensures OrBits(0, y, w) == y
  {
    if w > 0 {
      OrZero(y / 2, w - 1);
    }
  }

  /** AND with 0 is 0. */
  lemma {:induction false} AndZero(x: nat, w: nat)
    ensures AndBits(x, 0, w) == 0
  {
    if w > 0 {
      AndZero(x / 2, w - 1);
    }
  }

  /** AND with `2^w - 1` keeps the low `w` bits. */
  lemma {:induction false} AndAllOnes(x: nat, w: nat)
    requires x < Pow2(w)
    ensures AndBits(x, Pow2(w) - 1, w) == x
  {
    if w > 0 {
      AndAllOnes(x / 2, w - 1);
    }
  }

  /** The low `j` bits of `y` are 0. */
  predicate LowZero(y: nat, j: nat) {
    j == 0 || (y % 2 == 0 && LowZero(y / 2, j - 1))
  }

  /** OR-ing a value below `2^j` into one whose low `j` bits are 0 adds them: the two
      have no bit in common. */
  lemma {:induction false} OrDisjoint(x: nat, y: nat, j: nat, w: nat)
    requires j <= w && x < Pow2(j) && y < Pow2(w) && LowZero(y, j)
    ensures OrBits(x, y, w) == x + y
  {
    if j == 0 {
      OrZero(y, w);
    } else {
      OrDisjoint(x / 2, y / 2, j - 1, w - 1);
    }
  }

  /** `x & y` on bytes. */
  function And(x: u8, y: u8): u8 {
    AndBits(x, y, 8)
  }

  /** `x | y` on bytes. */
  function Or(x: u8, y: u8): u8 {
    OrBits(x, y, 8)
  }

  /** `x ^ y` on bytes. */
  function Xor(x: u8, y: u8): u8 {
    XorBits(x, y, 8)
  }

  /** OR is symmetric. */
  lemma {:induction false} OrComm(x: nat, y: nat, w: nat)
    ensures OrBits(x, y, w) == OrBits(y, x, w)
  {
    if w > 0 {
      OrComm(x / 2, y / 2, w - 1);
    }
  }

  /** `x & 0xFE` clears bit 0 of a byte and keeps the others. */
  lemma ClearLowBit(x: u8)
    ensures And(x, 0xFE) == x - x % 2
  {
    assert Pow2(7) - 1 == 0x7F;
    AndAllOnes(x / 2, 7);
  }

  /** `x & 0x01` is bit 0 of `x`. */
  lemma LowBit(x: u8)
    ensures And(x, 0x01) == x % 2
  {
    AndZero(x / 2, 7);
  }

  /** AND with `1 << j` keeps bit `j` alone. */
  lemma {:induction false} AndPow2(x: nat, j: nat, w: nat)
    requires j < w
    ensures AndBits(x, Pow2(j), w) == if Bit(x, j) then Pow2(j) else 0
  {
    if j == 0 {
      AndZero(x / 2, w - 1);
    } else {
      AndPow2(x / 2, j - 1, w - 1);
    }
  }

  /** Bit 7 of a byte is set exactly when the byte is at least 0x80. */
  lemma HighBit(n: u8)
    ensures Bit(n, 7) <==> n >= 0x80
  {
    var n1 := n / 2;
    var n2 := n1 / 2;
    var n3 := n2 / 2;
    var n4 := n3 / 2;
    var n5 := n4 / 2;
    var n6 := n5 / 2;
    assert Shr(n, 7) == Shr(n1, 6);
    assert Shr(n1, 6) == Shr(n2, 5);
    assert Shr(n2, 5) == Shr(n3, 4);
    assert Shr(n3, 4) == Shr(n4, 3);
    assert Shr(n4, 3) == Shr(n5, 2);
    assert Shr(n5, 2) == Shr(n6, 1);
    assert Shr(n6, 1) == n6 / 2;
  }

  /** `n & 0x80` is 0x80 exactly when the byte is at least 0x80, and 0 otherwise. */
  lemma HighMask(n: u8)
    ensures And(n, 0x80) == if n >= 0x80 then 0x80 else 0
  {
    assert Pow2(7) == 0x80;
    AndPow2(n, 7, 8);
    HighBit(n);
  }

  /** Any value XORed with itself is 0. */
  lemma {:induction false} XorBitsSelf(x: nat, w: nat)
    ensures XorBits(x, x, w) == 0
  {
    if w > 0 {
      XorBitsSelf(x / 2, w - 1);
    }
  }

  /** A non-zero value below `2^w` has a set bit among its low `w` bits. */
  lemma {:induction false} SomeBitSet(x: nat, w: nat)
    requires 0 < x < Pow2(w)
    ensures exists k :: 0 <= k < w && Bit(x, k)
  {
    if x % 2 == 1 {
      assert Bit(x, 0);
    } else {
      SomeBitSet(x / 2, w - 1);
      var k :| 0 <= k < w - 1 && Bit(x / 2, k);
      BitOfHalf(x, k);
    }
  }

  /** `1 << b` on a byte: one of the eight single-bit masks. */
  lemma Pow2Byte(b: nat)
    requires b < 8
    ensures Pow2(b) < 0x100
  {
    Pow2Below(b, 8);
    assert Pow2(8) == 0x100;
  }

  /** The only bit of `1 << b` is bit `b`. */
  lemma {:induction false} Pow2Bit(b: nat, k: nat)
    ensures Bit(Pow2(b), k) <==> k == b
  {
    if b == 0 {
      if k > 0 {
        BitOfDouble(0, 1, k);
        ZeroBit(k - 1);
      }
    } else {
      BitOfDouble(Pow2(b - 1), 0, k);
      if k > 0 {
        Pow2Bit(b - 1, k - 1);
      }
    }
  }

  /** No bit of 0 is set. */
  lemma {:induction false} ZeroBit(k: nat)
    ensures !Bit(0, k)
  {
    if k > 0 {
      ZeroBit(k - 1);
    }
  }

  /** `r & (1 << b)` is 0 exactly when bit `b` of `r` is 0. */
  lemma MaskTest(r: u8, b: nat)
    requires b < 8
    ensures Pow2(b) < 0x100
    ensures And(r, Pow2(b)) == 0 <==> !Bit(r, b)
  {
    Pow2Byte(b);
    var m := And(r, Pow2(b));
    AndBitsBit(r, Pow2(b), 8, b);
    Pow2Bit(b, b);
    if m == 0 {
      ZeroBit(b);
    } else {
      SomeBitSet(m, 8);
      var k :| 0 <= k < 8 && Bit(m, k);
      AndBitsBit(r, Pow2(b), 8, k);
      Pow2Bit(b, k);
    }
  }
}
