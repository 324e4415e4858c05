/**
  Fixed-width unsigned integers of the interpreter and the bit-level
  operations the instruction handlers perform on them.

  Values are unbounded `int`s restricted to the range of the Rust type they
  stand for. Bitwise operators are defined bit by bit on the low `n` bits of
  their operands, so a `u8` operator is the `n == 8` instance and wrap-around
  and masking happen exactly where the source performs them.
 */
module Bits {

  type u8 = x: int | 0 <= x < 0x100
  type u16 = x: int | 0 <= x < 0x1_0000
  type u32 = x: int | 0 <= x < 0x1_0000_0000
  type usize = x: int | 0 <= x < 0x1_0000_0000_0000_0000

  /** A 4-bit field of a byte (the source keeps these in a `u8`). */
  type Nibble = x: int | 0 <= x < 0x10

  function Pow2(k: nat): (p: nat)
    ensures p >= 1
  {
    if k == 0 then 1 else 2 * Pow2(k - 1)
  }

  /** The low `n` bits of `a & b`. */
  function BitAnd(a: nat, b: nat, n: nat): (r: nat)
    ensures r <= a && r <= b
    ensures r < Pow2(n)
  {
    if n == 0 then 0
    else 2 * BitAnd(a / 2, b / 2, n - 1) + (if a % 2 == 1 && b % 2 == 1 then 1 else 0)
  }

  /** The low `n` bits of `a | b`. */
  function BitOr(a: nat, b: nat, n: nat): (r: nat)
    ensures r < Pow2(n)
  {
    if n == 0 then 0
    else 2 * BitOr(a / 2, b / 2, n - 1) + (if a % 2 == 1 || b % 2 == 1 then 1 else 0)
  }

  /** The low `n` bits of `a ^ b`. */
  function BitXor(a: nat, b: nat, n: nat): (r: nat)
    ensures r < Pow2(n)
  {
    if n == 0 then 0
    else 2 * BitXor(a / 2, b / 2, n - 1) + (if (a % 2 == 1) != (b % 2 == 1) then 1 else 0)
  }

  function And8(a: u8, b: u8): u8 { BitAnd(a, b, 8) }
  function Or8(a: u8, b: u8): u8 { BitOr(a, b, 8) }
  function Xor8(a: u8, b: u8): u8 { BitXor(a, b, 8) }

  /** Bit `j` of a byte counted from the most significant end: `b & (0x80 >> j) != 0`. */
  predicate BitSet(b: u8, j: nat)
    requires j < 8
  {
    And8(b, Shr(0x80, j)) != 0
  }

  /** `a << k` on an `n`-bit integer: the bits shifted past the top are dropped. */
  function Shl(a: nat, k: nat, n: nat): (r: nat)
    ensures r < Pow2(n)
  {
    (a * Pow2(k)) % Pow2(n)
  }

  /** `a >> k` on an unsigned integer. */
  function Shr(a: nat, k: nat): (r: nat)
    ensures r <= a
  {
    if k == 0 then a else Shr(a / 2, k - 1)
  }

  /** Shifting right by 4 is division by 16. */
  lemma Shr4(a: nat)
    ensures Shr(a, 4) == a / 16
  {
    assert Shr(a, 4) == Shr(a / 2, 3) == Shr(a / 2 / 2, 2) == Shr(a / 2 / 2 / 2, 1) == a / 2 / 2 / 2 / 2;
  }

  /** `u8::overflowing_add`: the wrapped sum and whether the true sum left the byte range. */
  function OverflowingAdd(a: u8, b: u8): (u8, bool)
  {
    ((a + b) % 0x100, a + b > 0xFF)
  }

  /** `u8::overflowing_sub`: the wrapped difference and whether the true difference was negative. */
  function OverflowingSub(a: u8, b: u8): (u8, bool)
  {
    ((a - b) % 0x100, a - b < 0)
  }

  /** `u16::to_be_bytes`: the high byte first. */
  function ToBeBytes(w: u16): (u8, u8)
  {
    (w / 0x100, w % 0x100)
  }

  /** `(r >> 28) as u8`: a shift of a 32-bit word followed by a truncating cast. */
  function TopNibble(r: u32): u8
  {
    (r / Pow2(28)) % 0x100
  }

  /** Shifting left by `k` then or-ing in a value of fewer than `k` bits is addition. */
  lemma {:induction false} OrShifted(a: nat, b: nat, k: nat, n: nat)
    requires b < Pow2(k)
    requires a * Pow2(k) + b < Pow2(n)
    ensures BitOr(a * Pow2(k), b, n) == a * Pow2(k) + b
  {
    if k == 0 {
      assert Pow2(0) == 1 && a * Pow2(k) == a && b == 0;
      OrZero(a, n);
    } else if n == 0 {
      assert Pow2(0) == 1 && a * Pow2(k) == 0 && b == 0;
    } else {
      var hi := a * Pow2(k - 1);
      DoubleShift(a, k);
      assert Pow2(k) == 2 * Pow2(k - 1) && Pow2(n) == 2 * Pow2(n - 1);
      assert b / 2 < Pow2(k - 1);
      assert hi + b / 2 < Pow2(n - 1);
      OrStep(hi, b, n);
      OrShifted(a, b / 2, k - 1, n - 1);
      assert BitOr(a * Pow2(k), b, n) == 2 * (hi + b / 2) + b % 2;
    }
  }

  /** Shifting by `k > 0` is shifting by `k - 1` and doubling. */
  lemma DoubleShift(a: nat, k: nat)
    requires k > 0
    ensures a * Pow2(k) == 2 * (a * Pow2(k - 1))
  {
  }

  /** One step of `BitOr` on an even left operand: the low bit comes from `b` alone. */
  lemma OrStep(hi: nat, b: nat, n: nat)
    requires n > 0
    ensures BitOr(2 * hi, b, n) == 2 * BitOr(hi, b / 2, n - 1) + b % 2
  {
    assert (2 * hi) / 2 == hi && (2 * hi) % 2 == 0;
  }

  /** A left shift that loses no bits is multiplication. */
  lemma ShlExact(a: nat, k: nat, n: nat)
    requires a * Pow2(k) < Pow2(n)
    ensures Shl(a, k, n) == a * Pow2(k)
  {
    ModSmall(a * Pow2(k), Pow2(n));
  }

  lemma ModSmall(v: nat, m: nat)
    requires v < m
    ensures v % m == v
  {
  }

  /** Or-ing in zero changes nothing about a value that fits in `n` bits. */
  lemma {:induction false} OrZero(a: nat, n: nat)
    requires a < Pow2(n)
    ensures BitOr(a, 0, n) == a
  {
    if n > 0 {
      OrZero(a / 2, n - 1);
    }
  }

  /** Masking twice with the same mask is masking once: `(a & m) & m == a & m`. */
  lemma {:induction false} AndIdempotent(a: nat, m: nat, n: nat)
    ensures BitAnd(BitAnd(a, m, n), m, n) == BitAnd(a, m, n)
  {
    if n > 0 {
      AndIdempotent(a / 2, m / 2, n - 1);
    }
  }

  /** Binary digit `k` of `a`, counted from the least significant end. */
  function Digit(a: nat, k: nat): (d: nat)
  {
    if k == 0 then a % 2 else Digit(a / 2, k - 1)
  }

  /** A single-bit mask tests one binary digit: `a & 2^k != 0` iff digit `k` of `a` is one. */
  lemma {:induction false} AndPow2(a: nat, k: nat, n: nat)
    requires k < n
    ensures BitAnd(a, Pow2(k), n) != 0 <==> Digit(a, k) == 1
  {
    if k == 0 {
      AndZero(a / 2, n - 1);
    } else {
      assert Pow2(k) / 2 == Pow2(k - 1);
      assert Pow2(k) % 2 == 0;
      AndPow2(a / 2, k - 1, n - 1);
    }
  }

  lemma {:induction false} AndZero(a: nat, n: nat)
    ensures BitAnd(a, 0, n) == 0
  {
    if n > 0 {
      AndZero(a / 2, n - 1);
    }
  }

  /** `BitSet` reads binary digit `7 - j` of the byte: the sprite row is scanned most significant bit first. */
  lemma BitSetDigit(b: u8, j: nat)
    requires j < 8
    ensures BitSet(b, j) <==> Digit(b, 7 - j) == 1
  {
    assert Shr(0x80, j) == Pow2(7 - j) by {
      if j == 0 { assert Pow2(0) == 1 && Pow2(7) == 128; }
      else if j == 1 { assert Pow2(1) == 2 && Pow2(6) == 64; }
      else if j == 2 { assert Pow2(2) == 4 && Pow2(5) == 32; }
      else if j == 3 { assert Pow2(3) == 8 && Pow2(4) == 16; }
      else if j == 4 { assert Pow2(4) == 16 && Pow2(3) == 8; }
      else if j == 5 { assert Pow2(5) == 32 && Pow2(2) == 4; }
      else if j == 6 { assert Pow2(6) == 64 && Pow2(1) == 2; }
      else { assert Pow2(7) == 128 && Pow2(0) == 1; }
    }
    AndPow2(b, 7 - j, 8);
  }

  /** Digit `k < n` of `a & b` is one iff it is one in both operands. */
  lemma {:induction false} DigitAnd(a: nat, b: nat, n: nat, k: nat)
    requires k < n
    ensures Digit(BitAnd(a, b, n), k) == 1 <==> Digit(a, k) == 1 && Digit(b, k) == 1
  {
    if k > 0 {
      DigitAnd(a / 2, b / 2, n - 1, k - 1);
    }
  }

  /** Digit `k < n` of `a | b` is one iff it is one in either operand. */
  lemma {:induction false} DigitOr(a: nat, b: nat, n: nat, k: nat)
    requires k < n
    ensures Digit(BitOr(a, b, n), k) == 1 <==> Digit(a, k) == 1 || Digit(b, k) == 1
  {
    if k > 0 {
      DigitOr(a / 2, b / 2, n - 1, k - 1);
    }
  }

  /** Digit `k < n` of `a ^ b` is one iff it is one in exactly one operand. */
  lemma {:induction false} DigitXor(a: nat, b: nat, n: nat, k: nat)
    requires k < n
    ensures Digit(BitXor(a, b, n), k) == 1 <==> (Digit(a, k) == 1) != (Digit(b, k) == 1)
  {
    if k > 0 {
      DigitXor(a / 2, b / 2, n - 1, k - 1);
    }
  }

  lemma {:induction false} Pow2Add(a: nat, b: nat)
    ensures Pow2(a + b) == Pow2(a) * Pow2(b)
  {
    if a > 0 {
      Pow2Add(a - 1, b);
    }
  }

  /** The cast of `r >> 28` keeps the whole shifted value: a 32-bit word has only 4 bits above bit 27. */
  lemma TopNibbleSpec(r: u32)
    ensures TopNibble(r) == r / 0x1000_0000
    ensures TopNibble(r) < 16
  {
    assert Pow2(4) == 16 && Pow2(8) == 256;
    Pow2Add(8, 8);
    Pow2Add(16, 8);
    Pow2Add(24, 4);
    assert Pow2(28) == 0x1000_0000;
    var q := r / 0x1000_0000;
    assert q < 16;
    ModSmall(q, 0x100);
  }
}
