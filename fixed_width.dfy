// Fixed-width integer arithmetic of the C++ target (ARM Cortex-M, two's
// complement, `char` unsigned), stated on Dafny's unbounded integers.

module FixedWidth {

  type uint8 = x: int | 0 <= x < 0x100
  type uint16 = x: int | 0 <= x < 0x1_0000
  type uint32 = x: int | 0 <= x < 0x1_0000_0000
  type int16 = x: int | -0x8000 <= x < 0x8000
  type int32 = x: int | -0x8000_0000 <= x < 0x8000_0000

  datatype Option<T> = None | Some(value: T)

  function Pow2(n: nat): (r: nat)
    ensures r >= 1
  {
    if n == 0 then 1 else 2 * Pow2(n - 1)
  }

  /** The 32-bit two's-complement bit pattern of a signed value (the C
      conversion of an int32_t to uint32_t). */
  function ToBits32(v: int): (u: uint32)
    ensures 0 <= v < 0x1_0000_0000 ==> u == v
    ensures v < 0 && v > -0x1_0000_0000 ==> u == v + 0x1_0000_0000
  {
    v % 0x1_0000_0000
  }

  /** A 32-bit pattern read back as int32_t. */
  function FromBits32(u: uint32): (v: int32)
    ensures (u < 0x8000_0000 ==> v == u) && (u >= 0x8000_0000 ==> v == u - 0x1_0000_0000)
  {
    if u >= 0x8000_0000 then u - 0x1_0000_0000 else u
  }

  /** The 16-bit pattern of a signed value (int16_t to uint16_t). */
  function ToBits16(v: int): (u: uint16)
    ensures 0 <= v < 0x1_0000 ==> u == v
    ensures v < 0 && v > -0x1_0000 ==> u == v + 0x1_0000
  {
    v % 0x1_0000
  }

  /** A 16-bit pattern stored into an int16_t (GCC wraps modulo 2^16). */
  function FromBits16(u: uint16): (v: int16)
    ensures (u < 0x8000 ==> v == u) && (u >= 0x8000 ==> v == u - 0x1_0000)
  {
    if u >= 0x8000 then u - 0x1_0000 else u
  }

  /** Bitwise AND of two non-negative integers, bit by bit from the least
      significant end. */
  function BitAnd(a: nat, b: nat): (r: nat)
    ensures r <= a && r <= b
    decreases a
  {
    if a == 0 || b == 0 then 0
    else 2 * BitAnd(a / 2, b / 2) + (if a % 2 == 1 && b % 2 == 1 then 1 else 0)
  }

  /** Bitwise OR of two non-negative integers. */
  function BitOr(a: nat, b: nat): (r: nat)
    decreases a + b
  {
    if a == 0 then b
    else if b == 0 then a
    else 2 * BitOr(a / 2, b / 2) + (if a % 2 == 1 || b % 2 == 1 then 1 else 0)
  }

  /** Bit i of a non-negative integer. */
  function Bit(x: nat, i: nat): bool
  {
    if i == 0 then x % 2 == 1 else Bit(x / 2, i - 1)
  }

  lemma {:induction false} MulLe(a: int, b: int, c: nat)
    requires a <= b
    ensures a * c <= b * c
  {
    if c > 0 {
      MulLe(a, b, c - 1);
      assert a * c == a * (c - 1) + a && b * c == b * (c - 1) + b;
    }
  }

  /** Euclidean division has one quotient and remainder. */
  lemma DivUnique(a: int, d: int, q: int, r: int)
    requires d > 0 && 0 <= r < d && a == d * q + r
    ensures a / d == q && a % d == r
  {
    var q', r' := a / d, a % d;
    assert a == d * q' + r' && 0 <= r' < d;
    if q' < q {
      MulLe(q' + 1, q, d);
    } else if q' > q {
      MulLe(q + 1, q', d);
    }
  }

  lemma {:induction false} Pow2Split(n: nat, k: nat)
    requires k <= n
    ensures Pow2(k) * Pow2(n - k) == Pow2(n)
  {
    if k > 0 {
      Pow2Split(n - 1, k - 1);
    }
  }

  /** C99 integer division by a positive divisor: the quotient is truncated
      toward zero, so the remainder takes the sign of the dividend. */
  function TruncDiv(a: int, b: int): (q: int)
    requires b > 0
    ensures a >= 0 ==> 0 <= a - q * b < b
    ensures a < 0 ==> -b < a - q * b <= 0
  {
    if a >= 0 then a / b else -((-a) / b)
  }

  /** x rounded down to a multiple of 2^k, defined bit by bit. */
  function ClearLow(x: nat, k: nat): nat
  {
    if k == 0 then x else 2 * ClearLow(x / 2, k - 1)
  }

  /** The powers of two that the bit-width constants use. */
  lemma Pow2Table()
    ensures Pow2(4) == 0x10 && Pow2(6) == 64 && Pow2(7) == 128 && Pow2(8) == 0x100
    ensures Pow2(11) == 0x800 && Pow2(12) == 0x1000 && Pow2(13) == 0x2000 && Pow2(14) == 0x4000
    ensures Pow2(15) == 0x8000 && Pow2(16) == 0x1_0000
    ensures Pow2(31) == 0x8000_0000 && Pow2(32) == 0x1_0000_0000
  {
    assert Pow2(1) == 0x2;
    assert Pow2(2) == 0x4;
    assert Pow2(3) == 0x8;
    assert Pow2(4) == 0x10;
    assert Pow2(5) == 0x20;
    assert Pow2(6) == 0x40;
    assert Pow2(7) == 0x80;
    assert Pow2(8) == 0x100;
    assert Pow2(9) == 0x200;
    assert Pow2(10) == 0x400;
    assert Pow2(11) == 0x800;
    assert Pow2(12) == 0x1000;
    assert Pow2(13) == 0x2000;
    assert Pow2(14) == 0x4000;
    assert Pow2(15) == 0x8000;
    assert Pow2(16) == 0x10000;
    assert Pow2(17) == 0x20000;
    assert Pow2(18) == 0x40000;
    assert Pow2(19) == 0x80000;
    assert Pow2(20) == 0x100000;
    assert Pow2(21) == 0x200000;
    assert Pow2(22) == 0x400000;
    assert Pow2(23) == 0x800000;
    assert Pow2(24) == 0x1000000;
    assert Pow2(25) == 0x2000000;
    assert Pow2(26) == 0x4000000;
    assert Pow2(27) == 0x8000000;
    assert Pow2(28) == 0x10000000;
    assert Pow2(29) == 0x20000000;
    assert Pow2(30) == 0x40000000;
    assert Pow2(31) == 0x80000000;
    assert Pow2(32) == 0x100000000;
  }

  lemma MulRotate(a: int, b: int, c: int)
    ensures a * (b * c) == b * (a * c)
  {
  }

  lemma Pow2Succ(n: nat)
    ensures Pow2(n + 1) == 2 * Pow2(n)
  {
  }

  lemma {:induction false} Pow2Monotone(a: nat, b: nat)
    requires a <= b
    ensures Pow2(a) <= Pow2(b)
  {
    if a < b {
      Pow2Monotone(a, b - 1);
    }
  }

  lemma {:induction false} AndAllOnes(x: nat, n: nat)
    requires x < Pow2(n)
    ensures BitAnd(x, Pow2(n) - 1) == x
  {
    if n > 0 && x > 0 {
      var m := Pow2(n) - 1;
      assert m % 2 == 1 && m / 2 == Pow2(n - 1) - 1;
      AndAllOnes(x / 2, n - 1);
    }
  }

  lemma AndDouble(x: nat, m: nat)
    ensures BitAnd(x, 2 * m) == 2 * BitAnd(x / 2, m)
  {
    if x != 0 && m != 0 {
      assert (2 * m) / 2 == m && (2 * m) % 2 == 0;
    }
  }

  /** AND with a mask whose ones are exactly bits k .. n-1 clears the k low
      bits of an n-bit value. */
  lemma {:induction false} AndHighMask(x: nat, n: nat, k: nat)
    requires k <= n && x < Pow2(n)
    ensures Pow2(k) <= Pow2(n) && BitAnd(x, Pow2(n) - Pow2(k)) == ClearLow(x, k)
  {
    if k == 0 {
      AndAllOnes(x, n);
    } else {
      Pow2Monotone(k - 1, n - 1);
      var m := Pow2(n - 1) - Pow2(k - 1);
      AndHighMask(x / 2, n - 1, k - 1);
      AndHighMaskStep(x, n, k, m);
    }
  }

  /** The inductive step of AndHighMask: the mask for (n, k) is twice the
      mask for (n - 1, k - 1). */
  lemma AndHighMaskStep(x: nat, n: nat, k: nat, m: nat)
    requires 0 < k <= n && m == Pow2(n - 1) - Pow2(k - 1)
    requires BitAnd(x / 2, m) == ClearLow(x / 2, k - 1)
    ensures BitAnd(x, Pow2(n) - Pow2(k)) == ClearLow(x, k)
  {
    AndDouble(x, m);
    var mask := Pow2(n) - Pow2(k);
    assert mask == 2 * m;
    calc {
      BitAnd(x, mask);
      BitAnd(x, 2 * m);
      2 * BitAnd(x / 2, m);
      2 * ClearLow(x / 2, k - 1);
      ClearLow(x, k);
    }
  }

  /** A multiple of p less than p below u is at least any multiple of p
      not above u. */
  lemma MultipleAbove(u: nat, p: nat, t: nat, sh: nat)
    requires p > 0 && u - p < p * sh <= u && p * t <= u
    ensures p * t <= p * sh
  {
    if sh < t {
      MulLe(sh + 1, t, p);
    } else {
      MulLe(t, sh, p);
    }
  }

  /** Clearing the k low bits of an int16_t's pattern (k <= 15) and reading
      it back rounds the value down by less than 2^k. */
  lemma SignedClearLow16(v: int16, k: nat)
    requires k <= 15
    ensures ClearLow(ToBits16(v), k) <= ToBits16(v)
    ensures var r := FromBits16(ClearLow(ToBits16(v), k));
      ToBits16(r) == ClearLow(ToBits16(v), k) && r <= v < r + Pow2(k)
  {
    var u := ToBits16(v);
    ClearLowBounds(u, k);
    if v < 0 {
      // 2^15 is a multiple of 2^k, so the pattern's top bit survives.
      Pow2Split(15, k);
      assert Pow2(15) == 0x8000 by { Pow2Table(); }
      TopBitSurvives16(u, Pow2(k), Shr(u, k), Pow2(15 - k));
    }
  }

  /** The arithmetic core of SignedClearLow16 for a negative value. */
  lemma TopBitSurvives16(u: nat, p: nat, sh: nat, t: nat)
    requires p > 0 && p * t == 0x8000
    requires 0x8000 <= u < 0x1_0000 && 0 <= u - p * sh < p
    ensures 0x8000 <= p * sh <= u
  {
    MultipleAbove(u, p, t, sh);
  }

  /** The same on an int32_t, which also stays a multiple of 2^k. */
  lemma SignedClearLow32(v: int32, k: nat)
    requires k <= 31
    ensures ClearLow(ToBits32(v), k) <= ToBits32(v)
    ensures var u := ToBits32(v);
      var r := FromBits32(ClearLow(u, k));
      r <= v < r + Pow2(k)
      && r == Pow2(k) * (Shr(u, k) - (if v < 0 then Pow2(32 - k) else 0))
  {
    var u := ToBits32(v);
    ClearLowBounds(u, k);
    if v < 0 {
      Pow2Split(31, k);
      Pow2Split(32, k);
      assert Pow2(31) == 0x8000_0000 && Pow2(32) == 0x1_0000_0000 by { Pow2Table(); }
      TopBitSurvives(u, Pow2(k), Shr(u, k), Pow2(31 - k), Pow2(32 - k));
    }
  }

  /** A multiple of p leaves no remainder. */
  lemma MultipleMod(r: int, p: nat, n: int)
    requires p > 0 && r == p * n
    ensures r % p == 0
  {
    DivUnique(r, p, n, 0);
  }

  /** The arithmetic core of SignedClearLow32 for a negative value: the
      cleared pattern keeps its top bit and, read back, is still a multiple
      of p. */
  lemma TopBitSurvives(u: nat, p: nat, sh: nat, t: nat, t': nat)
    requires p > 0 && p * t == 0x8000_0000 && p * t' == 0x1_0000_0000
    requires 0x8000_0000 <= u < 0x1_0000_0000 && 0 <= u - p * sh < p
    ensures p * sh >= 0x8000_0000 && p * sh - 0x1_0000_0000 == p * (sh as int - t')
  {
    MultipleAbove(u, p, t, sh);
  }

  /** AND with the mask of bits k .. 31 rounds an int32_t down to a
      multiple of 2^k, by less than 2^k. */
  lemma SignedAndHighMask32(v: int32, k: nat)
    requires k <= 31
    ensures Pow2(k) <= 0x1_0000_0000
    ensures var q := FromBits32(BitAnd(ToBits32(v), 0x1_0000_0000 - Pow2(k)));
      q <= v < q + Pow2(k) && q % Pow2(k) == 0
  {
    var u := ToBits32(v);
    var word := Pow2(32);
    assert word == 0x1_0000_0000 by { Pow2Table(); }
    AndHighMask(u, 32, k);
    assert BitAnd(u, word - Pow2(k)) == ClearLow(u, k);
    RoundDownFacts(v, k, FromBits32(BitAnd(u, word - Pow2(k))));
  }


  /** The rounded value read back is within 2^k below v and a multiple of
      2^k. */
  lemma RoundDownFacts(v: int32, k: nat, q: int)
    requires k <= 31 && ClearLow(ToBits32(v), k) <= ToBits32(v)
    requires q == FromBits32(ClearLow(ToBits32(v), k))
    ensures q <= v < q + Pow2(k) && q % Pow2(k) == 0
  {
    var u := ToBits32(v);
    SignedClearLow32(v, k);
    MultipleMod(q, Pow2(k), Shr(u, k) - (if v < 0 then Pow2(32 - k) else 0));
  }


  /** `x & (1 << i)` is non-zero exactly when bit i of x is set. */
  lemma {:induction false} AndPow2(x: nat, i: nat)
    ensures (BitAnd(x, Pow2(i)) != 0) == Bit(x, i)
  {
    if i > 0 {
      AndPow2(x / 2, i - 1);
      AndDouble(x, Pow2(i - 1));
    }
  }

  /** `x | 0x02` sets bit 1 and keeps every other bit. */
  lemma OrTwo(x: nat)
    ensures BitOr(x, 2) == 4 * (x / 4) + 2 + x % 2
  {
    if x > 0 {
      assert BitOr(x, 2) == 2 * BitOr(x / 2, 1) + x % 2;
      if x / 2 > 0 {
        assert BitOr(x / 2, 1) == 2 * BitOr(x / 4, 0) + 1;
      }
    }
  }

  /** x with its k low bits shifted out (x >> k). */
  function Shr(x: nat, k: nat): nat
  {
    if k == 0 then x else Shr(x / 2, k - 1)
  }

  /** Clearing the k low bits leaves a multiple of 2^k less than 2^k below x. */
  lemma {:induction false} ClearLowBounds(x: nat, k: nat)
    ensures ClearLow(x, k) == Pow2(k) * Shr(x, k)
    ensures 0 <= x - ClearLow(x, k) < Pow2(k)
  {
    if k > 0 {
      ClearLowBounds(x / 2, k - 1);
    }
  }
}
