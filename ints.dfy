/** Fixed-width C++ integers (int8_t .. int64_t) and the two's-complement
    behaviour of the compiled code: wrap-around, truncating division and
    bitwise operations on the 64-bit pattern. */
module Ints {

  const TWO_31: int := 0x8000_0000
  const TWO_32: int := 0x1_0000_0000
  const TWO_63: int := 0x8000_0000_0000_0000
  const TWO_64: int := 0x1_0000_0000_0000_0000

  newtype int8 = x: int | -0x80 <= x < 0x80
  newtype int16 = x: int | -0x8000 <= x < 0x8000
  newtype int32 = x: int | -0x8000_0000 <= x < 0x8000_0000
  newtype int64 = x: int | -0x8000_0000_0000_0000 <= x < 0x8000_0000_0000_0000

  const INT64_MIN: int64 := -0x8000_0000_0000_0000

  /** The int64 congruent to x modulo 2^64: what a 64-bit register holds. */
  function Wrap64(x: int): (r: int64)
    ensures (r as int - x) % TWO_64 == 0
    ensures -TWO_63 <= x < TWO_63 ==> r as int == x
  {
    var m := x % TWO_64;
    if m < TWO_63 then m as int64 else (m - TWO_64) as int64
  }

  /** The int32 congruent to x modulo 2^32: the conversion of a wider value to `int`. */
  function Wrap32(x: int): (r: int32)
    ensures (r as int - x) % TWO_32 == 0
    ensures -TWO_31 <= x < TWO_31 ==> r as int == x
  {
    var m := x % TWO_32;
    if m < TWO_31 then m as int32 else (m - TWO_32) as int32
  }

  function Abs(x: int): nat { if x < 0 then -x else x }

  /** C++ integer division: the quotient is truncated toward zero. */
  function TruncDiv(a: int, b: int): int
    requires b != 0
  {
    var q := Abs(a) / Abs(b);
    if (a < 0) == (b < 0) then q else -q
  }

  /** Truncating division is characterised by its remainder: it has the sign
      of the dividend and is smaller than the divisor in magnitude. */
  lemma {:induction false} TruncDivRemainder(a: int, b: int)
    requires b != 0
    ensures var q := TruncDiv(a, b); var r := a - q * b;
      Abs(r) < Abs(b) && (r == 0 || (r < 0) == (a < 0))
  {
    var q0 := Abs(a) / Abs(b);
    var r0 := Abs(a) % Abs(b);
    assert Abs(a) == q0 * Abs(b) + r0;
    var q := TruncDiv(a, b);
    if a >= 0 && b > 0 {
      assert a - q * b == r0;
    } else if a >= 0 && b < 0 {
      assert q == -q0;
      assert q * b == q0 * Abs(b);
      assert a - q * b == r0;
    } else if a < 0 && b > 0 {
      assert q == -q0;
      assert q * b == -(q0 * Abs(b));
      assert a - q * b == -r0;
    } else {
      assert q == q0;
      assert q * b == -(q0 * Abs(b));
      assert a - q * b == -r0;
    }
  }

  /** The quotient is no larger in magnitude than the dividend. */
  lemma {:induction false} TruncDivShrinks(a: int, b: int)
    requires b != 0
    ensures Abs(TruncDiv(a, b)) <= Abs(a)
  {
    var q: nat := Abs(a) / Abs(b);
    assert Abs(TruncDiv(a, b)) == q;
    if Abs(b) >= 2 {
      DivSmaller(Abs(a), Abs(b));
    }
  }

  /** The only int64 quotient that does not fit is INT64_MIN / -1. */
  lemma {:induction false} TruncDivFits(a: int64, b: int64)
    requires b != 0 && !(a == INT64_MIN && b == -1)
    ensures -TWO_63 <= TruncDiv(a as int, b as int) < TWO_63
  {
    var q0 := Abs(a as int) / Abs(b as int);
    if Abs(b as int) == 1 {
      assert q0 == Abs(a as int);
    } else {
      assert Abs(b as int) >= 2;
      DivSmaller(Abs(a as int), Abs(b as int));
    }
  }

  lemma {:induction false} MulAtLeast(q: nat, b: nat)
    requires b >= 1
    ensures q <= q * b
  {
    if q > 0 {
      MulAtLeast(q - 1, b);
      assert q * b == (q - 1) * b + b;
    }
  }

  lemma {:induction false} DivSmaller(n: nat, d: nat)
    requires d >= 2
    ensures n / d <= n
    ensures n > 0 ==> n / d < n
  {
    var q := n / d;
    assert n == q * d + n % d;
    MulAtLeast(q, d - 1);
    assert q * d == q * (d - 1) + q;
  }

  /** 2^n. */
  function Pow2(n: nat): (p: nat)
    ensures p >= 1
  {
    if n == 0 then 1 else 2 * Pow2(n - 1)
  }

  /** The unsigned 64-bit pattern of an int64 (two's complement). */
  function ToUnsigned(x: int64): (u: nat)
    ensures u < TWO_64
    ensures u % TWO_64 == (x as int) % TWO_64
  {
    if x < 0 then x as int + TWO_64 else x as int
  }

  /** The int64 whose two's-complement pattern is u. */
  function FromUnsigned(u: nat): int64
    requires u < TWO_64
  {
    if u < TWO_63 then u as int64 else (u - TWO_64) as int64
  }

  lemma UnsignedRoundTrip(x: int64)
    ensures FromUnsigned(ToUnsigned(x)) == x
  {
  }

  datatype BitOp = BitAnd | BitOr | BitXor

  function BitOf(op: BitOp, a: nat, b: nat): (r: nat)
    requires a < 2 && b < 2
    ensures r < 2
  {
    match op
    case BitAnd => a * b
    case BitOr => if a + b > 0 then 1 else 0
    case BitXor => (a + b) % 2
  }

  /** The bitwise operation applied to the low n bits of u and v, bit by bit
      from the least significant one. */
  function Bitwise(op: BitOp, u: nat, v: nat, n: nat): (r: nat)
    ensures r < Pow2(n)
  {
    if n == 0 then 0
    else 2 * Bitwise(op, u / 2, v / 2, n - 1) + BitOf(op, u % 2, v % 2)
  }

  lemma {:induction false} Pow2Add(a: nat, b: nat)
    ensures Pow2(a + b) == Pow2(a) * Pow2(b)
  {
    if a > 0 {
      Pow2Add(a - 1, b);
    }
  }

  lemma Pow64()
    ensures Pow2(64) == TWO_64
  {
    assert Pow2(4) == 16;
    assert Pow2(8) == 0x100 by { Pow2Add(4, 4); }
    assert Pow2(16) == 0x1_0000 by { Pow2Add(8, 8); }
    assert Pow2(32) == 0x1_0000_0000 by { Pow2Add(16, 16); }
    Pow2Add(32, 32);
  }

  /** A bitwise operation of two int64 values, on their 64-bit patterns. */
  function BitwiseInt64(op: BitOp, a: int64, b: int64): int64 {
    Pow64();
    FromUnsigned(Bitwise(op, ToUnsigned(a), ToUnsigned(b), 64))
  }

  /** Every one of the three operations is symmetric in its operands. */
  lemma {:induction false} BitwiseCommutes(op: BitOp, u: nat, v: nat, n: nat)
    ensures Bitwise(op, u, v, n) == Bitwise(op, v, u, n)
  {
    if n > 0 {
      BitwiseCommutes(op, u / 2, v / 2, n - 1);
    }
  }

  /** Exclusive or with the same pattern twice restores the first operand. */
  lemma {:induction false} XorTwice(u: nat, v: nat, n: nat)
    requires u < Pow2(n)
    ensures Bitwise(BitXor, Bitwise(BitXor, u, v, n), v, n) == u
  {
    if n > 0 {
      var w := Bitwise(BitXor, u, v, n);
      assert w / 2 == Bitwise(BitXor, u / 2, v / 2, n - 1);
      assert w % 2 == BitOf(BitXor, u % 2, v % 2);
      XorTwice(u / 2, v / 2, n - 1);
    }
  }

  /** And with the all-ones pattern and or with the all-zeros pattern are identities. */
  lemma {:induction false} BitwiseIdentities(u: nat, n: nat)
    requires u < Pow2(n)
    ensures Bitwise(BitAnd, u, Pow2(n) - 1, n) == u
    ensures Bitwise(BitOr, u, 0, n) == u
  {
    if n > 0 {
      assert (Pow2(n) - 1) / 2 == Pow2(n - 1) - 1;
      assert (Pow2(n) - 1) % 2 == 1;
      BitwiseIdentities(u / 2, n - 1);
    }
  }

  lemma UnsignedPatternRoundTrip(u: nat)
    requires u < TWO_64
    ensures ToUnsigned(FromUnsigned(u)) == u
  {
  }

  /** The int64 operations inherit symmetry from the bit patterns. */
  lemma {:induction false} BitwiseInt64Commutes(op: BitOp, a: int64, b: int64)
    ensures BitwiseInt64(op, a, b) == BitwiseInt64(op, b, a)
  {
    BitwiseCommutes(op, ToUnsigned(a), ToUnsigned(b), 64);
  }

  /** `(a ^ b) ^ b == a` on int64. */
  lemma {:induction false} XorInt64Twice(a: int64, b: int64)
    ensures BitwiseInt64(BitXor, BitwiseInt64(BitXor, a, b), b) == a
  {
    Pow64();
    var w := Bitwise(BitXor, ToUnsigned(a), ToUnsigned(b), 64);
    UnsignedPatternRoundTrip(w);
    XorTwice(ToUnsigned(a), ToUnsigned(b), 64);
    UnsignedRoundTrip(a);
  }

  /** `a & -1 == a` and `a | 0 == a` on int64. */
  lemma {:induction false} BitwiseInt64Identities(a: int64)
    ensures BitwiseInt64(BitAnd, a, -1) == a
    ensures BitwiseInt64(BitOr, a, 0) == a
  {
    Pow64();
    assert ToUnsigned(-1) == Pow2(64) - 1;
    assert ToUnsigned(0) == 0;
    BitwiseIdentities(ToUnsigned(a), 64);
    UnsignedRoundTrip(a);
  }
}
