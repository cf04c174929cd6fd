/**
  Rust's fixed-width integers over Dafny's unbounded `int`.

  Rust's `/` and `%` on integers truncate toward zero, while Dafny's are
  Euclidean, so the truncating versions are defined here. Wrap-around is
  written out explicitly (`Wrap`), as release builds of Rust perform it.
 */
module MachineInt {

  const TWO_63: int := 0x8000_0000_0000_0000
  const TWO_64: int := 0x1_0000_0000_0000_0000
  const I64_MIN: int := -0x8000_0000_0000_0000
  const I64_MAX: int := 0x7FFF_FFFF_FFFF_FFFF
  const USIZE_MAX: int := 0xFFFF_FFFF_FFFF_FFFF

  type i64 = x: int | I64_MIN <= x <= I64_MAX
  /** A 64-bit target: `isize` has the range of `i64`. */
  type isize = x: int | I64_MIN <= x <= I64_MAX
  type usize = x: int | 0 <= x <= USIZE_MAX

  function Abs(x: int): nat {
    if x < 0 then -x else x
  }

  /** Two's-complement reduction of `x` into the `i64` range. */
  function Wrap(x: int): (r: i64)
    ensures (x - r) % TWO_64 == 0
    ensures I64_MIN <= x <= I64_MAX ==> r == x
  {
    var m := x % TWO_64;
    if m > I64_MAX then m - TWO_64 else m
  }

  /**
    Wrapping sum of two `i64` values: the exact sum leaves the range by less than
    one turn, so a single correction suffices.
   */
  function WrapAdd(a: i64, b: i64): i64 {
    var s := a + b;
    if s > I64_MAX then s - TWO_64 else if s < I64_MIN then s + TWO_64 else s
  }

  lemma WrapAddIsWrap(a: i64, b: i64)
    ensures WrapAdd(a, b) == Wrap(a + b)
  {
    var s := a + b;
    var w := WrapAdd(a, b);
    assert s - w == 0 || s - w == TWO_64 || s - w == -TWO_64;
    WrapCongruent(s, w);
  }

  /** Rust's integer `/`: the quotient truncated toward zero. */
  function TruncDiv(a: int, b: int): int
    requires b != 0
  {
    var q := Abs(a) / Abs(b);
    if (a < 0) == (b < 0) then q else -q
  }

  /** Rust's integer `%`: the remainder of `TruncDiv`, which takes the sign of `a`. */
  function TruncRem(a: int, b: int): (r: int)
    requires b != 0
    ensures a == b * TruncDiv(a, b) + r
    ensures Abs(r) < Abs(b)
    ensures a >= 0 ==> r >= 0
    ensures a <= 0 ==> r <= 0
  {
    TruncRemFacts(a, b);
    a - b * TruncDiv(a, b)
  }

  lemma TruncRemFacts(a: int, b: int)
    requires b != 0
    ensures Abs(a - b * TruncDiv(a, b)) < Abs(b)
    ensures a >= 0 ==> a - b * TruncDiv(a, b) >= 0
    ensures a <= 0 ==> a - b * TruncDiv(a, b) <= 0
  {
    var q := Abs(a) / Abs(b);
    var m := Abs(a) % Abs(b);
    assert Abs(a) == Abs(b) * q + m && 0 <= m < Abs(b);
    TruncProduct(a, b, q);
    assert a - b * TruncDiv(a, b) == (if a < 0 then -m else m);
  }

  /** The product of the divisor and the truncated quotient carries the dividend's sign. */
  lemma TruncProduct(a: int, b: int, q: int)
    requires b != 0 && q == Abs(a) / Abs(b)
    ensures b * TruncDiv(a, b) == (if a < 0 then -(Abs(b) * q) else Abs(b) * q)
  {
    var B := Abs(b);
    var td := TruncDiv(a, b);
    NegMul(B, q);
    if b < 0 {
      assert b == -B;
      if a < 0 {
        assert td == q;
        assert b * td == (-B) * q;
      } else {
        assert td == -q;
        assert b * td == (-B) * (-q);
      }
    } else {
      assert b == B;
      if a < 0 {
        assert td == -q;
        assert b * td == B * (-q);
      } else {
        assert td == q;
      }
    }
  }

  lemma NegMul(x: int, y: int)
    ensures (-x) * y == -(x * y) && x * (-y) == -(x * y) && (-x) * (-y) == x * y
  {
  }

  /**
    Truncated division is the only quotient whose remainder is smaller than
    the divisor and carries the dividend's sign: it is exactly what Rust's
    `/` and `%` compute together.
   */
  lemma TruncDivUnique(a: int, b: int, q: int, r: int)
    requires b != 0
    requires a == b * q + r
    requires Abs(r) < Abs(b)
    requires a > 0 ==> r >= 0
    requires a < 0 ==> r <= 0
    ensures q == TruncDiv(a, b) && r == TruncRem(a, b)
  {
    var q0 := TruncDiv(a, b);
    var r0 := TruncRem(a, b);
    var d := q - q0;
    Distribute(b, q, q0);
    SameSignGap(a, b, r, r0);
    if d != 0 {
      MulAbsAtLeast(b, d);
    }
  }

  lemma Distribute(b: int, q: int, q0: int)
    ensures b * q - b * q0 == b * (q - q0)
  {
  }

  lemma SameSignGap(a: int, b: int, r: int, r0: int)
    requires b != 0
    requires Abs(r) < Abs(b) && Abs(r0) < Abs(b)
    requires a > 0 ==> r >= 0 && r0 >= 0
    requires a < 0 ==> r <= 0 && r0 <= 0
    requires a == 0 ==> r0 == 0
    ensures Abs(r0 - r) < Abs(b)
  {
  }

  lemma MulAbsAtLeast(b: int, d: int)
    requires d != 0
    ensures Abs(b * d) >= Abs(b)
  {
    if d > 0 {
      if b >= 0 { assert b * d >= b * 1; } else { assert b * d <= b * 1; }
    } else {
      if b >= 0 { assert b * d <= b * -1; } else { assert b * d >= b * -1; }
    }
  }

  /** Power of two, used for shifts. */
  function Pow2(n: nat): (r: nat)
    ensures r >= 1
  {
    if n == 0 then 1 else 2 * Pow2(n - 1)
  }

  lemma {:induction false} Pow2Add(a: nat, b: nat)
    ensures Pow2(a + b) == Pow2(a) * Pow2(b)
    decreases a
  {
    if a > 0 {
      Pow2Add(a - 1, b);
    }
  }

  lemma Pow2Of64()
    ensures Pow2(64) == TWO_64
  {
    assert Pow2(4) == 16;
    Pow2Add(4, 4);
    assert Pow2(8) == 256;
    Pow2Add(8, 8);
    assert Pow2(16) == 0x1_0000;
    Pow2Add(16, 16);
    assert Pow2(32) == 0x1_0000_0000;
    Pow2Add(32, 32);
  }

  /** Release-build `<<` on `i64`: the amount is taken modulo 64 and the result wraps. */
  function ShiftLeft(x: i64, n: nat): i64 {
    Wrap(x * Pow2(n % 64))
  }

  /** `<<` agrees with multiplying by 2^(n mod 64), up to a multiple of 2^64. */
  lemma ShiftLeftWraps(x: i64, n: nat)
    ensures (ShiftLeft(x, n) - x * Pow2(n % 64)) % TWO_64 == 0
  {
    var p := x * Pow2(n % 64);
    var r := Wrap(p);
    var k := (p - r) / TWO_64;
    assert p - r == k * TWO_64;
    assert r - p == (-k) * TWO_64;
  }

  /** `>>` on `i64` is arithmetic: each step halves, rounding toward negative infinity. */
  function ShiftRight(x: i64, n: nat): i64 {
    HalveTimes(x, n % 64)
  }

  function HalveTimes(x: i64, k: nat): i64
    decreases k
  {
    if k == 0 then x else HalveTimes(x / 2, k - 1)
  }

  /** The two's-complement pattern of an `i64`, read as an unsigned number, and back. */
  function Unsigned(x: i64): (u: nat)
    ensures u < TWO_64
  {
    if x < 0 then x + TWO_64 else x
  }

  function Signed(u: nat): (x: i64)
    requires u < TWO_64
    ensures Unsigned(x) == u
  {
    if u > I64_MAX then u - TWO_64 else u
  }

  lemma SignedUnsigned(x: i64)
    ensures Signed(Unsigned(x)) == x
  {
  }

  /** A boolean operation on single bits. */
  datatype BitOp = And | Or | Xor

  function ApplyBit(op: BitOp, a: bool, b: bool): bool {
    match op
    case And => a && b
    case Or => a || b
    case Xor => a != b
  }

  /** `op` applied to each of the low `width` bits of `a` and `b`. */
  function Bitwise(op: BitOp, a: nat, b: nat, width: nat): (r: nat)
    ensures r < Pow2(width)
    decreases width
  {
    if width == 0 then 0
    else 2 * Bitwise(op, a / 2, b / 2, width - 1) + (if ApplyBit(op, a % 2 == 1, b % 2 == 1) then 1 else 0)
  }

  /** `!x`: in two's complement, inverting every bit gives `-x - 1`. */
  function BitNot(x: i64): i64 {
    -1 - x
  }

  function BitAnd(x: i64, y: i64): i64 {
    Pow2Of64();
    Signed(Bitwise(And, Unsigned(x), Unsigned(y), 64))
  }

  function BitOr(x: i64, y: i64): i64 {
    Pow2Of64();
    Signed(Bitwise(Or, Unsigned(x), Unsigned(y), 64))
  }

  function BitXor(x: i64, y: i64): i64 {
    Pow2Of64();
    Signed(Bitwise(Xor, Unsigned(x), Unsigned(y), 64))
  }

  /* --------------------------------- facts --------------------------------- */

  /** `Wrap` depends only on the residue modulo 2^64. */
  lemma WrapCongruent(x: int, y: int)
    requires (x - y) % TWO_64 == 0
    ensures Wrap(x) == Wrap(y)
  {
    var k := (x - y) / TWO_64;
    assert x - y == TWO_64 * k;
    assert x == y + TWO_64 * k;
    ModShift(y, k);
  }

  lemma ModShift(y: int, k: int)
    ensures (y + TWO_64 * k) % TWO_64 == y % TWO_64
  {
  }

  /** Wrapped negation undoes itself, including at `i64::MIN`, which it maps to itself. */
  lemma NegateTwice(x: i64)
    ensures Wrap(-1 * Wrap(-1 * x)) == x
  {
    var w := Wrap(-1 * x);
    assert (-1 * x - w) % TWO_64 == 0;
    var k := (-1 * x - w) / TWO_64;
    assert -1 * x - w == TWO_64 * k;
    assert -1 * w - x == TWO_64 * k;
    WrapCongruent(-1 * w, x);
  }

  /** Wrapped subtraction undoes wrapped addition. */
  lemma SubUndoesAdd(x: i64, y: i64)
    ensures Wrap(Wrap(x + y) - y) == x
  {
    var w := Wrap(x + y);
    var k := (x + y - w) / TWO_64;
    assert x + y - w == TWO_64 * k;
    assert x - (w - y) == TWO_64 * k;
    WrapCongruent(w - y, x);
  }

  /** XOR with the same bits twice gives the bits back. */
  lemma {:induction false} XorCancels(a: nat, b: nat, width: nat)
    requires a < Pow2(width)
    ensures Bitwise(Xor, Bitwise(Xor, a, b, width), b, width) == a
    decreases width
  {
    if width > 0 {
      var c := Bitwise(Xor, a, b, width);
      var rest := Bitwise(Xor, a / 2, b / 2, width - 1);
      var bit := if (a % 2 == 1) != (b % 2 == 1) then 1 else 0;
      assert c == 2 * rest + bit;
      assert c / 2 == rest && c % 2 == bit;
      XorCancels(a / 2, b / 2, width - 1);
    }
  }

  /** So `x ^ y ^ y == x` on `i64`. */
  lemma XorSelfInverse(x: i64, y: i64)
    ensures BitXor(BitXor(x, y), y) == x
  {
    Pow2Of64();
    XorCancels(Unsigned(x), Unsigned(y), 64);
  }

  /** AND of a pattern with itself, and OR with zero, give the pattern back. */
  lemma {:induction false} AndOrIdentities(a: nat, width: nat)
    requires a < Pow2(width)
    ensures Bitwise(And, a, a, width) == a
    ensures Bitwise(Or, a, 0, width) == a
    decreases width
  {
    if width > 0 {
      AndOrIdentities(a / 2, width - 1);
    }
  }

  /** `x & x == x` and `x | 0 == x` on `i64`. */
  lemma AndOrIdempotent(x: i64)
    ensures BitAnd(x, x) == x
    ensures BitOr(x, 0) == x
  {
    Pow2Of64();
    AndOrIdentities(Unsigned(x), 64);
  }

  /** Arithmetic right shift by `k` is floor division by 2^k. */
  lemma {:induction false} HalveTimesIsDivision(x: i64, k: nat)
    ensures HalveTimes(x, k) == x / Pow2(k)
    decreases k
  {
    if k > 0 {
      HalveTimesIsDivision(x / 2, k - 1);
      DivDiv(x, 2, Pow2(k - 1));
    }
  }

  lemma ShiftRightIsDivision(x: i64, n: nat)
    ensures ShiftRight(x, n) == x / Pow2(n % 64)
  {
    HalveTimesIsDivision(x, n % 64);
  }

  lemma DivDiv(x: int, a: nat, b: nat)
    requires a > 0 && b > 0
    ensures x / a / b == x / (a * b)
  {
    var q := x / a / b;
    var r1 := x % a;
    var r2 := (x / a) % b;
    assert x == a * (x / a) + r1;
    assert x / a == b * q + r2;
    assert x == (a * b) * q + (a * r2 + r1) by {
      assert a * (b * q + r2) == (a * b) * q + a * r2;
    }
    assert 0 <= a * r2 + r1 < a * b by {
      assert a * r2 <= a * (b - 1);
    }
    DivUnique(x, a * b, q, a * r2 + r1);
  }

  lemma DivUnique(x: int, d: nat, q: int, r: int)
    requires d > 0 && x == d * q + r && 0 <= r < d
    ensures x / d == q
  {
    var q0 := x / d;
    var r0 := x % d;
    assert x == d * q0 + r0;
    assert d * (q - q0) == r0 - r;
    SmallMultiple(d, q - q0, r0 - r);
  }

  /** The only multiple of `d` strictly between `-d` and `d` is zero. */
  lemma SmallMultiple(d: int, k: int, e: int)
    requires d > 0 && d * k == e && -d < e < d
    ensures k == 0
  {
  }

  /** Shifting left and then right by the same amount gives the value back when nothing overflowed. */
  lemma ShiftBack(x: i64, n: nat)
    requires n < 64 && I64_MIN <= x * Pow2(n) <= I64_MAX
    ensures ShiftRight(ShiftLeft(x, n), n) == x
  {
    var d := Pow2(n);
    var p := x * d;
    assert n % 64 == n;
    assert ShiftLeft(x, n) == Wrap(p);
    assert Wrap(p) == p;
    HalveTimesIsDivision(p, n);
    assert p == d * x + 0;
    DivUnique(p, d, x, 0);
  }

  /**
    What Rust's `/` and `%` compute together: subtracting the remainder
    leaves an exact multiple, and dividing that by the divisor gives the
    truncated quotient.
   */
  lemma RemainderFreeDivision(a: i64, b: i64)
    requires b != 0
    ensures I64_MIN <= a - TruncRem(a, b) <= I64_MAX
    ensures TruncDiv(a - TruncRem(a, b), b) == TruncDiv(a, b)
  {
    var q := TruncDiv(a, b);
    var r := TruncRem(a, b);
    assert a - r == b * q;
    TruncDivUnique(b * q, b, q, 0);
  }

  /** Truncated division of `i64`s stays in range except for `i64::MIN / -1`. */
  lemma TruncDivInRange(s: i64, o: i64)
    requires o != 0 && !(s == I64_MIN && o == -1)
    ensures I64_MIN <= TruncDiv(s, o) <= I64_MAX
  {
    if Abs(o) == 1 {
      assert Abs(s) / 1 == Abs(s);
    } else {
      QuotientAtMostHalf(Abs(s), Abs(o));
    }
  }

  lemma QuotientAtMostHalf(n: nat, d: nat)
    requires d >= 2
    ensures n / d <= n / 2
  {
    var q := n / d;
    DividedTimesBelow(n, d);
    TimesAtLeastTwice(d, q);
    DividedTimesBelow(n, 2);
    assert 2 * q <= n;
    assert n < 2 * (n / 2) + 2;
  }

  lemma DividedTimesBelow(n: nat, d: nat)
    requires d > 0
    ensures d * (n / d) <= n < d * (n / d) + d
  {
  }

  lemma TimesAtLeastTwice(d: nat, q: nat)
    requires d >= 2
    ensures d * q >= 2 * q
  {
    assert d * q == 2 * q + (d - 2) * q;
  }
}
