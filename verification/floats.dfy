/**
  IEEE-754 binary64 values, kept as their 64-bit pattern.

  The engine only inspects a float to decide whether it is zero, negative or
  NaN; every float computation is done by code outside this model (see
  `Solve.FloatArith`). Keeping the bit pattern lets those three tests be
  stated exactly, as Rust's `f == 0.0`, `f < 0.0` and `f.is_nan()` decide them.
 */
module Floats {

  datatype F64 = F64(bits: bv64)

  const SIGN_MASK: bv64 := 0x8000_0000_0000_0000
  const MAGNITUDE_MASK: bv64 := 0x7FFF_FFFF_FFFF_FFFF
  const EXPONENT_MASK: bv64 := 0x7FF0_0000_0000_0000
  const FRACTION_MASK: bv64 := 0x000F_FFFF_FFFF_FFFF

  /** All exponent bits set and a non-zero fraction. */
  predicate IsNan(f: F64) {
    f.bits & EXPONENT_MASK == EXPONENT_MASK && f.bits & FRACTION_MASK != 0
  }

  /** `f == 0.0`: true of both +0.0 and -0.0. */
  predicate IsZero(f: F64) {
    f.bits & MAGNITUDE_MASK == 0
  }

  /** `f < 0.0`: sign bit set, and neither a zero nor a NaN. */
  predicate IsNegative(f: F64) {
    f.bits & SIGN_MASK != 0 && !IsZero(f) && !IsNan(f)
  }

  const POSITIVE_ZERO: F64 := F64(0)
  const NEGATIVE_ZERO: F64 := F64(0x8000_0000_0000_0000)

  /** Both signed zeros compare equal to 0.0 and neither is below it. */
  lemma SignedZeros()
    ensures IsZero(POSITIVE_ZERO) && IsZero(NEGATIVE_ZERO)
    ensures !IsNegative(POSITIVE_ZERO) && !IsNegative(NEGATIVE_ZERO)
  {
  }
}
