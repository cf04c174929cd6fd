/**
  The number semantics of the RPN evaluator: the `Int | Float` union, its
  operators with their promotion rules and guards, name reading, and
  `math_solve` as an instance of the generic stack machine.

  Integer arithmetic is modelled exactly as a release build performs it
  (`+`, `-`, `*` and `<<` wrap; the shift amount is taken modulo 64).
  Floating-point arithmetic is not modelled: every float computation the
  source performs is a field of `FloatArith`, so what is proved here holds
  whatever IEEE-754 arithmetic computes.
 */
module Solve {
  import opened Errors
  import opened Floats
  import opened MachineInt
  import opened Radix
  import opened Operators
  import opened RpnStack
  import opened Trees

  const TWO_53: int := 0x20_0000_0000_0000

  /** What `f_to_i` can return: it rejects anything rounding beyond 2^53 in magnitude. */
  type Integral = x: int | -TWO_53 <= x <= TWO_53

  /** The float computations the number semantics relies on. */
  datatype FloatArith = FloatArith(
    add: (F64, F64) -> F64,
    sub: (F64, F64) -> F64,
    mul: (F64, F64) -> F64,
    div: (F64, F64) -> F64,
    rem: (F64, F64) -> F64,
    /** `i_to_f`: `i as f64`. */
    iToF: i64 -> F64,
    /** `f_to_i`: round half away from zero, then convert; NaN and values beyond 2^53 are `IntConversion` errors. */
    fToI: F64 -> Result<Integral>,
    /** `str::parse::<f64>`. */
    parse: string -> Option<F64>)

  /** `Number`. */
  datatype Number = Int(i: i64) | Float(f: F64)

  /* ------------------------------- arithmetic ------------------------------- */

  /** `+`: an Int exactly when both operands are; on Ints, the sum modulo 2^64. */
  function AddNumbers(a: Number, b: Number, arith: FloatArith): (r: Number)
    ensures r.Int? <==> a.Int? && b.Int?
    ensures r.Int? ==> (r.i - (a.i + b.i)) % TWO_64 == 0
    ensures r.Int? && I64_MIN <= a.i + b.i <= I64_MAX ==> r.i == a.i + b.i
  {
    match (a, b)
    case (Int(s), Int(o)) => Int(Wrap(s + o))
    case (Float(s), Int(o)) => Float(arith.add(s, arith.iToF(o)))
    case (Int(s), Float(o)) => Float(arith.add(arith.iToF(s), o))
    case (Float(s), Float(o)) => Float(arith.add(s, o))
  }

  /** `-`: an Int exactly when both operands are; on Ints, the difference modulo 2^64. */
  function SubNumbers(a: Number, b: Number, arith: FloatArith): (r: Number)
    ensures r.Int? <==> a.Int? && b.Int?
    ensures r.Int? ==> (r.i - (a.i - b.i)) % TWO_64 == 0
    ensures r.Int? && I64_MIN <= a.i - b.i <= I64_MAX ==> r.i == a.i - b.i
  {
    match (a, b)
    case (Int(s), Int(o)) => Int(Wrap(s - o))
    case (Float(s), Int(o)) => Float(arith.sub(s, arith.iToF(o)))
    case (Int(s), Float(o)) => Float(arith.sub(arith.iToF(s), o))
    case (Float(s), Float(o)) => Float(arith.sub(s, o))
  }

  /** `*`: an Int exactly when both operands are; on Ints, the product modulo 2^64. */
  function MulNumbers(a: Number, b: Number, arith: FloatArith): (r: Number)
    ensures r.Int? <==> a.Int? && b.Int?
    ensures r.Int? ==> (r.i - a.i * b.i) % TWO_64 == 0
    ensures r.Int? && I64_MIN <= a.i * b.i <= I64_MAX ==> r.i == a.i * b.i
  {
    match (a, b)
    case (Int(s), Int(o)) => Int(Wrap(s * o))
    case (Float(s), Int(o)) => Float(arith.mul(s, arith.iToF(o)))
    case (Int(s), Float(o)) => Float(arith.mul(arith.iToF(s), o))
    case (Float(s), Float(o)) => Float(arith.mul(s, o))
  }

  /** On Ints, subtracting what was added gives the value back, overflow or not. */
  lemma SubUndoesAdd(x: i64, y: i64, arith: FloatArith)
    ensures SubNumbers(AddNumbers(Int(x), Int(y), arith), Int(y), arith) == Int(x)
  {
    MachineInt.SubUndoesAdd(x, y);
  }

  /* --------------------------------- guards --------------------------------- */

  /** `is_zero`: an Int equal to 0, or a float equal to 0.0 (either sign). */
  predicate IsZeroNumber(n: Number) {
    match n
    case Int(i) => i == 0
    case Float(f) => IsZero(f)
  }

  /** `is_negative`: an Int below 0, or a float below 0.0. */
  predicate IsNegativeNumber(n: Number) {
    match n
    case Int(i) => i < 0
    case Float(f) => IsNegative(f)
  }

  /** `err_on_zero`. */
  function ErrOnZero(n: Number): (r: Result<()>)
    ensures r.Err? <==> IsZeroNumber(n)
    ensures r.Err? ==> r.error == UnexpectedZero
  {
    if IsZeroNumber(n) then Err(UnexpectedZero) else Ok(())
  }

  /** `err_on_negative`. */
  function ErrOnNegative(n: Number): (r: Result<()>)
    ensures r.Err? <==> IsNegativeNumber(n)
    ensures r.Err? ==> r.error == UnexpectedNegative
  {
    if IsNegativeNumber(n) then Err(UnexpectedNegative) else Ok(())
  }

  /** `err_on_float`: a float is an error naming it and the operator. */
  function ErrOnFloat(n: Number, op: char): (r: Result<()>)
    ensures r.Err? <==> n.Float?
    ensures r.Err? ==> r.error == BinaryOpOnFloat(n.f, op)
  {
    match n
    case Float(f) => Err(BinaryOpOnFloat(f, op))
    case Int(_) => Ok(())
  }

  /** The two Ints of an integer-only operator, the left operand checked first. */
  function IntOperands(a: Number, b: Number, op: char): (r: Result<(i64, i64)>)
    ensures r.Ok? <==> a.Int? && b.Int?
    ensures r.Ok? ==> r.value == (a.i, b.i)
    ensures a.Float? ==> r == Err(BinaryOpOnFloat(a.f, op))
    ensures a.Int? && b.Float? ==> r == Err(BinaryOpOnFloat(b.f, op))
  {
    var _ :- ErrOnFloat(a, op);
    var _ :- ErrOnFloat(b, op);
    Ok((a.i, b.i))
  }

  /* -------------------------------- division -------------------------------- */

  /** `/`: a zero divisor is refused first; otherwise the quotient is always a float. */
  function DivNumbers(a: Number, b: Number, arith: FloatArith): (r: Result<Number>)
    ensures r.Err? <==> IsZeroNumber(b)
    ensures r.Err? ==> r.error == UnexpectedZero
    ensures r.Ok? ==> r.value.Float?
  {
    var _ :- ErrOnZero(b);
    match (a, b)
    case (Int(s), Int(o)) => Ok(Float(arith.div(arith.iToF(s), arith.iToF(o))))
    case (Float(s), Int(o)) => Ok(Float(arith.div(s, arith.iToF(o))))
    case (Int(s), Float(o)) => Ok(Float(arith.div(arith.iToF(s), o)))
    case (Float(s), Float(o)) => Ok(Float(arith.div(s, o)))
  }

  /** `i64::MIN % -1`: Rust panics on it, in every build. */
  predicate RemPanics(a: Number, b: Number) {
    a == Int(I64_MIN) && b == Int(-1)
  }

  /**
    `%`: a zero divisor is refused; on two Ints the remainder is an Int
    smaller than the divisor in magnitude, with the dividend's sign, that
    leaves a multiple of the divisor.
   */
  function RemNumbers(a: Number, b: Number, arith: FloatArith): (r: Result<Number>)
    requires !RemPanics(a, b)
    ensures r.Err? <==> IsZeroNumber(b)
    ensures r.Err? ==> r.error == UnexpectedZero
    ensures r.Ok? ==> (r.value.Int? <==> a.Int? && b.Int?)
    ensures r.Ok? && r.value.Int? ==>
              && a.i == b.i * TruncDiv(a.i, b.i) + r.value.i
              && Abs(r.value.i) < Abs(b.i)
              && (a.i >= 0 ==> r.value.i >= 0)
              && (a.i <= 0 ==> r.value.i <= 0)
  {
    var _ :- ErrOnZero(b);
    match (a, b)
    case (Int(s), Int(o)) => Ok(Int(TruncRem(s, o)))
    case (Float(s), Int(o)) => Ok(Float(arith.rem(s, arith.iToF(o))))
    case (Int(s), Float(o)) => Ok(Float(arith.rem(arith.iToF(s), o)))
    case (Float(s), Float(o)) => Ok(Float(arith.rem(s, o)))
  }

  /** An Int as it is, or a float through `f_to_i`. */
  function ToInteger(n: Number, arith: FloatArith): (r: Result<i64>)
    ensures n.Int? ==> r == Ok(n.i)
    ensures n.Float? ==> r == arith.fToI(n.f)
  {
    match n
    case Int(i) => Ok(i)
    case Float(f) =>
      var i :- arith.fToI(f);
      Ok(i)
  }

  /**
    The operands `integer_div` finally divides: the dividend minus its
    remainder, and the divisor, both converted to integers.
   */
  function DivisionOperands(a: Number, b: Number, arith: FloatArith): (r: Result<(i64, i64)>)
    requires !RemPanics(a, b)
    ensures IsZeroNumber(b) ==> r == Err(UnexpectedZero)
    ensures r.Ok? && a.Int? && b.Int? ==> r.value == (a.i - TruncRem(a.i, b.i), b.i)
    ensures r.Ok? && (a.Float? || b.Float?) ==> -TWO_53 <= r.value.0 <= TWO_53
  {
    if IsZeroNumber(b) then Err(UnexpectedZero)
    else
      var m := RemNumbers(a, b, arith).value;
      var s :- ToInteger(SubNumbers(a, m, arith), arith);
      var o :- ToInteger(b, arith);
      Ok((s, o))
  }

  /** The divisor `integer_div` ends with can only be `-1` against `i64::MIN` when the remainder step already panicked. */
  lemma DivisionOperandsInRange(a: Number, b: Number, arith: FloatArith)
    requires !RemPanics(a, b) && DivisionOperands(a, b, arith).Ok?
    ensures !(DivisionOperands(a, b, arith).value.0 == I64_MIN && DivisionOperands(a, b, arith).value.1 == -1)
  {
    if a.Int? && b.Int? && b.i == -1 {
      assert TruncRem(a.i, -1) == 0;
    }
  }

  /**
    `integer_div` as written: it divides by the converted divisor without
    checking it again, which panics when a nonzero float divisor rounds to
    0. That case is excluded here; `IntegerDiv` handles it.
   */
  function IntegerDivAsWritten(a: Number, b: Number, arith: FloatArith): (r: Result<Number>)
    requires !RemPanics(a, b)
    requires DivisionOperands(a, b, arith).Ok? ==> DivisionOperands(a, b, arith).value.1 != 0
    ensures r.Ok? ==> r.value.Int?
    ensures IsZeroNumber(b) ==> r == Err(UnexpectedZero)
  {
    var (s, o) :- DivisionOperands(a, b, arith);
    DivisionOperandsInRange(a, b, arith);
    TruncDivInRange(s, o);
    Ok(Int(TruncDiv(s, o)))
  }

  /**
    `integer_div` with the converted divisor checked: a divisor that is or
    rounds to zero is `UnexpectedZero`. On two Ints it is Rust's truncating
    `/`.
   */
  function IntegerDiv(a: Number, b: Number, arith: FloatArith): (r: Result<Number>)
    requires !RemPanics(a, b)
    ensures r.Ok? ==> r.value.Int?
    ensures IsZeroNumber(b) ==> r == Err(UnexpectedZero)
    ensures a.Int? && b.Int? && b.i != 0 ==> r == Ok(Int(TruncDiv(a.i, b.i)))
  {
    match DivisionOperands(a, b, arith)
    case Err(e) => Err(e)
    case Ok((s, o)) =>
      if o == 0 then Err(UnexpectedZero)
      else
        DivisionOperandsInRange(a, b, arith);
        TruncDivInRange(s, o);
        if a.Int? && b.Int? then
          RemainderFreeDivision(a.i, b.i);
          Ok(Int(TruncDiv(s, o)))
        else Ok(Int(TruncDiv(s, o)))
  }

  /** Wherever `integer_div` as written does not panic, the checked one agrees with it. */
  lemma IntegerDivAgrees(a: Number, b: Number, arith: FloatArith)
    requires !RemPanics(a, b)
    requires DivisionOperands(a, b, arith).Ok? ==> DivisionOperands(a, b, arith).value.1 != 0
    ensures IntegerDiv(a, b, arith) == IntegerDivAsWritten(a, b, arith)
  {
  }

  /** On Ints, `integer_div` and `%` split the dividend: quotient times divisor plus remainder. */
  lemma IntegerDivRem(x: i64, y: i64, arith: FloatArith)
    requires y != 0 && !RemPanics(Int(x), Int(y))
    ensures IntegerDiv(Int(x), Int(y), arith).Ok? && RemNumbers(Int(x), Int(y), arith).Ok?
    ensures IntegerDiv(Int(x), Int(y), arith).value.i * y + RemNumbers(Int(x), Int(y), arith).value.i == x
  {
    assert y * TruncDiv(x, y) == TruncDiv(x, y) * y;
  }

  /* --------------------------------- bitwise --------------------------------- */

  /** `!`: bitwise complement of an Int; a float is refused. */
  function NotNumber(a: Number): (r: Result<Number>)
    ensures r.Ok? <==> a.Int?
    ensures r.Ok? ==> r.value == Int(-1 - a.i)
    ensures a.Float? ==> r == Err(BinaryOpOnFloat(a.f, '!'))
  {
    match a
    case Int(s) => Ok(Int(BitNot(s)))
    case Float(s) => Err(BinaryOpOnFloat(s, '!'))
  }

  /** `^`. */
  function XorNumbers(a: Number, b: Number): (r: Result<Number>)
    ensures r.Ok? <==> a.Int? && b.Int?
    ensures r.Ok? ==> r.value.Int?
    ensures a.Float? ==> r == Err(BinaryOpOnFloat(a.f, '^'))
    ensures a.Int? && b.Float? ==> r == Err(BinaryOpOnFloat(b.f, '^'))
  {
    var (s, o) :- IntOperands(a, b, '^');
    Ok(Int(BitXor(s, o)))
  }

  /** `&`. */
  function AndNumbers(a: Number, b: Number): (r: Result<Number>)
    ensures r.Ok? <==> a.Int? && b.Int?
    ensures r.Ok? ==> r.value.Int?
    ensures a.Float? ==> r == Err(BinaryOpOnFloat(a.f, '&'))
    ensures a.Int? && b.Float? ==> r == Err(BinaryOpOnFloat(b.f, '&'))
  {
    var (s, o) :- IntOperands(a, b, '&');
    Ok(Int(BitAnd(s, o)))
  }

  /** `|`. */
  function OrNumbers(a: Number, b: Number): (r: Result<Number>)
    ensures r.Ok? <==> a.Int? && b.Int?
    ensures r.Ok? ==> r.value.Int?
    ensures a.Float? ==> r == Err(BinaryOpOnFloat(a.f, '|'))
    ensures a.Int? && b.Float? ==> r == Err(BinaryOpOnFloat(b.f, '|'))
  {
    var (s, o) :- IntOperands(a, b, '|');
    Ok(Int(BitOr(s, o)))
  }

  /** `!x` is `x ^ -1`: the complement flips every bit. */
  lemma NotIsXorWithOnes(x: i64)
    ensures NotNumber(Int(x)) == XorNumbers(Int(x), Int(-1))
  {
    XorWithOnes(x);
  }

  lemma XorWithOnes(x: i64)
    ensures BitXor(x, -1) == -1 - x
  {
    Pow2Of64();
    var u := Unsigned(x);
    XorAllOnes(u, 64);
    ComplementSigned(x);
  }

  lemma ComplementSigned(x: i64)
    ensures Signed(TWO_64 - 1 - Unsigned(x)) == -1 - x
  {
  }

  lemma {:induction false} XorAllOnes(a: nat, width: nat)
    requires a < Pow2(width)
    ensures Bitwise(Xor, a, Pow2(width) - 1, width) == Pow2(width) - 1 - a
    decreases width
  {
    if width > 0 {
      assert (Pow2(width) - 1) / 2 == Pow2(width - 1) - 1;
      assert (Pow2(width) - 1) % 2 == 1;
      XorAllOnes(a / 2, width - 1);
    }
  }

  /** `x ^ y ^ y == x`, `x & x == x` and `x | 0 == x` on Ints. */
  lemma BitwiseLaws(x: i64, y: i64)
    ensures XorNumbers(XorNumbers(Int(x), Int(y)).value, Int(y)) == Ok(Int(x))
    ensures AndNumbers(Int(x), Int(x)) == Ok(Int(x))
    ensures OrNumbers(Int(x), Int(0)) == Ok(Int(x))
  {
    XorSelfInverse(x, y);
    AndOrIdempotent(x);
  }

  /** Complementing twice gives the value back. */
  lemma NotTwice(x: i64)
    ensures NotNumber(NotNumber(Int(x)).value) == Ok(Int(x))
  {
  }

  /* --------------------------------- shifts --------------------------------- */

  /** `<<` (reported as '≪'): both operands Ints, the amount not negative. */
  function ShlNumbers(a: Number, b: Number): (r: Result<Number>)
    ensures r.Ok? <==> a.Int? && b.Int? && b.i >= 0
    ensures r.Ok? ==> r.value.Int? && (r.value.i - a.i * Pow2(b.i % 64)) % TWO_64 == 0
    ensures a.Float? ==> r == Err(BinaryOpOnFloat(a.f, '≪'))
    ensures a.Int? && b.Float? ==> r == Err(BinaryOpOnFloat(b.f, '≪'))
    ensures a.Int? && b.Int? && b.i < 0 ==> r == Err(UnexpectedNegative)
  {
    var (s, o) :- IntOperands(a, b, '≪');
    var _ :- ErrOnNegative(b);
    ShiftLeftWraps(s, o);
    Ok(Int(MachineInt.ShiftLeft(s, o)))
  }

  /** `>>` (reported as '≫'): arithmetic, so the result is the floor of the value over 2^(amount mod 64). */
  function ShrNumbers(a: Number, b: Number): (r: Result<Number>)
    ensures r.Ok? <==> a.Int? && b.Int? && b.i >= 0
    ensures r.Ok? ==> r.value.Int? && r.value.i == a.i / Pow2(b.i % 64)
    ensures a.Float? ==> r == Err(BinaryOpOnFloat(a.f, '≫'))
    ensures a.Int? && b.Float? ==> r == Err(BinaryOpOnFloat(b.f, '≫'))
    ensures a.Int? && b.Int? && b.i < 0 ==> r == Err(UnexpectedNegative)
  {
    var (s, o) :- IntOperands(a, b, '≫');
    var _ :- ErrOnNegative(b);
    ShiftRightIsDivision(s, o);
    Ok(Int(MachineInt.ShiftRight(s, o)))
  }

  /** Shifting left then right by the same amount gives the value back when nothing was shifted out. */
  lemma ShiftBackNumbers(x: i64, n: i64)
    requires 0 <= n < 64 && I64_MIN <= x * Pow2(n) <= I64_MAX
    ensures ShrNumbers(ShlNumbers(Int(x), Int(n)).value, Int(n)) == Ok(Int(x))
  {
    ShiftBack(x, n);
  }

  /* ------------------------------ dispatching ------------------------------ */

  /** `compute_unary`: `!` is the complement, `-` multiplies by Int(-1), `+` leaves the number. */
  function ComputeUnary(n: Number, op: UnaryOp, arith: FloatArith): (r: Result<Number>)
    ensures op == Plus ==> r == Ok(n)
    ensures op == Minus ==> r.Ok? && (r.value.Int? <==> n.Int?)
    ensures op == Minus && n.Int? && n.i != I64_MIN ==> r == Ok(Int(-n.i))
    ensures op == Not ==> r == NotNumber(n)
  {
    match op
    case Not => NotNumber(n)
    case Minus => Ok(MulNumbers(Int(-1), n, arith))
    case Plus => Ok(n)
  }

  /** Negating an Int twice gives it back, `i64::MIN` included since its negation wraps to itself. */
  lemma MinusTwice(x: i64, arith: FloatArith)
    ensures ComputeUnary(ComputeUnary(Int(x), Minus, arith).value, Minus, arith) == Ok(Int(x))
  {
    NegateTwice(x);
  }

  /** The operations on which `compute_binary` panics: `i64::MIN % -1`, also inside `integer_div`. */
  predicate BinaryPanics(a: Number, b: Number, op: BinaryOp) {
    (op == Reminder || op == IntegerDivision) && RemPanics(a, b)
  }

  predicate DividesBy(op: BinaryOp) {
    op == Division || op == IntegerDivision || op == Reminder
  }

  predicate Shifts(op: BinaryOp) {
    op == ShiftLeft || op == ShiftRight
  }

  /** `compute_binary`. */
  function ComputeBinary(a: Number, b: Number, op: BinaryOp, arith: FloatArith): (r: Result<Number>)
    requires !BinaryPanics(a, b, op)
    ensures DividesBy(op) && IsZeroNumber(b) ==> r == Err(UnexpectedZero)
    ensures r.Ok? && a.Int? && b.Int? ==> (r.value.Int? <==> op != Division)
    ensures r.Ok? && (a.Float? || b.Float?) ==> (r.value.Float? <==> op != IntegerDivision)
    ensures op == IntegerDivision && (DivisionOperands(a, b, arith).Ok? ==> DivisionOperands(a, b, arith).value.1 != 0)
            ==> r == IntegerDivAsWritten(a, b, arith)
  {
    match op
    case Multiplication => Ok(MulNumbers(a, b, arith))
    case Division => DivNumbers(a, b, arith)
    case IntegerDivision => IntegerDiv(a, b, arith)
    case Reminder => RemNumbers(a, b, arith)
    case Addition => Ok(AddNumbers(a, b, arith))
    case Subtraction => Ok(SubNumbers(a, b, arith))
    case ShiftLeft => ShlNumbers(a, b)
    case ShiftRight => ShrNumbers(a, b)
    case BitwiseAnd => AndNumbers(a, b)
    case BitwiseOr => OrNumbers(a, b)
    case BitwiseXor => XorNumbers(a, b)
  }

  /**
    On two Ints, an operator fails exactly when it divides by zero
    (`UnexpectedZero`) or shifts by a negative amount (`UnexpectedNegative`).
   */
  lemma IntFailures(x: i64, y: i64, op: BinaryOp, arith: FloatArith)
    requires !BinaryPanics(Int(x), Int(y), op)
    ensures ComputeBinary(Int(x), Int(y), op, arith).Err? <==> (DividesBy(op) && y == 0) || (Shifts(op) && y < 0)
    ensures DividesBy(op) && y == 0 ==> ComputeBinary(Int(x), Int(y), op, arith) == Err(UnexpectedZero)
    ensures Shifts(op) && y < 0 ==> ComputeBinary(Int(x), Int(y), op, arith) == Err(UnexpectedNegative)
  {
    if DividesBy(op) {
      DivisionFailures(x, y, op, arith);
    } else if Shifts(op) {
      ShiftFailures(x, y, op, arith);
    } else {
      NoIntFailure(x, y, op, arith);
    }
  }

  lemma DivisionFailures(x: i64, y: i64, op: BinaryOp, arith: FloatArith)
    requires DividesBy(op) && !BinaryPanics(Int(x), Int(y), op)
    ensures ComputeBinary(Int(x), Int(y), op, arith).Err? <==> (DividesBy(op) && y == 0) || (Shifts(op) && y < 0)
    ensures DividesBy(op) && y == 0 ==> ComputeBinary(Int(x), Int(y), op, arith) == Err(UnexpectedZero)
  {
  }

  lemma ShiftFailures(x: i64, y: i64, op: BinaryOp, arith: FloatArith)
    requires Shifts(op)
    ensures ComputeBinary(Int(x), Int(y), op, arith).Err? <==> (DividesBy(op) && y == 0) || (Shifts(op) && y < 0)
    ensures Shifts(op) && y < 0 ==> ComputeBinary(Int(x), Int(y), op, arith) == Err(UnexpectedNegative)
  {
    if op == ShiftLeft {
      assert ComputeBinary(Int(x), Int(y), op, arith) == ShlNumbers(Int(x), Int(y));
    } else {
      assert ComputeBinary(Int(x), Int(y), op, arith) == ShrNumbers(Int(x), Int(y));
    }
  }

  lemma NoIntFailure(x: i64, y: i64, op: BinaryOp, arith: FloatArith)
    requires !DividesBy(op) && !Shifts(op)
    ensures ComputeBinary(Int(x), Int(y), op, arith).Err? <==> (DividesBy(op) && y == 0) || (Shifts(op) && y < 0)
  {
  }

  /** A float operand makes every bitwise operator and shift fail, naming the first float. */
  lemma FloatsRefused(a: Number, b: Number, op: BinaryOp, arith: FloatArith)
    requires Shifts(op) || op == BitwiseAnd || op == BitwiseOr || op == BitwiseXor
    requires a.Float? || b.Float?
    ensures ComputeBinary(a, b, op, arith).Err?
    ensures ComputeBinary(a, b, op, arith).error == BinaryOpOnFloat(if a.Float? then a.f else b.f, OperatorGlyph(op))
  {
  }

  /** The character the integer-only operators report with a float. */
  function OperatorGlyph(op: BinaryOp): char {
    match op
    case ShiftLeft => '≪'
    case ShiftRight => '≫'
    case BitwiseAnd => '&'
    case BitwiseOr => '|'
    case BitwiseXor => '^'
    case _ => ' '
  }

  /* ------------------------------ reading names ------------------------------ */

  /**
    What `from_str_radix` makes of a text in `number_from_string`:
    hexadecimal after `0x` in a text of at least three bytes, decimal
    otherwise.
   */
  function IntegerReading(s: string): Option<i64> {
    if ByteLen(s) >= 3 && HexPrefix(s) then FromStrRadix(s[2..], 16) else FromStrRadix(s, 10)
  }

  /**
    `number_from_string` as written: the `0x` test slices the text at byte
    2, which panics when that offset falls inside a multi-byte character,
    so such texts are excluded.
   */
  function NumberFromStringAsWritten(s: string, parse: string -> Option<F64>): (r: Result<Number>)
    requires ByteLen(s) >= 3 ==> SlicesAtTwo(s)
    ensures r.Err? <==> IntegerReading(s).None? && parse(s).None?
    ensures IntegerReading(s).Some? ==> r == Ok(Int(IntegerReading(s).value))
    ensures IntegerReading(s).None? && parse(s).Some? ==> r == Ok(Float(parse(s).value))
    ensures r.Err? ==> r.error == InvalidNumber(s)
    ensures r.Ok? && r.value.Float? ==> parse(s) == Some(r.value.f)
  {
    var converted := IntegerReading(s);
    match converted
    case Some(n) => Ok(Int(n))
    case None =>
      match parse(s)
      case Some(f) => Ok(Float(f))
      case None => Err(InvalidNumber(s))
  }

  /**
    `number_from_string` with the prefix tested on characters: a text of at
    least three bytes starting with `0x` is read as hexadecimal, any other
    as decimal, then as a float; what none accepts is `InvalidNumber`.
   */
  function NumberFromString(s: string, parse: string -> Option<F64>): (r: Result<Number>)
    ensures r.Err? <==> IntegerReading(s).None?
                        && parse(s).None?
    ensures r.Err? ==> r.error == InvalidNumber(s)
    ensures r.Ok? && r.value.Float? ==> parse(s) == Some(r.value.f)
    ensures IntegerReading(s).Some? ==> r == Ok(Int(IntegerReading(s).value))
    ensures IntegerReading(s).None? && parse(s).Some? ==> r == Ok(Float(parse(s).value))
  {
    var converted := IntegerReading(s);
    match converted
    case Some(n) => Ok(Int(n))
    case None =>
      match parse(s)
      case Some(f) => Ok(Float(f))
      case None => Err(InvalidNumber(s))
  }

  /** Wherever `number_from_string` as written does not panic, the two agree. */
  lemma NumberFromStringAgrees(s: string, parse: string -> Option<F64>)
    requires ByteLen(s) >= 3 ==> SlicesAtTwo(s)
    ensures NumberFromString(s, parse) == NumberFromStringAsWritten(s, parse)
  {
  }

  /** A lone euro sign is three bytes long and byte 2 falls inside it: `number_from_string` panics where an `InvalidNumber` was meant. */
  lemma EuroSignPanics(parse: string -> Option<F64>)
    requires parse("€").None?
    ensures ByteLen("€") >= 3 && !SlicesAtTwo("€")
    ensures NumberFromString("€", parse) == Err(InvalidNumber("€"))
  {
    assert "€"[1..] == [];
    assert FromStrRadix("€", 10).None? by {
      assert DigitValue('€', 10).None?;
    }
  }

  /** Every Int written in decimal reads back as itself. */
  lemma DecimalNumberRoundTrip(n: i64, parse: string -> Option<F64>)
    ensures NumberFromString(DecimalText(n), parse) == Ok(Int(n))
  {
    DecimalRoundTrip(n);
    assert !HexPrefix(DecimalText(n));
  }

  /** Every non-negative Int written as `0x` and hexadecimal digits reads back as itself. */
  lemma HexNumberRoundTrip(n: i64, parse: string -> Option<F64>)
    requires n >= 0
    ensures NumberFromString("0x" + Digits(n, 16), parse) == Ok(Int(n))
  {
    var s := "0x" + Digits(n, 16);
    assert s[2..] == Digits(n, 16);
    assert HexPrefix(s) && ByteLen(s) >= |s| >= 3;
    HexRoundTrip(n);
  }

  /**
    `read_name`: a name the map knows is replaced by its text, which is
    solved on its own (parsed and evaluated with no map, by code outside
    this model: `solveText`); any other name is read as a number.
   */
  function ReadName(name: string, variables: string -> Option<string>, solveText: string -> Result<Number>,
                    arith: FloatArith): (r: Result<Number>)
    ensures variables(name).Some? ==> r == solveText(variables(name).value)
    ensures variables(name).None? ==>
              (r.Err? <==> IntegerReading(name).None?
                           && arith.parse(name).None?)
    ensures variables(name).None? && r.Err? ==> r.error == InvalidNumber(name)
    ensures variables(name).None? && r.Ok? && r.value.Float? ==> arith.parse(name) == Some(r.value.f)
    ensures variables(name).None? && !HexPrefix(name) && FromStrRadix(name, 10).Some? ==> r == Ok(Int(FromStrRadix(name, 10).value))
    ensures variables(name).None? && IntegerReading(name).Some? ==> r == Ok(Int(IntegerReading(name).value))
    ensures variables(name).None? && IntegerReading(name).None? && arith.parse(name).Some? ==>
              r == Ok(Float(arith.parse(name).value))
  {
    match variables(name)
    case Some(text) => solveText(text)
    case None => NumberFromString(name, arith.parse)
  }

  /** A name the map does not know that is an `i64` in decimal reads as that integer. */
  lemma ReadNameDecimal(n: i64, variables: string -> Option<string>, solveText: string -> Result<Number>, arith: FloatArith)
    requires variables(DecimalText(n)).None?
    ensures ReadName(DecimalText(n), variables, solveText, arith) == Ok(Int(n))
  {
    DecimalNumberRoundTrip(n, arith.parse);
  }

  /** Reading a name looks at the map only under that name: two maps that agree there read it alike. */
  lemma ReadNameLocal(name: string, v1: string -> Option<string>, v2: string -> Option<string>,
                      solveText: string -> Result<Number>, arith: FloatArith)
    requires v1(name) == v2(name)
    ensures ReadName(name, v1, solveText, arith) == ReadName(name, v2, solveText, arith)
  {
  }

  /* ------------------------------- math_solve ------------------------------- */

  /**
    The stack machine's instance for numbers. An operation on which the
    source panics is reported as an internal bug instead.
   */
  function SolveInterp(variables: string -> Option<string>, solveText: string -> Result<Number>, arith: FloatArith): (r: Interp<Number>)
    ensures forall x :: r.name(x) == ReadName(x, variables, solveText, arith)
    ensures forall n, op :: r.unary(n, op) == ComputeUnary(n, op, arith)
    ensures forall a, b, op :: !BinaryPanics(a, b, op) ==> r.binary(a, b, op) == ComputeBinary(a, b, op, arith)
    ensures forall a, b, op :: BinaryPanics(a, b, op) ==> r.binary(a, b, op).Err? && r.binary(a, b, op).error.MathParseInternalBug?
  {
    Interp(
      (x: string) => ReadName(x, variables, solveText, arith),
      (n: Number, op: UnaryOp) => ComputeUnary(n, op, arith),
      (a: Number, b: Number, op: BinaryOp) =>
        if BinaryPanics(a, b, op) then Err(MathParseInternalBug("attempt to calculate the remainder with overflow"))
        else ComputeBinary(a, b, op, arith))
  }

  /** `math_solve`: run the instructions with names read through the map. */
  function MathSolve(actions: seq<RPN>, variables: string -> Option<string>, solveText: string -> Result<Number>,
                     arith: FloatArith): (r: Result<Number>)
    ensures r.Ok? ==> NeedsMet(0, actions) && Net(actions) >= 1
  {
    ExecRpn(actions, SolveInterp(variables, solveText, arith))
  }

  /** Solving a tree's post-order list evaluates the tree bottom-up with the same operators. */
  lemma MathSolveIsEval(t: Tree, variables: string -> Option<string>, solveText: string -> Result<Number>, arith: FloatArith)
    ensures MathSolve(ToRpn(t), variables, solveText, arith) == Eval(t, SolveInterp(variables, solveText, arith))
  {
    ExecRpnIsEval(t, SolveInterp(variables, solveText, arith));
  }

  /* -------------------------------- examples -------------------------------- */

  const F_0_4: F64 := F64(0x3FD9_9999_9999_999A)
  const F_1_3: F64 := F64(0x3FF4_CCCC_CCCC_CCCD)
  const F_2_5: F64 := F64(0x4004_0000_0000_0000)
  const F_5_5: F64 := F64(0x4016_0000_0000_0000)
  const F_MINUS_5_5: F64 := F64(0xC016_0000_0000_0000)

  /** Decimal and hexadecimal integers, a float, and a text that is no number. */
  lemma ReadingNumbersExample(parse: string -> Option<F64>)
    requires parse("2.5") == Some(F_2_5) && parse("toto") == None
    ensures NumberFromString("100", parse) == Ok(Int(100))
    ensures NumberFromString("0", parse) == Ok(Int(0))
    ensures NumberFromString("0x10", parse) == Ok(Int(16))
    ensures NumberFromString("2.5", parse) == Ok(Float(F_2_5))
    ensures NumberFromString("toto", parse) == Err(InvalidNumber("toto"))
  {
    assert "100"[..2] == "10" && "10"[..1] == "1";
    assert "0x10"[2..] == "10";
    assert DigitsValue("2.5", 10).None? by {
      assert "2.5"[..2] == "2." && DigitValue('.', 10).None?;
    }
    assert DigitValue('o', 10).None?;
  }

  /** The map of `test_read_named_variables`: a chain of names ending in a number. */
  function TestVariables(s: string): Option<string> {
    if s == "direct_1" then Some("1.2")
    else if s == "indirect_3" then Some("2")
    else if s == "indirect_2" then Some("indirect_3")
    else if s == "indirect_1" then Some("indirect_2")
    else None
  }

  function NoVariables(s: string): Option<string> {
    None
  }

  /**
    A mapped name is substituted once: "indirect_1" becomes "indirect_2",
    which is then solved with no map and so is not looked up again.
   */
  lemma ReadNamedVariablesExample(solveText: string -> Result<Number>, arith: FloatArith)
    requires solveText("indirect_2") == ReadName("indirect_2", NoVariables, solveText, arith)
    requires arith.parse("indirect_2") == None
    ensures ReadName("3", TestVariables, solveText, arith) == Ok(Int(3))
    ensures ReadName("direct_1", TestVariables, solveText, arith) == solveText("1.2")
    ensures ReadName("indirect_1", TestVariables, solveText, arith) == Err(InvalidNumber("indirect_2"))
  {
    ReadThree(solveText, arith);
    ReadDirect(solveText, arith);
    IndirectUnread(arith.parse);
    ReadIndirect(solveText, arith);
  }

  lemma ReadThree(solveText: string -> Result<Number>, arith: FloatArith)
    ensures ReadName("3", TestVariables, solveText, arith) == Ok(Int(3))
  {
    assert TestVariables("3") == None;
    SingleDigit('3', arith.parse);
  }

  lemma ReadDirect(solveText: string -> Result<Number>, arith: FloatArith)
    ensures ReadName("direct_1", TestVariables, solveText, arith) == solveText("1.2")
  {
    assert TestVariables("direct_1") == Some("1.2");
  }

  lemma ReadIndirect(solveText: string -> Result<Number>, arith: FloatArith)
    requires solveText("indirect_2") == Err(InvalidNumber("indirect_2"))
    ensures ReadName("indirect_1", TestVariables, solveText, arith) == Err(InvalidNumber("indirect_2"))
  {
    assert "indirect_1"[9] != "indirect_3"[9] && "indirect_1"[9] != "indirect_2"[9];
    assert TestVariables("indirect_1") == Some("indirect_2");
  }

  /** `indirect_2` is no number, decimal or hexadecimal, and the float parser refuses it too. */
  lemma IndirectUnread(parse: string -> Option<F64>)
    requires parse("indirect_2") == None
    ensures NumberFromString("indirect_2", parse) == Err(InvalidNumber("indirect_2"))
  {
    var t := "indirect_2";
    assert !HexPrefix(t);
    assert FromStrRadix(t, 10).None? by {
      assert t[..|t| - 1] == "indirect_" && DigitValue('_', 10).None?;
    }
  }

  const COMPUTE_ACTIONS: seq<RPN> :=
    [RPN.Name("4"), RPN.Name("3"), RPN.Name("5"), RPN.Binary(Subtraction), RPN.Binary(Multiplication)]

  /** A single decimal digit is read as that Int. */
  lemma SingleDigit(c: char, parse: string -> Option<F64>)
    requires '0' <= c <= '9'
    ensures NumberFromString([c], parse) == Ok(Int(c as int - '0' as int))
  {
    assert ByteLen([c]) == 1 by {
      assert [c][1..] == [];
    }
  }

  /** The names and operators of `4 3 5 - *`, each computed on its own. */
  lemma ComputeSteps(solveText: string -> Result<Number>, arith: FloatArith)
    ensures SolveInterp(NoVariables, solveText, arith).name("4") == Ok(Int(4))
    ensures SolveInterp(NoVariables, solveText, arith).name("3") == Ok(Int(3))
    ensures SolveInterp(NoVariables, solveText, arith).name("5") == Ok(Int(5))
    ensures SolveInterp(NoVariables, solveText, arith).binary(Int(3), Int(5), Subtraction) == Ok(Int(-2))
    ensures SolveInterp(NoVariables, solveText, arith).binary(Int(4), Int(-2), Multiplication) == Ok(Int(-8))
  {
    SingleDigit('4', arith.parse);
    SingleDigit('3', arith.parse);
    SingleDigit('5', arith.parse);
    assert SubNumbers(Int(3), Int(5), arith) == Int(-2);
    assert MulNumbers(Int(4), Int(-2), arith) == Int(-8);
  }

  /** `4 3 5 - *` is `(3 - 5) * 4`, an Int. */
  lemma MathComputeExample(solveText: string -> Result<Number>, arith: FloatArith)
    ensures MathSolve(COMPUTE_ACTIONS, NoVariables, solveText, arith) == Ok(Int(-8))
  {
    var interp := SolveInterp(NoVariables, solveText, arith);
    ComputeSteps(solveText, arith);
    ComputeRun(interp);
    assert ExecActions([], COMPUTE_ACTIONS, interp) == Ok([Int(-8)]);
  }

  /** The run of `4 3 5 - *` under any interpretation that computes its five steps as integers do. */
  lemma ComputeRun(interp: Interp<Number>)
    requires interp.name("4") == Ok(Int(4)) && interp.name("3") == Ok(Int(3)) && interp.name("5") == Ok(Int(5))
    requires interp.binary(Int(3), Int(5), Subtraction) == Ok(Int(-2))
    requires interp.binary(Int(4), Int(-2), Multiplication) == Ok(Int(-8))
    ensures ExecActions([], COMPUTE_ACTIONS, interp) == Ok([Int(-8)])
  {
    assert COMPUTE_ACTIONS == [RPN.Name("4")] + COMPUTE_ACTIONS[1..];
    ExecNameStep([], "4", COMPUTE_ACTIONS[1..], interp, [Int(4)]);
    ComputeRunNames(interp);
  }

  lemma ComputeRunNames(interp: Interp<Number>)
    requires interp.name("3") == Ok(Int(3)) && interp.name("5") == Ok(Int(5))
    requires interp.binary(Int(3), Int(5), Subtraction) == Ok(Int(-2))
    requires interp.binary(Int(4), Int(-2), Multiplication) == Ok(Int(-8))
    ensures ExecActions([Int(4)], COMPUTE_ACTIONS[1..], interp) == Ok([Int(-8)])
  {
    var rest := [RPN.Binary(Subtraction), RPN.Binary(Multiplication)];
    assert COMPUTE_ACTIONS[1..] == [RPN.Name("3")] + ([RPN.Name("5")] + rest);
    ExecNameStep([Int(4)], "3", [RPN.Name("5")] + rest, interp, [Int(4), Int(3)]);
    ComputeRunFive(interp);
  }

  lemma ComputeRunFive(interp: Interp<Number>)
    requires interp.name("5") == Ok(Int(5))
    requires interp.binary(Int(3), Int(5), Subtraction) == Ok(Int(-2))
    requires interp.binary(Int(4), Int(-2), Multiplication) == Ok(Int(-8))
    ensures ExecActions([Int(4), Int(3)], [RPN.Name("5"), RPN.Binary(Subtraction), RPN.Binary(Multiplication)], interp) == Ok([Int(-8)])
  {
    var rest := [RPN.Binary(Subtraction), RPN.Binary(Multiplication)];
    assert [RPN.Name("5"), RPN.Binary(Subtraction), RPN.Binary(Multiplication)] == [RPN.Name("5")] + rest;
    ExecNameStep([Int(4), Int(3)], "5", rest, interp, [Int(4), Int(3), Int(5)]);
    ComputeRunOps(interp);
  }

  lemma ComputeRunOps(interp: Interp<Number>)
    requires interp.binary(Int(3), Int(5), Subtraction) == Ok(Int(-2))
    requires interp.binary(Int(4), Int(-2), Multiplication) == Ok(Int(-8))
    ensures ExecActions([Int(4), Int(3), Int(5)], [RPN.Binary(Subtraction), RPN.Binary(Multiplication)], interp) == Ok([Int(-8)])
  {
    assert [RPN.Binary(Subtraction), RPN.Binary(Multiplication)] == [RPN.Binary(Subtraction)] + ([RPN.Binary(Multiplication)] + []);
    ExecBinaryStep([Int(4), Int(3), Int(5)], Subtraction, [RPN.Binary(Multiplication)] + [], interp, [Int(4), Int(-2)]);
    ExecBinaryStep([Int(4), Int(-2)], Multiplication, [], interp, [Int(-8)]);
  }


  /** Division by zero, a negative shift, the complement of a float, and the sign test on floats. */
  lemma ErrorsExample(arith: FloatArith)
    ensures DivNumbers(Int(10), Int(0), arith) == Err(UnexpectedZero)
    ensures ShrNumbers(Int(10), Int(-1)) == Err(UnexpectedNegative)
    ensures NotNumber(Float(F_1_3)) == Err(BinaryOpOnFloat(F_1_3, '!'))
    ensures IsNegativeNumber(Float(F_MINUS_5_5)) && !IsNegativeNumber(Float(F_5_5))
  {
  }

  /**
    A dividend that `f_to_i` refuses stops `integer_div` with that error
    (`test_errors` uses 5 * 2^53, whose remainder by 10 is zero).
   */
  lemma IntConversionExample(big: F64, arith: FloatArith)
    requires arith.sub(big, arith.rem(big, arith.iToF(10))) == big
    requires arith.fToI(big) == Err(IntConversion(big))
    ensures IntegerDiv(Float(big), Int(10), arith) == Err(IntConversion(big))
  {
  }

  /**
    7 integer-divided by 0.4: the divisor is not zero, so the guard lets it
    through, but `f_to_i(0.4)` rounds it to 0 and `integer_div` divides by
    zero. The checked version reports `UnexpectedZero`.
   */
  lemma DivisorRoundsToZero(arith: FloatArith)
    requires arith.fToI(F_0_4) == Ok(0)
    requires arith.fToI(arith.sub(arith.iToF(7), arith.rem(arith.iToF(7), F_0_4))).Ok?
    ensures !IsZeroNumber(Float(F_0_4))
    ensures DivisionOperands(Int(7), Float(F_0_4), arith).Ok? && DivisionOperands(Int(7), Float(F_0_4), arith).value.1 == 0
    ensures IntegerDiv(Int(7), Float(F_0_4), arith) == Err(UnexpectedZero)
  {
  }
}
