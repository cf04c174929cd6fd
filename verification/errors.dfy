/**
  The engine's closed error taxonomy and the result type every fallible step
  returns. Propagation is immediate: `:-` stops at the first error.
 */
module Errors {
  import opened Floats

  datatype MathParseError =
    | UnclosedParenthesis
    | UnopenedParenthesis
    | EmptyLine
    | InvalidNumber(text: string)
    | MisplacedOperator(c: char)
    | TrailingOperator
    | IntConversion(f: F64)
    | BinaryOpOnFloat(f: F64, op: char)
    | MathParseInternalBug(message: string)
    | UnexpectedZero
    | UnexpectedNegative
    | ReturnFloatExpectedInt(f: F64)
    | InvalidRPNOperator(c: char)
    | UnbalancedStack
    | BadOperatorHint(c: char, hint: string)

  datatype Result<+T> = Ok(value: T) | Err(error: MathParseError) {
    predicate IsFailure() {
      Err?
    }

    function PropagateFailure<U>(): Result<U>
      requires Err?
    {
      Err(error)
    }

    function Extract(): T
      requires Ok?
    {
      value
    }
  }

  datatype Option<+T> = None | Some(value: T)

  /** True of an internal-bug error, the variant reserved for broken invariants. */
  predicate IsInternalBug<T>(r: Result<T>) {
    r.Err? && r.error.MathParseInternalBug?
  }
}
