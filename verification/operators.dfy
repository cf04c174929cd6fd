/**
  The semantic operators and the postfix instruction list shared by the RPN
  layer, the evaluator and the display tree.

  `BinaryOp::from_char` and `UnaryOp::from_char` are not part of this model:
  they are passed in as an `OperatorTable`, and every statement that depends
  on how a glyph maps to an operator says so in its `requires`.
 */
module Operators {
  import opened Errors

  datatype BinaryOp =
    | Multiplication
    | Division
    | IntegerDivision
    | Reminder
    | Addition
    | Subtraction
    | ShiftLeft
    | ShiftRight
    | BitwiseAnd
    | BitwiseOr
    | BitwiseXor

  datatype UnaryOp = Not | Minus | Plus

  /** One postfix instruction. */
  datatype RPN = Name(text: string) | Unary(uop: UnaryOp) | Binary(bop: BinaryOp)

  /** The glyph-to-operator lookups the engine calls but this model does not define. */
  datatype OperatorTable = OperatorTable(
    binaryFromChar: char -> Result<BinaryOp>,
    unaryFromChar: char -> Result<UnaryOp>)
}
