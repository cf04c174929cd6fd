/** Worked examples of reading reverse Polish notation. */
module ParseRpnExamples {
  import opened Errors
  import opened Lexer
  import opened Spelling
  import opened Tokenize
  import opened TokenizeExamples
  import opened Operators
  import opened RpnStack
  import opened Solve
  import opened RpnParser

  /** The glyph lookups the examples rely on. */
  predicate KnowsArithmetic(table: OperatorTable) {
    && table.binaryFromChar('+') == Ok(Addition)
    && table.binaryFromChar('-') == Ok(Subtraction)
    && table.binaryFromChar('*') == Ok(Multiplication)
    && table.binaryFromChar('/') == Ok(Division)
  }

  /** A run of blanks is skipped. */
  lemma {:induction false} SplitWordsBlanks(bs: string, t: string)
    requires forall i :: 0 <= i < |bs| ==> IsBlank(bs[i])
    ensures SplitWords(bs + t) == SplitWords(t)
    decreases |bs|
  {
    if |bs| > 0 {
      assert bs + t == [bs[0]] + (bs[1..] + t);
      SplitWordsBlank(bs[0], bs[1..] + t);
      SplitWordsBlanks(bs[1..], t);
    } else {
      assert bs + t == t;
    }
  }

  /** `parse_rpn` of a text whose tokens and instructions are known. */
  lemma ParseRpnOf(expression: string, tokens: seq<MathValue>, rpn: seq<RPN>, table: OperatorTable)
    requires MathToken(expression) == tokens
    requires RpnParseTokens(tokens, table) == Ok(rpn)
    requires NeedsMet(0, rpn) && Net(rpn) == 1
    ensures ParseRpn(expression, table) == Ok(rpn)
  {
  }

  /** Instructions of three token lists put together. */
  lemma ThreeParts(a: seq<MathValue>, b: seq<MathValue>, c: seq<MathValue>, x: seq<RPN>, y: seq<RPN>, z: seq<RPN>,
                   table: OperatorTable)
    requires RpnParseTokens(a, table) == Ok(x) && RpnParseTokens(b, table) == Ok(y) && RpnParseTokens(c, table) == Ok(z)
    ensures RpnParseTokens(a + b + c, table) == Ok(x + y + z)
  {
    RpnParseTokensAppend(a, b, table);
    RpnParseTokensAppend(a + b, c, table);
  }

  /** A token of two words gives two name instructions. */
  lemma TwoNames(text: string, v: string, w: string)
    requires SplitWords(text) == [v, w]
    ensures ParseRpnName(text) == [RPN.Name(v), RPN.Name(w)]
  {
  }

  /* ----------------------------- two good inputs ----------------------------- */

  const NEWLINE_TEXT := "88\n            99\t+"
  const NEWLINE_WORDS := "88\n            99\t"

  lemma NewlineLastWord()
    ensures SplitWords("            " + ("99" + ['\t'] + "")) == ["99"]
  {
    SplitWordsWord("99", '\t', "");
    SplitWordsBlanks("            ", "99" + ['\t'] + "");
  }

  lemma NewlineBothWords()
    ensures SplitWords("88" + ['\n'] + ("            " + ("99" + ['\t'] + ""))) == ["88", "99"]
  {
    NewlineLastWord();
    SplitWordsWord("88", '\n', "            " + ("99" + ['\t'] + ""));
  }

  lemma NewlineSpelling()
    ensures NEWLINE_WORDS == "88" + ['\n'] + ("            " + ("99" + ['\t'] + ""))
  {
  }

  lemma NewlineWords()
    ensures SplitWords(NEWLINE_WORDS) == ["88", "99"]
  {
    NewlineBothWords();
    NewlineSpelling();
  }

  const NEWLINE_LEXEMES := [Word(NEWLINE_WORDS), Symbol('+')]

  lemma NewlineChecked()
    ensures CheckFrom(NEWLINE_LEXEMES, 0) && NoPairFrom(NEWLINE_LEXEMES, 0)
  {
    WordFromAll(NEWLINE_WORDS, 0);
  }

  lemma NewlineSpelled()
    ensures Concat(NEWLINE_LEXEMES) == NEWLINE_TEXT
  {
    ConcatCons(Symbol('+'), []);
    assert NEWLINE_LEXEMES == [Word(NEWLINE_WORDS)] + ([Symbol('+')] + []);
    ConcatCons(Word(NEWLINE_WORDS), [Symbol('+')] + []);
  }

  lemma NewlineTokens()
    ensures MathToken(NEWLINE_TEXT) == [MathValue.Name(NEWLINE_WORDS), Operator('+'), TrailingError]
  {
    NewlineChecked();
    NewlineSpelled();
    MathTokenPlain(NEWLINE_TEXT, NEWLINE_LEXEMES);
  }

  /** An operator token and the sentinel. */
  lemma OperatorThenEnd(c: char, op: BinaryOp, table: OperatorTable)
    requires table.binaryFromChar(c) == Ok(op)
    ensures RpnParseTokens([Operator(c), TrailingError], table) == Ok([RPN.Binary(op)])
  {
    var tokens := [Operator(c), TrailingError];
    assert tokens[1..] == [TrailingError] && tokens[1..][1..] == [];
    assert RpnParseTokens([TrailingError], table).value == [];
    assert RpnParseTokens(tokens, table).value == [RPN.Binary(op)];
  }

  /** A name token, an operator token and the sentinel. */
  lemma NameOperatorEnd(text: string, words: seq<string>, c: char, op: BinaryOp, table: OperatorTable)
    requires SplitWords(text) == words
    requires table.binaryFromChar(c) == Ok(op)
    ensures RpnParseTokens([MathValue.Name(text), Operator(c), TrailingError], table).Ok?
    ensures RpnParseTokens([MathValue.Name(text), Operator(c), TrailingError], table).value == Names(words) + [RPN.Binary(op)]
  {
    var tokens := [MathValue.Name(text), Operator(c), TrailingError];
    OperatorThenEnd(c, op, table);
    assert tokens[1..] == [Operator(c), TrailingError];
    assert RpnParseTokens(tokens, table).value == Names(words) + [RPN.Binary(op)];
  }

  lemma TwoWordsAndPlus(text: string, table: OperatorTable)
    requires SplitWords(text) == ["88", "99"]
    requires table.binaryFromChar('+') == Ok(Addition)
    ensures RpnParseTokens([MathValue.Name(text), Operator('+'), TrailingError], table).Ok?
    ensures RpnParseTokens([MathValue.Name(text), Operator('+'), TrailingError], table).value
         == [RPN.Name("88"), RPN.Name("99"), RPN.Binary(Addition)]
  {
    NameOperatorEnd(text, ["88", "99"], '+', Addition, table);
  }

  lemma NewlineActions(table: OperatorTable)
    requires table.binaryFromChar('+') == Ok(Addition)
    ensures RpnParseTokens([MathValue.Name(NEWLINE_WORDS), Operator('+'), TrailingError], table)
         == Ok([RPN.Name("88"), RPN.Name("99"), RPN.Binary(Addition)])
  {
    NewlineWords();
    TwoWordsAndPlus(NEWLINE_WORDS, table);
  }

  const NEWLINE_RPN := [RPN.Name("88"), RPN.Name("99"), RPN.Binary(Addition)]

  lemma NewlineBalanced()
    ensures NeedsMet(0, NEWLINE_RPN) && Net(NEWLINE_RPN) == 1
  {
  }

  /** Words may be separated by any blanks, line feeds included. */
  lemma NewlineExample(table: OperatorTable)
    requires table.binaryFromChar('+') == Ok(Addition)
    ensures ParseRpn(NEWLINE_TEXT, table) == Ok(NEWLINE_RPN)
  {
    NewlineTokens();
    NewlineActions(table);
    NewlineBalanced();
    ParseRpnOf(NEWLINE_TEXT, [MathValue.Name(NEWLINE_WORDS), Operator('+'), TrailingError], NEWLINE_RPN, table);
  }

  const TWO_SUMS_TEXT := "88 77 + 33 11 + *"
  const TWO_SUMS_TOKENS := [MathValue.Name("88 77 "), Operator('+'), MathValue.Name(" 33 11 "), Operator('+'),
                            MathValue.Name(" "), Operator('*'), TrailingError]
  const TWO_SUMS := [RPN.Name("88"), RPN.Name("77"), RPN.Binary(Addition), RPN.Name("33"), RPN.Name("11"),
                     RPN.Binary(Addition), RPN.Binary(Multiplication)]

  const TWO_SUMS_LEXEMES := [Word("88 77 "), Symbol('+'), Word(" 33 11 "), Symbol('+'), Word(" "), Symbol('*')]

  lemma TwoSumsChecked()
    ensures CheckFrom(TWO_SUMS_LEXEMES, 0) && NoPairFrom(TWO_SUMS_LEXEMES, 0)
  {
    WordFromAll("88 77 ", 0);
    WordFromAll(" 33 11 ", 0);
    WordFromAll(" ", 0);
  }

  lemma TwoSumsSpelled()
    ensures Concat(TWO_SUMS_LEXEMES) == TWO_SUMS_TEXT
  {
    var t3 := [Symbol('+')] + ([Word(" ")] + ([Symbol('*')] + []));
    ConcatCons(Symbol('*'), []);
    ConcatCons(Word(" "), [Symbol('*')] + []);
    ConcatCons(Symbol('+'), [Word(" ")] + ([Symbol('*')] + []));
    assert Concat(t3) == "+ *";
    ConcatCons(Word(" 33 11 "), t3);
    ConcatCons(Symbol('+'), [Word(" 33 11 ")] + t3);
    ConcatCons(Word("88 77 "), [Symbol('+')] + ([Word(" 33 11 ")] + t3));
    assert TWO_SUMS_LEXEMES == [Word("88 77 ")] + ([Symbol('+')] + ([Word(" 33 11 ")] + t3));
    assert "88 77 " + ("+" + (" 33 11 " + "+ *")) == TWO_SUMS_TEXT;
  }

  lemma TwoSumsLifted()
    ensures Lift(TWO_SUMS_LEXEMES) + [TrailingError] == TWO_SUMS_TOKENS
  {
  }

  lemma TwoSumsTokens()
    ensures MathToken(TWO_SUMS_TEXT) == TWO_SUMS_TOKENS
  {
    TwoSumsChecked();
    TwoSumsSpelled();
    TwoSumsLifted();
    MathTokenPlain(TWO_SUMS_TEXT, TWO_SUMS_LEXEMES);
  }

  /** Two words, each followed by a blank. */
  lemma TwoWords(x: string, y: string, b: char, c: char)
    requires IsWord(x) && IsWord(y) && IsBlank(b) && IsBlank(c)
    ensures SplitWords(x + [b] + (y + [c] + "")) == [x, y]
  {
    SplitWordsWord(y, c, "");
    SplitWordsWord(x, b, y + [c] + "");
  }

  /** Two words, each followed by a space. */
  lemma SpacedPair(x: string, y: string)
    requires IsWord(x) && IsWord(y)
    ensures SplitWords(x + " " + y + " ") == [x, y]
  {
    TwoWords(x, y, ' ', ' ');
    assert x + " " + y + " " == x + [' '] + (y + [' '] + "");
  }

  lemma SecondSumWords()
    ensures SplitWords(" 33 11 ") == ["33", "11"]
  {
    TwoWords("33", "11", ' ', ' ');
    SplitWordsBlank(' ', "33" + [' '] + ("11" + [' '] + ""));
    assert " 33 11 " == [' '] + ("33" + [' '] + ("11" + [' '] + ""));
  }

  lemma OnlyBlank()
    ensures SplitWords(" ") == []
  {
    SplitWordsBlank(' ', "");
    assert " " == [' '] + "";
  }

  /** A name token followed by an operator token. */
  lemma NameThenOperator(text: string, c: char, op: BinaryOp, table: OperatorTable)
    requires table.binaryFromChar(c) == Ok(op)
    ensures RpnParseTokens([MathValue.Name(text), Operator(c)], table) == Ok(ParseRpnName(text) + [RPN.Binary(op)])
  {
    var tokens := [MathValue.Name(text), Operator(c)];
    assert tokens[1..] == [Operator(c)] && tokens[1..][1..] == [];
    assert RpnParseTokens([], table).value == [];
    assert [Operator(c)][1..] == [];
    assert RpnParseTokens([Operator(c)], table).value == [RPN.Binary(op)];
    assert RpnParseTokens(tokens, table).value == ParseRpnName(text) + [RPN.Binary(op)];
  }

  /** A token of two words followed by an operator. */
  lemma SumActions(text: string, v: string, w: string, table: OperatorTable)
    requires SplitWords(text) == [v, w]
    requires table.binaryFromChar('+') == Ok(Addition)
    ensures RpnParseTokens([MathValue.Name(text), Operator('+')], table) == Ok([RPN.Name(v), RPN.Name(w), RPN.Binary(Addition)])
  {
    TwoNames(text, v, w);
    NameThenOperator(text, '+', Addition, table);
    assert RpnParseTokens([MathValue.Name(text), Operator('+')], table).value == [RPN.Name(v), RPN.Name(w), RPN.Binary(Addition)];
  }

  lemma TwoSumsShape(first: string, second: string, last: string, table: OperatorTable)
    requires SplitWords(first) == ["88", "77"] && SplitWords(second) == ["33", "11"] && SplitWords(last) == []
    requires KnowsArithmetic(table)
    ensures RpnParseTokens([MathValue.Name(first), Operator('+'), MathValue.Name(second), Operator('+'),
                            MathValue.Name(last), Operator('*'), TrailingError], table) == Ok(TWO_SUMS)
  {
    var a := [MathValue.Name(first), Operator('+')];
    var b := [MathValue.Name(second), Operator('+')];
    var c := [MathValue.Name(last), Operator('*'), TrailingError];
    var x := [RPN.Name("88"), RPN.Name("77"), RPN.Binary(Addition)];
    var y := [RPN.Name("33"), RPN.Name("11"), RPN.Binary(Addition)];
    var z := [RPN.Binary(Multiplication)];
    SumActions(first, "88", "77", table);
    SumActions(second, "33", "11", table);
    NameOperatorEnd(last, [], '*', Multiplication, table);
    assert RpnParseTokens(c, table).value == z;
    ThreeParts(a, b, c, x, y, z, table);
    assert x + y + z == TWO_SUMS;
    assert a + b + c == [MathValue.Name(first), Operator('+'), MathValue.Name(second), Operator('+'),
                         MathValue.Name(last), Operator('*'), TrailingError];
  }

  lemma TwoSumsActions(table: OperatorTable)
    requires KnowsArithmetic(table)
    ensures RpnParseTokens(TWO_SUMS_TOKENS, table) == Ok(TWO_SUMS)
  {
    SpacedPair("88", "77");
    assert "88" + " " + "77" + " " == "88 77 ";
    SecondSumWords();
    OnlyBlank();
    TwoSumsShape("88 77 ", " 33 11 ", " ", table);
  }

  lemma TwoSumsBalanced()
    ensures NeedsMet(0, TWO_SUMS) && Net(TWO_SUMS) == 1
  {
  }

  /** Two sums multiplied: the instruction list is the text's words and operators in order. */
  lemma TwoSumsExample(table: OperatorTable)
    requires KnowsArithmetic(table)
    ensures ParseRpn(TWO_SUMS_TEXT, table) == Ok(TWO_SUMS)
  {
    TwoSumsTokens();
    TwoSumsActions(table);
    TwoSumsBalanced();
    ParseRpnOf(TWO_SUMS_TEXT, TWO_SUMS_TOKENS, TWO_SUMS, table);
  }

  /* --------------------------------- errors --------------------------------- */

  /** A first token naming no operator stops the reading with `InvalidRPNOperator`. */
  lemma FirstOperatorInvalid(tokens: seq<MathValue>, c: char, table: OperatorTable)
    requires |tokens| >= 1 && tokens[0] == Operator(c)
    requires table.binaryFromChar(c).Err? && table.binaryFromChar(c).error.MathParseInternalBug?
    ensures RpnParseTokens(tokens, table) == Err(InvalidRPNOperator(c))
  {
  }

  const PARENTHESISED_TEXT := "(88 77 +)"
  const PARENTHESISED_LEXEMES := [Symbol('('), Word("88 77 "), Symbol('+'), Symbol(')')]

  lemma ParenthesisedLexemes()
    ensures CheckFrom(PARENTHESISED_LEXEMES, 0) && NoPairFrom(PARENTHESISED_LEXEMES, 0)
    ensures Concat(PARENTHESISED_LEXEMES) == PARENTHESISED_TEXT
  {
    var ts := PARENTHESISED_LEXEMES;
    WordFromAll("88 77 ", 0);
    ConcatCons(Symbol(')'), []);
    ConcatCons(Symbol('+'), ts[3..]);
    ConcatCons(Word("88 77 "), ts[2..]);
    ConcatCons(Symbol('('), ts[1..]);
    assert ts == [ts[0]] + ts[1..] && ts[1..] == [ts[1]] + ts[2..] && ts[2..] == [ts[2]] + ts[3..];
    assert ts[3..] == [Symbol(')')] + [];
  }

  /** Parentheses mean nothing in postfix notation: `(` is refused as an operator. */
  lemma ParenthesisedExample(table: OperatorTable, solveText: string -> Result<Number>, arith: FloatArith)
    requires table.binaryFromChar('(').Err? && table.binaryFromChar('(').error.MathParseInternalBug?
    ensures ParseRpn(PARENTHESISED_TEXT, table) == Err(InvalidRPNOperator('('))
    ensures ParseRpnAsWritten(PARENTHESISED_TEXT, table, solveText, arith) == Err(InvalidRPNOperator('('))
  {
    ParenthesisedLexemes();
    MathTokenPlain(PARENTHESISED_TEXT, PARENTHESISED_LEXEMES);
    FirstOperatorInvalid(MathToken(PARENTHESISED_TEXT), '(', table);
  }

  const SHIFT_TEXT := "6 1 >>"
  const SHIFT_LEXEMES := [Word("6 1 "), Symbol('>'), Symbol('>')]
  const SHIFT_TOKENS := [MathValue.Name("6 1 "), Operator(SHIFT_RIGHT_GLYPH), ParenOpen(1), TrailingError]
  const SHIFT_RPN := [RPN.Name("6"), RPN.Name("1"), RPN.Binary(ShiftRight)]

  lemma ShiftLexemes()
    ensures CheckFrom(SHIFT_LEXEMES, 0) && Concat(SHIFT_LEXEMES) == SHIFT_TEXT
  {
    var ts := SHIFT_LEXEMES;
    WordFromAll("6 1 ", 0);
    ConcatCons(Symbol('>'), []);
    ConcatCons(Symbol('>'), ts[2..]);
    ConcatCons(Word("6 1 "), ts[1..]);
    assert ts == [ts[0]] + ts[1..] && ts[1..] == [ts[1]] + ts[2..] && ts[2..] == [Symbol('>')] + [];
  }

  lemma ShiftMerges()
    ensures Merge(Lift(SHIFT_LEXEMES) + [TrailingError]) == SHIFT_TOKENS
  {
    var line := Lift(SHIFT_LEXEMES) + [TrailingError];
    assert line == [MathValue.Name("6 1 "), Operator('>'), Operator('>'), TrailingError];
    assert line[1..] == [Operator('>'), Operator('>'), TrailingError];
    assert line[1..][2..] == [TrailingError];
    assert Merge([TrailingError]) == [TrailingError];
    assert Merge(line[1..]) == [Operator(SHIFT_RIGHT_GLYPH), ParenOpen(1)] + [TrailingError];
    assert Merge(line) == [line[0]] + Merge(line[1..]);
  }

  lemma ShiftTokens()
    ensures MathToken(SHIFT_TEXT) == SHIFT_TOKENS
  {
    ShiftLexemes();
    MathTokenOf(SHIFT_TEXT, SHIFT_LEXEMES);
    ShiftMerges();
  }

  /** Two name words, an operator given by its glyph, then the merge placeholder and the sentinel. */
  lemma ShiftShape(text: string, table: OperatorTable)
    requires SplitWords(text) == ["6", "1"]
    requires table.binaryFromChar(SHIFT_RIGHT_GLYPH) == Ok(ShiftRight)
    ensures RpnParseTokens([MathValue.Name(text), Operator(SHIFT_RIGHT_GLYPH), ParenOpen(1), TrailingError], table) == Ok(SHIFT_RPN)
  {
    var a := [MathValue.Name(text), Operator(SHIFT_RIGHT_GLYPH)];
    var b := [ParenOpen(1)];
    var c := [TrailingError];
    TwoNames(text, "6", "1");
    NameThenOperator(text, SHIFT_RIGHT_GLYPH, ShiftRight, table);
    assert RpnParseTokens(a, table).value == SHIFT_RPN;
    assert RpnParseTokens(b, table).value == [];
    assert RpnParseTokens(c, table).value == [];
    ThreeParts(a, b, c, SHIFT_RPN, [], [], table);
    assert SHIFT_RPN + [] + [] == SHIFT_RPN;
    assert a + b + c == [MathValue.Name(text), Operator(SHIFT_RIGHT_GLYPH), ParenOpen(1), TrailingError];
  }

  lemma ShiftBalanced()
    ensures NeedsMet(0, SHIFT_RPN) && Net(SHIFT_RPN) == 1
  {
  }

  /** `>>` is merged into one glyph by the tokenizer and read as one operator. */
  lemma ShiftExample(table: OperatorTable)
    requires table.binaryFromChar(SHIFT_RIGHT_GLYPH) == Ok(ShiftRight)
    ensures ParseRpn(SHIFT_TEXT, table) == Ok(SHIFT_RPN)
  {
    assert SplitWords("6 1 ") == ["6", "1"] by {
      SpacedPair("6", "1");
      assert "6" + " " + "1" + " " == "6 1 ";
    }
    ShiftTokens();
    ShiftShape("6 1 ", table);
    ShiftBalanced();
    ParseRpnOf(SHIFT_TEXT, SHIFT_TOKENS, SHIFT_RPN, table);
  }

  const HINT_TEXT := "6 1 >"
  const HINT_TOKENS := [MathValue.Name("6 1 "), Operator('>'), TrailingError]

  lemma HintTokens()
    ensures MathToken(HINT_TEXT) == HINT_TOKENS
  {
    var ts := [Word("6 1 "), Symbol('>')];
    WordFromAll("6 1 ", 0);
    assert CheckFrom(ts, 0) && NoPairFrom(ts, 0);
    ConcatCons(Symbol('>'), []);
    ConcatCons(Word("6 1 "), ts[1..]);
    assert ts == [ts[0]] + ts[1..] && ts[1..] == [Symbol('>')] + [];
    MathTokenPlain(HINT_TEXT, ts);
  }

  /** An error of the operator table other than an internal bug reaches the caller unchanged. */
  lemma HintShape(text: string, table: OperatorTable)
    requires table.binaryFromChar('>') == Err(BadOperatorHint('>', ">>"))
    ensures RpnParseTokens([MathValue.Name(text), Operator('>'), TrailingError], table) == Err(BadOperatorHint('>', ">>"))
  {
    var tokens := [MathValue.Name(text), Operator('>'), TrailingError];
    assert tokens[1..] == [Operator('>'), TrailingError];
  }

  /** A lone `>`: the table's hint about `>>` is what the reader reports. */
  lemma HintExample(table: OperatorTable, solveText: string -> Result<Number>, arith: FloatArith)
    requires table.binaryFromChar('>') == Err(BadOperatorHint('>', ">>"))
    ensures ParseRpn(HINT_TEXT, table) == Err(BadOperatorHint('>', ">>"))
    ensures ParseRpnAsWritten(HINT_TEXT, table, solveText, arith) == Err(BadOperatorHint('>', ">>"))
  {
    HintTokens();
    HintShape("6 1 ", table);
  }

  /* -------------------- the trial evaluation against the stack check -------------------- */

  /** The source's reading of a text whose tokens and instructions are known. */
  lemma AsWrittenOf(expression: string, tokens: seq<MathValue>, rpn: seq<RPN>, table: OperatorTable,
                    solveText: string -> Result<Number>, arith: FloatArith)
    requires MathToken(expression) == tokens
    requires RpnParseTokens(tokens, table) == Ok(rpn)
    ensures MathSolve(rpn, OneEverywhere, solveText, arith).Ok? ==> ParseRpnAsWritten(expression, table, solveText, arith) == Ok(rpn)
    ensures MathSolve(rpn, OneEverywhere, solveText, arith).Err?
            ==> ParseRpnAsWritten(expression, table, solveText, arith) == Err(MathSolve(rpn, OneEverywhere, solveText, arith).error)
  {
  }

  /** Every name of the trial evaluation is read as the Int 1. */
  lemma OnesRead(name: string, solveText: string -> Result<Number>, arith: FloatArith)
    requires solveText("1") == Ok(Int(1))
    ensures SolveInterp(OneEverywhere, solveText, arith).name(name) == Ok(Int(1))
  {
  }

  const PAIR_TEXT := "8 7"
  const PAIR_RPN := [RPN.Name("8"), RPN.Name("7")]

  lemma PairTokens()
    ensures MathToken(PAIR_TEXT) == [MathValue.Name(PAIR_TEXT), TrailingError]
  {
    var ts := [Word(PAIR_TEXT)];
    WordFromAll(PAIR_TEXT, 0);
    assert CheckFrom(ts, 0) && NoPairFrom(ts, 0);
    ConcatCons(Word(PAIR_TEXT), []);
    assert ts == [Word(PAIR_TEXT)] + [];
    MathTokenPlain(PAIR_TEXT, ts);
  }

  lemma PairShape(text: string, table: OperatorTable)
    requires SplitWords(text) == ["8", "7"]
    ensures RpnParseTokens([MathValue.Name(text), TrailingError], table) == Ok(PAIR_RPN)
  {
    var tokens := [MathValue.Name(text), TrailingError];
    TwoNames(text, "8", "7");
    assert tokens[1..] == [TrailingError] && tokens[1..][1..] == [];
    assert RpnParseTokens([TrailingError], table).value == [];
    assert RpnParseTokens(tokens, table).value == PAIR_RPN;
  }

  lemma PairWords()
    ensures SplitWords(PAIR_TEXT) == ["8", "7"]
  {
    SplitWordsLast("7");
    SplitWordsWord("8", ' ', "7");
    assert PAIR_TEXT == "8" + [' '] + "7";
  }

  lemma PairActions(table: OperatorTable)
    ensures RpnParseTokens(MathToken(PAIR_TEXT), table) == Ok(PAIR_RPN)
  {
    PairTokens();
    PairWords();
    PairShape(PAIR_TEXT, table);
  }

  /**
    Two numbers and no operator: `parse_rpn` accepts the list, because the
    trial run reports the top of the stack and ignores the value left below
    it; the stack check refuses it.
   */
  lemma PairAccepted(table: OperatorTable, solveText: string -> Result<Number>, arith: FloatArith)
    requires solveText("1") == Ok(Int(1))
    ensures ParseRpnAsWritten(PAIR_TEXT, table, solveText, arith) == Ok(PAIR_RPN)
    ensures ParseRpn(PAIR_TEXT, table) == Err(UnbalancedStack)
  {
    PairActions(table);
    OnesRead("8", solveText, arith);
    ExecRpnReportsTop("8", "7", SolveInterp(OneEverywhere, solveText, arith));
    OnesRead("7", solveText, arith);
    AsWrittenOf(PAIR_TEXT, MathToken(PAIR_TEXT), PAIR_RPN, table, solveText, arith);
    assert Net(PAIR_RPN) == 2;
  }

  const PLUS_TEXT := "+"

  lemma PlusActions(table: OperatorTable)
    requires table.binaryFromChar('+') == Ok(Addition)
    ensures RpnParseTokens(MathToken(PLUS_TEXT), table) == Ok([RPN.Binary(Addition)])
  {
    var ts := [Symbol('+')];
    assert CheckFrom(ts, 0) && NoPairFrom(ts, 0);
    ConcatCons(Symbol('+'), []);
    assert ts == [Symbol('+')] + [];
    MathTokenPlain(PLUS_TEXT, ts);
    OperatorThenEnd('+', Addition, table);
  }

  /** A lone operator underflows: `parse_rpn` reports an internal bug, the stack check an unbalanced stack. */
  lemma PlusUnderflows(table: OperatorTable, solveText: string -> Result<Number>, arith: FloatArith)
    requires table.binaryFromChar('+') == Ok(Addition)
    ensures ParseRpnAsWritten(PLUS_TEXT, table, solveText, arith)
         == Err(MathParseInternalBug("Error, unable to pop two, no element on the stack."))
    ensures ParseRpn(PLUS_TEXT, table) == Err(UnbalancedStack)
  {
    PlusActions(table);
    var rpn := [RPN.Binary(Addition)];
    var interp := SolveInterp(OneEverywhere, solveText, arith);
    assert ExecActions([], rpn, interp) == Err(MathParseInternalBug("Error, unable to pop two, no element on the stack."));
    AsWrittenOf(PLUS_TEXT, MathToken(PLUS_TEXT), rpn, table, solveText, arith);
  }

  const ZERO_TEXT := "x y y - /"
  const ZERO_RPN := [RPN.Name("x"), RPN.Name("y"), RPN.Name("y"), RPN.Binary(Subtraction), RPN.Binary(Division)]
  const ZERO_LEXEMES := [Word("x y y "), Symbol('-'), Word(" "), Symbol('/')]
  const ZERO_TOKENS := [MathValue.Name("x y y "), Operator('-'), MathValue.Name(" "), Operator('/'), TrailingError]

  lemma ZeroChecked()
    ensures CheckFrom(ZERO_LEXEMES, 0) && NoPairFrom(ZERO_LEXEMES, 0)
  {
    WordFromAll("x y y ", 0);
    WordFromAll(" ", 0);
  }

  lemma ZeroSpelled()
    ensures Concat(ZERO_LEXEMES) == ZERO_TEXT
  {
    var ts := ZERO_LEXEMES;
    ConcatCons(Symbol('/'), []);
    ConcatCons(Word(" "), [Symbol('/')] + []);
    ConcatCons(Symbol('-'), [Word(" ")] + ([Symbol('/')] + []));
    ConcatCons(Word("x y y "), [Symbol('-')] + ([Word(" ")] + ([Symbol('/')] + [])));
    assert ts == [Word("x y y ")] + ([Symbol('-')] + ([Word(" ")] + ([Symbol('/')] + [])));
  }

  lemma ZeroTokens()
    ensures MathToken(ZERO_TEXT) == ZERO_TOKENS
  {
    ZeroChecked();
    ZeroSpelled();
    MathTokenPlain(ZERO_TEXT, ZERO_LEXEMES);
    ZeroLifted();
  }

  lemma ZeroLifted()
    ensures Lift(ZERO_LEXEMES) + [TrailingError] == ZERO_TOKENS
  {
    var l := Lift(ZERO_LEXEMES);
    assert l[0] == MathValue.Name("x y y ") && l[1] == Operator('-') && l[2] == MathValue.Name(" ") && l[3] == Operator('/');
  }

  lemma ZeroWords()
    ensures SplitWords("x y y ") == ["x", "y", "y"]
  {
    TwoWords("y", "y", ' ', ' ');
    SplitWordsWord("x", ' ', "y" + [' '] + ("y" + [' '] + ""));
    ZeroSpelling();
  }

  lemma ZeroSpelling()
    ensures "x y y " == "x" + [' '] + ("y" + [' '] + ("y" + [' '] + ""))
  {
    assert "y" + [' '] + "" == "y ";
    assert "y" + [' '] + "y " == "y y ";
    assert "x" + [' '] + "y y " == "x y y ";
  }

  lemma ZeroShape(first: string, last: string, table: OperatorTable)
    requires SplitWords(first) == ["x", "y", "y"] && SplitWords(last) == []
    requires KnowsArithmetic(table)
    ensures RpnParseTokens([MathValue.Name(first), Operator('-'), MathValue.Name(last), Operator('/'), TrailingError], table)
         == Ok(ZERO_RPN)
  {
    var a := [MathValue.Name(first), Operator('-')];
    var b := [MathValue.Name(last), Operator('/'), TrailingError];
    NameThenOperator(first, '-', Subtraction, table);
    assert ParseRpnName(first) == [RPN.Name("x"), RPN.Name("y"), RPN.Name("y")];
    NameOperatorEnd(last, [], '/', Division, table);
    RpnParseTokensAppend(a, b, table);
    assert a + b == [MathValue.Name(first), Operator('-'), MathValue.Name(last), Operator('/'), TrailingError];
    assert RpnParseTokens(a + b, table).value == ZERO_RPN;
  }

  lemma ZeroActions(table: OperatorTable)
    requires KnowsArithmetic(table)
    ensures RpnParseTokens(MathToken(ZERO_TEXT), table) == Ok(ZERO_RPN)
  {
    ZeroTokens();
    ZeroWords();
    OnlyBlank();
    ZeroShape("x y y ", " ", table);
  }

  /** The trial run of `x y y - /`: 1 divided by 1 - 1. */
  lemma ZeroTrial(solveText: string -> Result<Number>, arith: FloatArith)
    requires solveText("1") == Ok(Int(1))
    ensures MathSolve(ZERO_RPN, OneEverywhere, solveText, arith) == Err(UnexpectedZero)
  {
    var interp := SolveInterp(OneEverywhere, solveText, arith);
    OnesRead("x", solveText, arith);
    OnesRead("y", solveText, arith);
    assert SubNumbers(Int(1), Int(1), arith) == Int(0);
    assert interp.binary(Int(1), Int(1), Subtraction) == Ok(Int(0));
    assert interp.binary(Int(1), Int(0), Division) == Err(UnexpectedZero);
    ZeroRun(interp);
  }

  /** `x y y - /` with both names read as 1: the division finds a zero divisor. */
  lemma ZeroRun(interp: Interp<Number>)
    requires interp.name("x") == Ok(Int(1)) && interp.name("y") == Ok(Int(1))
    requires interp.binary(Int(1), Int(1), Subtraction) == Ok(Int(0))
    requires interp.binary(Int(1), Int(0), Division) == Err(UnexpectedZero)
    ensures ExecActions([], ZERO_RPN, interp) == Err(UnexpectedZero)
  {
    assert ZERO_RPN == [RPN.Name("x")] + ZERO_RPN[1..];
    ExecNameStep([], "x", ZERO_RPN[1..], interp, [Int(1)]);
    ZeroRunNames(interp);
  }

  lemma ZeroRunNames(interp: Interp<Number>)
    requires interp.name("y") == Ok(Int(1))
    requires interp.binary(Int(1), Int(1), Subtraction) == Ok(Int(0))
    requires interp.binary(Int(1), Int(0), Division) == Err(UnexpectedZero)
    ensures ExecActions([Int(1)], ZERO_RPN[1..], interp) == Err(UnexpectedZero)
  {
    var rest := [RPN.Binary(Subtraction), RPN.Binary(Division)];
    assert ZERO_RPN[1..] == [RPN.Name("y")] + ([RPN.Name("y")] + rest);
    ExecNameStep([Int(1)], "y", [RPN.Name("y")] + rest, interp, [Int(1), Int(1)]);
    ExecNameStep([Int(1), Int(1)], "y", rest, interp, [Int(1), Int(1), Int(1)]);
    ZeroRunOps(interp);
  }

  lemma ZeroRunOps(interp: Interp<Number>)
    requires interp.binary(Int(1), Int(1), Subtraction) == Ok(Int(0))
    requires interp.binary(Int(1), Int(0), Division) == Err(UnexpectedZero)
    ensures ExecActions([Int(1), Int(1), Int(1)], [RPN.Binary(Subtraction), RPN.Binary(Division)], interp) == Err(UnexpectedZero)
  {
    assert [RPN.Binary(Subtraction), RPN.Binary(Division)] == [RPN.Binary(Subtraction)] + ([RPN.Binary(Division)] + []);
    ExecBinaryStep([Int(1), Int(1), Int(1)], Subtraction, [RPN.Binary(Division)] + [], interp, [Int(1), Int(0)]);
    ExecBinaryFails([Int(1), Int(0)], Division, [], interp);
  }



  lemma ZeroBalanced()
    ensures NeedsMet(0, ZERO_RPN) && Net(ZERO_RPN) == 1
  {
  }

  /**
    A balanced list whose trial values divide by zero: `parse_rpn` refuses
    it although nothing is wrong with its shape; the stack check accepts it.
   */
  lemma ZeroRefused(table: OperatorTable, solveText: string -> Result<Number>, arith: FloatArith)
    requires KnowsArithmetic(table)
    requires solveText("1") == Ok(Int(1))
    ensures ParseRpnAsWritten(ZERO_TEXT, table, solveText, arith) == Err(UnexpectedZero)
    ensures ParseRpn(ZERO_TEXT, table) == Ok(ZERO_RPN)
  {
    ZeroActions(table);
    ZeroTrial(solveText, arith);
    ZeroBalanced();
    AsWrittenOf(ZERO_TEXT, MathToken(ZERO_TEXT), ZERO_RPN, table, solveText, arith);
  }
}
