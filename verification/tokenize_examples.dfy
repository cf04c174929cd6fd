/** Worked examples of the tokenizer. */
module TokenizeExamples {
  import opened Lexer
  import opened Tokenize

  /* A decision procedure for the lexeme lists of the examples: words of
     letters, digits and blanks, symbols from the ASCII part of the alphabet. */

  predicate IsWordChar(c: char) {
    ('a' <= c <= 'z') || ('A' <= c <= 'Z') || ('0' <= c <= '9') || c == '.' || c == '_'
    || c == ' ' || c == '\t' || c == '\n'
  }

  predicate IsAsciiOp(c: char) {
    c == '+' || c == '-' || c == '*' || c == '/' || c == '(' || c == ')' || c == '%' || c == '>'
  }

  function WordFrom(x: string, k: nat): bool
    decreases |x| - k
  {
    k >= |x| || (IsWordChar(x[k]) && WordFrom(x, k + 1))
  }

  /** A text of word characters passes the tokenizer examples' word check. */
  lemma {:induction false} WordFromAll(x: string, k: nat)
    requires forall j :: k <= j < |x| ==> IsWordChar(x[j])
    ensures WordFrom(x, k)
    decreases |x| - k
  {
    if k < |x| {
      WordFromAll(x, k + 1);
    }
  }

  function CheckFrom(ts: seq<Lexeme>, i: nat): bool
    decreases |ts| - i
  {
    if i >= |ts| then true
    else
      && (match ts[i]
          case Word(x) => |x| > 0 && WordFrom(x, 0)
          case Symbol(c) => IsAsciiOp(c))
      && (i + 1 < |ts| ==> !(ts[i].Word? && ts[i + 1].Word?))
      && CheckFrom(ts, i + 1)
  }

  lemma WordCharIsNotOp(c: char)
    requires IsWordChar(c)
    ensures c !in MATH_CHARS
  {
  }

  lemma AsciiOpIsOp(c: char)
    requires IsAsciiOp(c)
    ensures c in MATH_CHARS
  {
  }

  lemma {:induction false} WordFromSound(x: string, k: nat)
    requires WordFrom(x, k)
    ensures forall j :: k <= j < |x| ==> x[j] !in MATH_CHARS
    decreases |x| - k
  {
    if k < |x| {
      WordFromSound(x, k + 1);
      WordCharIsNotOp(x[k]);
    }
  }

  lemma {:induction false} CheckFromSound(ts: seq<Lexeme>, i: nat)
    requires CheckFrom(ts, i)
    ensures forall j :: i <= j < |ts| ==> Proper(MATH_CHARS, ts[j])
    ensures forall j :: i <= j < |ts| - 1 ==> !(ts[j].Word? && ts[j + 1].Word?)
    decreases |ts| - i
  {
    if i < |ts| {
      CheckFromSound(ts, i + 1);
      match ts[i]
      case Word(x) => WordFromSound(x, 0);
      case Symbol(c) => AsciiOpIsOp(c);
    }
  }

  lemma {:induction false} CheckFromAscii(ts: seq<Lexeme>, i: nat)
    requires CheckFrom(ts, i)
    ensures forall j :: i <= j < |ts| && ts[j].Symbol? ==> IsAsciiOp(ts[j].c)
    decreases |ts| - i
  {
    if i < |ts| { CheckFromAscii(ts, i + 1); }
  }

  /** A lexeme list that passes the check and spells the text decides the tokens of that text. */
  lemma MathTokenOf(s: string, ts: seq<Lexeme>)
    requires CheckFrom(ts, 0) && Concat(ts) == s
    ensures MathToken(s) == Merge(Lift(ts) + [TrailingError])
  {
    CheckFromSound(ts, 0);
    LexUnique(MATH_CHARS, s, ts);
    MathTokenIsMergedLex(s);
  }

  /** A pair of symbol lexemes the merge pass would join. */
  predicate MergingPair(a: Lexeme, b: Lexeme) {
    (a == Symbol('/') && b == Symbol('/')) || (a == Symbol('>') && b == Symbol('>'))
  }

  /** No `/` or `>` lexeme is followed by another, so the merge pass finds nothing to join. */
  function NoPairFrom(ts: seq<Lexeme>, i: nat): bool
    decreases |ts| - i
  {
    i + 1 >= |ts| || (!MergingPair(ts[i], ts[i + 1]) && NoPairFrom(ts, i + 1))
  }

  lemma {:induction false} NoPairSound(ts: seq<Lexeme>, i: nat)
    requires NoPairFrom(ts, i)
    ensures forall j :: i <= j < |ts| - 1 ==> !MergingPair(ts[j], ts[j + 1])
    decreases |ts| - i
  {
    if i + 1 < |ts| { NoPairSound(ts, i + 1); }
  }

  lemma {:induction false} MergeIdentity(line: seq<MathValue>)
    requires forall j :: 0 <= j < |line| - 1 ==> MergedGlyph(line[j], line[j + 1]).None?
    ensures Merge(line) == line
    decreases |line|
  {
    if |line| >= 2 {
      assert MergedGlyph(line[0], line[1]).None?;
      forall j | 0 <= j < |line[1..]| - 1 ensures MergedGlyph(line[1..][j], line[1..][j + 1]).None? {
        assert line[1..][j] == line[j + 1] && line[1..][j + 1] == line[j + 2];
      }
      MergeIdentity(line[1..]);
      assert [line[0]] + line[1..] == line;
    }
  }

  lemma LiftedNothingMerges(ts: seq<Lexeme>)
    requires CheckFrom(ts, 0) && NoPairFrom(ts, 0)
    ensures Merge(Lift(ts) + [TrailingError]) == Lift(ts) + [TrailingError]
  {
    CheckFromAscii(ts, 0);
    NoPairSound(ts, 0);
    var line := Lift(ts) + [TrailingError];
    forall j | 0 <= j < |line| - 1 ensures MergedGlyph(line[j], line[j + 1]).None? {
      assert line[j] == ToMathValue(ts[j]);
      if j + 1 < |ts| {
        assert line[j + 1] == ToMathValue(ts[j + 1]);
      } else {
        assert line[j + 1] == TrailingError;
      }
    }
    MergeIdentity(line);
  }

  /** The lifted lexemes and the sentinel, given element by element. */
  lemma LiftedAs(ts: seq<Lexeme>, expected: seq<MathValue>)
    requires |expected| == |ts| + 1 && expected[|ts|] == TrailingError
    requires forall j :: 0 <= j < |ts| ==> expected[j] == ToMathValue(ts[j])
    ensures Lift(ts) + [TrailingError] == expected
  {
  }

  /** With only ASCII operators and no `//`, the tokens are the lexemes, one for one. */
  lemma MathTokenPlain(s: string, ts: seq<Lexeme>)
    requires CheckFrom(ts, 0) && NoPairFrom(ts, 0) && Concat(ts) == s
    ensures MathToken(s) == Lift(ts) + [TrailingError]
  {
    MathTokenOf(s, ts);
    LiftedNothingMerges(ts);
  }

  lemma ExampleLexemes()
    ensures var ts := [Symbol('+'), Word("4"), Symbol('/'), Word("88"), Symbol('*'), Word("toto")];
      CheckFrom(ts, 0) && NoPairFrom(ts, 0) && Concat(ts) == "+4/88*toto"
  {
  }

  lemma ExampleLifted()
    ensures Lift([Symbol('+'), Word("4"), Symbol('/'), Word("88"), Symbol('*'), Word("toto")]) + [TrailingError]
         == [Operator('+'), Name("4"), Operator('/'), Name("88"), Operator('*'), Name("toto"), TrailingError]
  {
  }

  lemma MathTokenExample()
    ensures MathToken("+4/88*toto")
         == [Operator('+'), Name("4"), Operator('/'), Name("88"), Operator('*'), Name("toto"), TrailingError]
  {
    ExampleLexemes();
    ExampleLifted();
    MathTokenPlain("+4/88*toto", [Symbol('+'), Word("4"), Symbol('/'), Word("88"), Symbol('*'), Word("toto")]);
  }

  lemma TripleSlashLexemes()
    ensures CheckFrom([Symbol('/'), Symbol('/'), Symbol('/')], 0) && Concat([Symbol('/'), Symbol('/'), Symbol('/')]) == "///"
    ensures Lift([Symbol('/'), Symbol('/'), Symbol('/')]) + [TrailingError]
         == [Operator('/'), Operator('/'), Operator('/'), TrailingError]
  {
  }

  lemma TripleSlashMerges()
    ensures Merge([Operator('/'), Operator('/'), Operator('/'), TrailingError])
         == [Operator(INTEGER_DIVISION_GLYPH), ParenOpen(1), Operator('/'), TrailingError]
  {
  }

  /** Three slashes: the first two merge into the integer division glyph, the third stays. */
  lemma TripleSlashExample()
    ensures MathToken("///") == [Operator(INTEGER_DIVISION_GLYPH), ParenOpen(1), Operator('/'), TrailingError]
  {
    TripleSlashLexemes();
    TripleSlashMerges();
    MathTokenOf("///", [Symbol('/'), Symbol('/'), Symbol('/')]);
  }
}
