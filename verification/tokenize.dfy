/**
  The tokenizer: a line of text becomes `Name` and `Operator` tokens followed
  by one `TrailingError` sentinel, then the two-character operators `//`,
  `<<` and `>>` are merged in place.

  `MathValue` is also the element type of the parser's positional tree, so it
  carries the tree's node kinds as well.
 */
module Tokenize {
  import opened Errors
  import opened MachineInt
  import opened Lexer

  /** The operator alphabet. */
  const MATH_CHARS: seq<char> := [
    '+', '-', '\U{2212}', '*', '\U{00D7}', '\U{00B7}', '/', '\U{2215}', '\U{2044}', '\U{00F7}',
    '(', ')', '%', '\U{27CC}', '!', '~', '^', '&', '|', '\U{226A}', '<', '>', '\U{226B}']

  /** Glyphs written by the merge pass. */
  const INTEGER_DIVISION_GLYPH: char := '\U{27CC}'
  const SHIFT_LEFT_GLYPH: char := '\U{226A}'
  const SHIFT_RIGHT_GLYPH: char := '\U{226B}'

  /**
    The element count of a folded parenthesis group. A group is never empty
    (an empty one is an error before it is written), and that is what lets the
    parser's right-to-left scan always move.
   */
  type ParenSize = n: nat | n >= 1 witness 1

  datatype MathValue =
    | Name(text: string)
    | Operator(c: char)
    | Operation(op: char, left: isize, right: isize)
    | UnaryOperation(op: char, offset: isize)
    | ParenOpen(offset: isize)
    | ParenClose(size: ParenSize)
    | TrailingError

  /** `s.contains(MATH_CHARS)`: does any character of `s` belong to the alphabet? */
  function ContainsMathChar(s: string): (r: bool)
    ensures r <==> exists i :: 0 <= i < |s| && s[i] in MATH_CHARS
  {
    if |s| == 0 then false
    else if IsIn(s[0], MATH_CHARS) then true
    else
      var rest := ContainsMathChar(s[1..]);
      assert forall i :: 1 <= i < |s| ==> s[i] == s[1..][i - 1];
      rest
  }

  /* ------------------------------ first pass ------------------------------ */

  function ToMathValue(t: Lexeme): MathValue {
    match t
    case Word(x) => Name(x)
    case Symbol(c) => Operator(c)
  }

  function Lift(ts: seq<Lexeme>): (r: seq<MathValue>)
    ensures |r| == |ts|
    ensures forall j :: 0 <= j < |ts| ==> r[j] == ToMathValue(ts[j])
  {
    if |ts| == 0 then [] else [ToMathValue(ts[0])] + Lift(ts[1..])
  }

  /**
    `token_base`: the shared scan over the operator alphabet, its words and
    symbols written as `Name` and `Operator` tokens, then the sentinel.
   */
  function TokenBase(s: string): seq<MathValue> {
    Lift(Scan(MATH_CHARS, s)) + [TrailingError]
  }

  /* ------------------------------ second pass ----------------------------- */

  /** The glyph a pair of adjacent operator tokens merges into, if any. */
  function MergedGlyph(previous: MathValue, current: MathValue): Option<char> {
    if previous == Operator('/') && current == Operator('/') then Some(INTEGER_DIVISION_GLYPH)
    else if previous == Operator('<') && current == Operator('<') then Some(SHIFT_LEFT_GLYPH)
    else if previous == Operator('>') && current == Operator('>') then Some(SHIFT_RIGHT_GLYPH)
    else None
  }

  /**
    The loop of `token_complex`: position `i` is compared with the current
    (possibly already rewritten) position `i - 1`.
   */
  function TokenComplexLoop(line: seq<MathValue>, i: nat): seq<MathValue>
    requires i >= 1
    decreases |line| - i
  {
    if i >= |line| then line
    else match MergedGlyph(line[i - 1], line[i])
      case Some(glyph) => TokenComplexLoop(line[i - 1 := Operator(glyph)][i := ParenOpen(1)], i + 1)
      case None => TokenComplexLoop(line, i + 1)
  }

  function TokenComplex(line: seq<MathValue>): seq<MathValue> {
    TokenComplexLoop(line, 1)
  }

  /**
    Reference merge: left to right, a merged pair is consumed whole, so pairs
    never overlap; the second token of a pair becomes the placeholder
    `ParenOpen(1)` that points at the next token.
   */
  function Merge(line: seq<MathValue>): seq<MathValue> {
    if |line| < 2 then line
    else match MergedGlyph(line[0], line[1])
      case Some(glyph) => [Operator(glyph), ParenOpen(1)] + Merge(line[2..])
      case None => [line[0]] + Merge(line[1..])
  }

  lemma {:induction false} TokenComplexLoopIsMerge(line: seq<MathValue>, i: nat)
    requires 1 <= i <= |line|
    ensures TokenComplexLoop(line, i) == line[..i - 1] + Merge(line[i - 1..])
    decreases |line| - i
  {
    if i == |line| {
      assert line[i - 1..] == [line[i - 1]];
      assert line[..i - 1] + [line[i - 1]] == line;
    } else {
      var glyph := MergedGlyph(line[i - 1], line[i]);
      if glyph.Some? {
        var next := line[i - 1 := Operator(glyph.value)][i := ParenOpen(1)];
        TokenComplexLoopIsMerge(next, i + 1);
        MergeStepPair(line, i, glyph.value);
      } else {
        TokenComplexLoopIsMerge(line, i + 1);
        MergeStepSingle(line, i);
      }
    }
  }

  lemma MergeStepPair(line: seq<MathValue>, i: nat, glyph: char)
    requires 1 <= i < |line|
    requires MergedGlyph(line[i - 1], line[i]) == Some(glyph)
    ensures var next := line[i - 1 := Operator(glyph)][i := ParenOpen(1)];
      next[..i] + Merge(next[i..]) == line[..i - 1] + Merge(line[i - 1..])
  {
    var next := line[i - 1 := Operator(glyph)][i := ParenOpen(1)];
    var tail := line[i - 1..];
    assert tail[0] == line[i - 1] && tail[1] == line[i];
    assert tail[2..] == line[i + 1..];
    assert Merge(tail) == [Operator(glyph), ParenOpen(1)] + Merge(line[i + 1..]);
    assert next[i..] == [ParenOpen(1)] + line[i + 1..];
    if |next[i..]| >= 2 {
      assert MergedGlyph(next[i..][0], next[i..][1]) == None;
    }
    assert next[i..][1..] == line[i + 1..];
    assert Merge(next[i..]) == [ParenOpen(1)] + Merge(line[i + 1..]);
    assert next[..i] == line[..i - 1] + [Operator(glyph)];
  }

  lemma MergeStepSingle(line: seq<MathValue>, i: nat)
    requires 1 <= i < |line|
    requires MergedGlyph(line[i - 1], line[i]) == None
    ensures line[..i] + Merge(line[i..]) == line[..i - 1] + Merge(line[i - 1..])
  {
    var tail := line[i - 1..];
    assert tail[0] == line[i - 1] && tail[1] == line[i];
    assert tail[1..] == line[i..];
    assert Merge(tail) == [line[i - 1]] + Merge(line[i..]);
    assert line[..i] == line[..i - 1] + [line[i - 1]];
    assert (line[..i - 1] + [line[i - 1]]) + Merge(line[i..]) == line[..i - 1] + ([line[i - 1]] + Merge(line[i..]));
  }

  lemma TokenComplexIsMerge(line: seq<MathValue>)
    ensures TokenComplex(line) == Merge(line)
  {
    if |line| >= 1 {
      TokenComplexLoopIsMerge(line, 1);
      assert line[0..] == line;
    }
  }

  /** Merging keeps the token count: the second token becomes a placeholder. */
  lemma {:induction false} MergeKeepsLength(line: seq<MathValue>)
    ensures |Merge(line)| == |line|
    decreases |line|
  {
    if |line| >= 2 {
      if MergedGlyph(line[0], line[1]).Some? { MergeKeepsLength(line[2..]); }
      else { MergeKeepsLength(line[1..]); }
    }
  }

  /** A token that is not `/`, `<` or `>` is never touched by the merge. */
  lemma {:induction false} MergeKeepsOthers(line: seq<MathValue>, j: nat)
    requires j < |line|
    requires line[j] !in {Operator('/'), Operator('<'), Operator('>')}
    ensures |Merge(line)| == |line| && Merge(line)[j] == line[j]
    decreases |line|
  {
    MergeKeepsLength(line);
    if |line| >= 2 {
      if MergedGlyph(line[0], line[1]).Some? {
        assert j >= 2;
        MergeKeepsOthers(line[2..], j - 2);
      } else if j > 0 {
        MergeKeepsOthers(line[1..], j - 1);
      }
    }
  }

  /**
    Every placeholder the merge writes follows the merged glyph, and replaced
    the second of two equal operator tokens.
   */
  lemma {:induction false} MergePlaceholders(line: seq<MathValue>, j: nat)
    requires j < |line| && line[j] != ParenOpen(1)
    requires |Merge(line)| == |line| && Merge(line)[j] == ParenOpen(1)
    ensures j >= 1 && line[j] == line[j - 1]
    ensures Merge(line)[j - 1].Operator?
    ensures MergedGlyph(line[j - 1], line[j]) == Some(Merge(line)[j - 1].c)
    decreases |line|
  {
    if |line| >= 2 {
      match MergedGlyph(line[0], line[1])
      case Some(glyph) =>
        if j >= 2 {
          MergeKeepsLength(line[2..]);
          MergePlaceholders(line[2..], j - 2);
        }
      case None =>
        MergeKeepsLength(line[1..]);
        assert j > 0;
        if j >= 2 {
          MergePlaceholders(line[1..], j - 1);
        } else {
          assert Merge(line[1..])[0] == ParenOpen(1);
          assert line[1..][0] == line[1];
          MergeHead(line[1..]);
        }
    }
  }

  /** The first token after merging is a placeholder only if it already was one. */
  lemma MergeHead(line: seq<MathValue>)
    requires |line| > 0
    ensures |Merge(line)| > 0
    ensures Merge(line)[0] == ParenOpen(1) ==> line[0] == ParenOpen(1)
  {
  }

  /** The sentinel is neither created nor removed by the merge. */
  lemma {:induction false} MergeKeepsSentinels(line: seq<MathValue>, j: nat)
    requires j < |line|
    ensures |Merge(line)| == |line|
    ensures Merge(line)[j] == TrailingError <==> line[j] == TrailingError
    decreases |line|
  {
    MergeKeepsLength(line);
    if line[j] == TrailingError {
      MergeKeepsOthers(line, j);
    } else if |line| >= 2 {
      if MergedGlyph(line[0], line[1]).Some? {
        if j >= 2 { MergeKeepsSentinels(line[2..], j - 2); }
      } else if j > 0 {
        MergeKeepsSentinels(line[1..], j - 1);
      }
    }
  }

  /* ------------------------------- the whole ------------------------------ */

  /** `math_token`: the base pass followed by the merge pass. */
  function MathToken(s: string): seq<MathValue> {
    TokenComplex(TokenBase(s))
  }

  lemma MathTokenIsMergedLex(s: string)
    ensures MathToken(s) == Merge(Lift(Lex(MATH_CHARS, s)) + [TrailingError])
  {
    ScanIsLex(MATH_CHARS, s);
    TokenComplexIsMerge(TokenBase(s));
  }

  /** The token list ends with exactly one sentinel, and has no other. */
  lemma MathTokenSentinel(s: string)
    ensures |MathToken(s)| == |Lex(MATH_CHARS, s)| + 1
    ensures MathToken(s)[|MathToken(s)| - 1] == TrailingError
    ensures forall j :: 0 <= j < |MathToken(s)| - 1 ==> MathToken(s)[j] != TrailingError
  {
    var base := Lift(Lex(MATH_CHARS, s)) + [TrailingError];
    MathTokenIsMergedLex(s);
    MergeKeepsLength(base);
    MergeKeepsSentinels(base, |base| - 1);
    forall j | 0 <= j < |base| - 1 ensures Merge(base)[j] != TrailingError {
      assert base[j] == ToMathValue(Lex(MATH_CHARS, s)[j]);
      MergeKeepsSentinels(base, j);
    }
  }
}
