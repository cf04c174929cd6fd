/** The full legacy pipeline on a line with nested groups and two variables. */
module MathsComputeExample {
  import opened Errors
  import opened MachineInt
  import opened Radix
  import opened Lexer
  import opened Spelling
  import opened Maths
  import opened MathsExamples

  /* `((p+q)*r+s)/(t-u)`, its leaves kept abstract so that the proofs do not unfold texts. */

  function Nested(p: MathValue, q: MathValue, r: MathValue, s: MathValue, t: MathValue, u: MathValue): seq<MathValue> {
    [Operator('('), Operator('('), p, Operator('+'), q, Operator(')'), Operator('*'), r, Operator('+'), s, Operator(')'),
     Operator('/'), Operator('('), t, Operator('-'), u, Operator(')')]
  }

  /** The contents of the outer left group: `(p+q)*r+s`. */
  function Inner(p: MathValue, q: MathValue, r: MathValue, s: MathValue): seq<MathValue> {
    [Operator('('), p, Operator('+'), q, Operator(')'), Operator('*'), r, Operator('+'), s]
  }

  function InnerFolded(p: MathValue, q: MathValue, r: MathValue, s: MathValue): seq<MathValue> {
    [ParenOpen(1), Operation('+', 1, 2), p, q, ParenClose(3), Operator('*'), r, Operator('+'), s]
  }

  function InnerParsed(p: MathValue, q: MathValue, r: MathValue, s: MathValue): seq<MathValue> {
    [Operation('+', 7, 8), Operation('+', 1, 2), p, q, ParenClose(3), ParenOpen(-4), r, Operation('*', -2, -1), s]
  }

  /** The line once the left group is folded. */
  function NestedHalf(p: MathValue, q: MathValue, r: MathValue, s: MathValue, t: MathValue, u: MathValue): seq<MathValue> {
    [ParenOpen(1), Operation('+', 7, 8), Operation('+', 1, 2), p, q, ParenClose(3), ParenOpen(-4), r,
     Operation('*', -2, -1), s, ParenClose(9), Operator('/'), Operator('('), t, Operator('-'), u, Operator(')')]
  }

  /** The line once both groups are folded. */
  function NestedFolded(p: MathValue, q: MathValue, r: MathValue, s: MathValue, t: MathValue, u: MathValue): seq<MathValue> {
    [ParenOpen(1), Operation('+', 7, 8), Operation('+', 1, 2), p, q, ParenClose(3), ParenOpen(-4), r,
     Operation('*', -2, -1), s, ParenClose(9), Operator('/'), ParenOpen(1), Operation('-', 1, 2), t, u, ParenClose(3)]
  }

  function NestedParsed(p: MathValue, q: MathValue, r: MathValue, s: MathValue, t: MathValue, u: MathValue): seq<MathValue> {
    [Operation('/', 11, 12), Operation('+', 7, 8), Operation('+', 1, 2), p, q, ParenClose(3), ParenOpen(-4), r,
     Operation('*', -2, -1), s, ParenClose(9), ParenOpen(-10), ParenOpen(1), Operation('-', 1, 2), t, u, ParenClose(3)]
  }

  /* ------------------------------- the inner line ------------------------------- */

  lemma InnerPieces(p: MathValue, q: MathValue, r: MathValue, s: MathValue)
    ensures Inner(p, q, r, s)[0] == Operator('(') && Inner(p, q, r, s)[4] == Operator(')')
    ensures Inner(p, q, r, s)[1..4] == [p, Operator('+'), q]
    ensures Inner(p, q, r, s)[..0] + [ParenOpen(1)] + [Operation('+', 1, 2), p, q] + [ParenClose(3)] + Inner(p, q, r, s)[5..]
            == InnerFolded(p, q, r, s)
  {
    assert Inner(p, q, r, s)[5..] == [Operator('*'), r, Operator('+'), s];
  }

  lemma InnerParen(p: MathValue, q: MathValue, r: MathValue, s: MathValue)
    requires p.Name? && q.Name? && r.Name? && s.Name?
    ensures ParenParse(Inner(p, q, r, s)) == Done(InnerFolded(p, q, r, s))
  {
    InnerFirstFold(p, q, r, s);
    ParenLoopIdle(InnerFolded(p, q, r, s), 5, 0);
  }

  lemma InnerFirstFold(p: MathValue, q: MathValue, r: MathValue, s: MathValue)
    requires p.Name? && q.Name?
    ensures ParenLoop(Inner(p, q, r, s), 0, 0, 0) == ParenLoop(InnerFolded(p, q, r, s), 5, 0, 0)
  {
    var line := Inner(p, q, r, s);
    var folded := InnerFolded(p, q, r, s);
    InnerPieces(p, q, r, s);
    InsideFoldsAt(line, 0, 4, p, '+', q, folded);
    GroupFoldsTo(line, 0, 4, 0, [Operation('+', 1, 2), p, q], folded);
  }

  /** The part left of the `+`: a folded group times `r`. */
  lemma InnerLeft(p: MathValue, q: MathValue, r: MathValue)
    requires p.Name? && q.Name? && r.Name?
    ensures MathParse(GroupFirstFolded(p, '+', q, '*', r)) == Done(GroupFirstParsed(p, '+', q, '*', r))
  {
    var folded := GroupFirstFolded(p, '+', q, '*', r);
    assert NoParens(folded);
    ParenParseIdle(folded);
    GroupFirstAdditive(p, '+', q, '*', r);
    GroupFirstMultiplicative(p, '+', q, '*', r);
    ParseThrough(folded, folded, folded, GroupFirstParsed(p, '+', q, '*', r));
  }

  lemma InnerMade(p: MathValue, q: MathValue, r: MathValue, s: MathValue)
    ensures Layout('+', GroupFirstParsed(p, '+', q, '*', r), [s]) == InnerParsed(p, q, r, s)
  {
    var left := GroupFirstParsed(p, '+', q, '*', r);
    assert left[1..] == [Operation('+', 1, 2), p, q, ParenClose(3), ParenOpen(-4), r];
  }

  lemma InnerSplit(p: MathValue, q: MathValue, r: MathValue, s: MathValue)
    requires p.Name? && q.Name? && r.Name? && s.Name?
    ensures MakeOp(InnerFolded(p, q, r, s), 7, '+') == Done(InnerParsed(p, q, r, s))
  {
    var folded := InnerFolded(p, q, r, s);
    assert folded[..7] == GroupFirstFolded(p, '+', q, '*', r) && folded[8..] == [s];
    InnerLeft(p, q, r);
    SingleParse(s);
    MakeOpOf(folded, 7, '+', GroupFirstParsed(p, '+', q, '*', r), [s]);
    InnerMade(p, q, r, s);
  }

  lemma InnerAdditive(p: MathValue, q: MathValue, r: MathValue, s: MathValue)
    requires p.Name? && q.Name? && r.Name? && s.Name?
    ensures ParseOp(InnerFolded(p, q, r, s), ['+', '-']) == Done(InnerParsed(p, q, r, s))
  {
    ScanOpsStops(InnerFolded(p, q, r, s), ['+', '-'], 7);
    InnerSplit(p, q, r, s);
  }

  lemma InnerSettled(p: MathValue, q: MathValue, r: MathValue, s: MathValue)
    requires p.Name? && q.Name? && r.Name? && s.Name?
    ensures ParseOp(InnerParsed(p, q, r, s), ['/', '*']) == Done(InnerParsed(p, q, r, s))
  {
    assert Settled(InnerParsed(p, q, r, s));
    ParseOpSettled(InnerParsed(p, q, r, s), ['/', '*']);
  }

  lemma InnerParse(p: MathValue, q: MathValue, r: MathValue, s: MathValue)
    requires p.Name? && q.Name? && r.Name? && s.Name?
    ensures MathParse(Inner(p, q, r, s)) == Done(InnerParsed(p, q, r, s))
  {
    InnerParen(p, q, r, s);
    InnerAdditive(p, q, r, s);
    InnerSettled(p, q, r, s);
    ParseThrough(Inner(p, q, r, s), InnerFolded(p, q, r, s), InnerParsed(p, q, r, s), InnerParsed(p, q, r, s));
  }

  /* ------------------------------- the whole line ------------------------------- */

  lemma NestedSlices(p: MathValue, q: MathValue, r: MathValue, s: MathValue, t: MathValue, u: MathValue)
    ensures Nested(p, q, r, s, t, u)[0] == Operator('(') && Nested(p, q, r, s, t, u)[10] == Operator(')')
    ensures Nested(p, q, r, s, t, u)[1..10] == Inner(p, q, r, s)
    ensures Nested(p, q, r, s, t, u)[..0] + [ParenOpen(1)] + InnerParsed(p, q, r, s) + [ParenClose(9)]
            + Nested(p, q, r, s, t, u)[11..] == NestedHalf(p, q, r, s, t, u)
  {
    var line := Nested(p, q, r, s, t, u);
    var tail := [Operator('/'), Operator('('), t, Operator('-'), u, Operator(')')];
    assert line[11..] == tail;
    assert line[..0] == [];
    assert [ParenOpen(1)] + InnerParsed(p, q, r, s) + [ParenClose(9)] + tail == NestedHalf(p, q, r, s, t, u);
  }

  lemma NestedFirstFold(p: MathValue, q: MathValue, r: MathValue, s: MathValue, t: MathValue, u: MathValue)
    requires p.Name? && q.Name? && r.Name? && s.Name?
    ensures ParenLoop(Nested(p, q, r, s, t, u), 0, 0, 0) == ParenLoop(NestedHalf(p, q, r, s, t, u), 11, 0, 0)
  {
    NestedFirstShape(p, q, r, s, t, u);
    GroupFoldsTo(Nested(p, q, r, s, t, u), 0, 10, 0, InnerParsed(p, q, r, s), NestedHalf(p, q, r, s, t, u));
  }

  lemma NestedFirstShape(p: MathValue, q: MathValue, r: MathValue, s: MathValue, t: MathValue, u: MathValue)
    requires p.Name? && q.Name? && r.Name? && s.Name?
    ensures FoldsAt(Nested(p, q, r, s, t, u), 0, 10, InnerParsed(p, q, r, s), NestedHalf(p, q, r, s, t, u))
  {
    NestedSlices(p, q, r, s, t, u);
    InnerParen(p, q, r, s);
    ParenParseBalanced(Inner(p, q, r, s));
    InnerParse(p, q, r, s);
  }

  lemma HalfSlices(p: MathValue, q: MathValue, r: MathValue, s: MathValue, t: MathValue, u: MathValue)
    ensures var half := NestedHalf(p, q, r, s, t, u);
      && half[12] == Operator('(') && half[16] == Operator(')')
      && half[13..16] == [t, Operator('-'), u]
      && half[..12] + [ParenOpen(1)] + [Operation('-', 1, 2), t, u] + [ParenClose(3)] + half[17..] == NestedFolded(p, q, r, s, t, u)
  {
    var half := NestedHalf(p, q, r, s, t, u);
    assert half[17..] == [];
  }

  lemma NestedSecondFold(p: MathValue, q: MathValue, r: MathValue, s: MathValue, t: MathValue, u: MathValue)
    requires t.Name? && u.Name?
    ensures ParenLoop(NestedHalf(p, q, r, s, t, u), 12, 0, 0) == ParenLoop(NestedFolded(p, q, r, s, t, u), 17, 0, 12)
  {
    HalfSlices(p, q, r, s, t, u);
    InsideFoldsAt(NestedHalf(p, q, r, s, t, u), 12, 16, t, '-', u, NestedFolded(p, q, r, s, t, u));
    GroupFoldsTo(NestedHalf(p, q, r, s, t, u), 12, 16, 0, [Operation('-', 1, 2), t, u], NestedFolded(p, q, r, s, t, u));
  }

  lemma NestedParen(p: MathValue, q: MathValue, r: MathValue, s: MathValue, t: MathValue, u: MathValue)
    requires p.Name? && q.Name? && r.Name? && s.Name? && t.Name? && u.Name?
    ensures ParenParse(Nested(p, q, r, s, t, u)) == Done(NestedFolded(p, q, r, s, t, u))
  {
    var line := Nested(p, q, r, s, t, u);
    var half := NestedHalf(p, q, r, s, t, u);
    var folded := NestedFolded(p, q, r, s, t, u);
    assert ParenParse(line) == ParenLoop(line, 0, 0, 0);
    NestedFirstFold(p, q, r, s, t, u);
    ParenLoopStep(half, 11, 0);
    assert ParenLoop(half, 11, 0, 0) == ParenLoop(half, 12, 0, 0);
    NestedSecondFold(p, q, r, s, t, u);
    assert ParenLoop(folded, 17, 0, 12) == Done(folded);
  }

  lemma NestedAdditive(p: MathValue, q: MathValue, r: MathValue, s: MathValue, t: MathValue, u: MathValue)
    requires p.Name? && q.Name? && r.Name? && s.Name? && t.Name? && u.Name?
    ensures ParseOp(NestedFolded(p, q, r, s, t, u), ['+', '-']) == Done(NestedFolded(p, q, r, s, t, u))
  {
    var folded := NestedFolded(p, q, r, s, t, u);
    assert folded == [ParenOpen(1), Operation('+', 7, 8), Operation('+', 1, 2), p, q, ParenClose(3), ParenOpen(-4), r,
                      Operation('*', -2, -1), s, ParenClose(9), Operator('/'), ParenOpen(1), Operation('-', 1, 2), t, u, ParenClose(3)];
    ScanOpsPasses(folded, ['+', '-'], 10, 15);
    ScanOpsJumps(folded, ['+', '-'], 10);
    ScanOpsPasses(folded, ['+', '-'], 0, 1);
  }

  lemma NestedMade(p: MathValue, q: MathValue, r: MathValue, s: MathValue, t: MathValue, u: MathValue)
    ensures Layout('/', [ParenOpen(1)] + InnerParsed(p, q, r, s) + [ParenClose(9)],
                        [ParenOpen(1), Operation('-', 1, 2), t, u, ParenClose(3)])
         == NestedParsed(p, q, r, s, t, u)
  {
    var right := [ParenOpen(1), Operation('-', 1, 2), t, u, ParenClose(3)];
    LayoutGroupLeft('/', InnerParsed(p, q, r, s), 9, right);
  }

  /** A left operand that is a folded group: its `ParenOpen` moves behind it. */
  lemma LayoutGroupLeft(c: char, body: seq<MathValue>, size: nat, right: seq<MathValue>)
    ensures var n := |body| + 2;
      Layout(c, [ParenOpen(1)] + body + [ParenClose(size)], right)
      == [Operation(c, n, n + 1)] + body + [ParenClose(size)] + [ParenOpen(1 - n)] + right
  {
    var left := [ParenOpen(1)] + body + [ParenClose(size)];
    assert left[0] == ParenOpen(1);
    assert left[1..] == body + [ParenClose(size)];
  }

  lemma NestedSides(p: MathValue, q: MathValue, r: MathValue, s: MathValue, t: MathValue, u: MathValue)
    requires p.Name? && q.Name? && r.Name? && s.Name? && t.Name? && u.Name?
    ensures var left := [ParenOpen(1)] + InnerParsed(p, q, r, s) + [ParenClose(9)];
      MathParse(left) == Done(left)
    ensures MathParse([ParenOpen(1), Operation('-', 1, 2), t, u, ParenClose(3)])
         == Done([ParenOpen(1), Operation('-', 1, 2), t, u, ParenClose(3)])
  {
    NestedLeftSettled(p, q, r, s);
    SettledParse([ParenOpen(1), Operation('-', 1, 2), t, u, ParenClose(3)]);
  }

  lemma NestedLeftSettled(p: MathValue, q: MathValue, r: MathValue, s: MathValue)
    requires p.Name? && q.Name? && r.Name? && s.Name?
    ensures var left := [ParenOpen(1)] + InnerParsed(p, q, r, s) + [ParenClose(9)];
      MathParse(left) == Done(left)
  {
    var left := [ParenOpen(1)] + InnerParsed(p, q, r, s) + [ParenClose(9)];
    assert left == [ParenOpen(1), Operation('+', 7, 8), Operation('+', 1, 2), p, q, ParenClose(3), ParenOpen(-4), r,
                    Operation('*', -2, -1), s, ParenClose(9)];
    SettledParse(left);
  }

  lemma NestedSplit(p: MathValue, q: MathValue, r: MathValue, s: MathValue, t: MathValue, u: MathValue)
    requires p.Name? && q.Name? && r.Name? && s.Name? && t.Name? && u.Name?
    ensures MakeOp(NestedFolded(p, q, r, s, t, u), 11, '/') == Done(NestedParsed(p, q, r, s, t, u))
  {
    var folded := NestedFolded(p, q, r, s, t, u);
    var left := [ParenOpen(1)] + InnerParsed(p, q, r, s) + [ParenClose(9)];
    var right := [ParenOpen(1), Operation('-', 1, 2), t, u, ParenClose(3)];
    assert folded == left + [Operator('/')] + right;
    assert folded[..11] == left && folded[12..] == right;
    NestedSides(p, q, r, s, t, u);
    MakeOpOf(folded, 11, '/', left, right);
    NestedMade(p, q, r, s, t, u);
  }

  lemma NestedMultiplicative(p: MathValue, q: MathValue, r: MathValue, s: MathValue, t: MathValue, u: MathValue)
    requires p.Name? && q.Name? && r.Name? && s.Name? && t.Name? && u.Name?
    ensures ParseOp(NestedFolded(p, q, r, s, t, u), ['/', '*']) == Done(NestedParsed(p, q, r, s, t, u))
  {
    var folded := NestedFolded(p, q, r, s, t, u);
    assert folded[11..] == [Operator('/'), ParenOpen(1), Operation('-', 1, 2), t, u, ParenClose(3)];
    ScanOpsPasses(folded, ['/', '*'], 11, 15);
    ScanOpsStops(folded, ['/', '*'], 11);
    NestedSplit(p, q, r, s, t, u);
  }

  lemma NestedParse(p: MathValue, q: MathValue, r: MathValue, s: MathValue, t: MathValue, u: MathValue)
    requires p.Name? && q.Name? && r.Name? && s.Name? && t.Name? && u.Name?
    ensures MathParse(Nested(p, q, r, s, t, u)) == Done(NestedParsed(p, q, r, s, t, u))
  {
    var folded := NestedFolded(p, q, r, s, t, u);
    NestedParen(p, q, r, s, t, u);
    NestedAdditive(p, q, r, s, t, u);
    NestedMultiplicative(p, q, r, s, t, u);
    ParseThrough(Nested(p, q, r, s, t, u), folded, folded, NestedParsed(p, q, r, s, t, u));
  }

  /* ------------------------------ variables and values ------------------------------ */

  /** The values of `((p+q)*r+s)/(t-u)`, one operator at a time. */
  lemma NestedComputes(p: i64, q: i64, r: i64, s: i64, t: i64, u: i64, sum: i64, product: i64, total: i64, difference: i64)
    requires Apply('+', p, q) == Done(sum)
    requires Apply('*', sum, r) == Done(product)
    requires Apply('+', product, s) == Done(total)
    requires Apply('-', t, u) == Done(difference)
    ensures MathFinalCompute(NestedParsed(Value(p), Value(q), Value(r), Value(s), Value(t), Value(u))) == Apply('/', total, difference)
  {
    var left := [ParenOpen(1)] + InnerParsed(Value(p), Value(q), Value(r), Value(s)) + [ParenClose(9)];
    var right := [ParenOpen(1), Operation('-', 1, 2), Value(t), Value(u), ParenClose(3)];
    NestedLeftComputes(p, q, r, s, sum, product, total);
    NestedRightComputes(t, u, difference);
    NestedMade(Value(p), Value(q), Value(r), Value(s), Value(t), Value(u));
    LayoutComputes('/', left, right, total, difference);
  }

  lemma NestedLeftComputes(p: i64, q: i64, r: i64, s: i64, sum: i64, product: i64, total: i64)
    requires Apply('+', p, q) == Done(sum)
    requires Apply('*', sum, r) == Done(product)
    requires Apply('+', product, s) == Done(total)
    ensures MathFinalCompute([ParenOpen(1)] + InnerParsed(Value(p), Value(q), Value(r), Value(s)) + [ParenClose(9)]) == Done(total)
  {
    var inner := InnerParsed(Value(p), Value(q), Value(r), Value(s));
    GroupFirstComputes(p, '+', q, '*', r, sum);
    InnerMade(Value(p), Value(q), Value(r), Value(s));
    LayoutComputes('+', GroupFirstParsed(Value(p), '+', Value(q), '*', Value(r)), [Value(s)], product, s);
    GroupLineComputes(inner, 9);
  }

  lemma NestedRightComputes(t: i64, u: i64, difference: i64)
    requires Apply('-', t, u) == Done(difference)
    ensures MathFinalCompute([ParenOpen(1), Operation('-', 1, 2), Value(t), Value(u), ParenClose(3)]) == Done(difference)
  {
    var right := [Operation('-', 1, 2), Value(t), Value(u)];
    BinaryComputes('-', t, u);
    GroupLineComputes(right, 3);
    assert [ParenOpen(1)] + right + [ParenClose(3)] == [ParenOpen(1), Operation('-', 1, 2), Value(t), Value(u), ParenClose(3)];
  }

  /** Two variables, each naming a number directly. */
  const LETTERS: map<string, string> := map["a" := "3", "b" := "9"]

  lemma LettersEnd()
    ensures ChainsEnd(LETTERS)
    ensures Chase(LETTERS, LETTERS["a"]) == "3" && Chase(LETTERS, LETTERS["b"]) == "9"
  {
    assert LETTERS.Keys == {"a", "b"};
    assert |LETTERS| == 2;
    assert Follow(LETTERS, "3", 2) == "3" && Follow(LETTERS, "9", 2) == "9";
    assert Follow(LETTERS, "a", 2) == "3";
    assert Follow(LETTERS, "b", 2) == "9";
  }

  function FrontLexemes(): seq<Lexeme> {
    [Symbol('('), Symbol('('), Word("3"), Symbol('+'), Word("3"), Symbol(')'), Symbol('*'), Word("b")]
  }

  function BackLexemes(): seq<Lexeme> {
    [Symbol('+'), Word("8"), Symbol(')'), Symbol('/'), Symbol('('), Word("a"), Symbol('-'), Word("1"), Symbol(')')]
  }

  lemma FrontChecked()
    ensures Check(FrontLexemes(), 0) && Concat(FrontLexemes()) == "((3+3)*b"
  {
    FrontCheck();
    FrontSpells();
    SpellsSound(FrontLexemes(), "((3+3)*b");
  }

  lemma FrontCheck()
    ensures Check(FrontLexemes(), 0)
  {
  }

  lemma FrontSpells()
    ensures SpellsFrom(FrontLexemes(), "((3+3)*b", 0, 0)
  {
  }

  lemma BackChecked()
    ensures Check(BackLexemes(), 0) && Concat(BackLexemes()) == "+8)/(a-1)"
  {
    BackCheck();
    BackSpells();
    SpellsSound(BackLexemes(), "+8)/(a-1)");
  }

  lemma BackCheck()
    ensures Check(BackLexemes(), 0)
  {
  }

  lemma BackSpells()
    ensures SpellsFrom(BackLexemes(), "+8)/(a-1)", 0, 0)
  {
  }

  lemma NestedText()
    ensures "((3+3)*b" + "+8)/(a-1)" == "((3+3)*b+8)/(a-1)"
  {
  }

  lemma NestedLexemes()
    ensures Check(FrontLexemes() + BackLexemes(), 0) && Concat(FrontLexemes() + BackLexemes()) == "((3+3)*b+8)/(a-1)"
  {
    FrontChecked();
    BackChecked();
    CheckJoin(FrontLexemes(), BackLexemes(), 0);
    ConcatAppend(FrontLexemes(), BackLexemes());
    NestedText();
  }

  lemma ToValuesAppend(a: seq<Lexeme>, b: seq<Lexeme>)
    ensures ToValues(a + b) == ToValues(a) + ToValues(b)
  {
    var r := ToValues(a + b);
    forall k | 0 <= k < |r| ensures r[k] == (ToValues(a) + ToValues(b))[k] {
      if k < |a| {
        assert (a + b)[k] == a[k];
      } else {
        assert (a + b)[k] == b[k - |a|];
      }
    }
  }

  lemma NestedJoin()
    ensures Nested(Name("3"), Name("3"), Name("b"), Name("8"), Name("a"), Name("1"))
         == [Operator('('), Operator('('), Name("3"), Operator('+'), Name("3"), Operator(')'), Operator('*'), Name("b")]
          + [Operator('+'), Name("8"), Operator(')'), Operator('/'), Operator('('), Name("a"), Operator('-'), Name("1"), Operator(')')]
  {
  }

  /** The values of the lexemes, checked one position at a time. */
  lemma ValuesAs(ts: seq<Lexeme>, expected: seq<MathValue>)
    requires |expected| == |ts|
    requires forall k :: 0 <= k < |ts| ==> expected[k] == ToValue(ts[k])
    ensures ToValues(ts) == expected
  {
  }

  lemma FrontValues()
    ensures ToValues(FrontLexemes())
         == [Operator('('), Operator('('), Name("3"), Operator('+'), Name("3"), Operator(')'), Operator('*'), Name("b")]
  {
    ValuesAs(FrontLexemes(),
             [Operator('('), Operator('('), Name("3"), Operator('+'), Name("3"), Operator(')'), Operator('*'), Name("b")]);
  }

  lemma BackValues()
    ensures ToValues(BackLexemes())
         == [Operator('+'), Name("8"), Operator(')'), Operator('/'), Operator('('), Name("a"), Operator('-'), Name("1"), Operator(')')]
  {
    ValuesAs(BackLexemes(),
             [Operator('+'), Name("8"), Operator(')'), Operator('/'), Operator('('), Name("a"), Operator('-'), Name("1"), Operator(')')]);
  }

  lemma NestedValues()
    ensures ToValues(FrontLexemes() + BackLexemes()) == Nested(Name("3"), Name("3"), Name("b"), Name("8"), Name("a"), Name("1"))
  {
    ToValuesAppend(FrontLexemes(), BackLexemes());
    FrontValues();
    BackValues();
    NestedJoin();
  }

  lemma NestedTokens()
    ensures MathToken("((3+3)*b+8)/(a-1)") == Nested(Name("3"), Name("3"), Name("b"), Name("8"), Name("a"), Name("1"))
  {
    NestedLexemes();
    MathTokenOf("((3+3)*b+8)/(a-1)", FrontLexemes() + BackLexemes());
    NestedValues();
  }

  lemma NestedNamed()
    ensures ChainsEnd(LETTERS)
    ensures ReadNamedVariables(NestedParsed(Name("3"), Name("3"), Name("b"), Name("8"), Name("a"), Name("1")), Some(LETTERS))
         == Done(NestedParsed(Name("3"), Name("3"), Value(9), Name("8"), Value(3), Name("1")))
  {
    LettersEnd();
    ReadDigit(9);
    ReadDigit(3);
    assert [DIGIT_CHARS[9]] == "9" && [DIGIT_CHARS[3]] == "3";
    assert "1" !in LETTERS && "3" !in LETTERS && "8" !in LETTERS;
    SubstituteGives(NestedParsed(Name("3"), Name("3"), Name("b"), Name("8"), Name("a"), Name("1")), LETTERS,
                    NestedParsed(Name("3"), Name("3"), Value(9), Name("8"), Value(3), Name("1")));
  }

  lemma NestedNumbers()
    ensures ReadNumbers(NestedParsed(Name("3"), Name("3"), Value(9), Name("8"), Value(3), Name("1")))
         == Done(NestedParsed(Value(3), Value(3), Value(9), Value(8), Value(3), Value(1)))
  {
    ReadDigit(3);
    ReadDigit(8);
    ReadDigit(1);
    assert [DIGIT_CHARS[3]] == "3" && [DIGIT_CHARS[8]] == "8" && [DIGIT_CHARS[1]] == "1";
    ReadNumbersGives(NestedParsed(Name("3"), Name("3"), Value(9), Name("8"), Value(3), Name("1")),
                     NestedParsed(Value(3), Value(3), Value(9), Value(8), Value(3), Value(1)));
  }

  lemma NestedValue()
    ensures MathFinalCompute(NestedParsed(Value(3), Value(3), Value(9), Value(8), Value(3), Value(1))) == Done(31)
  {
    assert Apply('+', 3, 3) == Done(6);
    assert Apply('*', 6, 9) == Done(54);
    assert Apply('+', 54, 8) == Done(62);
    assert Apply('-', 3, 1) == Done(2);
    NestedComputes(3, 3, 9, 8, 3, 1, 6, 54, 62, 2);
    assert Apply('/', 62, 2) == Done(31);
  }

  /**
    `((3+3)*b+8)/(a-1)` with `a` naming 3 and `b` naming 9: the whole
    pipeline gives `31`.
   */
  lemma MathComputeExample()
    ensures ChainsEnd(LETTERS)
    ensures MathCompute("((3+3)*b+8)/(a-1)", Some(LETTERS)) == Done(31)
  {
    NestedTokens();
    NestedParse(Name("3"), Name("3"), Name("b"), Name("8"), Name("a"), Name("1"));
    NestedNamed();
    NestedNumbers();
    NestedValue();
  }
}
