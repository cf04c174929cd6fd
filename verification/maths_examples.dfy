/** Worked examples of the legacy integer pipeline. */
module MathsExamples {
  import opened Errors
  import opened MachineInt
  import opened Lexer
  import opened Spelling
  import opened Radix
  import opened Maths

  /* A decision procedure for the lexeme lists of the examples: words of
     letters, digits and underscores, symbols from the legacy alphabet. */

  predicate IsNameChar(c: char) {
    ('a' <= c <= 'z') || ('A' <= c <= 'Z') || ('0' <= c <= '9') || c == '_'
  }

  function NameFrom(x: string, k: nat): bool
    decreases |x| - k
  {
    k >= |x| || (IsNameChar(x[k]) && NameFrom(x, k + 1))
  }

  function Check(ts: seq<Lexeme>, i: nat): bool
    decreases |ts| - i
  {
    if i >= |ts| then true
    else
      && (match ts[i]
          case Word(x) => |x| > 0 && NameFrom(x, 0)
          case Symbol(c) => c in Maths.MATH_CHARS)
      && (i + 1 < |ts| ==> !(ts[i].Word? && ts[i + 1].Word?))
      && Check(ts, i + 1)
  }

  lemma {:induction false} NameFromSound(x: string, k: nat)
    requires NameFrom(x, k)
    ensures forall j :: k <= j < |x| ==> x[j] !in Maths.MATH_CHARS
    decreases |x| - k
  {
    if k < |x| {
      NameFromSound(x, k + 1);
    }
  }

  lemma {:induction false} CheckSound(ts: seq<Lexeme>, i: nat)
    requires Check(ts, i)
    ensures forall j :: i <= j < |ts| ==> Proper(Maths.MATH_CHARS, ts[j])
    ensures forall j :: i <= j < |ts| - 1 ==> !(ts[j].Word? && ts[j + 1].Word?)
    decreases |ts| - i
  {
    if i < |ts| {
      CheckSound(ts, i + 1);
      if ts[i].Word? {
        NameFromSound(ts[i].text, 0);
      }
    }
  }

  /** A lexeme list that passes the check and spells the text decides the tokens of that text. */
  lemma MathTokenOf(s: string, ts: seq<Lexeme>)
    requires Check(ts, 0) && Concat(ts) == s
    ensures MathToken(s) == ToValues(ts)
  {
    CheckSound(ts, 0);
    LexUnique(Maths.MATH_CHARS, s, ts);
    ScanIsLex(Maths.MATH_CHARS, s);
  }

  lemma {:induction false} CheckShift(pre: seq<Lexeme>, b: seq<Lexeme>, j: nat)
    requires Check(b, j)
    ensures Check(pre + b, |pre| + j)
    decreases |b| - j
  {
    if j < |b| {
      CheckShift(pre, b, j + 1);
      assert (pre + b)[|pre| + j] == b[j];
      if j + 1 < |b| {
        assert (pre + b)[|pre| + j + 1] == b[j + 1];
      }
    }
  }

  /** Two checked lexeme lists that do not put two words side by side join into a checked list. */
  lemma {:induction false} CheckJoin(a: seq<Lexeme>, b: seq<Lexeme>, i: nat)
    requires i <= |a|
    requires Check(a, i) && Check(b, 0)
    requires |a| > 0 && |b| > 0 ==> !(a[|a| - 1].Word? && b[0].Word?)
    ensures Check(a + b, i)
    decreases |a| - i
  {
    if i == |a| {
      CheckShift(a, b, 0);
    } else {
      CheckJoin(a, b, i + 1);
      assert (a + b)[i] == a[i];
      if i + 1 < |a| {
        assert (a + b)[i + 1] == a[i + 1];
      } else if |b| > 0 {
        assert (a + b)[i + 1] == b[0];
      }
    }
  }

  /* ------------------------------- tokenizer ------------------------------- */

  lemma TokenLexemes()
    ensures var ts := [Symbol('+'), Word("4"), Symbol('/'), Word("88"), Symbol('*'), Word("toto")];
      Check(ts, 0) && Concat(ts) == "+4/88*toto"
  {
    TokenCheck();
    TokenSpells();
    SpellsSound([Symbol('+'), Word("4"), Symbol('/'), Word("88"), Symbol('*'), Word("toto")], "+4/88*toto");
  }

  lemma TokenCheck()
    ensures Check([Symbol('+'), Word("4"), Symbol('/'), Word("88"), Symbol('*'), Word("toto")], 0)
  {
  }

  lemma TokenSpells()
    ensures SpellsFrom([Symbol('+'), Word("4"), Symbol('/'), Word("88"), Symbol('*'), Word("toto")], "+4/88*toto", 0, 0)
  {
  }

  /** `+4/88*toto`: six tokens, each operator on its own. */
  lemma MathTokenExample()
    ensures MathToken("+4/88*toto")
         == [Operator('+'), Name("4"), Operator('/'), Name("88"), Operator('*'), Name("toto")]
  {
    var ts := [Symbol('+'), Word("4"), Symbol('/'), Word("88"), Symbol('*'), Word("toto")];
    TokenLexemes();
    MathTokenOf("+4/88*toto", ts);
  }

  /* -------------------------------- parsing -------------------------------- */

  /** `88+89`: the operation takes the first slot and points at both numbers. */
  lemma SumLayout()
    ensures MathParse([Name("88"), Operator('+'), Name("89")])
         == Done([Operation('+', 1, 2), Name("88"), Name("89")])
  {
    BinaryParse(Name("88"), '+', Name("89"));
  }

  /** The layout of `x a y b z c w` split on `b`, each side on its own operator. */
  function ProductsParsed(x: MathValue, a: char, y: MathValue, b: char, z: MathValue, c: char, w: MathValue): seq<MathValue> {
    [Operation(b, 3, 4), x, y, Operation(a, -2, -1), Operation(c, 1, 2), z, w]
  }

  lemma ProductsMade(x: MathValue, a: char, y: MathValue, b: char, z: MathValue, c: char, w: MathValue)
    requires x.Name? && y.Name? && z.Name? && w.Name?
    ensures Layout(b, Layout(a, [x], [y]), Layout(c, [z], [w])) == ProductsParsed(x, a, y, b, z, c, w)
  {
    LayoutOfSingles(a, x, y);
    LayoutOfSingles(c, z, w);
    var left := [Operation(a, 1, 2), x, y];
    assert left[1..] == [x, y];
  }

  lemma ProductsSplit(x: MathValue, a: char, y: MathValue, b: char, z: MathValue, c: char, w: MathValue)
    requires x.Name? && y.Name? && z.Name? && w.Name?
    requires a in "+-*/" && c in "+-*/"
    ensures MakeOp([x, Operator(a), y, Operator(b), z, Operator(c), w], 3, b) == Done(ProductsParsed(x, a, y, b, z, c, w))
  {
    var line := [x, Operator(a), y, Operator(b), z, Operator(c), w];
    assert line[..3] == [x, Operator(a), y] && line[4..] == [z, Operator(c), w];
    BinaryParse(x, a, y);
    BinaryParse(z, c, w);
    MakeOpOf(line, 3, b, Layout(a, [x], [y]), Layout(c, [z], [w]));
    ProductsMade(x, a, y, b, z, c, w);
  }

  /** The three stages of `math_parse`, one at a time. */
  lemma ParseThrough(line: seq<MathValue>, grouped: seq<MathValue>, mid: seq<MathValue>, out: seq<MathValue>)
    requires ParenParse(line) == Done(grouped)
    requires ParseOp(grouped, ['+', '-']) == Done(mid)
    requires ParseOp(mid, ['/', '*']) == Done(out)
    ensures MathParse(line) == Done(out)
  {
  }

  lemma ProductsAdditive(x: MathValue, a: char, y: MathValue, b: char, z: MathValue, c: char, w: MathValue)
    requires x.Name? && y.Name? && z.Name? && w.Name?
    requires a in "*/" && b in "+-" && c in "*/"
    ensures ParseOp([x, Operator(a), y, Operator(b), z, Operator(c), w], ['+', '-']) == Done(ProductsParsed(x, a, y, b, z, c, w))
  {
    var line := [x, Operator(a), y, Operator(b), z, Operator(c), w];
    ScanOpsPasses(line, ['+', '-'], 3, 5);
    ScanOpsStops(line, ['+', '-'], 3);
    ProductsSplit(x, a, y, b, z, c, w);
  }

  lemma ProductsSettled(x: MathValue, a: char, y: MathValue, b: char, z: MathValue, c: char, w: MathValue)
    requires x.Name? && y.Name? && z.Name? && w.Name?
    ensures ParseOp(ProductsParsed(x, a, y, b, z, c, w), ['/', '*']) == Done(ProductsParsed(x, a, y, b, z, c, w))
  {
    var parsed := ProductsParsed(x, a, y, b, z, c, w);
    assert Settled(parsed);
    ParseOpSettled(parsed, ['/', '*']);
  }

  /** `x a y b z c w` with `b` additive and `a`, `c` multiplicative. */
  lemma ProductsParse(x: MathValue, a: char, y: MathValue, b: char, z: MathValue, c: char, w: MathValue)
    requires x.Name? && y.Name? && z.Name? && w.Name?
    requires a in "*/" && b in "+-" && c in "*/"
    ensures MathParse([x, Operator(a), y, Operator(b), z, Operator(c), w]) == Done(ProductsParsed(x, a, y, b, z, c, w))
  {
    var line := [x, Operator(a), y, Operator(b), z, Operator(c), w];
    assert NoParens(line);
    ProductsAdditive(x, a, y, b, z, c, w);
    ProductsSettled(x, a, y, b, z, c, w);
    ParenParseIdle(line);
    ParseThrough(line, line, ProductsParsed(x, a, y, b, z, c, w), ProductsParsed(x, a, y, b, z, c, w));
  }

  /** `1*2+3*4`: split on the `+`, each side on its `*`; the left side's root moves to the `+`'s slot. */
  lemma ProductsLayout()
    ensures MathParse([Name("1"), Operator('*'), Name("2"), Operator('+'), Name("3"), Operator('*'), Name("4")])
         == Done([Operation('+', 3, 4), Name("1"), Name("2"), Operation('*', -2, -1), Operation('*', 1, 2), Name("3"), Name("4")])
  {
    ProductsParse(Name("1"), '*', Name("2"), '+', Name("3"), '*', Name("4"));
  }

  /* `(x a y) b (z c w)`: two groups around a multiplicative operator. */

  function GroupsLine(x: MathValue, a: char, y: MathValue, b: char, z: MathValue, c: char, w: MathValue): seq<MathValue> {
    [Operator('('), x, Operator(a), y, Operator(')'), Operator(b), Operator('('), z, Operator(c), w, Operator(')')]
  }

  /** The line once `paren_parse` has folded both groups. */
  function GroupsFolded(x: MathValue, a: char, y: MathValue, b: char, z: MathValue, c: char, w: MathValue): seq<MathValue> {
    [ParenOpen(1), Operation(a, 1, 2), x, y, ParenClose(3), Operator(b), ParenOpen(1), Operation(c, 1, 2), z, w, ParenClose(3)]
  }

  function GroupsParsed(x: MathValue, a: char, y: MathValue, b: char, z: MathValue, c: char, w: MathValue): seq<MathValue> {
    [Operation(b, 5, 6), Operation(a, 1, 2), x, y, ParenClose(3), ParenOpen(-4), ParenOpen(1), Operation(c, 1, 2), z, w, ParenClose(3)]
  }

  /** The contents `x c y` of a group: balanced, and parsed to one operation. */
  lemma GroupInside(x: MathValue, c: char, y: MathValue)
    requires x.Name? && y.Name? && c in "+-*/"
    ensures Balanced([x, Operator(c), y])
    ensures MathParse([x, Operator(c), y]) == Done([Operation(c, 1, 2), x, y])
  {
    assert NoParens([x, Operator(c), y]);
    NoParensBalanced([x, Operator(c), y]);
    BinaryParse(x, c, y);
  }

  /** A group holding one binary operation between two names can be folded. */
  lemma InsideFoldsAt(line: seq<MathValue>, open: nat, j: nat, x: MathValue, c: char, y: MathValue, folded: seq<MathValue>)
    requires x.Name? && y.Name? && c in "+-*/"
    requires open + 4 == j < |line| && line[open] == Operator('(') && line[j] == Operator(')')
    requires line[open + 1..j] == [x, Operator(c), y]
    requires folded == line[..open] + [ParenOpen(1)] + [Operation(c, 1, 2), x, y] + [ParenClose(3)] + line[j + 1..]
    ensures FoldsAt(line, open, j, [Operation(c, 1, 2), x, y], folded)
  {
    GroupInside(x, c, y);
  }

  /** The line once `paren_parse` has folded the first group. */
  function GroupsHalf(x: MathValue, a: char, y: MathValue, b: char, z: MathValue, c: char, w: MathValue): seq<MathValue> {
    [ParenOpen(1), Operation(a, 1, 2), x, y, ParenClose(3), Operator(b), Operator('('), z, Operator(c), w, Operator(')')]
  }

  lemma GroupsFirstFold(x: MathValue, a: char, y: MathValue, b: char, z: MathValue, c: char, w: MathValue)
    requires x.Name? && y.Name? && z.Name? && w.Name? && a in "+-*/"
    ensures ParenLoop(GroupsLine(x, a, y, b, z, c, w), 0, 0, 0) == ParenLoop(GroupsHalf(x, a, y, b, z, c, w), 5, 0, 0)
  {
    var line := GroupsLine(x, a, y, b, z, c, w);
    GroupsFirstPieces(x, a, y, b, z, c, w);
    InsideFoldsAt(line, 0, 4, x, a, y, GroupsHalf(x, a, y, b, z, c, w));
    GroupFoldsTo(line, 0, 4, 0, [Operation(a, 1, 2), x, y], GroupsHalf(x, a, y, b, z, c, w));
  }

  lemma GroupsFirstPieces(x: MathValue, a: char, y: MathValue, b: char, z: MathValue, c: char, w: MathValue)
    ensures GroupsLine(x, a, y, b, z, c, w)[1..4] == [x, Operator(a), y]
    ensures var line := GroupsLine(x, a, y, b, z, c, w);
      line[..0] + [ParenOpen(1)] + [Operation(a, 1, 2), x, y] + [ParenClose(3)] + line[5..] == GroupsHalf(x, a, y, b, z, c, w)
  {
  }

  lemma GroupsSecondFold(x: MathValue, a: char, y: MathValue, b: char, z: MathValue, c: char, w: MathValue)
    requires x.Name? && y.Name? && z.Name? && w.Name? && b in "*/" && c in "+-*/"
    ensures ParenLoop(GroupsHalf(x, a, y, b, z, c, w), 6, 0, 0) == ParenLoop(GroupsFolded(x, a, y, b, z, c, w), 11, 0, 6)
  {
    var half := GroupsHalf(x, a, y, b, z, c, w);
    GroupsSecondPieces(x, a, y, b, z, c, w);
    InsideFoldsAt(half, 6, 10, z, c, w, GroupsFolded(x, a, y, b, z, c, w));
    GroupFoldsTo(half, 6, 10, 0, [Operation(c, 1, 2), z, w], GroupsFolded(x, a, y, b, z, c, w));
  }

  lemma GroupsSecondPieces(x: MathValue, a: char, y: MathValue, b: char, z: MathValue, c: char, w: MathValue)
    ensures GroupsHalf(x, a, y, b, z, c, w)[7..10] == [z, Operator(c), w]
    ensures var half := GroupsHalf(x, a, y, b, z, c, w);
      half[..6] + [ParenOpen(1)] + [Operation(c, 1, 2), z, w] + [ParenClose(3)] + half[11..] == GroupsFolded(x, a, y, b, z, c, w)
  {
  }

  lemma GroupsParen(x: MathValue, a: char, y: MathValue, b: char, z: MathValue, c: char, w: MathValue)
    requires x.Name? && y.Name? && z.Name? && w.Name? && a in "+-*/" && b in "*/" && c in "+-*/"
    ensures ParenParse(GroupsLine(x, a, y, b, z, c, w)) == Done(GroupsFolded(x, a, y, b, z, c, w))
  {
    GroupsFirstFold(x, a, y, b, z, c, w);
    ParenLoopStep(GroupsHalf(x, a, y, b, z, c, w), 5, 0);
    GroupsSecondFold(x, a, y, b, z, c, w);
    assert ParenLoop(GroupsFolded(x, a, y, b, z, c, w), 11, 0, 6) == Done(GroupsFolded(x, a, y, b, z, c, w));
  }

  /** With `b` multiplicative the additive scan finds nothing outside the groups. */
  lemma GroupsAdditive(x: MathValue, a: char, y: MathValue, b: char, z: MathValue, c: char, w: MathValue)
    requires x.Name? && y.Name? && z.Name? && w.Name? && b in "*/"
    ensures ParseOp(GroupsFolded(x, a, y, b, z, c, w), ['+', '-']) == Done(GroupsFolded(x, a, y, b, z, c, w))
  {
    var folded := GroupsFolded(x, a, y, b, z, c, w);
    ScanOpsPasses(folded, ['+', '-'], 4, 9);
    ScanOpsJumps(folded, ['+', '-'], 4);
    ScanOpsPasses(folded, ['+', '-'], 0, 1);
  }

  lemma GroupsMade(x: MathValue, a: char, y: MathValue, b: char, z: MathValue, c: char, w: MathValue)
    ensures Layout(b, [ParenOpen(1), Operation(a, 1, 2), x, y, ParenClose(3)], [ParenOpen(1), Operation(c, 1, 2), z, w, ParenClose(3)])
         == GroupsParsed(x, a, y, b, z, c, w)
  {
    var left := [ParenOpen(1), Operation(a, 1, 2), x, y, ParenClose(3)];
    assert left[1..] == [Operation(a, 1, 2), x, y, ParenClose(3)];
  }

  lemma GroupsSplit(x: MathValue, a: char, y: MathValue, b: char, z: MathValue, c: char, w: MathValue)
    requires x.Name? && y.Name? && z.Name? && w.Name?
    ensures MakeOp(GroupsFolded(x, a, y, b, z, c, w), 5, b) == Done(GroupsParsed(x, a, y, b, z, c, w))
  {
    var folded := GroupsFolded(x, a, y, b, z, c, w);
    var left := [ParenOpen(1), Operation(a, 1, 2), x, y, ParenClose(3)];
    var right := [ParenOpen(1), Operation(c, 1, 2), z, w, ParenClose(3)];
    assert folded[..5] == left && folded[6..] == right;
    assert Settled(left) && Settled(right);
    SettledParse(left);
    SettledParse(right);
    MakeOpOf(folded, 5, b, left, right);
    GroupsMade(x, a, y, b, z, c, w);
  }

  lemma GroupsMultiplicative(x: MathValue, a: char, y: MathValue, b: char, z: MathValue, c: char, w: MathValue)
    requires x.Name? && y.Name? && z.Name? && w.Name? && b in "*/"
    ensures ParseOp(GroupsFolded(x, a, y, b, z, c, w), ['/', '*']) == Done(GroupsParsed(x, a, y, b, z, c, w))
  {
    var folded := GroupsFolded(x, a, y, b, z, c, w);
    ScanOpsPasses(folded, ['/', '*'], 5, 9);
    ScanOpsStops(folded, ['/', '*'], 5);
    GroupsSplit(x, a, y, b, z, c, w);
  }

  /** `(x a y) b (z c w)` for a multiplicative `b`. */
  lemma GroupsParse(x: MathValue, a: char, y: MathValue, b: char, z: MathValue, c: char, w: MathValue)
    requires x.Name? && y.Name? && z.Name? && w.Name?
    requires a in "+-*/" && b in "*/" && c in "+-*/"
    ensures MathParse(GroupsLine(x, a, y, b, z, c, w)) == Done(GroupsParsed(x, a, y, b, z, c, w))
  {
    var folded := GroupsFolded(x, a, y, b, z, c, w);
    GroupsParen(x, a, y, b, z, c, w);
    GroupsAdditive(x, a, y, b, z, c, w);
    GroupsMultiplicative(x, a, y, b, z, c, w);
    ParseThrough(GroupsLine(x, a, y, b, z, c, w), folded, folded, GroupsParsed(x, a, y, b, z, c, w));
  }

  /**
    `(1+2)*(3+4)`: each group becomes `ParenOpen(1)`, its parsed inside and
    `ParenClose(3)`; the left group's opening moves to the `*`'s slot.
   */
  lemma GroupsLayout()
    ensures MathParse([Operator('('), Name("1"), Operator('+'), Name("2"), Operator(')'), Operator('*'),
                       Operator('('), Name("3"), Operator('+'), Name("4"), Operator(')')])
         == Done([Operation('*', 5, 6), Operation('+', 1, 2), Name("1"), Name("2"), ParenClose(3), ParenOpen(-4),
                  ParenOpen(1), Operation('+', 1, 2), Name("3"), Name("4"), ParenClose(3)])
  {
    GroupsParse(Name("1"), '+', Name("2"), '*', Name("3"), '+', Name("4"));
  }

  /* ---------------------------- reading numbers ---------------------------- */

  /** `x a y b z` with `a` multiplicative and `b` additive: split on `b`, its left side on `a`. */
  function ChainParsed(x: MathValue, a: char, y: MathValue, b: char, z: MathValue): seq<MathValue> {
    [Operation(b, 3, 4), x, y, Operation(a, -2, -1), z]
  }

  lemma ChainMade(x: MathValue, a: char, y: MathValue, b: char, z: MathValue)
    requires x.Name?
    ensures Layout(b, [Operation(a, 1, 2), x, y], [z]) == ChainParsed(x, a, y, b, z)
  {
    var left := [Operation(a, 1, 2), x, y];
    assert left[1..] == [x, y];
  }

  lemma ChainSplit(x: MathValue, a: char, y: MathValue, b: char, z: MathValue)
    requires x.Name? && y.Name? && z.Name? && a in "*/"
    ensures MakeOp([x, Operator(a), y, Operator(b), z], 3, b) == Done(ChainParsed(x, a, y, b, z))
  {
    var line := [x, Operator(a), y, Operator(b), z];
    assert line[..3] == [x, Operator(a), y] && line[4..] == [z];
    BinaryParse(x, a, y);
    SingleParse(z);
    MakeOpOf(line, 3, b, [Operation(a, 1, 2), x, y], [z]);
    ChainMade(x, a, y, b, z);
  }

  lemma ChainAdditive(x: MathValue, a: char, y: MathValue, b: char, z: MathValue)
    requires x.Name? && y.Name? && z.Name? && a in "*/" && b in "+-"
    ensures ParseOp([x, Operator(a), y, Operator(b), z], ['+', '-']) == Done(ChainParsed(x, a, y, b, z))
  {
    ScanOpsStops([x, Operator(a), y, Operator(b), z], ['+', '-'], 3);
    ChainSplit(x, a, y, b, z);
  }

  lemma ChainSettled(x: MathValue, a: char, y: MathValue, b: char, z: MathValue)
    requires x.Name? && y.Name? && z.Name?
    ensures ParseOp(ChainParsed(x, a, y, b, z), ['/', '*']) == Done(ChainParsed(x, a, y, b, z))
  {
    assert Settled(ChainParsed(x, a, y, b, z));
    ParseOpSettled(ChainParsed(x, a, y, b, z), ['/', '*']);
  }

  lemma ChainParse(x: MathValue, a: char, y: MathValue, b: char, z: MathValue)
    requires x.Name? && y.Name? && z.Name? && a in "*/" && b in "+-"
    ensures MathParse([x, Operator(a), y, Operator(b), z]) == Done(ChainParsed(x, a, y, b, z))
  {
    var line := [x, Operator(a), y, Operator(b), z];
    assert NoParens(line);
    ParenParseIdle(line);
    ChainAdditive(x, a, y, b, z);
    ChainSettled(x, a, y, b, z);
    ParseThrough(line, line, ChainParsed(x, a, y, b, z), ChainParsed(x, a, y, b, z));
  }

  lemma ReadHundred()
    ensures NumberFromStringAsWritten("100") == Done(100)
  {
    assert Digits(100, 10) == "100" by {
      assert Digits(1, 10) == "1";
      assert Digits(10, 10) == "10";
    }
    DecimalNumberRoundTrip(100);
  }

  lemma ReadSixteen()
    ensures NumberFromStringAsWritten("0x10") == Done(16)
  {
    assert Digits(16, 16) == "10" by {
      assert Digits(1, 16) == "1";
    }
    HexNumberRoundTrip(16);
    AsciiAgrees("0x10");
  }

  lemma ReadDigit(d: nat)
    requires d < 10
    ensures NumberFromStringAsWritten([DIGIT_CHARS[d]]) == Done(d)
  {
    DecimalNumberRoundTrip(d);
  }

  lemma NumbersLexemes()
    ensures var ts := [Word("100"), Symbol('*'), Word("0x10"), Symbol('-'), Word("2")];
      Check(ts, 0) && Concat(ts) == "100*0x10-2"
  {
    NumbersCheck();
    NumbersSpells();
    SpellsSound([Word("100"), Symbol('*'), Word("0x10"), Symbol('-'), Word("2")], "100*0x10-2");
  }

  lemma NumbersCheck()
    ensures Check([Word("100"), Symbol('*'), Word("0x10"), Symbol('-'), Word("2")], 0)
  {
  }

  lemma NumbersSpells()
    ensures SpellsFrom([Word("100"), Symbol('*'), Word("0x10"), Symbol('-'), Word("2")], "100*0x10-2", 0, 0)
  {
  }

  lemma NumbersTokens()
    ensures MathToken("100*0x10-2") == [Name("100"), Operator('*'), Name("0x10"), Operator('-'), Name("2")]
  {
    NumbersLexemes();
    MathTokenOf("100*0x10-2", [Word("100"), Symbol('*'), Word("0x10"), Symbol('-'), Word("2")]);
  }

  lemma NumbersRead()
    ensures ReadNumbers([Operation('-', 3, 4), Name("100"), Name("0x10"), Operation('*', -2, -1), Name("2")])
         == Done([Operation('-', 3, 4), Value(100), Value(16), Operation('*', -2, -1), Value(2)])
  {
    ReadHundred();
    ReadSixteen();
    ReadDigit(2);
    assert [DIGIT_CHARS[2]] == "2";
    ReadNumbersGives([Operation('-', 3, 4), Name("100"), Name("0x10"), Operation('*', -2, -1), Name("2")],
                     [Operation('-', 3, 4), Value(100), Value(16), Operation('*', -2, -1), Value(2)]);
  }

  /** `100*0x10-2`: parsed, then every name read as a decimal or `0x` hexadecimal number. */
  lemma ReadingNumbersExample()
    ensures MathParse(MathToken("100*0x10-2"))
         == Done([Operation('-', 3, 4), Name("100"), Name("0x10"), Operation('*', -2, -1), Name("2")])
    ensures ReadNumbers([Operation('-', 3, 4), Name("100"), Name("0x10"), Operation('*', -2, -1), Name("2")])
         == Done([Operation('-', 3, 4), Value(100), Value(16), Operation('*', -2, -1), Value(2)])
  {
    NumbersTokens();
    ChainParse(Name("100"), '*', Name("0x10"), '-', Name("2"));
    NumbersRead();
  }

  lemma TotoLexemes()
    ensures var ts := [Word("toto"), Symbol('-'), Word("0x10")];
      Check(ts, 0) && Concat(ts) == "toto-0x10"
  {
    TotoCheck();
    TotoSpells();
    SpellsSound([Word("toto"), Symbol('-'), Word("0x10")], "toto-0x10");
  }

  lemma TotoCheck()
    ensures Check([Word("toto"), Symbol('-'), Word("0x10")], 0)
  {
  }

  lemma TotoSpells()
    ensures SpellsFrom([Word("toto"), Symbol('-'), Word("0x10")], "toto-0x10", 0, 0)
  {
  }

  lemma TotoTokens()
    ensures MathToken("toto-0x10") == [Name("toto"), Operator('-'), Name("0x10")]
  {
    TotoLexemes();
    MathTokenOf("toto-0x10", [Word("toto"), Symbol('-'), Word("0x10")]);
  }

  lemma TotoUnreadable()
    ensures NumberFromStringAsWritten("toto") == Failed("Unable to format toto into a number")
  {
    ByteLenAscii("toto");
    assert FromStrRadix("toto", 10).None? by {
      assert DigitValue('o', 10).None?;
    }
  }

  /** A line whose first name reads as no number stops with that name's message. */
  lemma FirstNameUnread(op: MathValue, x: MathValue, y: MathValue)
    requires !op.Name? && x.Name? && NumberFromStringAsWritten(x.text).Failed?
    ensures ReadNumbers([op, x, y]) == Failed(NumberFromStringAsWritten(x.text).message)
  {
    assert [op, x, y][1..] == [x, y];
  }

  /** `toto-0x10`: `toto` is no number, and its message names it. */
  lemma UnreadableExample()
    ensures MathParse(MathToken("toto-0x10")) == Done([Operation('-', 1, 2), Name("toto"), Name("0x10")])
    ensures ReadNumbers([Operation('-', 1, 2), Name("toto"), Name("0x10")])
         == Failed("Unable to format toto into a number")
  {
    TotoTokens();
    BinaryParse(Name("toto"), '-', Name("0x10"));
    TotoUnreadable();
    FirstNameUnread(Operation('-', 1, 2), Name("toto"), Name("0x10"));
  }

  /** `0x1`: a single hexadecimal digit is read as a decimal, which fails. */
  lemma ShortHexExample()
    ensures ReadNumbers([Name("0x1")]) == Failed("Unable to format 0x1 into a number")
  {
    ShortHexRejected();
  }

  /** `€12`: slicing at byte 2 falls inside the euro sign and the program panics. */
  lemma EuroExample()
    ensures ReadNumbers([Name("€12")]) == Aborted(Panic)
  {
    EuroTextPanics();
  }

  /* ---------------------------- named variables ---------------------------- */

  /** A direct variable and a chain of three, the last of which holds a number. */
  const CHAINED: map<string, string> :=
    map["direct_1" := "1", "indirect_3" := "2", "indirect_2" := "indirect_3", "indirect_1" := "indirect_2"]

  lemma ChainedEnds()
    ensures |CHAINED| == 4
    ensures ChainsEnd(CHAINED)
    ensures Chase(CHAINED, CHAINED["indirect_1"]) == "2"
    ensures Chase(CHAINED, CHAINED["direct_1"]) == "1"
  {
    var m := CHAINED;
    assert m.Keys == {"direct_1", "indirect_3", "indirect_2", "indirect_1"};
    assert |m.Keys| == 4;
    ChainedFollows();
  }

  /** Four steps from every key, and from the two numbers, end at a number. */
  lemma ChainedFollows()
    ensures Follow(CHAINED, "2", 4) == "2" && Follow(CHAINED, "1", 4) == "1"
    ensures Follow(CHAINED, "indirect_3", 4) == "2" && Follow(CHAINED, "indirect_2", 4) == "2"
    ensures Follow(CHAINED, "indirect_1", 4) == "2" && Follow(CHAINED, "direct_1", 4) == "1"
  {
    var m := CHAINED;
    assert Follow(m, "2", 4) == "2";
    assert Follow(m, "1", 4) == "1";
    assert Follow(m, "indirect_3", 4) == "2" by {
      assert Follow(m, "2", 3) == "2";
    }
    assert Follow(m, "indirect_2", 4) == "2" by {
      assert Follow(m, "indirect_3", 3) == "2" by {
        assert Follow(m, "2", 2) == "2";
      }
    }
    assert Follow(m, "indirect_1", 4) == "2" by {
      assert Follow(m, "indirect_2", 3) == "2" by {
        assert Follow(m, "indirect_3", 2) == "2" by {
          assert Follow(m, "2", 1) == "2";
        }
      }
    }
    assert Follow(m, "direct_1", 4) == "1" by {
      assert Follow(m, "1", 3) == "1";
    }
  }

  /**
    A name that is no key is left alone; a chain of names is followed to
    its end, and that end is read as a number.
   */
  lemma NamedVariablesExample()
    ensures ChainsEnd(CHAINED)
    ensures ReadNamedVariables([Name("3"), Name("indirect_1"), Name("direct_1")], Some(CHAINED))
         == Done([Name("3"), Value(2), Value(1)])
  {
    ChainedEnds();
    ReadDigit(2);
    ReadDigit(1);
    assert [DIGIT_CHARS[2]] == "2" && [DIGIT_CHARS[1]] == "1";
    assert "3" !in CHAINED;
    SubstituteGives([Name("3"), Name("indirect_1"), Name("direct_1")], CHAINED, [Name("3"), Value(2), Value(1)]);
  }

  /** Two names that refer to each other, and a third that holds a number. */
  const CYCLIC: map<string, string> := map["a" := "b", "b" := "a", "x" := "5"]

  /**
    A cycle elsewhere in the map does not stop the substitution of a name
    whose chain ends; a name on the cycle never gets a number.
   */
  lemma CycleElsewhere()
    ensures !ChainsEnd(CYCLIC)
    ensures ReadNamedVariables([Name("x")], Some(CYCLIC)) == Done([Value(5)])
    ensures ReadNamedVariables([Name("x"), Name("a")], Some(CYCLIC)) == Aborted(Diverge)
  {
    var m := CYCLIC;
    assert m.Keys == {"a", "b", "x"};
    assert |m| == 3;
    assert Follow(m, "a", 3) == "b" by {
      assert Follow(m, "b", 2) == "b" by {
        assert Follow(m, "a", 1) == "b";
      }
    }
    assert Chase(m, m["a"]) == "a" by {
      assert Follow(m, "b", 3) == "a" by {
        assert Follow(m, "a", 2) == "a" by {
          assert Follow(m, "b", 1) == "a";
        }
      }
    }
    ReadDigit(5);
    assert [DIGIT_CHARS[5]] == "5";
    assert Substituted(m, Name("x")) == Done(5);
    SubstituteGives([Name("x")], m, [Value(5)]);
    var both := [Name("x"), Name("a")];
    var r := ReadNamedVariables(both, Some(m));
    assert Substituted(m, Name("a")) == Aborted(Diverge);
    assert !r.Done?;
    var k :| 0 <= k < |both| && FirstUnmapped(both, m, k) && r == Substituted(m, both[k]).PropagateFailure();
    assert k == 1;
  }

  /* ------------------------------- evaluation ------------------------------- */

  lemma ValueComputes(v: i64)
    ensures MathFinalCompute([Value(v)]) == Done(v)
  {
  }

  /** One operation over two values evaluates to the operator applied to them. */
  lemma BinaryComputes(c: char, a: i64, b: i64)
    ensures MathFinalCompute([Operation(c, 1, 2), Value(a), Value(b)]) == Apply(c, a, b)
  {
    LayoutOfSingles(c, Value(a), Value(b));
    LayoutComputes(c, [Value(a)], [Value(b)], a, b);
  }

  /** A folded group on its own evaluates to its inside. */
  lemma GroupLineComputes(inside: seq<MathValue>, size: nat)
    requires MathFinalCompute(inside).Done?
    ensures MathFinalCompute([ParenOpen(1)] + inside + [ParenClose(size)]) == MathFinalCompute(inside)
  {
    var line := [ParenOpen(1)] + inside + [ParenClose(size)];
    GroupComputes([], inside, size, []);
    assert [] + [ParenOpen(1)] + inside + [ParenClose(size)] + [] == line;
    ComputeFuel(line, 0, |inside| + 1, |line|);
  }

  /* `(x a y) b z`: a group, then a multiplicative operator. */

  function GroupFirstLine(x: MathValue, a: char, y: MathValue, b: char, z: MathValue): seq<MathValue> {
    [Operator('('), x, Operator(a), y, Operator(')'), Operator(b), z]
  }

  function GroupFirstFolded(x: MathValue, a: char, y: MathValue, b: char, z: MathValue): seq<MathValue> {
    [ParenOpen(1), Operation(a, 1, 2), x, y, ParenClose(3), Operator(b), z]
  }

  function GroupFirstParsed(x: MathValue, a: char, y: MathValue, b: char, z: MathValue): seq<MathValue> {
    [Operation(b, 5, 6), Operation(a, 1, 2), x, y, ParenClose(3), ParenOpen(-4), z]
  }

  lemma GroupFirstParen(x: MathValue, a: char, y: MathValue, b: char, z: MathValue)
    requires x.Name? && y.Name? && z.Name? && a in "+-*/" && b in "*/"
    ensures ParenParse(GroupFirstLine(x, a, y, b, z)) == Done(GroupFirstFolded(x, a, y, b, z))
  {
    GroupFirstFold(x, a, y, b, z);
    ParenLoopIdle(GroupFirstFolded(x, a, y, b, z), 5, 0);
  }

  lemma GroupFirstFold(x: MathValue, a: char, y: MathValue, b: char, z: MathValue)
    requires x.Name? && y.Name? && a in "+-*/"
    ensures ParenLoop(GroupFirstLine(x, a, y, b, z), 0, 0, 0) == ParenLoop(GroupFirstFolded(x, a, y, b, z), 5, 0, 0)
  {
    GroupFirstPieces(x, a, y, b, z);
    InsideFoldsAt(GroupFirstLine(x, a, y, b, z), 0, 4, x, a, y, GroupFirstFolded(x, a, y, b, z));
    GroupFoldsTo(GroupFirstLine(x, a, y, b, z), 0, 4, 0, [Operation(a, 1, 2), x, y], GroupFirstFolded(x, a, y, b, z));
  }

  lemma GroupFirstPieces(x: MathValue, a: char, y: MathValue, b: char, z: MathValue)
    ensures GroupFirstLine(x, a, y, b, z)[1..4] == [x, Operator(a), y]
    ensures var line := GroupFirstLine(x, a, y, b, z);
      line[..0] + [ParenOpen(1)] + [Operation(a, 1, 2), x, y] + [ParenClose(3)] + line[5..] == GroupFirstFolded(x, a, y, b, z)
  {
  }

  lemma GroupFirstAdditive(x: MathValue, a: char, y: MathValue, b: char, z: MathValue)
    requires x.Name? && y.Name? && z.Name? && b in "*/"
    ensures ParseOp(GroupFirstFolded(x, a, y, b, z), ['+', '-']) == Done(GroupFirstFolded(x, a, y, b, z))
  {
    var folded := GroupFirstFolded(x, a, y, b, z);
    ScanOpsPasses(folded, ['+', '-'], 4, 5);
    ScanOpsJumps(folded, ['+', '-'], 4);
    ScanOpsPasses(folded, ['+', '-'], 0, 1);
  }

  lemma GroupFirstMade(x: MathValue, a: char, y: MathValue, b: char, z: MathValue)
    ensures Layout(b, [ParenOpen(1), Operation(a, 1, 2), x, y, ParenClose(3)], [z]) == GroupFirstParsed(x, a, y, b, z)
  {
    var left := [ParenOpen(1), Operation(a, 1, 2), x, y, ParenClose(3)];
    assert left[1..] == [Operation(a, 1, 2), x, y, ParenClose(3)];
  }

  lemma GroupFirstMultiplicative(x: MathValue, a: char, y: MathValue, b: char, z: MathValue)
    requires x.Name? && y.Name? && z.Name? && b in "*/"
    ensures ParseOp(GroupFirstFolded(x, a, y, b, z), ['/', '*']) == Done(GroupFirstParsed(x, a, y, b, z))
  {
    var folded := GroupFirstFolded(x, a, y, b, z);
    var left := [ParenOpen(1), Operation(a, 1, 2), x, y, ParenClose(3)];
    ScanOpsStops(folded, ['/', '*'], 5);
    assert folded[..5] == left && folded[6..] == [z];
    assert Settled(left);
    SettledParse(left);
    SingleParse(z);
    MakeOpOf(folded, 5, b, left, [z]);
    GroupFirstMade(x, a, y, b, z);
  }

  lemma GroupFirstParse(x: MathValue, a: char, y: MathValue, b: char, z: MathValue)
    requires x.Name? && y.Name? && z.Name? && a in "+-*/" && b in "*/"
    ensures MathParse(GroupFirstLine(x, a, y, b, z)) == Done(GroupFirstParsed(x, a, y, b, z))
  {
    var folded := GroupFirstFolded(x, a, y, b, z);
    GroupFirstParen(x, a, y, b, z);
    GroupFirstAdditive(x, a, y, b, z);
    GroupFirstMultiplicative(x, a, y, b, z);
    ParseThrough(GroupFirstLine(x, a, y, b, z), folded, folded, GroupFirstParsed(x, a, y, b, z));
  }

  /** The values of `(p a q) b r` evaluate to `a` applied first, then `b`. */
  lemma GroupFirstComputes(p: i64, a: char, q: i64, b: char, r: i64, inner: i64)
    requires Apply(a, p, q) == Done(inner)
    ensures MathFinalCompute(GroupFirstParsed(Value(p), a, Value(q), b, Value(r))) == Apply(b, inner, r)
  {
    var inside := [Operation(a, 1, 2), Value(p), Value(q)];
    var left := [ParenOpen(1)] + inside + [ParenClose(3)];
    BinaryComputes(a, p, q);
    GroupLineComputes(inside, 3);
    GroupFirstMade(Value(p), a, Value(q), b, Value(r));
    assert left == [ParenOpen(1), Operation(a, 1, 2), Value(p), Value(q), ParenClose(3)];
    LayoutComputes(b, left, [Value(r)], inner, r);
  }

  lemma DifferenceLexemes()
    ensures var ts := [Symbol('('), Word("3"), Symbol('-'), Word("5"), Symbol(')'), Symbol('*'), Word("4")];
      Check(ts, 0) && Concat(ts) == "(3-5)*4"
  {
    DifferenceCheck();
    DifferenceSpells();
    SpellsSound([Symbol('('), Word("3"), Symbol('-'), Word("5"), Symbol(')'), Symbol('*'), Word("4")], "(3-5)*4");
  }

  lemma DifferenceCheck()
    ensures Check([Symbol('('), Word("3"), Symbol('-'), Word("5"), Symbol(')'), Symbol('*'), Word("4")], 0)
  {
  }

  lemma DifferenceSpells()
    ensures SpellsFrom([Symbol('('), Word("3"), Symbol('-'), Word("5"), Symbol(')'), Symbol('*'), Word("4")], "(3-5)*4", 0, 0)
  {
  }

  lemma DifferenceTokens()
    ensures MathToken("(3-5)*4") == GroupFirstLine(Name("3"), '-', Name("5"), '*', Name("4"))
  {
    DifferenceLexemes();
    MathTokenOf("(3-5)*4", [Symbol('('), Word("3"), Symbol('-'), Word("5"), Symbol(')'), Symbol('*'), Word("4")]);
  }

  lemma DifferenceRead()
    ensures ReadNumbers(GroupFirstParsed(Name("3"), '-', Name("5"), '*', Name("4")))
         == Done(GroupFirstParsed(Value(3), '-', Value(5), '*', Value(4)))
  {
    ReadDigit(3);
    ReadDigit(5);
    ReadDigit(4);
    assert [DIGIT_CHARS[3]] == "3" && [DIGIT_CHARS[5]] == "5" && [DIGIT_CHARS[4]] == "4";
    ReadNumbersGives(GroupFirstParsed(Name("3"), '-', Name("5"), '*', Name("4")),
                     GroupFirstParsed(Value(3), '-', Value(5), '*', Value(4)));
  }

  lemma DifferenceParsed()
    ensures MathParse(MathToken("(3-5)*4")) == Done(GroupFirstParsed(Name("3"), '-', Name("5"), '*', Name("4")))
  {
    DifferenceTokens();
    GroupFirstParse(Name("3"), '-', Name("5"), '*', Name("4"));
  }

  lemma DifferenceValue()
    ensures MathFinalCompute(GroupFirstParsed(Value(3), '-', Value(5), '*', Value(4))) == Done(-8)
  {
    assert Apply('-', 3, 5) == Done(-2);
    GroupFirstComputes(3, '-', 5, '*', 4, -2);
    assert Apply('*', -2, 4) == Done(-8);
  }

  /** `(3-5)*4`: tokenized, parsed, read and evaluated, it is `-8`. */
  lemma FinalComputeExample()
    ensures MathParse(MathToken("(3-5)*4")).Done?
    ensures ReadNumbers(MathParse(MathToken("(3-5)*4")).value).Done?
    ensures MathFinalCompute(ReadNumbers(MathParse(MathToken("(3-5)*4")).value).value) == Done(-8)
  {
    DifferenceParsed();
    DifferenceRead();
    DifferenceValue();
  }

  /** `0` evaluates to `0` under any variables that do not name `0` itself. */
  lemma ZeroExample(vars: Option<map<string, string>>)
    requires vars.Some? ==> "0" !in vars.value
    ensures MathCompute("0", vars) == Done(0)
  {
    ZeroTokens();
    SingleParse(Name("0"));
    ZeroNamed(vars);
    ZeroNumber();
  }

  lemma ZeroTokens()
    ensures MathToken("0") == [Name("0")]
  {
    assert Check([Word("0")], 0) && Concat([Word("0")]) == "0";
    MathTokenOf("0", [Word("0")]);
  }

  lemma ZeroNamed(vars: Option<map<string, string>>)
    requires vars.Some? ==> "0" !in vars.value
    ensures ReadNamedVariables([Name("0")], vars) == Done([Name("0")])
  {
    var r := ReadNamedVariables([Name("0")], vars);
    assert r.Done?;
    assert r.value[0] == Name("0");
    assert r.value == [Name("0")];
  }

  lemma ZeroNumber()
    ensures ReadNumbers([Name("0")]) == Done([Value(0)])
    ensures MathFinalCompute([Value(0)]) == Done(0)
  {
    ReadDigit(0);
    assert [DIGIT_CHARS[0]] == "0";
    assert NumberFromStringAsWritten("0") == Done(0);
    var r := ReadNumbers([Name("0")]);
    assert r.Done?;
    assert r.value[0] == Value(0);
    assert r.value == [Value(0)];
    ValueComputes(0);
  }
  /* `1-(+)`: a line `math_parse` accepts whose tree is not a tree. The `+`
     inside the group is the scan's first stop, so the group's end becomes
     the right side and `ParenOpen` points back at the `-`, which points at
     it again: `math_compute_index` goes 3, 2, 3, ... until the stack runs out. */

  function CycleFolded(x: MathValue): seq<MathValue> {
    [x, Operator('-'), ParenOpen(1), Operator('+'), ParenClose(1)]
  }

  function CycleParsed(x: MathValue): seq<MathValue> {
    [Operation('+', 3, 4), x, ParenOpen(1), Operation('-', -2, -1), ParenClose(1)]
  }

  lemma CycleLexemes()
    ensures var ts := [Word("1"), Symbol('-'), Symbol('('), Symbol('+'), Symbol(')')];
      Check(ts, 0) && Concat(ts) == "1-(+)"
  {
    CycleCheck();
    CycleSpells();
    SpellsSound([Word("1"), Symbol('-'), Symbol('('), Symbol('+'), Symbol(')')], "1-(+)");
  }

  lemma CycleCheck()
    ensures Check([Word("1"), Symbol('-'), Symbol('('), Symbol('+'), Symbol(')')], 0)
  {
  }

  lemma CycleSpells()
    ensures SpellsFrom([Word("1"), Symbol('-'), Symbol('('), Symbol('+'), Symbol(')')], "1-(+)", 0, 0)
  {
  }

  lemma CycleTokens()
    ensures MathToken("1-(+)") == [Name("1"), Operator('-'), Operator('('), Operator('+'), Operator(')')]
  {
    CycleLexemes();
    MathTokenOf("1-(+)", [Word("1"), Symbol('-'), Symbol('('), Symbol('+'), Symbol(')')]);
  }

  /** The group holds a lone `+`, which parses to itself. */
  lemma CycleParen(x: MathValue)
    requires x.Name?
    ensures ParenParse([x, Operator('-'), Operator('('), Operator('+'), Operator(')')]) == Done(CycleFolded(x))
  {
    var line := [x, Operator('-'), Operator('('), Operator('+'), Operator(')')];
    assert line[3..4] == [Operator('+')];
    assert NoParens([Operator('+')]);
    NoParensBalanced([Operator('+')]);
    SingleParse(Operator('+'));
    assert line[..2] + [ParenOpen(1)] + [Operator('+')] + [ParenClose(1)] + line[5..] == CycleFolded(x);
    GroupFoldsTo(line, 2, 4, 0, [Operator('+')], CycleFolded(x));
    assert ParenLoop(line, 0, 0, 0) == ParenLoop(line, 2, 0, 0);
  }

  /** The additive scan stops at once, on the `+` inside the group. */
  lemma CycleScan(x: MathValue)
    ensures ParseOp(CycleFolded(x), ['+', '-']) == MakeOp(CycleFolded(x), 3, '+')
  {
    ScanOpsStops(CycleFolded(x), ['+', '-'], 3);
  }

  /** The left side `x - ParenOpen(1)` is one subtraction. */
  lemma CycleLeft(x: MathValue)
    requires x.Name?
    ensures MathParse([x, Operator('-'), ParenOpen(1)]) == Done([Operation('-', 1, 2), x, ParenOpen(1)])
  {
    BinaryParse(x, '-', ParenOpen(1));
    assert Rebase(x, 1) == x;
  }

  lemma CycleLayout(x: MathValue)
    ensures Layout('+', [Operation('-', 1, 2), x, ParenOpen(1)], [ParenClose(1)]) == CycleParsed(x)
  {
    var left := [Operation('-', 1, 2), x, ParenOpen(1)];
    assert left[1..] == [x, ParenOpen(1)];
  }

  /** Split there, the right side is the group's end alone. */
  lemma CycleSplit(x: MathValue)
    requires x.Name?
    ensures MakeOp(CycleFolded(x), 3, '+') == Done(CycleParsed(x))
  {
    var line := CycleFolded(x);
    assert line[..3] == [x, Operator('-'), ParenOpen(1)] && line[4..] == [ParenClose(1)];
    CycleLeft(x);
    SingleParse(ParenClose(1));
    MakeOpOf(line, 3, '+', [Operation('-', 1, 2), x, ParenOpen(1)], [ParenClose(1)]);
    CycleLayout(x);
  }

  lemma CycleAdditive(x: MathValue)
    requires x.Name?
    ensures ParseOp(CycleFolded(x), ['+', '-']) == Done(CycleParsed(x))
  {
    CycleScan(x);
    CycleSplit(x);
  }

  lemma CycleSettled(x: MathValue)
    requires x.Name?
    ensures ParseOp(CycleParsed(x), ['/', '*']) == Done(CycleParsed(x))
  {
    assert Settled(CycleParsed(x));
    ParseOpSettled(CycleParsed(x), ['/', '*']);
  }

  lemma CycleLineParse(x: MathValue)
    requires x.Name?
    ensures MathParse([x, Operator('-'), Operator('('), Operator('+'), Operator(')')]) == Done(CycleParsed(x))
  {
    CycleParen(x);
    CycleAdditive(x);
    CycleSettled(x);
    ParseThrough([x, Operator('-'), Operator('('), Operator('+'), Operator(')')], CycleFolded(x), CycleParsed(x), CycleParsed(x));
  }

  lemma CycleParse()
    ensures MathParse(MathToken("1-(+)")) == Done(CycleParsed(Name("1")))
  {
    CycleTokens();
    CycleLineParse(Name("1"));
  }

  lemma CycleRead()
    ensures ReadNumbers(CycleParsed(Name("1"))) == Done(CycleParsed(Value(1)))
  {
    ReadDigit(1);
    assert [DIGIT_CHARS[1]] == "1";
    ReadNumbersGives(CycleParsed(Name("1")), CycleParsed(Value(1)));
  }

  /** Index 2 leads to 3 and 3 back to 2: whatever the fuel, the evaluation runs out of it. */
  lemma {:induction false} CycleRuns(fuel: nat)
    ensures Compute(CycleParsed(Value(1)), 3, fuel) == Aborted(Diverge)
    ensures Compute(CycleParsed(Value(1)), 2, fuel) == Aborted(Diverge)
    decreases fuel
  {
    var line := CycleParsed(Value(1));
    if fuel > 0 {
      CycleRuns(fuel - 1);
      if fuel > 1 {
        assert Compute(line, 1, fuel - 1) == Done(1);
      }
    }
  }

  /** `1-(+)` parses, but its evaluation never reaches a value: the program's recursion overflows the stack. */
  lemma CycleExample()
    ensures MathParse(MathToken("1-(+)")) == Done([Operation('+', 3, 4), Name("1"), ParenOpen(1), Operation('-', -2, -1), ParenClose(1)])
    ensures MathCompute("1-(+)", None) == Aborted(Diverge)
  {
    CycleParse();
    CycleRead();
    CycleValue();
  }

  /** From the root, the `+` evaluates its left side at index 3 first, and that never ends. */
  lemma CycleValue()
    ensures MathFinalCompute(CycleParsed(Value(1))) == Aborted(Diverge)
  {
    CycleRuns(4);
  }
}
