/**
  Worked examples of the parser: the layouts and the errors of the
  repository's own parser tests, derived through small evaluation lemmas for
  each pass.
 */
module ParseExamples {
  import opened Errors
  import opened Lexer
  import opened Spelling
  import opened Tokenize
  import opened TokenizeExamples
  import opened Parse
  import opened ParseFacts

  /* ---------------------------- evaluating passes ---------------------------- */

  /** The unary rule checked position by position, carrying the operand-position flag. */
  function UnaryMatchesFrom(line: seq<MathValue>, out: seq<MathValue>, i: nat, previous: bool): bool
    requires |out| == |line|
    decreases |line| - i
  {
    i >= |line| ||
    (UnaryStep(line[i], previous) == Ok(out[i]) && UnaryMatchesFrom(line, out, i + 1, FlagAfter(line[i], previous)))
  }

  lemma {:induction false} UnaryMatchesSound(line: seq<MathValue>, out: seq<MathValue>, i: nat)
    requires |out| == |line| && i <= |line|
    requires UnaryMatchesFrom(line, out, i, PrevOperator(line, i))
    ensures forall j :: i <= j < |line| ==> UnaryStep(line[j], PrevOperator(line, j)) == Ok(out[j])
    decreases |line| - i
  {
    if i < |line| {
      assert PrevOperator(line, i + 1) == FlagAfter(line[i], PrevOperator(line, i));
      UnaryMatchesSound(line, out, i + 1);
    }
  }

  lemma UnaryParseOf(line: seq<MathValue>, out: seq<MathValue>)
    requires |out| == |line| && UnaryMatchesFrom(line, out, 0, true)
    ensures UnaryParse(line) == Ok(out)
  {
    UnaryMatchesSound(line, out, 0);
    UnaryParseIsPointwise(line);
    assert forall j :: 0 <= j < |line| ==> UnaryStep(line[j], PrevOperator(line, j)).Ok?;
    var r := UnaryParse(line).value;
    forall j | 0 <= j < |line| ensures r[j] == out[j] {
      assert Ok(r[j]) == UnaryStep(line[j], PrevOperator(line, j)) == Ok(out[j]);
    }
    assert r == out;
  }

  lemma ParenParseNoParens(line: seq<MathValue>)
    requires Operator('(') !in line && Operator(')') !in line
    ensures ParenParse(line) == Ok(line)
  {
    SingleParenParseCases(line);
  }

  /** One fold of the innermost group closed by the first `)`. */
  lemma ParenParseFolds(line: seq<MathValue>, o: nat, c: nat, inside: seq<MathValue>)
    requires o < c < |line| && line[o] == Operator('(') && line[c] == Operator(')')
    requires Operator(')') !in line[..c] && Operator('(') !in line[o + 1..c]
    requires AllButParenParse(line[o + 1..c]) == Ok(inside)
    ensures ParenParse(line) == ParenParse(line[..o] + [ParenOpen(1)] + inside + [ParenClose(c - o - 1)] + line[c + 1..])
  {
    SingleParenParseCases(line);
  }

  /** The innermost group closed by the first `)` fails to parse, and so does the line. */
  lemma ParenParseFailsInside(line: seq<MathValue>, o: nat, c: nat, e: MathParseError)
    requires o < c < |line| && line[o] == Operator('(') && line[c] == Operator(')')
    requires Operator(')') !in line[..c] && Operator('(') !in line[o + 1..c]
    requires AllButParenParse(line[o + 1..c]) == Err(e)
    ensures ParenParse(line) == Err(e)
  {
    SingleParenParseCases(line);
  }

  /** The group `line[o..c + 1]` holds `part`, which parses to `inside`, and folding it gives `folded`. */
  predicate FoldableAt(line: seq<MathValue>, o: nat, c: nat, part: seq<MathValue>, inside: seq<MathValue>, folded: seq<MathValue>) {
    && o < c < |line| && line[o] == Operator('(') && line[c] == Operator(')')
    && line[o + 1..c] == part
    && Operator(')') !in line[..c] && Operator('(') !in part
    && AllButParenParse(part) == Ok(inside)
    && folded == line[..o] + [ParenOpen(1)] + inside + [ParenClose(c - o - 1)] + line[c + 1..]
  }

  /** The same fold, with the folded line named. */
  lemma ParenParseFoldsTo(line: seq<MathValue>, o: nat, c: nat, part: seq<MathValue>, inside: seq<MathValue>, folded: seq<MathValue>)
    requires FoldableAt(line, o, c, part, inside, folded)
    ensures ParenParse(line) == ParenParse(folded)
  {
    ParenParseFolds(line, o, c, inside);
  }

  /** No tier below `k` has an operator exposed in the block. */
  function NoneBelow(line: seq<MathValue>, range: IndexRange, k: nat): bool
    requires range.from + 2 <= range.to <= |line| && k <= |TIERS|
  {
    k == 0 || (NoneBelow(line, range, k - 1) && ScanFrom(line, TIERS[k - 1], range.from, range.to - 2).None?)
  }

  lemma {:induction false} TierLoopFrom(line: seq<MathValue>, k: nat, range: IndexRange, tasks: seq<ParseStep>)
    requires range.from + 2 <= range.to <= |line| && k <= |TIERS|
    requires ValidTasks(tasks, |line|)
    requires NoneBelow(line, range, k)
    ensures TierLoop(line, TIERS, range, tasks) == TierLoop(line, TIERS[k..], range, tasks)
  {
    if k > 0 {
      TierLoopFrom(line, k - 1, range, tasks);
      assert TIERS[k - 1..][0] == TIERS[k - 1];
      assert TIERS[k - 1..][1..] == TIERS[k..];
    }
  }

  /** A block whose loosest exposed operator is `i`, of tier `k`. */
  lemma BlockSplitsAt(line: seq<MathValue>, range: IndexRange, tasks: seq<ParseStep>, k: nat, i: nat)
    requires range.from + 2 <= range.to <= |line| && k < |TIERS|
    requires ValidTasks(tasks, |line|)
    requires NoneBelow(line, range, k) && ScanFrom(line, TIERS[k], range.from, range.to - 2) == Some(i)
    ensures SolveBlock(line, range, tasks) == Ok(MakeTasksFromOp(range, i, tasks))
  {
    TierLoopFrom(line, k, range, tasks);
    assert TIERS[k..][0] == TIERS[k];
  }

  /** A block with no exposed operator of any tier is left as it is. */
  lemma BlockStays(line: seq<MathValue>, range: IndexRange, tasks: seq<ParseStep>)
    requires range.from + 2 <= range.to <= |line|
    requires ValidTasks(tasks, |line|)
    requires NoneBelow(line, range, |TIERS|)
    ensures SolveBlock(line, range, tasks) == Ok(tasks)
  {
    TierLoopFrom(line, |TIERS|, range, tasks);
  }

  lemma {:induction false} NarrowNoneBelow(line: seq<MathValue>, range: IndexRange, k: nat)
    requires range.from + 2 == range.to <= |line| && k <= |TIERS|
    ensures NoneBelow(line, range, k)
  {
    if k > 0 { NarrowNoneBelow(line, range, k - 1); }
  }

  /** A block of two elements has an empty scan window. */
  lemma NarrowBlock(line: seq<MathValue>, range: IndexRange, tasks: seq<ParseStep>)
    requires range.from + 2 == range.to <= |line|
    requires ValidTasks(tasks, |line|)
    ensures SolveBlock(line, range, tasks) == Ok(tasks)
  {
    NarrowNoneBelow(line, range, |TIERS|);
    BlockStays(line, range, tasks);
  }

  /** A block of one element other than the sentinel is a leaf. */
  lemma LeafBlock(line: seq<MathValue>, range: IndexRange, tasks: seq<ParseStep>)
    requires range.from + 1 == range.to <= |line| && line[range.from] != TrailingError
    requires ValidTasks(tasks, |line|)
    ensures SolveBlock(line, range, tasks) == Ok(tasks)
  {
  }

  /** The empty task stack; stacks below are written as appends to it. */
  const NO_TASKS: seq<ParseStep> := []

  lemma AllButParenParseStart(line: seq<MathValue>)
    ensures AllButParenParse(line) == SolveTasks(line, NO_TASKS + [BlockSolving(IndexRange(0, |line|))])
  {
    assert NO_TASKS + [BlockSolving(IndexRange(0, |line|))] == [BlockSolving(IndexRange(0, |line|))];
  }

  /** Popping a block task replaces it with what solving the block pushes. */
  lemma PopBlock(line: seq<MathValue>, rest: seq<ParseStep>, range: IndexRange, after: seq<ParseStep>)
    requires range.from <= range.to <= |line| && ValidTasks(rest, |line|)
    requires SolveBlock(line, range, rest) == Ok(after)
    ensures ValidTasks(rest + [BlockSolving(range)], |line|)
    ensures SolveTasks(line, rest + [BlockSolving(range)]) == SolveTasks(line, after)
  {
    ValidTasksAppend(rest, [BlockSolving(range)], |line|);
    assert (rest + [BlockSolving(range)])[..|rest|] == rest;
  }

  /** A block that fails ends the whole run with its error. */
  lemma PopFailingBlock(line: seq<MathValue>, rest: seq<ParseStep>, range: IndexRange, e: MathParseError)
    requires range.from <= range.to <= |line| && ValidTasks(rest, |line|)
    requires SolveBlock(line, range, rest) == Err(e)
    ensures ValidTasks(rest + [BlockSolving(range)], |line|)
    ensures SolveTasks(line, rest + [BlockSolving(range)]) == Err(e)
  {
    ValidTasksAppend(rest, [BlockSolving(range)], |line|);
    assert (rest + [BlockSolving(range)])[..|rest|] == rest;
  }

  /** Popping an operator task applies `make_op` to the line. */
  lemma PopOperator(line: seq<MathValue>, rest: seq<ParseStep>, range: IndexRange, index: nat, next: seq<MathValue>)
    requires range.from < index < range.to <= |line| && ValidTasks(rest, |line|)
    requires MakeOp(line, range, index) == Ok(next)
    ensures ValidTasks(rest + [OperatorReading(range, index)], |line|)
    ensures SolveTasks(line, rest + [OperatorReading(range, index)]) == SolveTasks(next, rest)
  {
    ValidTasksAppend(rest, [OperatorReading(range, index)], |line|);
    assert (rest + [OperatorReading(range, index)])[..|rest|] == rest;
  }

  lemma NoneBelowStep(line: seq<MathValue>, range: IndexRange, k: nat)
    requires range.from + 2 <= range.to <= |line| && k < |TIERS|
    requires NoneBelow(line, range, k) && ScanFrom(line, TIERS[k], range.from, range.to - 2).None?
    ensures NoneBelow(line, range, k + 1)
  {
  }

  /** `make_op` for an operator a short distance into its range. */
  lemma MakeOpNear(line: seq<MathValue>, range: IndexRange, index: nat)
    requires range.from < index < |line| && line[index].Operator? && index - range.from < 100
    ensures MakeOp(line, range, index)
         == Ok(line[range.from := Operation(line[index].c, index - range.from, index - range.from + 1)]
                   [index := Shift(line[range.from], index - range.from)])
  {
  }

  /** `make_op` at `index` writes the operation at the block's start and the shifted header `header` at `index`, giving `next`. */
  predicate MakesOpAt(line: seq<MathValue>, range: IndexRange, index: nat, c: char, header: MathValue, next: seq<MathValue>) {
    && range.from < index < |line| && line[index] == Operator(c) && index - range.from < 100
    && header == Shift(line[range.from], index - range.from)
    && next == line[range.from := Operation(c, index - range.from, index - range.from + 1)][index := header]
  }

  /** `make_op` with the resulting line named. */
  lemma MakeOpTo(line: seq<MathValue>, range: IndexRange, index: nat, c: char, header: MathValue, next: seq<MathValue>)
    requires MakesOpAt(line, range, index, c, header, next)
    ensures MakeOp(line, range, index) == Ok(next)
  {
    MakeOpNear(line, range, index);
  }

  /** A lone name needs no parsing. */
  lemma SingleName(x: string)
    ensures AllButParenParse([Name(x)]) == Ok([Name(x)])
  {
    AllButParenParseStart([Name(x)]);
    LeafBlock([Name(x)], IndexRange(0, 1), NO_TASKS);
    PopBlock([Name(x)], NO_TASKS, IndexRange(0, 1), NO_TASKS);
  }

  lemma SumGroupSplit(a: string, b: string)
    ensures SolveBlock([Name(a), Operator('+'), Name(b)], IndexRange(0, 3), NO_TASKS)
         == Ok(MakeTasksFromOp(IndexRange(0, 3), 1, NO_TASKS))
  {
    var line := [Name(a), Operator('+'), Name(b)];
    var whole := IndexRange(0, 3);
    NoneBelowStep(line, whole, 0);
    NoneBelowStep(line, whole, 1);
    NoneBelowStep(line, whole, 2);
    NoneBelowStep(line, whole, 3);
    BlockSplitsAt(line, whole, NO_TASKS, 4, 1);
  }

  /** `a+b` inside a group: the operation heads the group, the operands follow it. */
  lemma SumGroup(a: string, b: string)
    ensures AllButParenParse([Name(a), Operator('+'), Name(b)]) == Ok([Operation('+', 1, 2), Name(a), Name(b)])
  {
    var line := [Name(a), Operator('+'), Name(b)];
    var tree := [Operation('+', 1, 2), Name(a), Name(b)];
    var whole := IndexRange(0, 3);
    var s1 := NO_TASKS + [OperatorReading(whole, 1)];
    var s2 := s1 + [BlockSolving(IndexRange(0, 1))];
    AllButParenParseStart(line);
    SumGroupSplit(a, b);
    PopBlock(line, NO_TASKS, whole, s2 + [BlockSolving(IndexRange(2, 3))]);
    LeafBlock(line, IndexRange(2, 3), s2);
    PopBlock(line, s2, IndexRange(2, 3), s2);
    LeafBlock(line, IndexRange(0, 1), s1);
    PopBlock(line, s1, IndexRange(0, 1), s1);
    MakeOpNear(line, whole, 1);
    assert line[0 := Operation('+', 1, 2)][1 := Name(a)] == tree;
    PopOperator(line, NO_TASKS, whole, 1, tree);
  }

  /* ----------------------------------- +88+89 ----------------------------------- */

  const PLUS_TOKENS := [Operator('+'), Name("88"), Operator('+'), Name("89"), TrailingError]
  const PLUS_TAGGED := [UnaryOperation('+', 1), Name("88"), Operator('+'), Name("89"), TrailingError]
  const PLUS_TREE := [Operation('+', 2, 3), Name("88"), UnaryOperation('+', -1), Name("89"), TrailingError]

  lemma PlusTokens()
    ensures MathToken("+88+89") == PLUS_TOKENS
  {
    var ts := [Symbol('+'), Word("88"), Symbol('+'), Word("89")];
    PlusChecked();
    PlusSpelled(ts);
    LiftedAs(ts, PLUS_TOKENS);
    MathTokenPlain("+88+89", ts);
  }

  lemma PlusChecked()
    ensures var ts := [Symbol('+'), Word("88"), Symbol('+'), Word("89")];
      CheckFrom(ts, 0) && NoPairFrom(ts, 0)
  {
    WordFromAll("88", 0);
    WordFromAll("89", 0);
  }

  lemma PlusSpelled(ts: seq<Lexeme>)
    requires ts == [Symbol('+'), Word("88"), Symbol('+'), Word("89")]
    ensures Concat(ts) == "+88+89"
  {
    ConcatCons(Word("89"), []);
    ConcatCons(Symbol('+'), [Word("89")] + []);
    ConcatCons(Word("88"), [Symbol('+')] + ([Word("89")] + []));
    ConcatCons(Symbol('+'), [Word("88")] + ([Symbol('+')] + ([Word("89")] + [])));
    assert ts == [Symbol('+')] + ([Word("88")] + ([Symbol('+')] + ([Word("89")] + [])));
    assert "+" + ("88" + ("+" + ("89" + ""))) == "+88+89";
  }

  lemma PlusFirstPasses()
    ensures UnaryParse(PLUS_TOKENS) == Ok(PLUS_TAGGED)
    ensures ParenParse(PLUS_TAGGED) == Ok(PLUS_TAGGED)
  {
    UnaryParseOf(PLUS_TOKENS, PLUS_TAGGED);
    ParenParseNoParens(PLUS_TAGGED);
  }

  const PLUS_S1 := NO_TASKS + [OperatorReading(IndexRange(0, 5), 2)]
  const PLUS_S2 := PLUS_S1 + [BlockSolving(IndexRange(0, 2))]

  lemma PlusSplit()
    ensures SolveTasks(PLUS_TAGGED, NO_TASKS + [BlockSolving(IndexRange(0, 5))])
         == SolveTasks(PLUS_TAGGED, PLUS_S2 + [BlockSolving(IndexRange(3, 5))])
  {
    BlockSplitsAt(PLUS_TAGGED, IndexRange(0, 5), NO_TASKS, 4, 2);
    PopBlock(PLUS_TAGGED, NO_TASKS, IndexRange(0, 5), PLUS_S2 + [BlockSolving(IndexRange(3, 5))]);
  }

  lemma PlusOperands()
    ensures SolveTasks(PLUS_TAGGED, PLUS_S2 + [BlockSolving(IndexRange(3, 5))]) == SolveTasks(PLUS_TAGGED, PLUS_S1)
  {
    NarrowBlock(PLUS_TAGGED, IndexRange(3, 5), PLUS_S2);
    PopBlock(PLUS_TAGGED, PLUS_S2, IndexRange(3, 5), PLUS_S2);
    NarrowBlock(PLUS_TAGGED, IndexRange(0, 2), PLUS_S1);
    PopBlock(PLUS_TAGGED, PLUS_S1, IndexRange(0, 2), PLUS_S1);
  }

  lemma PlusRoot()
    ensures SolveTasks(PLUS_TAGGED, PLUS_S1) == Ok(PLUS_TREE)
  {
    MakeOpNear(PLUS_TAGGED, IndexRange(0, 5), 2);
    assert PLUS_TAGGED[0 := Operation('+', 2, 3)][2 := UnaryOperation('+', -1)] == PLUS_TREE;
    PopOperator(PLUS_TAGGED, NO_TASKS, IndexRange(0, 5), 2, PLUS_TREE);
  }

  lemma PlusTasks()
    ensures AllButParenParse(PLUS_TAGGED) == Ok(PLUS_TREE)
  {
    AllButParenParseStart(PLUS_TAGGED);
    PlusSplit();
    PlusOperands();
    PlusRoot();
  }

  /** `+88+89`: the leading `+` is unary; the binary `+` becomes the root. */
  lemma PlusExample()
    ensures MathParse("+88+89") == Ok(PLUS_TREE)
  {
    PlusTokens();
    PlusFirstPasses();
    PlusTasks();
  }

  /* --------------------------------- -1*2+-3*4 --------------------------------- */

  const MIXED_LEXEMES := [Symbol('-'), Word("1"), Symbol('*'), Word("2"), Symbol('+'),
                          Symbol('-'), Word("3"), Symbol('*'), Word("4")]
  const MIXED_TOKENS := [Operator('-'), Name("1"), Operator('*'), Name("2"), Operator('+'),
                         Operator('-'), Name("3"), Operator('*'), Name("4"), TrailingError]
  const MIXED_TAGGED := [UnaryOperation('-', 1), Name("1"), Operator('*'), Name("2"), Operator('+'),
                         UnaryOperation('-', 1), Name("3"), Operator('*'), Name("4"), TrailingError]
  /** After the right product is folded. */
  const MIXED_RIGHT := [UnaryOperation('-', 1), Name("1"), Operator('*'), Name("2"), Operator('+'),
                        Operation('*', 2, 3), Name("3"), UnaryOperation('-', -1), Name("4"), TrailingError]
  /** After the left product is folded. */
  const MIXED_BOTH := [Operation('*', 2, 3), Name("1"), UnaryOperation('-', -1), Name("2"), Operator('+'),
                       Operation('*', 2, 3), Name("3"), UnaryOperation('-', -1), Name("4"), TrailingError]
  const MIXED_TREE := [Operation('+', 4, 5), Name("1"), UnaryOperation('-', -1), Name("2"), Operation('*', -2, -1),
                       Operation('*', 2, 3), Name("3"), UnaryOperation('-', -1), Name("4"), TrailingError]

  lemma MixedChecked()
    ensures CheckFrom(MIXED_LEXEMES, 0) && NoPairFrom(MIXED_LEXEMES, 0)
  {
  }

  lemma MixedTokens()
    ensures MathToken("-1*2+-3*4") == MIXED_TOKENS
  {
    MixedChecked();
    MixedSpelled();
    MixedLifted();
    MathTokenPlain("-1*2+-3*4", MIXED_LEXEMES);
  }

  lemma MixedSpelled()
    ensures Concat(MIXED_LEXEMES) == "-1*2+-3*4"
  {
    SpellsSound(MIXED_LEXEMES, "-1*2+-3*4");
  }

  lemma MixedLifted()
    ensures Lift(MIXED_LEXEMES) + [TrailingError] == MIXED_TOKENS
  {
    LiftedAs(MIXED_LEXEMES, MIXED_TOKENS);
  }

  lemma MixedUnaryTail()
    ensures UnaryMatchesFrom(MIXED_TOKENS, MIXED_TAGGED, 5, true)
  {
  }

  lemma MixedUnaryFront()
    requires UnaryMatchesFrom(MIXED_TOKENS, MIXED_TAGGED, 5, true)
    ensures UnaryMatchesFrom(MIXED_TOKENS, MIXED_TAGGED, 0, true)
  {
  }

  lemma MixedUnary()
    ensures UnaryParse(MIXED_TOKENS) == Ok(MIXED_TAGGED)
  {
    MixedUnaryTail();
    MixedUnaryFront();
    UnaryParseOf(MIXED_TOKENS, MIXED_TAGGED);
  }

  lemma MixedFirstPasses()
    ensures UnaryParse(MIXED_TOKENS) == Ok(MIXED_TAGGED)
    ensures ParenParse(MIXED_TAGGED) == Ok(MIXED_TAGGED)
  {
    MixedUnary();
    ParenParseNoParens(MIXED_TAGGED);
  }

  lemma MixedRightUpdate()
    ensures MIXED_TAGGED[5 := Operation('*', 2, 3)][7 := UnaryOperation('-', -1)] == MIXED_RIGHT
  {
  }

  lemma MixedLeftUpdate()
    ensures MIXED_RIGHT[0 := Operation('*', 2, 3)][2 := UnaryOperation('-', -1)] == MIXED_BOTH
  {
  }

  lemma MixedRootUpdate()
    ensures MIXED_BOTH[0 := Operation('+', 4, 5)][4 := Operation('*', -2, -1)] == MIXED_TREE
  {
  }

  /* The task stacks of `-1*2+-3*4`, each named by what it holds above the last. */
  const MIXED_ROOT := NO_TASKS + [OperatorReading(IndexRange(0, 10), 4)]
  const MIXED_LEFT := MIXED_ROOT + [BlockSolving(IndexRange(0, 4))]
  const MIXED_RIGHT_OP := MIXED_LEFT + [OperatorReading(IndexRange(5, 10), 7)]
  const MIXED_RIGHT_L := MIXED_RIGHT_OP + [BlockSolving(IndexRange(5, 7))]
  const MIXED_LEFT_OP := MIXED_ROOT + [OperatorReading(IndexRange(0, 4), 2)]
  const MIXED_LEFT_L := MIXED_LEFT_OP + [BlockSolving(IndexRange(0, 2))]

  lemma MixedSplitWhole()
    ensures SolveTasks(MIXED_TAGGED, NO_TASKS + [BlockSolving(IndexRange(0, 10))])
         == SolveTasks(MIXED_TAGGED, MIXED_LEFT + [BlockSolving(IndexRange(5, 10))])
  {
    var r := IndexRange(0, 10);
    NoneBelowStep(MIXED_TAGGED, r, 0);
    NoneBelowStep(MIXED_TAGGED, r, 1);
    NoneBelowStep(MIXED_TAGGED, r, 2);
    NoneBelowStep(MIXED_TAGGED, r, 3);
    BlockSplitsAt(MIXED_TAGGED, r, NO_TASKS, 4, 4);
    PopBlock(MIXED_TAGGED, NO_TASKS, r, MIXED_LEFT + [BlockSolving(IndexRange(5, 10))]);
  }

  lemma MixedSplitRight()
    ensures SolveTasks(MIXED_TAGGED, MIXED_LEFT + [BlockSolving(IndexRange(5, 10))])
         == SolveTasks(MIXED_TAGGED, MIXED_RIGHT_L + [BlockSolving(IndexRange(8, 10))])
  {
    var r := IndexRange(5, 10);
    NoneBelowStep(MIXED_TAGGED, r, 0);
    NoneBelowStep(MIXED_TAGGED, r, 1);
    NoneBelowStep(MIXED_TAGGED, r, 2);
    NoneBelowStep(MIXED_TAGGED, r, 3);
    NoneBelowStep(MIXED_TAGGED, r, 4);
    BlockSplitsAt(MIXED_TAGGED, r, MIXED_LEFT, 5, 7);
    PopBlock(MIXED_TAGGED, MIXED_LEFT, r, MIXED_RIGHT_L + [BlockSolving(IndexRange(8, 10))]);
  }

  lemma MixedRightOperand()
    ensures SolveTasks(MIXED_TAGGED, MIXED_RIGHT_L + [BlockSolving(IndexRange(8, 10))])
         == SolveTasks(MIXED_TAGGED, MIXED_RIGHT_L)
  {
    NarrowBlock(MIXED_TAGGED, IndexRange(8, 10), MIXED_RIGHT_L);
    PopBlock(MIXED_TAGGED, MIXED_RIGHT_L, IndexRange(8, 10), MIXED_RIGHT_L);
  }

  lemma MixedRightLeftOperand()
    ensures SolveTasks(MIXED_TAGGED, MIXED_RIGHT_L) == SolveTasks(MIXED_TAGGED, MIXED_RIGHT_OP)
  {
    NarrowBlock(MIXED_TAGGED, IndexRange(5, 7), MIXED_RIGHT_OP);
    PopBlock(MIXED_TAGGED, MIXED_RIGHT_OP, IndexRange(5, 7), MIXED_RIGHT_OP);
  }

  lemma MixedRightShape()
    ensures MakesOpAt(MIXED_TAGGED, IndexRange(5, 10), 7, '*', UnaryOperation('-', -1), MIXED_RIGHT)
  {
    MixedRightUpdate();
  }

  lemma MixedRightMakeOp()
    ensures MakeOp(MIXED_TAGGED, IndexRange(5, 10), 7) == Ok(MIXED_RIGHT)
  {
    MixedRightShape();
    MakeOpTo(MIXED_TAGGED, IndexRange(5, 10), 7, '*', UnaryOperation('-', -1), MIXED_RIGHT);
  }

  lemma MixedRightProduct()
    ensures SolveTasks(MIXED_TAGGED, MIXED_RIGHT_OP) == SolveTasks(MIXED_RIGHT, MIXED_LEFT)
  {
    assert ValidTasks(MIXED_LEFT, |MIXED_TAGGED|);
    assert MIXED_RIGHT_OP == MIXED_LEFT + [OperatorReading(IndexRange(5, 10), 7)];
    MixedRightMakeOp();
    PopOperator(MIXED_TAGGED, MIXED_LEFT, IndexRange(5, 10), 7, MIXED_RIGHT);
  }

  lemma MixedSplitLeft()
    ensures SolveTasks(MIXED_RIGHT, MIXED_LEFT)
         == SolveTasks(MIXED_RIGHT, MIXED_LEFT_L + [BlockSolving(IndexRange(3, 4))])
  {
    var r := IndexRange(0, 4);
    NoneBelowStep(MIXED_RIGHT, r, 0);
    NoneBelowStep(MIXED_RIGHT, r, 1);
    NoneBelowStep(MIXED_RIGHT, r, 2);
    NoneBelowStep(MIXED_RIGHT, r, 3);
    NoneBelowStep(MIXED_RIGHT, r, 4);
    BlockSplitsAt(MIXED_RIGHT, r, MIXED_ROOT, 5, 2);
    PopBlock(MIXED_RIGHT, MIXED_ROOT, r, MIXED_LEFT_L + [BlockSolving(IndexRange(3, 4))]);
  }

  lemma MixedLeftRightOperand()
    ensures SolveTasks(MIXED_RIGHT, MIXED_LEFT_L + [BlockSolving(IndexRange(3, 4))])
         == SolveTasks(MIXED_RIGHT, MIXED_LEFT_L)
  {
    LeafBlock(MIXED_RIGHT, IndexRange(3, 4), MIXED_LEFT_L);
    PopBlock(MIXED_RIGHT, MIXED_LEFT_L, IndexRange(3, 4), MIXED_LEFT_L);
  }

  lemma MixedLeftOperand()
    ensures SolveTasks(MIXED_RIGHT, MIXED_LEFT_L) == SolveTasks(MIXED_RIGHT, MIXED_LEFT_OP)
  {
    NarrowBlock(MIXED_RIGHT, IndexRange(0, 2), MIXED_LEFT_OP);
    PopBlock(MIXED_RIGHT, MIXED_LEFT_OP, IndexRange(0, 2), MIXED_LEFT_OP);
  }

  lemma MixedLeftProduct()
    ensures SolveTasks(MIXED_RIGHT, MIXED_LEFT_OP) == SolveTasks(MIXED_BOTH, MIXED_ROOT)
  {
    MixedLeftMakeOp();
    MixedRootValid();
    PopOperator(MIXED_RIGHT, MIXED_ROOT, IndexRange(0, 4), 2, MIXED_BOTH);
  }

  lemma MixedRootValid()
    ensures ValidTasks(MIXED_ROOT, |MIXED_RIGHT|)
    ensures MIXED_LEFT_OP == MIXED_ROOT + [OperatorReading(IndexRange(0, 4), 2)]
  {
  }

  lemma MixedLeftShape()
    ensures MakesOpAt(MIXED_RIGHT, IndexRange(0, 4), 2, '*', UnaryOperation('-', -1), MIXED_BOTH)
  {
    MixedLeftUpdate();
  }

  lemma MixedLeftMakeOp()
    ensures MakeOp(MIXED_RIGHT, IndexRange(0, 4), 2) == Ok(MIXED_BOTH)
  {
    MixedLeftShape();
    MakeOpTo(MIXED_RIGHT, IndexRange(0, 4), 2, '*', UnaryOperation('-', -1), MIXED_BOTH);
  }

  lemma MixedSum()
    ensures SolveTasks(MIXED_BOTH, MIXED_ROOT) == Ok(MIXED_TREE)
  {
    MixedRootMakeOp();
    PopOperator(MIXED_BOTH, NO_TASKS, IndexRange(0, 10), 4, MIXED_TREE);
  }

  lemma MixedRootShape()
    ensures MakesOpAt(MIXED_BOTH, IndexRange(0, 10), 4, '+', Operation('*', -2, -1), MIXED_TREE)
  {
    MixedRootUpdate();
  }

  lemma MixedRootMakeOp()
    ensures MakeOp(MIXED_BOTH, IndexRange(0, 10), 4) == Ok(MIXED_TREE)
  {
    MixedRootShape();
    MakeOpTo(MIXED_BOTH, IndexRange(0, 10), 4, '+', Operation('*', -2, -1), MIXED_TREE);
  }

  lemma MixedTasks()
    ensures AllButParenParse(MIXED_TAGGED) == Ok(MIXED_TREE)
  {
    AllButParenParseStart(MIXED_TAGGED);
    MixedSplitWhole();
    MixedSplitRight();
    MixedRightOperand();
    MixedRightLeftOperand();
    MixedRightProduct();
    MixedSplitLeft();
    MixedLeftRightOperand();
    MixedLeftOperand();
    MixedLeftProduct();
    MixedSum();
  }

  /** `-1*2+-3*4`: both minus signs are unary, the products bind tighter than the sum. */
  lemma MixedExample()
    ensures MathParse("-1*2+-3*4") == Ok(MIXED_TREE)
  {
    MixedTokens();
    MixedFirstPasses();
    MixedTasks();
  }

  /* -------------------------------- (1+2)*(3+4) -------------------------------- */

  const GROUP_LEXEMES := [Symbol('('), Word("1"), Symbol('+'), Word("2"), Symbol(')'), Symbol('*'),
                          Symbol('('), Word("3"), Symbol('+'), Word("4"), Symbol(')')]
  const GROUP_TOKENS := [Operator('('), Name("1"), Operator('+'), Name("2"), Operator(')'), Operator('*'),
                         Operator('('), Name("3"), Operator('+'), Name("4"), Operator(')'), TrailingError]
  /** After the first group is folded. */
  const GROUP_ONE := [ParenOpen(1), Operation('+', 1, 2), Name("1"), Name("2"), ParenClose(3), Operator('*'),
                      Operator('('), Name("3"), Operator('+'), Name("4"), Operator(')'), TrailingError]
  /** After both groups are folded. */
  const GROUP_TWO := [ParenOpen(1), Operation('+', 1, 2), Name("1"), Name("2"), ParenClose(3), Operator('*'),
                      ParenOpen(1), Operation('+', 1, 2), Name("3"), Name("4"), ParenClose(3), TrailingError]
  const GROUP_TREE := [Operation('*', 5, 6), Operation('+', 1, 2), Name("1"), Name("2"), ParenClose(3), ParenOpen(-4),
                       ParenOpen(1), Operation('+', 1, 2), Name("3"), Name("4"), ParenClose(3), TrailingError]

  lemma GroupLexemesCheck()
    ensures CheckFrom(GROUP_LEXEMES, 0) && NoPairFrom(GROUP_LEXEMES, 0)
  {
  }

  lemma GroupLexemesSpell()
    ensures Concat(GROUP_LEXEMES) == "(1+2)*(3+4)"
  {
    GroupBackSpells();
    GroupFrontSpells();
    SpellsSound(GROUP_LEXEMES, "(1+2)*(3+4)");
  }

  lemma GroupBackSpells()
    ensures SpellsFrom(GROUP_LEXEMES, "(1+2)*(3+4)", 6, 6)
  {
  }

  lemma GroupFrontSpells()
    requires SpellsFrom(GROUP_LEXEMES, "(1+2)*(3+4)", 6, 6)
    ensures SpellsFrom(GROUP_LEXEMES, "(1+2)*(3+4)", 0, 0)
  {
  }

  lemma GroupLexemesLift()
    ensures Lift(GROUP_LEXEMES) + [TrailingError] == GROUP_TOKENS
  {
    LiftedAs(GROUP_LEXEMES, GROUP_TOKENS);
  }

  lemma GroupTokens()
    ensures MathToken("(1+2)*(3+4)") == GROUP_TOKENS
  {
    GroupLexemesCheck();
    GroupLexemesSpell();
    GroupLexemesLift();
    MathTokenPlain("(1+2)*(3+4)", GROUP_LEXEMES);
  }

  lemma GroupUnaryTail()
    ensures UnaryMatchesFrom(GROUP_TOKENS, GROUP_TOKENS, 6, true)
  {
  }

  lemma GroupUnary()
    ensures UnaryParse(GROUP_TOKENS) == Ok(GROUP_TOKENS)
  {
    GroupUnaryTail();
    assert UnaryMatchesFrom(GROUP_TOKENS, GROUP_TOKENS, 0, true);
    UnaryParseOf(GROUP_TOKENS, GROUP_TOKENS);
  }

  lemma GroupFirstShape()
    ensures FoldableAt(GROUP_TOKENS, 0, 4, [Name("1"), Operator('+'), Name("2")], [Operation('+', 1, 2), Name("1"), Name("2")], GROUP_ONE)
  {
    SumGroup("1", "2");
    GroupFirstSlices();
  }

  lemma GroupFirstSlices()
    ensures GROUP_TOKENS[1..4] == [Name("1"), Operator('+'), Name("2")]
    ensures GROUP_TOKENS[..0] + [ParenOpen(1)] + [Operation('+', 1, 2), Name("1"), Name("2")] + [ParenClose(3)]
            + GROUP_TOKENS[5..] == GROUP_ONE
    ensures Operator(')') !in GROUP_TOKENS[..4]
  {
  }

  lemma GroupFirstFold()
    ensures ParenParse(GROUP_TOKENS) == ParenParse(GROUP_ONE)
  {
    GroupFirstShape();
    ParenParseFoldsTo(GROUP_TOKENS, 0, 4, [Name("1"), Operator('+'), Name("2")], [Operation('+', 1, 2), Name("1"), Name("2")], GROUP_ONE);
  }

  lemma GroupSecondShape()
    ensures FoldableAt(GROUP_ONE, 6, 10, [Name("3"), Operator('+'), Name("4")], [Operation('+', 1, 2), Name("3"), Name("4")], GROUP_TWO)
  {
    SumGroup("3", "4");
    GroupSecondSlices();
  }

  lemma GroupSecondSlices()
    ensures GROUP_ONE[7..10] == [Name("3"), Operator('+'), Name("4")]
    ensures GROUP_ONE[..6] + [ParenOpen(1)] + [Operation('+', 1, 2), Name("3"), Name("4")] + [ParenClose(3)]
            + GROUP_ONE[11..] == GROUP_TWO
    ensures Operator(')') !in GROUP_ONE[..10]
  {
  }

  lemma GroupSecondFold()
    ensures ParenParse(GROUP_ONE) == ParenParse(GROUP_TWO)
  {
    GroupSecondShape();
    ParenParseFoldsTo(GROUP_ONE, 6, 10, [Name("3"), Operator('+'), Name("4")], [Operation('+', 1, 2), Name("3"), Name("4")], GROUP_TWO);
  }

  lemma GroupNoParens()
    ensures ParenParse(GROUP_TWO) == Ok(GROUP_TWO)
  {
    assert Operator('(') !in GROUP_TWO && Operator(')') !in GROUP_TWO;
    ParenParseNoParens(GROUP_TWO);
  }

  lemma GroupParens()
    ensures ParenParse(GROUP_TOKENS) == Ok(GROUP_TWO)
  {
    GroupFirstFold();
    GroupSecondFold();
    GroupNoParens();
  }

  /** The scan over the whole line jumps over both groups and meets only `*`. */
  lemma GroupScanWhole(ops: seq<char>)
    ensures ScanFrom(GROUP_TWO, ops, 0, 10) == if '*' in ops then Some(5) else None
  {
    assert ScanFrom(GROUP_TWO, ops, 0, 10) == ScanFrom(GROUP_TWO, ops, 0, 7);
    assert ScanFrom(GROUP_TWO, ops, 0, 7) == ScanFrom(GROUP_TWO, ops, 0, 6);
    assert ScanFrom(GROUP_TWO, ops, 0, 6) == ScanFrom(GROUP_TWO, ops, 0, 5);
    if '*' !in ops {
      assert ScanFrom(GROUP_TWO, ops, 0, 5) == ScanFrom(GROUP_TWO, ops, 0, 4);
      assert ScanFrom(GROUP_TWO, ops, 0, 4) == ScanFrom(GROUP_TWO, ops, 0, 1);
      assert ScanFrom(GROUP_TWO, ops, 0, 1) == ScanFrom(GROUP_TWO, ops, 0, 0);
    }
  }

  /** Inside either group's range nothing is exposed. */
  lemma GroupScanParts(ops: seq<char>)
    ensures ScanFrom(GROUP_TWO, ops, 6, 10) == None
    ensures ScanFrom(GROUP_TWO, ops, 0, 3) == None
  {
    assert ScanFrom(GROUP_TWO, ops, 6, 10) == ScanFrom(GROUP_TWO, ops, 6, 7);
    assert ScanFrom(GROUP_TWO, ops, 6, 7) == ScanFrom(GROUP_TWO, ops, 6, 6);
    assert ScanFrom(GROUP_TWO, ops, 0, 3) == ScanFrom(GROUP_TWO, ops, 0, 2);
    assert ScanFrom(GROUP_TWO, ops, 0, 2) == ScanFrom(GROUP_TWO, ops, 0, 1);
    assert ScanFrom(GROUP_TWO, ops, 0, 1) == ScanFrom(GROUP_TWO, ops, 0, 0);
  }

  const GROUP_ROOT := NO_TASKS + [OperatorReading(IndexRange(0, 12), 5)]
  const GROUP_LEFT := GROUP_ROOT + [BlockSolving(IndexRange(0, 5))]

  lemma GroupSplitBlock()
    ensures SolveBlock(GROUP_TWO, IndexRange(0, 12), NO_TASKS)
         == Ok(MakeTasksFromOp(IndexRange(0, 12), 5, NO_TASKS))
  {
    var r := IndexRange(0, 12);
    GroupScanWhole(TIERS[0]);
    NoneBelowStep(GROUP_TWO, r, 0);
    GroupScanWhole(TIERS[1]);
    NoneBelowStep(GROUP_TWO, r, 1);
    GroupScanWhole(TIERS[2]);
    NoneBelowStep(GROUP_TWO, r, 2);
    GroupScanWhole(TIERS[3]);
    NoneBelowStep(GROUP_TWO, r, 3);
    GroupScanWhole(TIERS[4]);
    NoneBelowStep(GROUP_TWO, r, 4);
    GroupScanWhole(TIERS[5]);
    BlockSplitsAt(GROUP_TWO, r, NO_TASKS, 5, 5);
  }

  lemma GroupSplit()
    ensures SolveTasks(GROUP_TWO, NO_TASKS + [BlockSolving(IndexRange(0, 12))])
         == SolveTasks(GROUP_TWO, GROUP_LEFT + [BlockSolving(IndexRange(6, 12))])
  {
    GroupSplitBlock();
    PopBlock(GROUP_TWO, NO_TASKS, IndexRange(0, 12), GROUP_LEFT + [BlockSolving(IndexRange(6, 12))]);
  }

  /** A block holding only folded nodes and names stays as it is. */
  lemma GroupBlockStays(range: IndexRange, tasks: seq<ParseStep>)
    requires range == IndexRange(6, 12) || range == IndexRange(0, 5)
    requires ValidTasks(tasks, 12)
    ensures SolveBlock(GROUP_TWO, range, tasks) == Ok(tasks)
  {
    GroupScanParts(TIERS[0]);
    NoneBelowStep(GROUP_TWO, range, 0);
    GroupScanParts(TIERS[1]);
    NoneBelowStep(GROUP_TWO, range, 1);
    GroupScanParts(TIERS[2]);
    NoneBelowStep(GROUP_TWO, range, 2);
    GroupScanParts(TIERS[3]);
    NoneBelowStep(GROUP_TWO, range, 3);
    GroupScanParts(TIERS[4]);
    NoneBelowStep(GROUP_TWO, range, 4);
    GroupScanParts(TIERS[5]);
    NoneBelowStep(GROUP_TWO, range, 5);
    BlockStays(GROUP_TWO, range, tasks);
  }

  lemma GroupRightOperand()
    ensures SolveTasks(GROUP_TWO, GROUP_LEFT + [BlockSolving(IndexRange(6, 12))]) == SolveTasks(GROUP_TWO, GROUP_LEFT)
  {
    assert ValidTasks(GROUP_LEFT, 12);
    GroupBlockStays(IndexRange(6, 12), GROUP_LEFT);
    PopBlock(GROUP_TWO, GROUP_LEFT, IndexRange(6, 12), GROUP_LEFT);
  }

  lemma GroupLeftOperand()
    ensures SolveTasks(GROUP_TWO, GROUP_LEFT) == SolveTasks(GROUP_TWO, GROUP_ROOT)
  {
    assert ValidTasks(GROUP_ROOT, 12);
    assert GROUP_LEFT == GROUP_ROOT + [BlockSolving(IndexRange(0, 5))];
    GroupBlockStays(IndexRange(0, 5), GROUP_ROOT);
    PopBlock(GROUP_TWO, GROUP_ROOT, IndexRange(0, 5), GROUP_ROOT);
  }

  lemma GroupRootUpdate()
    ensures GROUP_TWO[0 := Operation('*', 5, 6)][5 := ParenOpen(-4)] == GROUP_TREE
  {
  }

  lemma GroupRootMakeOp()
    ensures MakeOp(GROUP_TWO, IndexRange(0, 12), 5) == Ok(GROUP_TREE)
  {
    GroupRootShape();
    MakeOpTo(GROUP_TWO, IndexRange(0, 12), 5, '*', ParenOpen(-4), GROUP_TREE);
  }

  lemma GroupRootShape()
    ensures MakesOpAt(GROUP_TWO, IndexRange(0, 12), 5, '*', ParenOpen(-4), GROUP_TREE)
  {
    GroupRootUpdate();
  }

  lemma GroupRoot()
    ensures SolveTasks(GROUP_TWO, GROUP_ROOT) == Ok(GROUP_TREE)
  {
    GroupRootMakeOp();
    PopOperator(GROUP_TWO, NO_TASKS, IndexRange(0, 12), 5, GROUP_TREE);
  }

  lemma GroupTasks()
    ensures AllButParenParse(GROUP_TWO) == Ok(GROUP_TREE)
  {
    AllButParenParseStart(GROUP_TWO);
    GroupSplit();
    GroupRightOperand();
    GroupLeftOperand();
    GroupRoot();
  }

  /**
    `(1+2)*(3+4)`: each group is folded into a `ParenOpen` pointing at its
    operation and a `ParenClose` holding its size; the product becomes the
    root and the left group's `ParenOpen` moves to where `*` was.
   */
  lemma GroupExample()
    ensures MathParse("(1+2)*(3+4)") == Ok(GROUP_TREE)
  {
    GroupTokens();
    GroupUnary();
    GroupParens();
    GroupTasks();
  }

  /* ---------------------------------- errors ---------------------------------- */

  /** Tokens of a short text of ASCII operators and alphanumeric words. */
  lemma TokensOf(s: string, ts: seq<Lexeme>, tokens: seq<MathValue>)
    requires CheckFrom(ts, 0) && NoPairFrom(ts, 0) && Concat(ts) == s
    requires Lift(ts) + [TrailingError] == tokens
    ensures MathToken(s) == tokens
  {
    MathTokenPlain(s, ts);
  }

  const UNOPENED_TOKENS := [Name("33"), Operator(')'), TrailingError]

  lemma UnopenedTokens()
    ensures MathToken("33)") == UNOPENED_TOKENS
  {
    TokensOf("33)", [Word("33"), Symbol(')')], UNOPENED_TOKENS);
  }

  lemma UnopenedUnary()
    ensures UnaryParse(UNOPENED_TOKENS) == Ok(UNOPENED_TOKENS)
  {
    UnaryParseOf(UNOPENED_TOKENS, UNOPENED_TOKENS);
  }

  /** `33)`: a `)` with no `(` before it. */
  lemma UnopenedExample()
    ensures MathParse("33)") == Err(UnopenedParenthesis)
  {
    var tokens := UNOPENED_TOKENS;
    UnopenedTokens();
    UnopenedUnary();
    assert Operator(')') !in tokens[..1] && Operator('(') !in tokens[..1];
    SingleParenParseCases(tokens);
  }

  const UNCLOSED_TOKENS := [Operator('('), Operator('('), Name("33"), Operator(')'), TrailingError]
  const UNCLOSED_FOLDED := [Operator('('), ParenOpen(1), Name("33"), ParenClose(1), TrailingError]

  lemma UnclosedTokens()
    ensures MathToken("((33)") == UNCLOSED_TOKENS
  {
    TokensOf("((33)", [Symbol('('), Symbol('('), Word("33"), Symbol(')')], UNCLOSED_TOKENS);
  }

  lemma UnclosedUnary()
    ensures UnaryParse(UNCLOSED_TOKENS) == Ok(UNCLOSED_TOKENS)
  {
    UnaryParseOf(UNCLOSED_TOKENS, UNCLOSED_TOKENS);
  }

  lemma UnclosedShape()
    ensures FoldableAt(UNCLOSED_TOKENS, 1, 3, [Name("33")], [Name("33")], UNCLOSED_FOLDED)
  {
    assert UNCLOSED_TOKENS[2..3] == [Name("33")];
    SingleName("33");
  }

  lemma UnclosedFold()
    ensures ParenParse(UNCLOSED_TOKENS) == ParenParse(UNCLOSED_FOLDED)
  {
    UnclosedShape();
    ParenParseFoldsTo(UNCLOSED_TOKENS, 1, 3, [Name("33")], [Name("33")], UNCLOSED_FOLDED);
  }

  lemma UnclosedRest()
    ensures ParenParse(UNCLOSED_FOLDED) == Err(UnclosedParenthesis)
  {
    assert Operator(')') !in UNCLOSED_FOLDED && UNCLOSED_FOLDED[0] == Operator('(');
    SingleParenParseCases(UNCLOSED_FOLDED);
  }

  /** `((33)`: the inner group folds, the outer `(` is never closed. */
  lemma UnclosedExample()
    ensures MathParse("((33)") == Err(UnclosedParenthesis)
  {
    UnclosedTokens();
    UnclosedUnary();
    UnclosedFold();
    UnclosedRest();
  }

  /** The empty text: only the sentinel is left for the binary pass. */
  lemma EmptyExample()
    ensures MathParse("") == Err(EmptyLine)
  {
    var tokens := [TrailingError];
    TokensOf("", [], tokens);
    UnaryParseOf(tokens, tokens);
    ParenParseNoParens(tokens);
    AllButParenParseStart(tokens);
    PopFailingBlock(tokens, NO_TASKS, IndexRange(0, 1), EmptyLine);
  }

  const EMPTY_GROUP_TOKENS := [Name("22"), Operator('+'), Operator('('), Operator(')'), TrailingError]

  lemma EmptyGroupTokens()
    ensures MathToken("22+()") == EMPTY_GROUP_TOKENS
  {
    TokensOf("22+()", [Word("22"), Symbol('+'), Symbol('('), Symbol(')')], EMPTY_GROUP_TOKENS);
  }

  lemma EmptyGroupUnary()
    ensures UnaryParse(EMPTY_GROUP_TOKENS) == Ok(EMPTY_GROUP_TOKENS)
  {
    UnaryParseOf(EMPTY_GROUP_TOKENS, EMPTY_GROUP_TOKENS);
  }

  lemma EmptyInside()
    ensures AllButParenParse([]) == Err(EmptyLine)
  {
    AllButParenParseStart([]);
    PopFailingBlock([], NO_TASKS, IndexRange(0, 0), EmptyLine);
  }

  lemma EmptyGroupFold()
    ensures ParenParse(EMPTY_GROUP_TOKENS) == Err(EmptyLine)
  {
    var line := EMPTY_GROUP_TOKENS;
    assert Operator(')') !in line[..3] && Operator('(') !in line[3..3];
    assert line[3..3] == [];
    EmptyInside();
    ParenParseFailsInside(line, 2, 3, EmptyLine);
  }

  /** `22+()`: the empty group fails when its inside is parsed. */
  lemma EmptyGroupExample()
    ensures MathParse("22+()") == Err(EmptyLine)
  {
    EmptyGroupTokens();
    EmptyGroupUnary();
    EmptyGroupFold();
  }

  const OPERATOR_AFTER_TOKENS := [Name("33"), Operator('+'), Operator('*'), Name("23"), TrailingError]

  lemma OperatorAfterOperatorTokens()
    ensures MathToken("33+*23") == OPERATOR_AFTER_TOKENS
  {
    var ts := [Word("33"), Symbol('+'), Symbol('*'), Word("23")];
    OperatorAfterOperatorChecked();
    SpellsSound(ts, "33+*23");
    LiftedAs(ts, OPERATOR_AFTER_TOKENS);
    TokensOf("33+*23", ts, OPERATOR_AFTER_TOKENS);
  }

  lemma OperatorAfterOperatorChecked()
    ensures var ts := [Word("33"), Symbol('+'), Symbol('*'), Word("23")];
      CheckFrom(ts, 0) && NoPairFrom(ts, 0)
  {
    WordFromAll("33", 0);
    WordFromAll("23", 0);
  }

  lemma OperatorAfterOperatorUnary()
    ensures UnaryParse(OPERATOR_AFTER_TOKENS) == Err(MisplacedOperator('*'))
  {
    assert UnaryLoop(OPERATOR_AFTER_TOKENS, 2, true) == Err(MisplacedOperator('*'));
  }

  /** `33+*23`: after the binary `+`, the `*` stands in operand position. */
  lemma OperatorAfterOperatorExample()
    ensures MathParse("33+*23") == Err(MisplacedOperator('*'))
  {
    OperatorAfterOperatorTokens();
    OperatorAfterOperatorUnary();
  }

  /** `*2`: a `*` cannot open the line. */
  lemma LeadingOperatorExample()
    ensures MathParse("*2") == Err(MisplacedOperator('*'))
  {
    var tokens := [Operator('*'), Name("2"), TrailingError];
    TokensOf("*2", [Symbol('*'), Word("2")], tokens);
  }

  const TRAILING_TOKENS := [Name("2"), Operator('/'), TrailingError]
  const TRAILING_PUSHED := NO_TASKS + [OperatorReading(IndexRange(0, 3), 1)] + [BlockSolving(IndexRange(0, 1))]

  lemma TrailingTokens()
    ensures MathToken("2/") == TRAILING_TOKENS
  {
    TokensOf("2/", [Word("2"), Symbol('/')], TRAILING_TOKENS);
  }

  lemma TrailingFirstPasses()
    ensures UnaryParse(TRAILING_TOKENS) == Ok(TRAILING_TOKENS)
    ensures ParenParse(TRAILING_TOKENS) == Ok(TRAILING_TOKENS)
  {
    UnaryParseOf(TRAILING_TOKENS, TRAILING_TOKENS);
    ParenParseNoParens(TRAILING_TOKENS);
  }

  lemma TrailingSplit()
    ensures SolveTasks(TRAILING_TOKENS, NO_TASKS + [BlockSolving(IndexRange(0, 3))])
         == SolveTasks(TRAILING_TOKENS, TRAILING_PUSHED + [BlockSolving(IndexRange(2, 3))])
  {
    var r := IndexRange(0, 3);
    NoneBelowStep(TRAILING_TOKENS, r, 0);
    NoneBelowStep(TRAILING_TOKENS, r, 1);
    NoneBelowStep(TRAILING_TOKENS, r, 2);
    NoneBelowStep(TRAILING_TOKENS, r, 3);
    NoneBelowStep(TRAILING_TOKENS, r, 4);
    BlockSplitsAt(TRAILING_TOKENS, r, NO_TASKS, 5, 1);
    PopBlock(TRAILING_TOKENS, NO_TASKS, r, TRAILING_PUSHED + [BlockSolving(IndexRange(2, 3))]);
  }

  lemma TrailingRight()
    ensures SolveTasks(TRAILING_TOKENS, TRAILING_PUSHED + [BlockSolving(IndexRange(2, 3))]) == Err(EmptyLine)
  {
    assert ValidTasks(TRAILING_PUSHED, 3);
    PopFailingBlock(TRAILING_TOKENS, TRAILING_PUSHED, IndexRange(2, 3), EmptyLine);
  }

  /** `2/`: the right operand of `/` is only the sentinel. */
  lemma TrailingOperatorExample()
    ensures MathParse("2/") == Err(EmptyLine)
  {
    TrailingTokens();
    TrailingFirstPasses();
    AllButParenParseStart(TRAILING_TOKENS);
    TrailingSplit();
    TrailingRight();
  }
}
