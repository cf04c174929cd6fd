/**
  The infix parser. A token line is rewritten in place into a positional
  tree: every node sits in the line and refers to its operands by relative
  offsets, and the root ends up as the first element.

  Three passes run in order: unary operators are tagged, parenthesis groups
  are folded innermost first, and the remaining binary operators are folded
  by precedence tier through a stack of tasks.
 */
module Parse {
  import opened Errors
  import opened MachineInt
  import opened Utils
  import opened Tokenize

  /** The text after the token in the internal bug of `unary_parse`. */
  const UNARY_PARSE_BUG: string := " should not have been present in unary_parse."

  /** The text after the token in the internal bug of `make_op`. */
  const MAKE_OP_BUG: string := " should not have been used in make_op."

  const MINUS_SIGN: char := '\U{2212}'

  /* ------------------------------ unary pass ------------------------------ */

  /** The glyph a unary operator is written with once tagged. */
  function UnaryGlyph(c: char): char {
    if c == '-' || c == MINUS_SIGN then '-'
    else if c == '!' || c == '~' then '!'
    else c
  }

  predicate IsUnaryCandidate(c: char) {
    c == '+' || c == '-' || c == MINUS_SIGN || c == '!' || c == '~'
  }

  /**
    `unary_parse`'s loop. `previous` is set when the last token read leaves
    the next one in operand position; positions before `i` may already have
    been rewritten, positions from `i` on are still as tokenized.
   */
  function UnaryLoop(line: seq<MathValue>, i: nat, previous: bool): Result<seq<MathValue>>
    requires i <= |line|
    decreases |line| - i
  {
    if i == |line| then Ok(line)
    else
      match line[i]
      case Operator(c) =>
        if IsUnaryCandidate(c) then
          var tagged := if previous then line[i := UnaryOperation(UnaryGlyph(c), 1)] else line;
          UnaryLoop(tagged, i + 1, true)
        else if c == '(' then UnaryLoop(line, i + 1, true)
        else if c == ')' then UnaryLoop(line, i + 1, false)
        else if previous then Err(MisplacedOperator(c))
        else UnaryLoop(line, i + 1, true)
      case Name(_) => UnaryLoop(line, i + 1, false)
      case ParenOpen(_) => UnaryLoop(line, i + 1, false)
      case TrailingError => UnaryLoop(line, i + 1, previous)
      case _ => Err(MathParseInternalBug(UNARY_PARSE_BUG))
  }

  function UnaryParse(line: seq<MathValue>): Result<seq<MathValue>> {
    UnaryLoop(line, 0, true)
  }

  /* ---------------------------- reference: unary ---------------------------- */

  /** Whether the token after `t` stands in operand position, given whether `t` did. */
  function FlagAfter(t: MathValue, previous: bool): bool {
    match t
    case Operator(c) => c != ')'
    case Name(_) => false
    case ParenOpen(_) => false
    case _ => previous
  }

  /** Whether position `i` of the original line stands in operand position. */
  function PrevOperator(line: seq<MathValue>, i: nat): bool
    requires i <= |line|
  {
    if i == 0 then true else FlagAfter(line[i - 1], PrevOperator(line, i - 1))
  }

  /** What the unary pass makes of one token, given whether it stands in operand position. */
  function UnaryStep(t: MathValue, previous: bool): Result<MathValue> {
    match t
    case Operator(c) =>
      if IsUnaryCandidate(c) then Ok(if previous then UnaryOperation(UnaryGlyph(c), 1) else t)
      else if c == '(' || c == ')' || !previous then Ok(t)
      else Err(MisplacedOperator(c))
    case Name(_) => Ok(t)
    case ParenOpen(_) => Ok(t)
    case TrailingError => Ok(t)
    case _ => Err(MathParseInternalBug(UNARY_PARSE_BUG))
  }

  predicate StepsOk(line: seq<MathValue>, n: nat)
    requires n <= |line|
  {
    forall j :: 0 <= j < n ==> UnaryStep(line[j], PrevOperator(line, j)).Ok?
  }

  /* ---------------------------- parenthesis pass ---------------------------- */

  predicate NoCloseBefore(line: seq<MathValue>, i: nat)
    requires i <= |line|
  {
    Operator(')') !in line[..i]
  }

  predicate NoOpenBetween(line: seq<MathValue>, a: nat, b: nat)
    requires a <= b <= |line|
  {
    forall k :: a <= k < b ==> line[k] != Operator('(')
  }

  /** No raw parenthesis token is left. */
  predicate NoRawParen(line: seq<MathValue>) {
    forall k :: 0 <= k < |line| ==> line[k] != Operator('(') && line[k] != Operator(')')
  }

  function CloseCount(line: seq<MathValue>): nat {
    multiset(line)[Operator(')')]
  }

  /**
    The loop of `single_paren_parse`. `open` is the last `(` seen so far; the
    first `)` folds the group it closes.
   */
  function SingleParenLoop(line: seq<MathValue>, i: nat, open: Option<nat>): (r: Result<(bool, seq<MathValue>)>)
    requires i <= |line|
    requires open.Some? ==> open.value < i && line[open.value] == Operator('(') && NoOpenBetween(line, open.value + 1, i)
    requires open.None? ==> NoOpenBetween(line, 0, i)
    requires NoCloseBefore(line, i)
    ensures r.Ok? ==> |r.value.1| == |line| && Names(r.value.1) == Names(line)
    ensures r.Ok? && !r.value.0 ==> r.value.1 == line && NoRawParen(line)
    ensures r.Ok? && r.value.0 ==> CloseCount(r.value.1) < CloseCount(line)
    decreases |line| - i
  {
    if i == |line| then
      if open.Some? then Err(UnclosedParenthesis) else Ok((false, line))
    else if line[i] == Operator('(') then
      SingleParenLoop(line, i + 1, Some(i))
    else if line[i] == Operator(')') then
      if open.None? then Err(UnopenedParenthesis)
      else FoldGroup(line, open.value, i)
    else
      SingleParenLoop(line, i + 1, open)
  }

  /**
    Folds the group between the `(` at `o` and the `)` at `c`: the inside is
    parsed on its own, `(` becomes a pointer to the next element and `)`
    records the group's size.
   */
  function FoldGroup(line: seq<MathValue>, o: nat, c: nat): (r: Result<(bool, seq<MathValue>)>)
    requires o < c < |line|
    requires line[o] == Operator('(') && line[c] == Operator(')')
    requires NoCloseBefore(line, c)
    ensures r.Ok? ==> r.value.0 && |r.value.1| == |line| && Names(r.value.1) == Names(line)
    ensures r.Ok? ==> CloseCount(r.value.1) < CloseCount(line)
  {
    var inside :- AllButParenParse(line[o + 1..c]);
    var folded := line[..o] + [ParenOpen(1)] + inside + [ParenClose(c - o - 1)] + line[c + 1..];
    assert CloseCount(folded) < CloseCount(line) by {
      FoldedCloseCount(line, o, c, inside);
    }
    assert Names(folded) == Names(line) by {
      FoldedNames(line, o, c, inside);
    }
    Ok((true, folded))
  }

  function SingleParenParse(line: seq<MathValue>): Result<(bool, seq<MathValue>)> {
    SingleParenLoop(line, 0, None)
  }

  /** `paren_parse`: folds groups until none is left. */
  function ParenParse(line: seq<MathValue>): (r: Result<seq<MathValue>>)
    ensures r.Ok? ==> |r.value| == |line| && NoRawParen(r.value) && Names(r.value) == Names(line)
    decreases CloseCount(line)
  {
    var step :- SingleParenParse(line);
    if step.0 then ParenParse(step.1) else Ok(step.1)
  }

  /* -------------------------- binary operator pass -------------------------- */

  datatype IndexRange = IndexRange(from: nat, to: nat)

  datatype ParseStep =
    | BlockSolving(range: IndexRange)
    | OperatorReading(range: IndexRange, index: nat)

  /** What `parse_op` found in a range. */
  datatype Found =
    | Split(index: nat)   // an operator of the tier; its two sides become tasks
    | Leaf                // a single element, nothing to do
    | NotFound            // no operator of the tier

  /** The precedence tiers, loosest first. */
  const TIERS: seq<seq<char>> := [
    ['|'], ['^'], ['&'],
    ['\U{226A}', '\U{226B}', '<', '>'],
    ['+', '-', MINUS_SIGN],
    ['/', '\U{2215}', '\U{2044}', '\U{00F7}', '*', '\U{00D7}', '\U{00B7}', '%', '\U{27CC}']]

  /**
    The right-to-left scan of `parse_op`, from `index` down to `from + 1`.
    A folded group is stepped over from its `ParenClose`. A jump that would
    go below zero ends the scan.
   */
  function ScanFrom(line: seq<MathValue>, ops: seq<char>, from: nat, index: int): (r: Option<nat>)
    requires index < |line|
    ensures r.Some? ==> from + 1 <= r.value <= index && line[r.value].Operator? && line[r.value].c in ops
    decreases index - from
  {
    if index < from + 1 then None
    else match line[index]
      case Operator(c) => if c in ops then Some(index) else ScanFrom(line, ops, from, index - 1)
      case ParenClose(size) => ScanFrom(line, ops, from, index - size)
      case _ => ScanFrom(line, ops, from, index - 1)
  }

  function ParseOp(line: seq<MathValue>, ops: seq<char>, range: IndexRange): (r: Result<Found>)
    requires range.from <= range.to <= |line|
    ensures r.Ok? && r.value.Split? ==>
      range.from + 1 <= r.value.index <= range.to - 2 && line[r.value.index].Operator? && line[r.value.index].c in ops
  {
    var width := range.to - range.from;
    if width == 0 then Err(EmptyLine)
    else if width == 1 then
      if line[range.from] == TrailingError then Err(EmptyLine) else Ok(Leaf)
    else match ScanFrom(line, ops, range.from, range.to - 2)
      case Some(i) => Ok(Split(i))
      case None => Ok(NotFound)
  }

  /** Pushes the operator task, then the left part, then the right part (solved first). */
  function MakeTasksFromOp(range: IndexRange, index: nat, tasks: seq<ParseStep>): seq<ParseStep>
    requires range.from < index < range.to
  {
    tasks + [OperatorReading(range, index)] + [BlockSolving(IndexRange(range.from, index))]
          + [BlockSolving(IndexRange(index + 1, range.to))]
  }

  /** `solve_block`: the tiers are tried loosest first; the first that splits wins. */
  function TierLoop(line: seq<MathValue>, tiers: seq<seq<char>>, range: IndexRange, tasks: seq<ParseStep>): (r: Result<seq<ParseStep>>)
    requires range.from <= range.to <= |line|
    requires ValidTasks(tasks, |line|)
    ensures r.Ok? ==> ValidTasks(r.value, |line|)
    ensures r.Ok? ==> TasksWeight(r.value) < TasksWeight(tasks) + Weight(BlockSolving(range))
    decreases |tiers|
  {
    if |tiers| == 0 then Ok(tasks)
    else
      var found :- ParseOp(line, tiers[0], range);
      match found
      case Split(i) =>
        var pushed := MakeTasksFromOp(range, i, tasks);
        assert ValidTasks(pushed, |line|) by { ValidTasksAppend(tasks, pushed[|tasks|..], |line|); }
        assert TasksWeight(pushed) < TasksWeight(tasks) + Weight(BlockSolving(range)) by {
          SplitWeight(range, i, tasks);
        }
        Ok(pushed)
      case Leaf => Ok(tasks)
      case NotFound => TierLoop(line, tiers[1..], range, tasks)
  }

  function SolveBlock(line: seq<MathValue>, range: IndexRange, tasks: seq<ParseStep>): (r: Result<seq<ParseStep>>)
    requires range.from <= range.to <= |line|
    requires ValidTasks(tasks, |line|)
    ensures r.Ok? ==> ValidTasks(r.value, |line|)
    ensures r.Ok? ==> TasksWeight(r.value) < TasksWeight(tasks) + Weight(BlockSolving(range))
  {
    TierLoop(line, TIERS, range, tasks)
  }

  /** Re-expresses a header's offsets relative to a position `shift` further on. */
  function Shift(v: MathValue, shift: isize): MathValue {
    match v
    case ParenOpen(o) => ParenOpen(Wrap(o - shift))
    case Operation(c, a, b) => Operation(c, Wrap(a - shift), Wrap(b - shift))
    case UnaryOperation(c, o) => UnaryOperation(c, Wrap(o - shift))
    case _ => v
  }

  /**
    `make_op`: the operator becomes an `Operation` written at the front of
    the range, pointing at the left part's header (moved to where the
    operator was) and at the right part's first element just after it.
   */
  function MakeOp(line: seq<MathValue>, range: IndexRange, index: nat): (r: Result<seq<MathValue>>)
    requires range.from <= index < |line|
    ensures r.Ok? <==> line[index].Operator? && index - range.from <= I64_MAX
    ensures r.Ok? ==> |r.value| == |line| && Names(r.value) == Names(line)
    ensures r.Ok? && NoCloseAnywhere(line) ==> NoCloseAnywhere(r.value)
  {
    if !line[index].Operator? then
      Err(MathParseInternalBug(MAKE_OP_BUG))
    else
      var offset :- UToI(index - range.from);
      var operation := Operation(line[index].c, offset, Wrap(offset + 1));
      var header := Shift(line[range.from], offset);
      var moved := line[range.from := operation][index := header];
      MovedNames(line, range.from, index, operation, header);
      Ok(moved)
  }

  function Weight(step: ParseStep): nat {
    match step
    case BlockSolving(range) => if range.to >= range.from then 3 * (range.to - range.from) + 1 else 1
    case OperatorReading(_, _) => 1
  }

  function TasksWeight(tasks: seq<ParseStep>): nat {
    if |tasks| == 0 then 0 else TasksWeight(tasks[..|tasks| - 1]) + Weight(tasks[|tasks| - 1])
  }

  predicate ValidStep(step: ParseStep, n: nat) {
    match step
    case BlockSolving(range) => range.from <= range.to <= n
    case OperatorReading(range, index) => range.from < index < range.to <= n
  }

  predicate ValidTasks(tasks: seq<ParseStep>, n: nat) {
    forall k :: 0 <= k < |tasks| ==> ValidStep(tasks[k], n)
  }

  /** `solve_tasks`: pops tasks until the stack is empty. */
  function SolveTasks(line: seq<MathValue>, tasks: seq<ParseStep>): (r: Result<seq<MathValue>>)
    requires ValidTasks(tasks, |line|)
    ensures r.Ok? ==> |r.value| == |line| && Names(r.value) == Names(line)
    ensures r.Ok? && NoCloseAnywhere(line) ==> NoCloseAnywhere(r.value)
    decreases TasksWeight(tasks)
  {
    if |tasks| == 0 then Ok(line)
    else
      var top := tasks[|tasks| - 1];
      var rest := tasks[..|tasks| - 1];
      assert ValidStep(top, |line|);
      assert ValidTasks(rest, |line|);
      match top
      case OperatorReading(range, index) =>
        var next :- MakeOp(line, range, index);
        SolveTasks(next, rest)
      case BlockSolving(range) =>
        var pushed :- SolveBlock(line, range, rest);
        SolveTasks(line, pushed)
  }

  /** `all_but_paren_parse`: folds a whole slice, starting from one task covering it. */
  function AllButParenParse(line: seq<MathValue>): (r: Result<seq<MathValue>>)
    ensures r.Ok? ==> |r.value| == |line| && |line| >= 1 && Names(r.value) == Names(line)
    ensures r.Ok? && NoCloseAnywhere(line) ==> NoCloseAnywhere(r.value)
  {
    var tasks := [BlockSolving(IndexRange(0, |line|))];
    assert |line| == 0 ==> SolveBlock(line, tasks[0].range, []) == Err(EmptyLine);
    SolveTasks(line, tasks)
  }

  /* ------------------------------ the whole ------------------------------ */

  /** `math_parse_tokens`: the three passes in order. */
  function MathParseTokens(line: seq<MathValue>): Result<seq<MathValue>> {
    var tagged :- UnaryParse(line);
    var grouped :- ParenParse(tagged);
    AllButParenParse(grouped)
  }

  /** `math_parse`: tokenize, then parse. */
  function MathParse(expression: string): Result<seq<MathValue>> {
    MathParseTokens(MathToken(expression))
  }

  /* ------------------------------ name bag ------------------------------ */

  function NameOf(v: MathValue): multiset<string> {
    if v.Name? then multiset{v.text} else multiset{}
  }

  /** The names a line holds, with multiplicity. */
  function Names(line: seq<MathValue>): multiset<string> {
    if |line| == 0 then multiset{} else NameOf(line[0]) + Names(line[1..])
  }

  lemma {:induction false} NamesConcat(a: seq<MathValue>, b: seq<MathValue>)
    ensures Names(a + b) == Names(a) + Names(b)
    decreases |a|
  {
    if |a| > 0 {
      assert (a + b)[1..] == a[1..] + b;
      NamesConcat(a[1..], b);
    } else {
      assert a + b == b;
    }
  }

  /** Overwriting one element swaps that element's name for the new one's. */
  lemma NamesUpdate(line: seq<MathValue>, i: nat, v: MathValue)
    requires i < |line|
    ensures Names(line[i := v]) + NameOf(line[i]) == Names(line) + NameOf(v)
  {
    var a, b := line[..i], line[i + 1..];
    assert line == a + [line[i]] + b;
    assert line[i := v] == a + [v] + b;
    NamesConcat(a + [line[i]], b);
    NamesConcat(a, [line[i]]);
    NamesConcat(a + [v], b);
    NamesConcat(a, [v]);
    assert Names([v]) == NameOf(v) by { assert [v][1..] == []; }
    assert Names([line[i]]) == NameOf(line[i]) by { assert [line[i]][1..] == []; }
  }

  /* ------------------------------ helper lemmas ------------------------------ */

  /** Writing a nameless node at `a` and the element from `a` at the nameless `b` keeps the names. */
  lemma MovedNames(line: seq<MathValue>, a: nat, b: nat, node: MathValue, moved: MathValue)
    requires a <= b < |line|
    requires NameOf(node) == multiset{} && NameOf(line[b]) == multiset{}
    requires NameOf(moved) == NameOf(line[a])
    ensures Names(line[a := node][b := moved]) == Names(line)
  {
    var first := line[a := node];
    NamesUpdate(line, a, node);
    NamesUpdate(first, b, moved);
    if a != b {
      assert first[b] == line[b];
      assert Names(first) + NameOf(line[a]) == Names(line);
      assert Names(first[b := moved]) == Names(first) + NameOf(moved);
    }
  }

  lemma ValidTasksAppend(tasks: seq<ParseStep>, more: seq<ParseStep>, n: nat)
    requires ValidTasks(tasks, n) && ValidTasks(more, n)
    ensures ValidTasks(tasks + more, n)
  {
    var all := tasks + more;
    forall k | 0 <= k < |all| ensures ValidStep(all[k], n) {
      if k >= |tasks| { assert all[k] == more[k - |tasks|]; }
    }
  }

  lemma TasksWeightPush(tasks: seq<ParseStep>, step: ParseStep)
    ensures TasksWeight(tasks + [step]) == TasksWeight(tasks) + Weight(step)
  {
    assert (tasks + [step])[..|tasks|] == tasks;
  }

  /** Splitting a block of width w gives tasks of total weight 3w, one less than the block's. */
  lemma SplitWeight(range: IndexRange, i: nat, tasks: seq<ParseStep>)
    requires range.from < i < range.to
    ensures TasksWeight(MakeTasksFromOp(range, i, tasks)) < TasksWeight(tasks) + Weight(BlockSolving(range))
  {
    var a := OperatorReading(range, i);
    var b := BlockSolving(IndexRange(range.from, i));
    var c := BlockSolving(IndexRange(i + 1, range.to));
    TasksWeightPush(tasks, a);
    TasksWeightPush(tasks + [a], b);
    TasksWeightPush(tasks + [a] + [b], c);
    assert MakeTasksFromOp(range, i, tasks) == tasks + [a] + [b] + [c];
  }

  /** The fold consumes one `)` and creates none. */
  lemma FoldedCloseCount(line: seq<MathValue>, o: nat, c: nat, inside: seq<MathValue>)
    requires o < c < |line|
    requires line[o] == Operator('(') && line[c] == Operator(')')
    requires NoCloseBefore(line, c)
    requires |inside| == c - o - 1 >= 1
    requires NoCloseAnywhere(line[o + 1..c]) ==> NoCloseAnywhere(inside)
    ensures CloseCount(line[..o] + [ParenOpen(1)] + inside + [ParenClose(c - o - 1)] + line[c + 1..]) < CloseCount(line)
  {
    assert line == line[..o] + [line[o]] + line[o + 1..c] + [line[c]] + line[c + 1..];
    assert line[o + 1..c] == line[..c][o + 1..];
    assert Operator(')') !in multiset(inside);
    assert Operator(')') !in multiset(line[o + 1..c]);
  }

  lemma FoldedNames(line: seq<MathValue>, o: nat, c: nat, inside: seq<MathValue>)
    requires o < c < |line|
    requires line[o] == Operator('(') && line[c] == Operator(')')
    requires Names(inside) == Names(line[o + 1..c])
    requires c - o - 1 >= 1
    ensures Names(line[..o] + [ParenOpen(1)] + inside + [ParenClose(c - o - 1)] + line[c + 1..]) == Names(line)
  {
    var a, b := line[..o], line[c + 1..];
    assert line == a + [line[o]] + line[o + 1..c] + [line[c]] + b;
    NamesConcat(a + [line[o]] + line[o + 1..c] + [line[c]], b);
    NamesConcat(a + [line[o]] + line[o + 1..c], [line[c]]);
    NamesConcat(a + [line[o]], line[o + 1..c]);
    NamesConcat(a, [line[o]]);
    NamesConcat(a + [ParenOpen(1)] + inside + [ParenClose(c - o - 1)], b);
    NamesConcat(a + [ParenOpen(1)] + inside, [ParenClose(c - o - 1)]);
    NamesConcat(a + [ParenOpen(1)], inside);
    NamesConcat(a, [ParenOpen(1)]);
  }

  predicate NoCloseAnywhere(line: seq<MathValue>) {
    Operator(')') !in line
  }
}
