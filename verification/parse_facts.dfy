/**
  What the three parser passes compute, stated against independent
  references: a per-token rule for unary tagging, first/last searches for
  the group that is folded, and "rightmost operator of the loosest tier
  outside any group" for the binary split.
 */
module ParseFacts {
  import opened Errors
  import opened MachineInt
  import opened Tokenize
  import opened Parse

  /* ------------------------------ unary pass ------------------------------ */

  /** One iteration of the loop does what the per-token rule says. */
  lemma UnaryLoopStep(cur: seq<MathValue>, i: nat, p: bool)
    requires i < |cur|
    ensures UnaryStep(cur[i], p).Err? ==> UnaryLoop(cur, i, p) == Err(UnaryStep(cur[i], p).error)
    ensures UnaryStep(cur[i], p).Ok? ==>
      UnaryLoop(cur, i, p) == UnaryLoop(cur[i := UnaryStep(cur[i], p).value], i + 1, FlagAfter(cur[i], p))
  {
    assert cur[i := cur[i]] == cur;
  }

  /** What the unary loop run from `i` on promises about its outcome `r`, in terms of the per-token rule. */
  predicate UnaryLoopMeets(orig: seq<MathValue>, i: nat, r: Result<seq<MathValue>>) {
    && (r.Ok? <==> forall j :: i <= j < |orig| ==> UnaryStep(orig[j], PrevOperator(orig, j)).Ok?)
    && (r.Ok? ==> (|r.value| == |orig| &&
         forall j :: 0 <= j < |orig| ==> UnaryStep(orig[j], PrevOperator(orig, j)) == Ok(r.value[j])))
    && (r.Err? ==> exists j :: i <= j < |orig| && UnaryStep(orig[j], PrevOperator(orig, j)) == Err(r.error)
                              && forall k :: i <= k < j ==> UnaryStep(orig[k], PrevOperator(orig, k)).Ok?)
  }

  /** A token the rule rejects ends the loop with its error. */
  lemma UnaryLoopMeetsFail(orig: seq<MathValue>, i: nat, r: Result<seq<MathValue>>)
    requires i < |orig| && r.Err? && UnaryStep(orig[i], PrevOperator(orig, i)) == Err(r.error)
    ensures UnaryLoopMeets(orig, i, r)
  {
  }

  /** A token the rule accepts extends what the rest of the loop promises by one position. */
  lemma UnaryLoopMeetsPass(orig: seq<MathValue>, i: nat, r: Result<seq<MathValue>>)
    requires i < |orig| && UnaryStep(orig[i], PrevOperator(orig, i)).Ok?
    requires UnaryLoopMeets(orig, i + 1, r)
    ensures UnaryLoopMeets(orig, i, r)
  {
    if r.Err? {
      var j :| i + 1 <= j < |orig| && UnaryStep(orig[j], PrevOperator(orig, j)) == Err(r.error)
               && forall k :: i + 1 <= k < j ==> UnaryStep(orig[k], PrevOperator(orig, k)).Ok?;
      assert forall k :: i <= k < j ==> UnaryStep(orig[k], PrevOperator(orig, k)).Ok?;
    }
  }

  lemma {:induction false} UnaryLoopSpec(orig: seq<MathValue>, cur: seq<MathValue>, i: nat)
    requires |cur| == |orig| && i <= |orig|
    requires forall j :: i <= j < |orig| ==> cur[j] == orig[j]
    requires forall j :: 0 <= j < i ==> UnaryStep(orig[j], PrevOperator(orig, j)) == Ok(cur[j])
    ensures UnaryLoopMeets(orig, i, UnaryLoop(cur, i, PrevOperator(orig, i)))
    decreases |orig| - i
  {
    var r := UnaryLoop(cur, i, PrevOperator(orig, i));
    if i < |orig| {
      var p := PrevOperator(orig, i);
      UnaryLoopStep(cur, i, p);
      var step := UnaryStep(orig[i], p);
      if step.Ok? {
        var next := cur[i := step.value];
        assert PrevOperator(orig, i + 1) == FlagAfter(cur[i], p);
        UnaryLoopSpec(orig, next, i + 1);
        UnaryLoopMeetsPass(orig, i, r);
      } else {
        UnaryLoopMeetsFail(orig, i, r);
      }
    } else {
      assert r == Ok(cur);
      assert forall j :: 0 <= j < |orig| ==> UnaryStep(orig[j], PrevOperator(orig, j)) == Ok(r.value[j]);
    }
  }

  /**
    The unary pass is the per-token rule applied at every position, each token
    judged by whether it stands in operand position in the original line; it
    fails with the error of the first token the rule rejects.
   */
  lemma UnaryParseIsPointwise(line: seq<MathValue>)
    ensures UnaryParse(line).Ok? <==> forall j :: 0 <= j < |line| ==> UnaryStep(line[j], PrevOperator(line, j)).Ok?
    ensures UnaryParse(line).Ok? ==>
      |UnaryParse(line).value| == |line| &&
      forall j :: 0 <= j < |line| ==> UnaryStep(line[j], PrevOperator(line, j)) == Ok(UnaryParse(line).value[j])
    ensures UnaryParse(line).Err? ==>
      exists j :: 0 <= j < |line| && UnaryStep(line[j], PrevOperator(line, j)) == Err(UnaryParse(line).error)
                && forall k :: 0 <= k < j ==> UnaryStep(line[k], PrevOperator(line, k)).Ok?
  {
    UnaryLoopSpec(line, line, 0);
  }

  /**
    A `+`, `-` or `!` in operand position becomes a unary operation pointing
    at the next element; any other binary operator there is misplaced.
   */
  lemma OperandPositionRule(line: seq<MathValue>, j: nat)
    requires j < |line| && line[j].Operator? && PrevOperator(line, j)
    ensures IsUnaryCandidate(line[j].c) ==>
      UnaryStep(line[j], true) == Ok(UnaryOperation(UnaryGlyph(line[j].c), 1))
    ensures !IsUnaryCandidate(line[j].c) && line[j].c != '(' && line[j].c != ')' ==>
      UnaryStep(line[j], true) == Err(MisplacedOperator(line[j].c))
  {
  }

  /* ---------------------------- parenthesis pass ---------------------------- */

  /** Reading a token other than a parenthesis keeps the loop's invariants. */
  lemma PassOver(line: seq<MathValue>, i: nat)
    requires i < |line| && line[i] != Operator(')') && NoCloseBefore(line, i)
    ensures NoCloseBefore(line, i + 1)
  {
    assert line[..i + 1] == line[..i] + [line[i]];
  }

  lemma {:induction false} LoopWithoutClose(line: seq<MathValue>, i: nat, open: Option<nat>)
    requires i <= |line|
    requires open.Some? ==> open.value < i && line[open.value] == Operator('(') && NoOpenBetween(line, open.value + 1, i)
    requires open.None? ==> NoOpenBetween(line, 0, i)
    requires NoCloseBefore(line, i)
    requires Operator(')') !in line[i..]
    ensures SingleParenLoop(line, i, open) ==
      (if open.Some? || Operator('(') in line[i..] then Err(UnclosedParenthesis) else Ok((false, line)))
    decreases |line| - i
  {
    if i < |line| {
      assert line[i..] == [line[i]] + line[i + 1..];
      PassOver(line, i);
      if line[i] == Operator('(') {
        LoopWithoutClose(line, i + 1, Some(i));
      } else {
        LoopWithoutClose(line, i + 1, open);
      }
    }
  }

  lemma {:induction false} LoopUnopened(line: seq<MathValue>, i: nat, c: nat)
    requires i <= c < |line| && line[c] == Operator(')')
    requires NoOpenBetween(line, 0, i) && NoCloseBefore(line, i)
    requires Operator(')') !in line[i..c] && Operator('(') !in line[i..c]
    ensures SingleParenLoop(line, i, None) == Err(UnopenedParenthesis)
    decreases c - i
  {
    if i < c {
      assert line[i] == line[i..c][0];
      PassOver(line, i);
      assert line[i + 1..c] == line[i..c][1..];
      LoopUnopened(line, i + 1, c);
    }
  }

  lemma {:induction false} LoopFolds(line: seq<MathValue>, i: nat, open: Option<nat>, o: nat, c: nat)
    requires o < c < |line| && i <= c
    requires line[o] == Operator('(') && line[c] == Operator(')')
    requires Operator('(') !in line[o + 1..c]
    requires Operator(')') !in line[i..c]
    requires open.Some? ==> open.value < i && line[open.value] == Operator('(') && NoOpenBetween(line, open.value + 1, i)
    requires open.None? ==> NoOpenBetween(line, 0, i)
    requires NoCloseBefore(line, i)
    requires o < i ==> open == Some(o)
    ensures SingleParenLoop(line, i, open) == FoldGroup(line, o, c)
    decreases c - i
  {
    if i < c {
      assert line[i] == line[i..c][0];
      PassOver(line, i);
      assert line[i + 1..c] == line[i..c][1..];
      if line[i] != Operator('(') {
        LoopFolds(line, i + 1, open, o, c);
      } else if i <= o {
        LoopFolds(line, i + 1, Some(i), o, c);
      }
    }
  }

  /**
    `single_paren_parse` in terms of searches: with no `)` the line is left
    alone unless a `(` is unclosed; otherwise the first `)` closes the last
    `(` before it, or is unopened if there is none.
   */
  lemma SingleParenParseCases(line: seq<MathValue>)
    ensures Operator(')') !in line ==>
      SingleParenParse(line) == (if Operator('(') in line then Err(UnclosedParenthesis) else Ok((false, line)))
    ensures forall c: nat :: c < |line| && line[c] == Operator(')') && Operator(')') !in line[..c] ==>
      (Operator('(') !in line[..c] ==> SingleParenParse(line) == Err(UnopenedParenthesis)) &&
      (forall o: nat :: o < c && line[o] == Operator('(') && Operator('(') !in line[o + 1..c] ==>
         SingleParenParse(line) == FoldGroup(line, o, c))
  {
    assert line[0..] == line;
    if Operator(')') !in line {
      LoopWithoutClose(line, 0, None);
    }
    forall c: nat | c < |line| && line[c] == Operator(')') && Operator(')') !in line[..c]
      ensures Operator('(') !in line[..c] ==> SingleParenParse(line) == Err(UnopenedParenthesis)
      ensures forall o: nat :: o < c && line[o] == Operator('(') && Operator('(') !in line[o + 1..c] ==>
         SingleParenParse(line) == FoldGroup(line, o, c)
    {
      assert line[0..c] == line[..c];
      if Operator('(') !in line[..c] { LoopUnopened(line, 0, c); }
      forall o: nat | o < c && line[o] == Operator('(') && Operator('(') !in line[o + 1..c]
        ensures SingleParenParse(line) == FoldGroup(line, o, c)
      {
        LoopFolds(line, 0, None, o, c);
      }
    }
  }

  /* -------------------------- binary operator pass -------------------------- */

  predicate TierOpAt(line: seq<MathValue>, ops: seq<char>, j: int)
    requires 0 <= j < |line|
  {
    line[j].Operator? && line[j].c in ops
  }

  /**
    Position `j` lies strictly inside a folded group whose `ParenClose` is at
    some `k <= hi`: the scan jumps from `k` to below `j`.
   */
  predicate Covered(line: seq<MathValue>, j: int, hi: int)
    requires hi < |line|
  {
    exists k :: 0 <= j < k <= hi && line[k].ParenClose? && k - line[k].size < j
  }

  /** An operator of the tier that the scan of `range` can see: in the scanned window, outside every group. */
  predicate Exposed(line: seq<MathValue>, ops: seq<char>, range: IndexRange, j: int)
    requires range.to <= |line|
  {
    range.from + 1 <= j <= range.to - 2 && TierOpAt(line, ops, j) && !Covered(line, j, range.to - 2)
  }

  /**
    The scan misses no operator of the tier outside groups: every such
    operator lies at or left of what it returns, and none is there if it
    returns nothing.
   */
  /** Every operator of the tier in the window, right of what the scan returned, is inside a group. */
  predicate MissedCovered(line: seq<MathValue>, ops: seq<char>, from: nat, index: int, r: Option<nat>)
    requires index < |line|
  {
    forall j :: from + 1 <= j <= index && TierOpAt(line, ops, j) && (r.None? || r.value < j) ==> Covered(line, j, index)
  }

  /** Stepping over a whole group keeps the operators behind it covered. */
  lemma CoveredPastGroup(line: seq<MathValue>, ops: seq<char>, from: nat, index: int, r: Option<nat>)
    requires 0 <= index < |line| && line[index].ParenClose?
    requires MissedCovered(line, ops, from, index - line[index].size, r)
    ensures MissedCovered(line, ops, from, index, r)
  {
    var size := line[index].size;
    forall j | from + 1 <= j <= index && TierOpAt(line, ops, j) && (r.None? || r.value < j)
      ensures Covered(line, j, index)
    {
      if j <= index - size {
        var k :| 0 <= j < k <= index - size && line[k].ParenClose? && k - line[k].size < j;
      } else {
        assert index - line[index].size < j < index;
      }
    }
  }

  /** Stepping over a value that is not an operator of the tier keeps the operators behind it covered. */
  lemma CoveredPastOther(line: seq<MathValue>, ops: seq<char>, from: nat, index: int, r: Option<nat>)
    requires 0 <= index < |line| && !TierOpAt(line, ops, index)
    requires MissedCovered(line, ops, from, index - 1, r)
    ensures MissedCovered(line, ops, from, index, r)
  {
    forall j | from + 1 <= j <= index && TierOpAt(line, ops, j) && (r.None? || r.value < j)
      ensures Covered(line, j, index)
    {
      var k :| 0 <= j < k <= index - 1 && line[k].ParenClose? && k - line[k].size < j;
    }
  }

  /**
    The scan misses no operator of the tier outside groups: every such
    operator lies at or left of what it returns, and none is there if it
    returns nothing.
   */
  lemma {:induction false} ScanFromRightmost(line: seq<MathValue>, ops: seq<char>, from: nat, index: int)
    requires index < |line|
    ensures forall j :: from + 1 <= j <= index && TierOpAt(line, ops, j) &&
                        (ScanFrom(line, ops, from, index).None? || ScanFrom(line, ops, from, index).value < j)
                     ==> Covered(line, j, index)
    decreases index - from
  {
    if index >= from + 1 {
      var r := ScanFrom(line, ops, from, index);
      match line[index]
      case ParenClose(size) =>
        assert r == ScanFrom(line, ops, from, index - size);
        ScanFromRightmost(line, ops, from, index - size);
        CoveredPastGroup(line, ops, from, index, r);
      case _ =>
        if !TierOpAt(line, ops, index) {
          assert r == ScanFrom(line, ops, from, index - 1);
          ScanFromRightmost(line, ops, from, index - 1);
          CoveredPastOther(line, ops, from, index, r);
        }
    }
  }

  /**
    The split the block takes: an operator of some tier `t` with no exposed
    operator of that tier to its right, and no exposed operator of any
    looser tier in the whole window.
   */
  ghost predicate LoosestRightmost(line: seq<MathValue>, range: IndexRange, i: int)
    requires range.to <= |line|
  {
    && range.from + 1 <= i <= range.to - 2
    && (exists t :: 0 <= t < |TIERS| && TierOpAt(line, TIERS[t], i)
         && (forall j :: i < j ==> !Exposed(line, TIERS[t], range, j))
         && (forall u, j :: 0 <= u < t ==> !Exposed(line, TIERS[u], range, j)))
  }

  lemma {:induction false} TierLoopSplits(line: seq<MathValue>, k: nat, range: IndexRange, tasks: seq<ParseStep>)
    requires k <= |TIERS|
    requires range.from + 2 <= range.to <= |line|
    requires ValidTasks(tasks, |line|)
    requires forall u, j :: 0 <= u < k ==> !Exposed(line, TIERS[u], range, j)
    ensures var r := TierLoop(line, TIERS[k..], range, tasks);
      && r.Ok?
      && (r.value == tasks ==> forall t, j :: 0 <= t < |TIERS| ==> !Exposed(line, TIERS[t], range, j))
      && (r.value != tasks ==> exists i: nat :: LoosestRightmost(line, range, i) && r.value == MakeTasksFromOp(range, i, tasks))
    decreases |TIERS| - k
  {
    if k < |TIERS| {
      var ops := TIERS[k];
      assert TIERS[k..][0] == ops;
      assert TIERS[k..][1..] == TIERS[k + 1..];
      ScanFromRightmost(line, ops, range.from, range.to - 2);
      var found := ScanFrom(line, ops, range.from, range.to - 2);
      if found.Some? {
        var i := found.value;
        assert TierLoop(line, TIERS[k..], range, tasks) == Ok(MakeTasksFromOp(range, i, tasks));
        assert |MakeTasksFromOp(range, i, tasks)| > |tasks|;
        assert LoosestRightmost(line, range, i) by {
          assert TierOpAt(line, TIERS[k], i);
          assert forall j :: i < j ==> !Exposed(line, TIERS[k], range, j);
        }
      } else {
        assert TierLoop(line, TIERS[k..], range, tasks) == TierLoop(line, TIERS[k + 1..], range, tasks);
        TierLoopSplits(line, k + 1, range, tasks);
      }
    }
  }

  /**
    `solve_block`: an empty block, or a lone sentinel, is an empty line; a
    single element needs nothing; otherwise the block splits at the rightmost
    operator of the loosest tier found outside groups, or is left alone when
    there is none.
   */
  lemma SolveBlockSplits(line: seq<MathValue>, range: IndexRange, tasks: seq<ParseStep>)
    requires range.from <= range.to <= |line|
    requires ValidTasks(tasks, |line|)
    ensures var r := SolveBlock(line, range, tasks);
      && (r.Err? <==> range.to == range.from || (range.to == range.from + 1 && line[range.from] == TrailingError))
      && (r.Err? ==> r.error == EmptyLine)
      && (r.Ok? && r.value == tasks ==>
            range.to == range.from + 1 || forall t, j :: 0 <= t < |TIERS| ==> !Exposed(line, TIERS[t], range, j))
      && (r.Ok? && r.value != tasks ==>
            exists i: nat :: LoosestRightmost(line, range, i) && r.value == MakeTasksFromOp(range, i, tasks))
  {
    assert TIERS[0..] == TIERS;
    if range.to >= range.from + 2 {
      TierLoopSplits(line, 0, range, tasks);
    }
  }

  /* ---------------------------------- make_op ---------------------------------- */

  /** The absolute positions a node's offsets point at when it sits at `at`. */
  function Targets(v: MathValue, at: int): seq<int> {
    match v
    case ParenOpen(o) => [at + o]
    case Operation(_, a, b) => [at + a, at + b]
    case UnaryOperation(_, o) => [at + o]
    case _ => []
  }

  /** A node with its offsets forgotten: its kind, glyph and text. */
  function Unpointed(v: MathValue): MathValue {
    match v
    case ParenOpen(_) => ParenOpen(0)
    case Operation(c, _, _) => Operation(c, 0, 0)
    case UnaryOperation(c, _) => UnaryOperation(c, 0)
    case _ => v
  }

  /**
    `make_op` writes an operation at the front of the range that points at
    the operator's old position (where the left part's header now is) and
    just after it (the right part); the header keeps its kind and still
    points at the same absolute positions; nothing else moves.
   */
  lemma MakeOpMovesHeader(line: seq<MathValue>, range: IndexRange, index: nat)
    requires range.from < index < |line| && line[index].Operator?
    requires index - range.from < I64_MAX
    requires forall t :: t in Targets(line[range.from], range.from) ==> I64_MIN <= t - index <= I64_MAX
    ensures MakeOp(line, range, index).Ok?
    ensures var r := MakeOp(line, range, index).value;
      && r[range.from].Operation? && r[range.from].op == line[index].c
      && Targets(r[range.from], range.from) == [index, index + 1]
      && Unpointed(r[index]) == Unpointed(line[range.from])
      && Targets(r[index], index) == Targets(line[range.from], range.from)
      && forall k :: 0 <= k < |line| && k != range.from && k != index ==> r[k] == line[k]
  {
    var h := line[range.from];
    var offset := index - range.from;
    ShiftKeepsTargets(h, range.from, index);
    var r := MakeOp(line, range, index).value;
    assert r == line[range.from := Operation(line[index].c, offset, Wrap(offset + 1))][index := Shift(h, offset)];
    assert Wrap(offset + 1) == offset + 1;
  }

  /** Moving a header from `from` to `index` keeps its kind and the absolute positions it points at. */
  lemma ShiftKeepsTargets(h: MathValue, from: nat, index: nat)
    requires from < index && index - from < I64_MAX
    requires forall t :: t in Targets(h, from) ==> I64_MIN <= t - index <= I64_MAX
    ensures Unpointed(Shift(h, index - from)) == Unpointed(h)
    ensures Targets(Shift(h, index - from), index) == Targets(h, from)
  {
    match h
    case ParenOpen(o) => assert from + o in Targets(h, from);
    case Operation(_, a, b) =>
      assert from + a in Targets(h, from);
      assert from + b in Targets(h, from);
    case UnaryOperation(_, o) => assert from + o in Targets(h, from);
    case _ =>
  }

  /* --------------------------------- the whole --------------------------------- */

  lemma UnaryParseKeepsNames(line: seq<MathValue>)
    requires UnaryParse(line).Ok?
    ensures Names(UnaryParse(line).value) == Names(line)
  {
    UnaryParseIsPointwise(line);
    NamesPointwise(line, UnaryParse(line).value);
  }

  lemma {:induction false} NamesPointwise(a: seq<MathValue>, b: seq<MathValue>)
    requires |a| == |b|
    requires forall j :: 0 <= j < |a| ==> UnaryStep(a[j], PrevOperator(a, j)) == Ok(b[j])
    ensures Names(a) == Names(b)
  {
    forall j | 0 <= j < |a| ensures NameOf(a[j]) == NameOf(b[j]) {
      assert UnaryStep(a[j], PrevOperator(a, j)) == Ok(b[j]);
    }
    SameNamesAt(a, b);
  }

  lemma {:induction false} SameNamesAt(a: seq<MathValue>, b: seq<MathValue>)
    requires |a| == |b|
    requires forall j :: 0 <= j < |a| ==> NameOf(a[j]) == NameOf(b[j])
    ensures Names(a) == Names(b)
    decreases |a|
  {
    if |a| > 0 {
      SameNamesAt(a[1..], b[1..]);
    }
  }

  /**
    Parsing only rearranges: the line keeps its length and holds the same
    names, each as often as before.
   */
  lemma MathParseTokensKeepsNames(line: seq<MathValue>)
    requires MathParseTokens(line).Ok?
    ensures |MathParseTokens(line).value| == |line|
    ensures Names(MathParseTokens(line).value) == Names(line)
  {
    UnaryParseIsPointwise(line);
    UnaryParseKeepsNames(line);
  }
}
