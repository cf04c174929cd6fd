/**
  `parse_rpn` of the positional tree: the parser's flat line, whose nodes
  point at their operands by relative offsets, is turned into a postfix
  instruction list with an explicit work stack.

  The work-stack loop is a method; what it computes is stated by `Walk`, a
  depth-first traversal from the root. Following offsets may leave the line
  (where `parse_rpn` indexes `line` out of bounds) or run in a cycle, so `Walk`
  carries a depth bound and reports `CutOff` when it is exceeded; the method
  requires that the traversal from index 0 finishes within `|line|` nested
  steps, which every in-bounds, acyclic line meets.
 */
module Rpn {
  import opened Errors
  import opened MachineInt
  import opened Utils
  import opened Tokenize
  import opened Operators
  import opened RpnStack
  import opened Trees

  /** The text after the token in the internal bug of `rpn_solve`. */
  const RPN_SOLVE_BUG: string := " should not have been handled by rpn_solve. It should have been replaced earlier."

  /** The text after the token in the internal bug of `read_operator`. */
  const RPN_OPERATOR_BUG: string := " should not have been handled by rpn_operator."

  /* --------------------------------- helpers --------------------------------- */

  /** `char::is_whitespace`: the Unicode White_Space property. */
  predicate IsWhitespace(c: char) {
    ('\t' <= c <= '\r') || c == ' ' || c == '\U{0085}' || c == '\U{00A0}' || c == '\U{1680}'
    || ('\U{2000}' <= c <= '\U{200A}') || c == '\U{2028}' || c == '\U{2029}' || c == '\U{202F}'
    || c == '\U{205F}' || c == '\U{3000}'
  }

  /** `remove_whitespace`. */
  function RemoveWhitespace(s: string): (r: string)
    ensures |r| <= |s|
    ensures forall k :: 0 <= k < |r| ==> !IsWhitespace(r[k])
    ensures forall c :: c in r ==> c in s
    ensures forall k :: 0 <= k < |s| && !IsWhitespace(s[k]) ==> s[k] in r
  {
    if |s| == 0 then []
    else if IsWhitespace(s[0]) then RemoveWhitespace(s[1..])
    else [s[0]] + RemoveWhitespace(s[1..])
  }

  /** Removing whitespace works piece by piece. */
  lemma {:induction false} RemoveWhitespaceAppend(a: string, b: string)
    ensures RemoveWhitespace(a + b) == RemoveWhitespace(a) + RemoveWhitespace(b)
    decreases |a|
  {
    if |a| > 0 {
      assert (a + b)[0] == a[0];
      assert (a + b)[1..] == a[1..] + b;
      RemoveWhitespaceAppend(a[1..], b);
    } else {
      assert a + b == b;
    }
  }

  /** One character is dropped when it is whitespace and kept otherwise. */
  lemma RemoveWhitespaceSingle(c: char)
    ensures RemoveWhitespace([c]) == if IsWhitespace(c) then [] else [c]
  {
    assert [c][1..] == [];
  }

  /** So removing whitespace keeps exactly the other characters, in order: it is the filter. */
  lemma {:induction false} RemoveWhitespaceFilters(s: string, c: char)
    ensures RemoveWhitespace(s + [c]) == RemoveWhitespace(s) + (if IsWhitespace(c) then [] else [c])
  {
    RemoveWhitespaceAppend(s, [c]);
    RemoveWhitespaceSingle(c);
  }

  /** A text without whitespace is kept as it is; so removing twice is removing once. */
  lemma {:induction false} RemoveWhitespaceKeeps(s: string)
    requires forall k :: 0 <= k < |s| ==> !IsWhitespace(s[k])
    ensures RemoveWhitespace(s) == s
    decreases |s|
  {
    if |s| > 0 {
      RemoveWhitespaceKeeps(s[1..]);
    }
  }

  lemma RemoveWhitespaceIdempotent(s: string)
    ensures RemoveWhitespace(RemoveWhitespace(s)) == RemoveWhitespace(s)
  {
    RemoveWhitespaceKeeps(RemoveWhitespace(s));
  }

  /** `add_index_offset`: `index + offset` as an index, or an internal bug when it is negative. */
  function AddIndexOffset(index: nat, offset: isize): (r: Result<nat>)
    ensures index <= I64_MAX && I64_MIN <= index + offset <= I64_MAX ==>
              (r.Ok? <==> index + offset >= 0) && (r.Ok? ==> r.value == index + offset)
    ensures index > I64_MAX ==> r.Err? && r.error.MathParseInternalBug?
    ensures r.Err? ==> r.error.MathParseInternalBug?
  {
    var i :- UToI(index);
    var u :- IToU(WrapAdd(i, offset));
    Ok(u)
  }

  /** `read_operator`: the instruction of an operation node, through the operator lookups. */
  function ReadOperator(line: seq<MathValue>, index: nat, table: OperatorTable): (r: Result<RPN>)
    requires index < |line|
    ensures line[index].Operation? ==>
              && (r.Ok? <==> table.binaryFromChar(line[index].op).Ok?)
              && (r.Ok? ==> r.value == RPN.Binary(table.binaryFromChar(line[index].op).value))
    ensures line[index].UnaryOperation? ==>
              && (r.Ok? <==> table.unaryFromChar(line[index].op).Ok?)
              && (r.Ok? ==> r.value == RPN.Unary(table.unaryFromChar(line[index].op).value))
    ensures !line[index].Operation? && !line[index].UnaryOperation? ==> IsInternalBug(r)
  {
    match line[index]
    case Operation(x, _, _) =>
      var op :- table.binaryFromChar(x);
      Ok(RPN.Binary(op))
    case UnaryOperation(x, _) =>
      var op :- table.unaryFromChar(x);
      Ok(RPN.Unary(op))
    case _ => Err(MathParseInternalBug(RPN_OPERATOR_BUG))
  }

  /* ------------------------- the reference traversal ------------------------- */

  /** A traversal either finishes with `parse_rpn`'s result or is cut off by the depth bound or the line's end. */
  datatype Walked = Finished(result: Result<seq<RPN>>) | CutOff {
    predicate Good() { Finished? && result.Ok? }
  }

  /** Run `a`, then `b`: the first one that does not finish well decides, otherwise the outputs are concatenated. */
  function Then(a: Walked, b: Walked): (r: Walked)
    ensures r.Good() <==> a.Good() && b.Good()
    ensures r.Good() ==> r.result.value == a.result.value + b.result.value
    ensures !a.Good() ==> r == a
  {
    if !a.Good() then a
    else if !b.Good() then b
    else Finished(Ok(a.result.value + b.result.value))
  }

  lemma ThenAssociative(a: Walked, b: Walked, c: Walked)
    ensures Then(Then(a, b), c) == Then(a, Then(b, c))
  {
    if a.Good() && b.Good() && c.Good() {
      assert a.result.value + b.result.value + c.result.value == a.result.value + (b.result.value + c.result.value);
    }
  }

  /** The empty output is `Then`'s unit on both sides. */
  lemma ThenUnit(w: Walked)
    ensures Then(Finished(Ok([])), w) == w && Then(w, Finished(Ok([]))) == w
  {
    if w.Good() {
      assert [] + w.result.value == w.result.value + [] == w.result.value;
    }
  }

  /** Emitting one instruction, or the error that computing it gave. */
  function Emit(op: Result<RPN>): (r: Walked)
    ensures r.Good() <==> op.Ok?
    ensures r.Good() ==> r.result.value == [op.value]
    ensures op.Err? ==> r == Finished(Err(op.error))
  {
    match op
    case Ok(x) => Finished(Ok([x]))
    case Err(e) => Finished(Err(e))
  }

  /**
    Depth-first traversal from `i`: a name emits itself; an operation emits
    its left operand, its right operand, then itself; a unary operation its
    operand then itself; a `ParenOpen` only what it points at. The right
    offset of an operation is resolved before the left one, as `parse_rpn`
    pushes them.
   */
  function Walk(line: seq<MathValue>, i: nat, fuel: nat, table: OperatorTable): Walked
    decreases fuel
  {
    if fuel == 0 || i >= |line| then CutOff
    else match line[i]
      case Name(n) => Finished(Ok([RPN.Name(RemoveWhitespace(n))]))
      case Operation(_, a, b) =>
        if AddIndexOffset(i, b).Err? then Finished(Err(AddIndexOffset(i, b).error))
        else if AddIndexOffset(i, a).Err? then Finished(Err(AddIndexOffset(i, a).error))
        else Then(Then(Walk(line, AddIndexOffset(i, a).value, fuel - 1, table),
                       Walk(line, AddIndexOffset(i, b).value, fuel - 1, table)),
                  Emit(ReadOperator(line, i, table)))
      case UnaryOperation(_, a) =>
        if AddIndexOffset(i, a).Err? then Finished(Err(AddIndexOffset(i, a).error))
        else Then(Walk(line, AddIndexOffset(i, a).value, fuel - 1, table), Emit(ReadOperator(line, i, table)))
      case ParenOpen(a) =>
        if AddIndexOffset(i, a).Err? then Finished(Err(AddIndexOffset(i, a).error))
        else Walk(line, AddIndexOffset(i, a).value, fuel - 1, table)
      case TrailingError => Finished(Err(TrailingOperator))
      case _ => Finished(Err(MathParseInternalBug(RPN_SOLVE_BUG)))
  }

  /** Two programs followed by a binary operator form a program. */
  lemma BinaryProgram(l: seq<RPN>, r: seq<RPN>, op: RPN)
    requires NeedsMet(0, l) && Net(l) == 1 && NeedsMet(0, r) && Net(r) == 1 && op.Binary?
    ensures NeedsMet(0, l + r + [op]) && Net(l + r + [op]) == 1
  {
    NeedsMetMonotone(0, 1, r);
    NeedsMetAppend(0, l, r);
    NetAppend(l, r);
    NeedsMetAppend(0, l + r, [op]);
    NetAppend(l + r, [op]);
    assert [op][1..] == [];
  }

  /** A program followed by a unary operator is a program. */
  lemma UnaryProgram(c: seq<RPN>, op: RPN)
    requires NeedsMet(0, c) && Net(c) == 1 && op.Unary?
    ensures NeedsMet(0, c + [op]) && Net(c + [op]) == 1
  {
    NeedsMetAppend(0, c, [op]);
    NetAppend(c, [op]);
    assert [op][1..] == [];
  }

  /** Whatever a finished traversal emits is a postfix list that never underflows and leaves one value. */
  lemma {:induction false} WalkIsProgram(line: seq<MathValue>, i: nat, fuel: nat, table: OperatorTable)
    requires Walk(line, i, fuel, table).Good()
    ensures NeedsMet(0, Walk(line, i, fuel, table).result.value)
    ensures Net(Walk(line, i, fuel, table).result.value) == 1
    decreases fuel
  {
    var out := Walk(line, i, fuel, table).result.value;
    var v := line[i];
    if v.Name? {
      assert out == [RPN.Name(RemoveWhitespace(v.text))];
      assert out[1..] == [];
    } else if v.Operation? {
      var ia := AddIndexOffset(i, v.left).value;
      var ib := AddIndexOffset(i, v.right).value;
      var wa := Walk(line, ia, fuel - 1, table);
      var wb := Walk(line, ib, fuel - 1, table);
      var e := Emit(ReadOperator(line, i, table));
      assert Walk(line, i, fuel, table) == Then(Then(wa, wb), e);
      WalkIsProgram(line, ia, fuel - 1, table);
      WalkIsProgram(line, ib, fuel - 1, table);
      BinaryProgram(wa.result.value, wb.result.value, ReadOperator(line, i, table).value);
    } else if v.UnaryOperation? {
      var ia := AddIndexOffset(i, v.offset).value;
      var wa := Walk(line, ia, fuel - 1, table);
      assert Walk(line, i, fuel, table) == Then(wa, Emit(ReadOperator(line, i, table)));
      WalkIsProgram(line, ia, fuel - 1, table);
      UnaryProgram(wa.result.value, ReadOperator(line, i, table).value);
    } else {
      assert v.ParenOpen?;
      WalkIsProgram(line, AddIndexOffset(i, v.offset).value, fuel - 1, table);
    }
  }

  /**
    So the list the traversal emits always folds into a tree, and that
    tree's post-order list is the emitted list itself.
   */
  lemma WalkBuildsTree(line: seq<MathValue>, i: nat, fuel: nat, table: OperatorTable)
    requires Walk(line, i, fuel, table).Good()
    ensures ParseToTree(Walk(line, i, fuel, table).result.value).Ok?
    ensures ToRpn(ParseToTree(Walk(line, i, fuel, table).result.value).value) == Walk(line, i, fuel, table).result.value
  {
    var out := Walk(line, i, fuel, table).result.value;
    WalkIsProgram(line, i, fuel, table);
    ParseToTreeSucceeds(out);
    ToRpnOfParseToTree(out);
  }

  /* ---------------------------- the work stack ---------------------------- */

  /** `RPNSteps`: a node still to traverse, or an operator still to emit. */
  datatype RpnStep = Solve(index: nat) | OperatorStep(at: nat)

  /** What a pending step contributes, given the depth bound it was pushed with. */
  function Contribution(line: seq<MathValue>, step: RpnStep, fuel: nat, table: OperatorTable): Walked {
    match step
    case Solve(j) => Walk(line, j, fuel, table)
    case OperatorStep(j) => if j < |line| then Emit(ReadOperator(line, j, table)) else CutOff
  }

  /** What the pending steps contribute, the top of the stack first. */
  function Rest(line: seq<MathValue>, steps: seq<RpnStep>, fuels: seq<nat>, table: OperatorTable): Walked
    requires |fuels| == |steps|
    decreases |steps|
  {
    if |steps| == 0 then Finished(Ok([]))
    else Then(Contribution(line, steps[|steps| - 1], fuels[|steps| - 1], table),
              Rest(line, steps[..|steps| - 1], fuels[..|steps| - 1], table))
  }

  lemma RestPush(line: seq<MathValue>, steps: seq<RpnStep>, fuels: seq<nat>, step: RpnStep, fuel: nat, table: OperatorTable)
    requires |fuels| == |steps|
    ensures Rest(line, steps + [step], fuels + [fuel], table) == Then(Contribution(line, step, fuel, table), Rest(line, steps, fuels, table))
  {
    assert (steps + [step])[..|steps|] == steps;
    assert (fuels + [fuel])[..|fuels|] == fuels;
  }

  /** The number of steps a pending step still takes, for termination. */
  function Size(line: seq<MathValue>, step: RpnStep, fuel: nat): nat {
    match step
    case OperatorStep(_) => 1
    case Solve(j) => NodeSize(line, j, fuel)
  }

  /** The number of steps the traversal of the node at `j` takes. */
  function NodeSize(line: seq<MathValue>, j: nat, fuel: nat): nat
    decreases fuel
  {
    if fuel == 0 || j >= |line| then 1
    else match line[j]
      case Operation(_, a, b) =>
        if AddIndexOffset(j, b).Err? || AddIndexOffset(j, a).Err? then 1
        else 2 + NodeSize(line, AddIndexOffset(j, a).value, fuel - 1) + NodeSize(line, AddIndexOffset(j, b).value, fuel - 1)
      case UnaryOperation(_, a) =>
        if AddIndexOffset(j, a).Err? then 1 else 2 + NodeSize(line, AddIndexOffset(j, a).value, fuel - 1)
      case ParenOpen(a) =>
        if AddIndexOffset(j, a).Err? then 1 else 1 + NodeSize(line, AddIndexOffset(j, a).value, fuel - 1)
      case _ => 1
  }

  function Load(line: seq<MathValue>, steps: seq<RpnStep>, fuels: seq<nat>): nat
    requires |fuels| == |steps|
    decreases |steps|
  {
    if |steps| == 0 then 0
    else Load(line, steps[..|steps| - 1], fuels[..|steps| - 1]) + Size(line, steps[|steps| - 1], fuels[|steps| - 1])
  }

  lemma LoadPush(line: seq<MathValue>, steps: seq<RpnStep>, fuels: seq<nat>, step: RpnStep, fuel: nat)
    requires |fuels| == |steps|
    ensures Load(line, steps + [step], fuels + [fuel]) == Load(line, steps, fuels) + Size(line, step, fuel)
  {
    assert (steps + [step])[..|steps|] == steps;
    assert (fuels + [fuel])[..|fuels|] == fuels;
  }

  /** One step of the traversal and of the size at an operation whose offsets resolve. */
  lemma OperationUnfolds(line: seq<MathValue>, j: nat, fuel: nat, ia: nat, ib: nat, table: OperatorTable)
    requires fuel >= 1 && j < |line| && line[j].Operation?
    requires AddIndexOffset(j, line[j].right) == Ok(ib) && AddIndexOffset(j, line[j].left) == Ok(ia)
    ensures Walk(line, j, fuel, table)
         == Then(Then(Walk(line, ia, fuel - 1, table), Walk(line, ib, fuel - 1, table)), Emit(ReadOperator(line, j, table)))
    ensures Size(line, Solve(j), fuel) == 2 + Size(line, Solve(ia), fuel - 1) + Size(line, Solve(ib), fuel - 1)
  {
  }

  /** One step of the traversal and of the size at a unary operation whose offset resolves. */
  lemma UnaryUnfolds(line: seq<MathValue>, j: nat, fuel: nat, ia: nat, table: OperatorTable)
    requires fuel >= 1 && j < |line| && line[j].UnaryOperation?
    requires AddIndexOffset(j, line[j].offset) == Ok(ia)
    ensures Walk(line, j, fuel, table) == Then(Walk(line, ia, fuel - 1, table), Emit(ReadOperator(line, j, table)))
    ensures Size(line, Solve(j), fuel) == 2 + Size(line, Solve(ia), fuel - 1)
  {
  }

  /** One step of the traversal and of the size at an opening parenthesis whose offset resolves. */
  lemma GroupUnfolds(line: seq<MathValue>, j: nat, fuel: nat, ia: nat, table: OperatorTable)
    requires fuel >= 1 && j < |line| && line[j].ParenOpen?
    requires AddIndexOffset(j, line[j].offset) == Ok(ia)
    ensures Walk(line, j, fuel, table) == Walk(line, ia, fuel - 1, table)
    ensures Size(line, Solve(j), fuel) == 1 + Size(line, Solve(ia), fuel - 1)
  {
  }

  /** Replacing an operation's step by its three steps keeps what the stack contributes and shrinks the load. */
  lemma SolveOperation(line: seq<MathValue>, below: seq<RpnStep>, belowFuels: seq<nat>,
                       j: nat, fuel: nat, ia: nat, ib: nat, table: OperatorTable)
    requires |belowFuels| == |below| && fuel >= 1 && j < |line| && line[j].Operation?
    requires AddIndexOffset(j, line[j].right) == Ok(ib) && AddIndexOffset(j, line[j].left) == Ok(ia)
    ensures Rest(line, below + [OperatorStep(j), Solve(ib), Solve(ia)], belowFuels + [0, fuel - 1, fuel - 1], table)
         == Rest(line, below + [Solve(j)], belowFuels + [fuel], table)
    ensures Load(line, below + [OperatorStep(j), Solve(ib), Solve(ia)], belowFuels + [0, fuel - 1, fuel - 1])
          < Load(line, below + [Solve(j)], belowFuels + [fuel])
  {
    var s1 := below + [OperatorStep(j)];
    var f1 := belowFuels + [0];
    var s2 := s1 + [Solve(ib)];
    var f2 := f1 + [fuel - 1];
    assert below + [OperatorStep(j), Solve(ib), Solve(ia)] == s2 + [Solve(ia)];
    assert belowFuels + [0, fuel - 1, fuel - 1] == f2 + [fuel - 1];
    OperationUnfolds(line, j, fuel, ia, ib, table);
    assert Contribution(line, OperatorStep(j), 0, table) == Emit(ReadOperator(line, j, table));
    OperationRest(line, below, belowFuels, OperatorStep(j), 0, Solve(ib), fuel - 1, Solve(ia), fuel - 1, Solve(j), fuel, table);
    OperationLoad(line, below, belowFuels, j, fuel, ia, ib);
  }

  /** Three pushed steps that together contribute what one step did leave the rest unchanged. */
  lemma OperationRest(line: seq<MathValue>, below: seq<RpnStep>, belowFuels: seq<nat>,
                      x: RpnStep, fx: nat, y: RpnStep, fy: nat, z: RpnStep, fz: nat, w: RpnStep, fw: nat, table: OperatorTable)
    requires |belowFuels| == |below|
    requires Contribution(line, w, fw, table)
          == Then(Then(Contribution(line, z, fz, table), Contribution(line, y, fy, table)), Contribution(line, x, fx, table))
    ensures Rest(line, below + [x] + [y] + [z], belowFuels + [fx] + [fy] + [fz], table)
         == Rest(line, below + [w], belowFuels + [fw], table)
  {
    RestPushThree(line, below, belowFuels, x, fx, y, fy, z, fz, table);
    RestPush(line, below, belowFuels, w, fw, table);
    ThenRegroup(Contribution(line, z, fz, table), Contribution(line, y, fy, table),
                Contribution(line, x, fx, table), Rest(line, below, belowFuels, table));
  }

  lemma RestPushThree(line: seq<MathValue>, steps: seq<RpnStep>, fuels: seq<nat>,
                      x: RpnStep, fx: nat, y: RpnStep, fy: nat, z: RpnStep, fz: nat, table: OperatorTable)
    requires |fuels| == |steps|
    ensures Rest(line, steps + [x] + [y] + [z], fuels + [fx] + [fy] + [fz], table)
         == Then(Contribution(line, z, fz, table), Then(Contribution(line, y, fy, table),
                 Then(Contribution(line, x, fx, table), Rest(line, steps, fuels, table))))
  {
    RestPush(line, steps + [x] + [y], fuels + [fx] + [fy], z, fz, table);
    RestPush(line, steps + [x], fuels + [fx], y, fy, table);
    RestPush(line, steps, fuels, x, fx, table);
  }

  /** Three outputs ahead of a rest, regrouped as the traversal of an operation produces them. */
  lemma ThenRegroup(wa: Walked, wb: Walked, e: Walked, below: Walked)
    ensures Then(wa, Then(wb, Then(e, below))) == Then(Then(Then(wa, wb), e), below)
  {
    ThenAssociative(Then(wa, wb), e, below);
    ThenAssociative(wa, wb, Then(e, below));
  }

  lemma OperationLoad(line: seq<MathValue>, below: seq<RpnStep>, belowFuels: seq<nat>, j: nat, fuel: nat, ia: nat, ib: nat)
    requires |belowFuels| == |below| && fuel >= 1
    requires Size(line, Solve(j), fuel) == 2 + Size(line, Solve(ia), fuel - 1) + Size(line, Solve(ib), fuel - 1)
    ensures Load(line, below + [OperatorStep(j)] + [Solve(ib)] + [Solve(ia)], belowFuels + [0] + [fuel - 1] + [fuel - 1])
          < Load(line, below + [Solve(j)], belowFuels + [fuel])
  {
    LoadPush(line, below + [OperatorStep(j)] + [Solve(ib)], belowFuels + [0] + [fuel - 1], Solve(ia), fuel - 1);
    LoadPushTwo(line, below, belowFuels, OperatorStep(j), 0, Solve(ib), fuel - 1);
    LoadPush(line, below, belowFuels, Solve(j), fuel);
  }

  /** Replacing a unary operation's step by its two steps keeps what the stack contributes and shrinks the load. */
  lemma SolveUnary(line: seq<MathValue>, below: seq<RpnStep>, belowFuels: seq<nat>,
                   j: nat, fuel: nat, ia: nat, table: OperatorTable)
    requires |belowFuels| == |below| && fuel >= 1 && j < |line| && line[j].UnaryOperation?
    requires AddIndexOffset(j, line[j].offset) == Ok(ia)
    ensures Rest(line, below + [OperatorStep(j), Solve(ia)], belowFuels + [0, fuel - 1], table)
         == Rest(line, below + [Solve(j)], belowFuels + [fuel], table)
    ensures Load(line, below + [OperatorStep(j), Solve(ia)], belowFuels + [0, fuel - 1])
          < Load(line, below + [Solve(j)], belowFuels + [fuel])
  {
    assert below + [OperatorStep(j), Solve(ia)] == below + [OperatorStep(j)] + [Solve(ia)];
    assert belowFuels + [0, fuel - 1] == belowFuels + [0] + [fuel - 1];
    UnaryUnfolds(line, j, fuel, ia, table);
    assert Contribution(line, OperatorStep(j), 0, table) == Emit(ReadOperator(line, j, table));
    UnaryRest(line, below, belowFuels, OperatorStep(j), 0, Solve(ia), fuel - 1, Solve(j), fuel, table);
    UnaryLoad(line, below, belowFuels, j, fuel, ia);
  }

  /** Two pushed steps that together contribute what one step did leave the rest unchanged. */
  lemma UnaryRest(line: seq<MathValue>, below: seq<RpnStep>, belowFuels: seq<nat>,
                  x: RpnStep, fx: nat, z: RpnStep, fz: nat, w: RpnStep, fw: nat, table: OperatorTable)
    requires |belowFuels| == |below|
    requires Contribution(line, w, fw, table) == Then(Contribution(line, z, fz, table), Contribution(line, x, fx, table))
    ensures Rest(line, below + [x] + [z], belowFuels + [fx] + [fz], table)
         == Rest(line, below + [w], belowFuels + [fw], table)
  {
    RestPush(line, below + [x], belowFuels + [fx], z, fz, table);
    RestPush(line, below, belowFuels, x, fx, table);
    RestPush(line, below, belowFuels, w, fw, table);
    ThenAssociative(Contribution(line, z, fz, table), Contribution(line, x, fx, table), Rest(line, below, belowFuels, table));
  }

  lemma UnaryLoad(line: seq<MathValue>, below: seq<RpnStep>, belowFuels: seq<nat>, j: nat, fuel: nat, ia: nat)
    requires |belowFuels| == |below| && fuel >= 1
    requires Size(line, Solve(j), fuel) == 2 + Size(line, Solve(ia), fuel - 1)
    ensures Load(line, below + [OperatorStep(j)] + [Solve(ia)], belowFuels + [0] + [fuel - 1])
          < Load(line, below + [Solve(j)], belowFuels + [fuel])
  {
    LoadPushTwo(line, below, belowFuels, OperatorStep(j), 0, Solve(ia), fuel - 1);
    LoadPush(line, below, belowFuels, Solve(j), fuel);
  }

  lemma LoadPushTwo(line: seq<MathValue>, steps: seq<RpnStep>, fuels: seq<nat>, x: RpnStep, fx: nat, y: RpnStep, fy: nat)
    requires |fuels| == |steps|
    ensures Load(line, steps + [x] + [y], fuels + [fx] + [fy]) == Load(line, steps, fuels) + Size(line, x, fx) + Size(line, y, fy)
  {
    LoadPush(line, steps + [x], fuels + [fx], y, fy);
    LoadPush(line, steps, fuels, x, fx);
  }

  /** Replacing a group's step by its inside's step keeps what the stack contributes and shrinks the load. */
  lemma SolveGroup(line: seq<MathValue>, below: seq<RpnStep>, belowFuels: seq<nat>,
                   j: nat, fuel: nat, ia: nat, table: OperatorTable)
    requires |belowFuels| == |below| && fuel >= 1 && j < |line| && line[j].ParenOpen?
    requires AddIndexOffset(j, line[j].offset) == Ok(ia)
    ensures Rest(line, below + [Solve(ia)], belowFuels + [fuel - 1], table)
         == Rest(line, below + [Solve(j)], belowFuels + [fuel], table)
    ensures Load(line, below + [Solve(ia)], belowFuels + [fuel - 1])
          < Load(line, below + [Solve(j)], belowFuels + [fuel])
  {
    GroupUnfolds(line, j, fuel, ia, table);
    ReplaceTop(line, below, belowFuels, Solve(ia), fuel - 1, Solve(j), fuel, table);
  }

  /** A top step replaced by a smaller one contributing the same leaves the rest unchanged and the load smaller. */
  lemma ReplaceTop(line: seq<MathValue>, below: seq<RpnStep>, belowFuels: seq<nat>,
                   z: RpnStep, fz: nat, w: RpnStep, fw: nat, table: OperatorTable)
    requires |belowFuels| == |below|
    requires Contribution(line, w, fw, table) == Contribution(line, z, fz, table)
    requires Size(line, z, fz) < Size(line, w, fw)
    ensures Rest(line, below + [z], belowFuels + [fz], table) == Rest(line, below + [w], belowFuels + [fw], table)
    ensures Load(line, below + [z], belowFuels + [fz]) < Load(line, below + [w], belowFuels + [fw])
  {
    RestPush(line, below, belowFuels, z, fz, table);
    RestPush(line, below, belowFuels, w, fw, table);
    LoadPush(line, below, belowFuels, z, fz);
    LoadPush(line, below, belowFuels, w, fw);
  }

  /** What the run will still produce: the output so far, then the pending steps' contributions. */
  function Outcome(line: seq<MathValue>, steps: seq<RpnStep>, fuels: seq<nat>, out: seq<RPN>, table: OperatorTable): Walked
    requires |fuels| == |steps|
  {
    Then(Finished(Ok(out)), Rest(line, steps, fuels, table))
  }

  /**
    `rpn_solve`: the node at `j` is traversed. A name is emitted; an
    operation, a unary operation or an opening parenthesis is replaced by
    the steps for its parts, after the offsets are resolved (the right one
    first); anything else fails. Either it fails, and the failure is what
    traversing the node would give, or what the new stack contributes is
    the node's traversal followed by what lay below it, with a smaller load.
   */
  method RpnSolve(line: seq<MathValue>, below: seq<RpnStep>, ghost belowFuels: seq<nat>, out: seq<RPN>,
                  j: nat, ghost fuel: nat, table: OperatorTable)
    returns (failed: Option<MathParseError>, steps': seq<RpnStep>, ghost fuels': seq<nat>, out': seq<RPN>)
    requires |belowFuels| == |below|
    requires Walk(line, j, fuel, table).Finished?
    ensures failed.Some? ==> Walk(line, j, fuel, table) == Finished(Err(failed.value))
    ensures failed.None? ==> |fuels'| == |steps'|
    ensures failed.None? ==>
              Outcome(line, steps', fuels', out', table)
              == Then(Then(Finished(Ok(out)), Walk(line, j, fuel, table)), Rest(line, below, belowFuels, table))
    ensures failed.None? ==> Load(line, steps', fuels') < Load(line, below, belowFuels) + Size(line, Solve(j), fuel)
  {
    match line[j]
    case Operation(_, _, _) =>
      failed, steps', fuels', out' := SolveOperationNode(line, below, belowFuels, out, j, fuel, table);
    case UnaryOperation(_, _) =>
      failed, steps', fuels', out' := SolveUnaryNode(line, below, belowFuels, out, j, fuel, table);
    case ParenOpen(_) =>
      failed, steps', fuels', out' := SolveGroupNode(line, below, belowFuels, out, j, fuel, table);
    case _ =>
      failed, steps', fuels', out' := SolveLeaf(line, below, belowFuels, out, j, fuel, table);
  }

  /** `rpn_solve` on an operation: the steps for its right and left operands are pushed above the operator's. */
  method SolveOperationNode(line: seq<MathValue>, below: seq<RpnStep>, ghost belowFuels: seq<nat>, out: seq<RPN>,
                  j: nat, ghost fuel: nat, table: OperatorTable)
    returns (failed: Option<MathParseError>, steps': seq<RpnStep>, ghost fuels': seq<nat>, out': seq<RPN>)
    requires |belowFuels| == |below|
    requires Walk(line, j, fuel, table).Finished?
    requires j < |line| && line[j].Operation?
    ensures failed.Some? ==> Walk(line, j, fuel, table) == Finished(Err(failed.value))
    ensures failed.None? ==> |fuels'| == |steps'|
    ensures failed.None? ==>
              Outcome(line, steps', fuels', out', table)
              == Then(Then(Finished(Ok(out)), Walk(line, j, fuel, table)), Rest(line, below, belowFuels, table))
    ensures failed.None? ==> Load(line, steps', fuels') < Load(line, below, belowFuels) + Size(line, Solve(j), fuel)
  {
    ghost var rest := Rest(line, below, belowFuels, table);
    failed, steps', fuels', out' := None, below, belowFuels, out;
    LoadPush(line, below, belowFuels, Solve(j), fuel);
    RestPush(line, below, belowFuels, Solve(j), fuel, table);
    ThenAssociative(Finished(Ok(out)), Walk(line, j, fuel, table), rest);
    var ib := AddIndexOffset(j, line[j].right);
    var ia := AddIndexOffset(j, line[j].left);
    if ib.Err? {
      failed := Some(ib.error);
    } else if ia.Err? {
      failed := Some(ia.error);
    } else {
      SolveOperation(line, below, belowFuels, j, fuel, ia.value, ib.value, table);
      steps' := below + [OperatorStep(j), Solve(ib.value), Solve(ia.value)];
      fuels' := belowFuels + [0, fuel - 1, fuel - 1];
    }
  }

  /** `rpn_solve` on a unary operation: the step for its operand is pushed above the operator's. */
  method SolveUnaryNode(line: seq<MathValue>, below: seq<RpnStep>, ghost belowFuels: seq<nat>, out: seq<RPN>,
                  j: nat, ghost fuel: nat, table: OperatorTable)
    returns (failed: Option<MathParseError>, steps': seq<RpnStep>, ghost fuels': seq<nat>, out': seq<RPN>)
    requires |belowFuels| == |below|
    requires Walk(line, j, fuel, table).Finished?
    requires j < |line| && line[j].UnaryOperation?
    ensures failed.Some? ==> Walk(line, j, fuel, table) == Finished(Err(failed.value))
    ensures failed.None? ==> |fuels'| == |steps'|
    ensures failed.None? ==>
              Outcome(line, steps', fuels', out', table)
              == Then(Then(Finished(Ok(out)), Walk(line, j, fuel, table)), Rest(line, below, belowFuels, table))
    ensures failed.None? ==> Load(line, steps', fuels') < Load(line, below, belowFuels) + Size(line, Solve(j), fuel)
  {
    ghost var rest := Rest(line, below, belowFuels, table);
    failed, steps', fuels', out' := None, below, belowFuels, out;
    LoadPush(line, below, belowFuels, Solve(j), fuel);
    RestPush(line, below, belowFuels, Solve(j), fuel, table);
    ThenAssociative(Finished(Ok(out)), Walk(line, j, fuel, table), rest);
    var ia := AddIndexOffset(j, line[j].offset);
    if ia.Err? {
      failed := Some(ia.error);
    } else {
      SolveUnary(line, below, belowFuels, j, fuel, ia.value, table);
      steps' := below + [OperatorStep(j), Solve(ia.value)];
      fuels' := belowFuels + [0, fuel - 1];
    }
  }

  /** `rpn_solve` on an opening parenthesis: the step for the group's inside replaces it. */
  method SolveGroupNode(line: seq<MathValue>, below: seq<RpnStep>, ghost belowFuels: seq<nat>, out: seq<RPN>,
                  j: nat, ghost fuel: nat, table: OperatorTable)
    returns (failed: Option<MathParseError>, steps': seq<RpnStep>, ghost fuels': seq<nat>, out': seq<RPN>)
    requires |belowFuels| == |below|
    requires Walk(line, j, fuel, table).Finished?
    requires j < |line| && line[j].ParenOpen?
    ensures failed.Some? ==> Walk(line, j, fuel, table) == Finished(Err(failed.value))
    ensures failed.None? ==> |fuels'| == |steps'|
    ensures failed.None? ==>
              Outcome(line, steps', fuels', out', table)
              == Then(Then(Finished(Ok(out)), Walk(line, j, fuel, table)), Rest(line, below, belowFuels, table))
    ensures failed.None? ==> Load(line, steps', fuels') < Load(line, below, belowFuels) + Size(line, Solve(j), fuel)
  {
    ghost var rest := Rest(line, below, belowFuels, table);
    failed, steps', fuels', out' := None, below, belowFuels, out;
    LoadPush(line, below, belowFuels, Solve(j), fuel);
    RestPush(line, below, belowFuels, Solve(j), fuel, table);
    ThenAssociative(Finished(Ok(out)), Walk(line, j, fuel, table), rest);
    var ia := AddIndexOffset(j, line[j].offset);
    if ia.Err? {
      failed := Some(ia.error);
    } else {
      SolveGroup(line, below, belowFuels, j, fuel, ia.value, table);
      steps' := below + [Solve(ia.value)];
      fuels' := belowFuels + [fuel - 1];
    }
  }

  /** `rpn_solve` on anything else: a name is emitted, the sentinel and the rest are errors. */
  method SolveLeaf(line: seq<MathValue>, below: seq<RpnStep>, ghost belowFuels: seq<nat>, out: seq<RPN>,
                  j: nat, ghost fuel: nat, table: OperatorTable)
    returns (failed: Option<MathParseError>, steps': seq<RpnStep>, ghost fuels': seq<nat>, out': seq<RPN>)
    requires |belowFuels| == |below|
    requires Walk(line, j, fuel, table).Finished?
    requires j < |line| && !line[j].Operation? && !line[j].UnaryOperation? && !line[j].ParenOpen?
    ensures failed.Some? ==> Walk(line, j, fuel, table) == Finished(Err(failed.value))
    ensures failed.None? ==> |fuels'| == |steps'|
    ensures failed.None? ==>
              Outcome(line, steps', fuels', out', table)
              == Then(Then(Finished(Ok(out)), Walk(line, j, fuel, table)), Rest(line, below, belowFuels, table))
    ensures failed.None? ==> Load(line, steps', fuels') < Load(line, below, belowFuels) + Size(line, Solve(j), fuel)
  {
    ghost var rest := Rest(line, below, belowFuels, table);
    failed, steps', fuels', out' := None, below, belowFuels, out;
    LoadPush(line, below, belowFuels, Solve(j), fuel);
    RestPush(line, below, belowFuels, Solve(j), fuel, table);
    ThenAssociative(Finished(Ok(out)), Walk(line, j, fuel, table), rest);
    match line[j]
    case Name(n) =>
      out' := out + [RPN.Name(RemoveWhitespace(n))];
    case TrailingError =>
      failed := Some(TrailingOperator);
    case _ =>
      failed := Some(MathParseInternalBug(RPN_SOLVE_BUG));
  }

  /** `rpn_operator`: the instruction of the node at `j` is emitted, or its lookup error returned. */
  method RpnOperator(line: seq<MathValue>, out: seq<RPN>, j: nat, table: OperatorTable)
    returns (failed: Option<MathParseError>, out': seq<RPN>)
    requires j < |line|
    ensures failed.Some? <==> ReadOperator(line, j, table).Err?
    ensures failed.Some? ==> failed.value == ReadOperator(line, j, table).error
    ensures failed.None? ==> out' == out + [ReadOperator(line, j, table).value]
  {
    var op := ReadOperator(line, j, table);
    if op.Err? {
      return Some(op.error), out;
    }
    return None, out + [op.value];
  }

  /**
    `rpn_run_step`: pop the top step and run it. Either it fails, and the
    failure is what the whole run would have produced, or it leaves a stack
    whose outcome is unchanged and whose load is smaller.
   */
  method RunStep(line: seq<MathValue>, steps: seq<RpnStep>, ghost fuels: seq<nat>, out: seq<RPN>, table: OperatorTable)
    returns (failed: Option<MathParseError>, steps': seq<RpnStep>, ghost fuels': seq<nat>, out': seq<RPN>)
    requires |steps| > 0 && |fuels| == |steps|
    requires Outcome(line, steps, fuels, out, table).Finished?
    ensures failed.Some? ==> Outcome(line, steps, fuels, out, table) == Finished(Err(failed.value))
    ensures failed.None? ==> |fuels'| == |steps'|
    ensures failed.None? ==> Outcome(line, steps', fuels', out', table) == Outcome(line, steps, fuels, out, table)
    ensures failed.None? ==> Load(line, steps', fuels') < Load(line, steps, fuels)
  {
    var top := steps[|steps| - 1];
    ghost var fuel := fuels[|steps| - 1];
    var below := steps[..|steps| - 1];
    ghost var belowFuels := fuels[..|steps| - 1];
    ghost var rest := Rest(line, below, belowFuels, table);
    ThenAssociative(Finished(Ok(out)), Contribution(line, top, fuel, table), rest);
    match top
    case OperatorStep(j) =>
      failed, out' := RpnOperator(line, out, j, table);
      steps', fuels' := below, belowFuels;
    case Solve(j) =>
      failed, steps', fuels', out' := RpnSolve(line, below, belowFuels, out, j, fuel, table);
  }


  /**
    `parse_rpn`: start from a step on index 0 and run steps until none is
    left. A node pushes its operator step first, then its right operand,
    then its left operand, so the left operand is traversed first. The
    result is the reference traversal's.
   */
  method ParseRpn(line: seq<MathValue>, table: OperatorTable) returns (r: Result<seq<RPN>>)
    requires Walk(line, 0, |line|, table).Finished?
    ensures r == Walk(line, 0, |line|, table).result
    ensures r.Ok? ==> NeedsMet(0, r.value) && Net(r.value) == 1
  {
    var steps := [Solve(0)];
    ghost var fuels: seq<nat> := [|line|];
    var out: seq<RPN> := [];
    ghost var goal := Walk(line, 0, |line|, table);
    assert steps == [] + [Solve(0)] && fuels == [] + [|line|];
    RestPush(line, [], [], Solve(0), |line|, table);
    ThenUnit(goal);
    while |steps| != 0
      invariant |fuels| == |steps|
      invariant Outcome(line, steps, fuels, out, table) == goal
      decreases Load(line, steps, fuels)
    {
      var failed;
      failed, steps, fuels, out := RunStep(line, steps, fuels, out, table);
      if failed.Some? {
        return Err(failed.value);
      }
    }
    assert out + [] == out;
    r := Ok(out);
    WalkIsProgram(line, 0, |line|, table);
  }

  /* -------------------------------- examples -------------------------------- */

  /** An addition over two names: both operands first, whitespace removed from the names, then the operator. */
  lemma WalkAdditionExample(table: OperatorTable)
    requires table.binaryFromChar('+') == Ok(Addition)
    ensures Walk([Operation('+', 1, 2), MathValue.Name(" 8 8"), MathValue.Name("9\t")], 0, 3, table)
         == Finished(Ok([RPN.Name("88"), RPN.Name("9"), RPN.Binary(Addition)]))
  {
    var line := [Operation('+', 1, 2), MathValue.Name(" 8 8"), MathValue.Name("9\t")];
    AdditionNamesCleaned();
    assert AddIndexOffset(0, 1) == Ok(1) && AddIndexOffset(0, 2) == Ok(2);
    assert Walk(line, 1, 2, table) == Finished(Ok([RPN.Name("88")]));
    assert Walk(line, 2, 2, table) == Finished(Ok([RPN.Name("9")]));
    assert ReadOperator(line, 0, table) == Ok(RPN.Binary(Addition));
    assert Walk(line, 0, 3, table)
        == Then(Then(Walk(line, 1, 2, table), Walk(line, 2, 2, table)), Emit(Ok(RPN.Binary(Addition))));
    assert [RPN.Name("88")] + [RPN.Name("9")] + [RPN.Binary(Addition)]
        == [RPN.Name("88"), RPN.Name("9"), RPN.Binary(Addition)];
  }

  lemma AdditionNamesCleaned()
    ensures RemoveWhitespace(" 8 8") == "88" && RemoveWhitespace("9\t") == "9"
  {
    assert " 8 8"[1..] == "8 8" && "8 8"[1..] == " 8" && " 8"[1..] == "8";
    assert "9\t"[1..] == "\t";
  }

  /** An offset that leads before the start of the line is an internal bug, found before any operand is visited. */
  lemma WalkNegativeIndexExample(table: OperatorTable)
    ensures IsInternalBug(Walk([UnaryOperation('-', -1)], 0, 1, table).result)
  {
    assert AddIndexOffset(0, -1).Err?;
  }
}
