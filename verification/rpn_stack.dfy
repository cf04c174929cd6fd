/**
  The generic postfix stack machine. A run keeps a stack of values and
  executes the instructions in order: a name pushes its value, a unary
  operator replaces the top, a binary operator replaces the two top values
  by one. How names and operators are computed is a parameter (`Interp`), so
  the number evaluator and the tree builder are both instances of it.
 */
module RpnStack {
  import opened Errors
  import opened Operators

  /* --------------------------------- pops --------------------------------- */

  /** `pop_one`: the top element and the stack below it. */
  function PopOne<T>(stack: seq<T>): (r: Result<(T, seq<T>)>)
    ensures r.Ok? <==> |stack| >= 1
    ensures r.Ok? ==> r.value.1 + [r.value.0] == stack
    ensures r.Err? ==> r.error.MathParseInternalBug?
  {
    if |stack| == 0 then Err(MathParseInternalBug("Error, unable to pop one, no element on the stack."))
    else Ok((stack[|stack| - 1], stack[..|stack| - 1]))
  }

  /** `pop_two`: the two top elements in the order they were pushed, and the stack below them. */
  function PopTwo<T>(stack: seq<T>): (r: Result<(T, T, seq<T>)>)
    ensures r.Ok? <==> |stack| >= 2
    ensures r.Ok? ==> r.value.2 + [r.value.0, r.value.1] == stack
    ensures r.Err? ==> r.error.MathParseInternalBug?
  {
    if |stack| == 0 then Err(MathParseInternalBug("Error, unable to pop two, no element on the stack."))
    else if |stack| == 1 then Err(MathParseInternalBug("Error, unable to pop two, only one element on the stack."))
    else Ok((stack[|stack| - 2], stack[|stack| - 1], stack[..|stack| - 2]))
  }

  /* ----------------------------- one instruction ----------------------------- */

  /** How a run computes names and operators. */
  datatype Interp<!T> = Interp(
    name: string -> Result<T>,
    unary: (T, UnaryOp) -> Result<T>,
    binary: (T, T, BinaryOp) -> Result<T>)

  /** Stack elements an instruction consumes. */
  function Need(action: RPN): nat {
    match action
    case Name(_) => 0
    case Unary(_) => 1
    case Binary(_) => 2
  }

  /** The change in stack height an instruction makes. */
  function Effect(action: RPN): int {
    match action
    case Name(_) => 1
    case Unary(_) => 0
    case Binary(_) => -1
  }

  /** `execute_unary`: the top is replaced by its image; nothing below it changes. */
  function ExecuteUnary<T>(stack: seq<T>, op: UnaryOp, exec: (T, UnaryOp) -> Result<T>): (r: Result<seq<T>>)
    ensures r.Ok? <==> |stack| >= 1 && exec(stack[|stack| - 1], op).Ok?
    ensures r.Ok? ==> r.value == stack[..|stack| - 1] + [exec(stack[|stack| - 1], op).value]
    ensures |stack| >= 1 && exec(stack[|stack| - 1], op).Err? ==> r == Err(exec(stack[|stack| - 1], op).error)
    ensures |stack| == 0 ==> r.Err? && r.error.MathParseInternalBug?
  {
    var (top, below) :- PopOne(stack);
    var computed :- exec(top, op);
    Ok(below + [computed])
  }

  /** `execute_binary`: the two top elements, lower one first, are replaced by one value. */
  function ExecuteBinary<T>(stack: seq<T>, op: BinaryOp, exec: (T, T, BinaryOp) -> Result<T>): (r: Result<seq<T>>)
    ensures r.Ok? <==> |stack| >= 2 && exec(stack[|stack| - 2], stack[|stack| - 1], op).Ok?
    ensures r.Ok? ==> r.value == stack[..|stack| - 2] + [exec(stack[|stack| - 2], stack[|stack| - 1], op).value]
    ensures |stack| >= 2 && exec(stack[|stack| - 2], stack[|stack| - 1], op).Err? ==>
              r == Err(exec(stack[|stack| - 2], stack[|stack| - 1], op).error)
    ensures |stack| < 2 ==> r.Err? && r.error.MathParseInternalBug?
  {
    var (a, b, below) :- PopTwo(stack);
    var computed :- exec(a, b, op);
    Ok(below + [computed])
  }

  /** `exec_rpn_one_action`. */
  function ExecOneAction<T>(stack: seq<T>, action: RPN, interp: Interp<T>): (r: Result<seq<T>>)
    ensures r.Ok? ==> |stack| >= Need(action) && |r.value| == |stack| + Effect(action)
    ensures r.Ok? ==> r.value[..|stack| - Need(action)] == stack[..|stack| - Need(action)]
    ensures |stack| < Need(action) ==> r.Err? && r.error.MathParseInternalBug?
  {
    match action
    case Name(x) =>
      var v :- interp.name(x);
      Ok(stack + [v])
    case Unary(op) => ExecuteUnary(stack, op, interp.unary)
    case Binary(op) => ExecuteBinary(stack, op, interp.binary)
  }

  /* ------------------------------- whole runs ------------------------------- */

  /** The net change in stack height over a list of instructions. */
  function Net(actions: seq<RPN>): int {
    if |actions| == 0 then 0 else Effect(actions[0]) + Net(actions[1..])
  }

  /** Starting from height `height`, no instruction finds fewer elements than it consumes. */
  predicate NeedsMet(height: int, actions: seq<RPN>)
    decreases |actions|
  {
    |actions| == 0 || (Need(actions[0]) <= height && NeedsMet(height + Effect(actions[0]), actions[1..]))
  }

  /** The loop of `exec_rpn`: the instructions in order, stopping at the first error. */
  function ExecActions<T>(stack: seq<T>, actions: seq<RPN>, interp: Interp<T>): (r: Result<seq<T>>)
    ensures r.Ok? ==> NeedsMet(|stack|, actions) && |r.value| == |stack| + Net(actions)
    decreases |actions|
  {
    if |actions| == 0 then Ok(stack)
    else
      var next :- ExecOneAction(stack, actions[0], interp);
      ExecActions(next, actions[1..], interp)
  }

  /**
    `exec_rpn`: run from an empty stack and return the top of the final
    stack. Elements left below the top are not reported.
   */
  function ExecRpn<T>(actions: seq<RPN>, interp: Interp<T>): (r: Result<T>)
    ensures r.Ok? ==> NeedsMet(0, actions) && Net(actions) >= 1
  {
    var stack :- ExecActions([], actions, interp);
    var (top, _) :- PopOne(stack);
    Ok(top)
  }

  /* --------------------------------- lemmas --------------------------------- */

  lemma {:induction false} NetAppend(a: seq<RPN>, b: seq<RPN>)
    ensures Net(a + b) == Net(a) + Net(b)
    decreases |a|
  {
    if |a| > 0 {
      assert (a + b)[0] == a[0];
      assert (a + b)[1..] == a[1..] + b;
      NetAppend(a[1..], b);
    } else {
      assert a + b == b;
    }
  }

  /** The stack discipline of a concatenation splits at the seam. */
  lemma {:induction false} NeedsMetAppend(height: int, a: seq<RPN>, b: seq<RPN>)
    ensures NeedsMet(height, a + b) <==> NeedsMet(height, a) && NeedsMet(height + Net(a), b)
    decreases |a|
  {
    if |a| > 0 {
      assert (a + b)[0] == a[0];
      assert (a + b)[1..] == a[1..] + b;
      NeedsMetAppend(height + Effect(a[0]), a[1..], b);
    } else {
      assert a + b == b;
    }
  }

  /** More elements below never hurt. */
  lemma {:induction false} NeedsMetMonotone(low: int, high: int, actions: seq<RPN>)
    requires low <= high && NeedsMet(low, actions)
    ensures NeedsMet(high, actions)
    decreases |actions|
  {
    if |actions| > 0 {
      NeedsMetMonotone(low + Effect(actions[0]), high + Effect(actions[0]), actions[1..]);
    }
  }

  /** A run over a concatenation is the run over the second part from where the first one ends. */
  lemma {:induction false} ExecActionsAppend<T>(stack: seq<T>, a: seq<RPN>, b: seq<RPN>, interp: Interp<T>)
    ensures ExecActions(stack, a + b, interp)
         == (match ExecActions(stack, a, interp)
             case Ok(middle) => ExecActions(middle, b, interp)
             case Err(e) => Err(e))
    decreases |a|
  {
    if |a| == 0 {
      assert a + b == b;
    } else {
      assert (a + b)[0] == a[0];
      assert (a + b)[1..] == a[1..] + b;
      match ExecOneAction(stack, a[0], interp)
      case Ok(next) => ExecActionsAppend(next, a[1..], b, interp);
      case Err(_) =>
    }
  }

  /** An interpretation whose computations never fail. */
  ghost predicate Total<T(!new)>(interp: Interp<T>) {
    && (forall x :: interp.name(x).Ok?)
    && (forall v, op :: interp.unary(v, op).Ok?)
    && (forall v, w, op :: interp.binary(v, w, op).Ok?)
  }

  /**
    Under an interpretation that never fails, a run fails exactly when some
    instruction finds too few elements, and the failure is an internal bug.
   */
  lemma {:induction false} ExecTotal<T(!new)>(stack: seq<T>, actions: seq<RPN>, interp: Interp<T>)
    requires Total(interp)
    ensures ExecActions(stack, actions, interp).Ok? <==> NeedsMet(|stack|, actions)
    ensures !NeedsMet(|stack|, actions) ==> IsInternalBug(ExecActions(stack, actions, interp))
    decreases |actions|
  {
    if |actions| > 0 {
      var a := actions[0];
      if |stack| >= Need(a) {
        match a {
          case Name(x) => assert interp.name(x).Ok?;
          case Unary(op) => assert interp.unary(stack[|stack| - 1], op).Ok?;
          case Binary(op) => assert interp.binary(stack[|stack| - 2], stack[|stack| - 1], op).Ok?;
        }
        var next := ExecOneAction(stack, a, interp).value;
        ExecTotal(next, actions[1..], interp);
      }
    }
  }

  /** `exec_rpn` under an interpretation that never fails: it succeeds exactly on lists that never underflow and leave something. */
  lemma ExecRpnTotal<T(!new)>(actions: seq<RPN>, interp: Interp<T>)
    requires Total(interp)
    ensures ExecRpn(actions, interp).Ok? <==> NeedsMet(0, actions) && Net(actions) >= 1
  {
    ExecTotal([], actions, interp);
  }

  /** Two names and no operator: the run succeeds with the second name's value; the first is dropped. */
  lemma ExecRpnReportsTop<T>(a: string, b: string, interp: Interp<T>)
    requires interp.name(a).Ok?
    ensures ExecRpn([RPN.Name(a), RPN.Name(b)], interp) == interp.name(b)
  {
    var actions := [RPN.Name(a), RPN.Name(b)];
    var first := [interp.name(a).value];
    assert actions[1..] == [RPN.Name(b)];
    assert ExecActions([], actions, interp) == ExecActions(first, [RPN.Name(b)], interp);
    match interp.name(b)
    case Ok(v) =>
      assert ExecActions(first, [RPN.Name(b)], interp) == ExecActions(first + [v], [], interp);
    case Err(e) =>
  }

  /** A name whose value is found pushes that value and the run goes on. */
  lemma ExecNameStep<T>(stack: seq<T>, x: string, rest: seq<RPN>, interp: Interp<T>, next: seq<T>)
    requires interp.name(x).Ok? && next == stack + [interp.name(x).value]
    ensures ExecActions(stack, [RPN.Name(x)] + rest, interp) == ExecActions(next, rest, interp)
  {
    assert ([RPN.Name(x)] + rest)[1..] == rest;
  }

  /** A binary operator that succeeds replaces the two top elements by its value and the run goes on. */
  lemma ExecBinaryStep<T>(stack: seq<T>, op: BinaryOp, rest: seq<RPN>, interp: Interp<T>, next: seq<T>)
    requires |stack| >= 2
    requires interp.binary(stack[|stack| - 2], stack[|stack| - 1], op).Ok?
    requires next == stack[..|stack| - 2] + [interp.binary(stack[|stack| - 2], stack[|stack| - 1], op).value]
    ensures ExecActions(stack, [RPN.Binary(op)] + rest, interp) == ExecActions(next, rest, interp)
  {
    assert ([RPN.Binary(op)] + rest)[1..] == rest;
  }

  lemma ExecBinaryFails<T>(stack: seq<T>, op: BinaryOp, rest: seq<RPN>, interp: Interp<T>)
    requires |stack| >= 2
    requires interp.binary(stack[|stack| - 2], stack[|stack| - 1], op).Err?
    ensures ExecActions(stack, [RPN.Binary(op)] + rest, interp)
         == Err(interp.binary(stack[|stack| - 2], stack[|stack| - 1], op).error)
  {
  }
}
