/**
  `parse_to_tree`: folding a postfix instruction list into an owned
  expression tree, with the stack machine's discipline.

  The tree is also the meaning of a postfix list: flattening a tree in
  post-order gives back the list it was built from, and running any
  interpretation over that list is evaluating the tree bottom-up.
 */
module Trees {
  import opened Errors
  import opened Operators
  import opened RpnStack

  datatype Tree =
    | Name(text: string)
    | Unary(uop: UnaryOp, child: Tree)
    | Binary(bop: BinaryOp, left: Tree, right: Tree)

  /* ------------------------------ the builder ------------------------------ */

  /** `compute_unary`: the top node becomes the child of a new unary node. */
  function ComputeUnary(stack: seq<Tree>, op: UnaryOp): (r: Result<seq<Tree>>)
    ensures r.Ok? <==> |stack| >= 1
    ensures r.Ok? ==> r.value == stack[..|stack| - 1] + [Tree.Unary(op, stack[|stack| - 1])]
    ensures r.Err? ==> r.error.MathParseInternalBug?
  {
    var (num, below) :- PopOne(stack);
    Ok(below + [Tree.Unary(op, num)])
  }

  /** `compute_binary`: the two top nodes, lower one on the left, become the children of a new binary node. */
  function ComputeBinary(stack: seq<Tree>, op: BinaryOp): (r: Result<seq<Tree>>)
    ensures r.Ok? <==> |stack| >= 2
    ensures r.Ok? ==> r.value == stack[..|stack| - 2] + [Tree.Binary(op, stack[|stack| - 2], stack[|stack| - 1])]
    ensures r.Err? ==> r.error.MathParseInternalBug?
  {
    var (first, second, below) :- PopTwo(stack);
    Ok(below + [Tree.Binary(op, first, second)])
  }

  /** `exec_rpn_action`. */
  function ExecRpnAction(stack: seq<Tree>, action: RPN): Result<seq<Tree>> {
    match action
    case Name(x) => Ok(stack + [Tree.Name(x)])
    case Unary(op) => ComputeUnary(stack, op)
    case Binary(op) => ComputeBinary(stack, op)
  }

  /** The loop of `parse_to_tree`. */
  function TreeActions(stack: seq<Tree>, actions: seq<RPN>): Result<seq<Tree>>
    decreases |actions|
  {
    if |actions| == 0 then Ok(stack)
    else
      var next :- ExecRpnAction(stack, actions[0]);
      TreeActions(next, actions[1..])
  }

  /** `parse_to_tree`: the top of the final stack. */
  function ParseToTree(actions: seq<RPN>): Result<Tree> {
    var stack :- TreeActions([], actions);
    var (top, _) :- PopOne(stack);
    Ok(top)
  }

  /* -------------------------- the builder is a run -------------------------- */

  /** The three tree constructors as an interpretation of the stack machine. */
  function TreeInterp(): Interp<Tree> {
    Interp(x => Ok(Tree.Name(x)), (t, op) => Ok(Tree.Unary(op, t)), (a, b, op) => Ok(Tree.Binary(op, a, b)))
  }

  lemma TreeInterpTotal()
    ensures Total(TreeInterp())
  {
  }

  lemma {:induction false} TreeActionsIsRun(stack: seq<Tree>, actions: seq<RPN>)
    ensures TreeActions(stack, actions) == ExecActions(stack, actions, TreeInterp())
    decreases |actions|
  {
    if |actions| > 0 {
      assert ExecRpnAction(stack, actions[0]) == ExecOneAction(stack, actions[0], TreeInterp());
      if ExecRpnAction(stack, actions[0]).Ok? {
        TreeActionsIsRun(ExecRpnAction(stack, actions[0]).value, actions[1..]);
      }
    }
  }

  /** `parse_to_tree` is `exec_rpn` with the tree constructors for names, unary and binary operators. */
  lemma ParseToTreeIsExecRpn(actions: seq<RPN>)
    ensures ParseToTree(actions) == ExecRpn(actions, TreeInterp())
  {
    TreeActionsIsRun([], actions);
  }

  /** The builder fails exactly on lists that underflow the stack or leave it empty. */
  lemma ParseToTreeSucceeds(actions: seq<RPN>)
    ensures ParseToTree(actions).Ok? <==> NeedsMet(0, actions) && Net(actions) >= 1
  {
    ParseToTreeIsExecRpn(actions);
    TreeInterpTotal();
    ExecRpnTotal(actions, TreeInterp());
  }

  /* ------------------------ post-order, the inverse ------------------------ */

  /** The post-order instruction list of a tree: operands first, left before right, operator last. */
  function ToRpn(t: Tree): seq<RPN> {
    match t
    case Name(x) => [RPN.Name(x)]
    case Unary(op, c) => ToRpn(c) + [RPN.Unary(op)]
    case Binary(op, l, r) => ToRpn(l) + ToRpn(r) + [RPN.Binary(op)]
  }

  /** The post-order lists of a stack of trees, bottom first. */
  function Flatten(stack: seq<Tree>): seq<RPN> {
    if |stack| == 0 then [] else Flatten(stack[..|stack| - 1]) + ToRpn(stack[|stack| - 1])
  }

  /** A tree's list never underflows and leaves exactly one element. */
  lemma {:induction false} ToRpnIsProgram(t: Tree)
    ensures NeedsMet(0, ToRpn(t)) && Net(ToRpn(t)) == 1
  {
    match t
    case Name(x) =>
      assert ToRpn(t)[1..] == [];
    case Unary(op, c) =>
      ToRpnIsProgram(c);
      NeedsMetAppend(0, ToRpn(c), [RPN.Unary(op)]);
      NetAppend(ToRpn(c), [RPN.Unary(op)]);
      assert [RPN.Unary(op)][1..] == [];
    case Binary(op, l, r) =>
      ToRpnIsProgram(l);
      ToRpnIsProgram(r);
      NeedsMetMonotone(0, 1, ToRpn(r));
      NeedsMetAppend(0, ToRpn(l), ToRpn(r));
      NetAppend(ToRpn(l), ToRpn(r));
      NeedsMetAppend(0, ToRpn(l) + ToRpn(r), [RPN.Binary(op)]);
      NetAppend(ToRpn(l) + ToRpn(r), [RPN.Binary(op)]);
      assert [RPN.Binary(op)][1..] == [];
  }

  /** Building from a tree's list pushes exactly that tree, whatever lies below and whatever follows. */
  lemma {:induction false} BuildsTree(stack: seq<Tree>, t: Tree, rest: seq<RPN>)
    ensures TreeActions(stack, ToRpn(t) + rest) == TreeActions(stack + [t], rest)
    decreases t
  {
    match t
    case Name(x) =>
      assert (ToRpn(t) + rest)[0] == RPN.Name(x);
      assert (ToRpn(t) + rest)[1..] == rest;
    case Unary(op, c) =>
      assert ToRpn(t) + rest == ToRpn(c) + ([RPN.Unary(op)] + rest);
      BuildsTree(stack, c, [RPN.Unary(op)] + rest);
      assert ([RPN.Unary(op)] + rest)[1..] == rest;
      assert (stack + [c])[..|stack|] == stack;
    case Binary(op, l, r) =>
      assert ToRpn(t) + rest == ToRpn(l) + (ToRpn(r) + ([RPN.Binary(op)] + rest));
      BuildsTree(stack, l, ToRpn(r) + ([RPN.Binary(op)] + rest));
      BuildsTree(stack + [l], r, [RPN.Binary(op)] + rest);
      assert ([RPN.Binary(op)] + rest)[1..] == rest;
      assert (stack + [l] + [r])[..|stack|] == stack;
  }

  /** Round trip: building the tree of a tree's post-order list gives the tree back. */
  lemma ParseToTreeOfToRpn(t: Tree)
    ensures ParseToTree(ToRpn(t)) == Ok(t)
  {
    BuildsTree([], t, []);
    assert ToRpn(t) + [] == ToRpn(t);
  }

  /** One successful builder step extends the flattening by that instruction. */
  lemma FlattenStep(stack: seq<Tree>, a: RPN)
    requires ExecRpnAction(stack, a).Ok?
    ensures Flatten(ExecRpnAction(stack, a).value) == Flatten(stack) + [a]
  {
    var next := ExecRpnAction(stack, a).value;
    match a {
      case Name(x) =>
        assert next[..|stack|] == stack;
      case Unary(op) =>
        var below := stack[..|stack| - 1];
        assert next[..|next| - 1] == below;
      case Binary(op) =>
        var below := stack[..|stack| - 2];
        var top := stack[..|stack| - 1];
        assert next[..|next| - 1] == below;
        assert top[..|top| - 1] == below;
        assert Flatten(stack) == Flatten(below) + ToRpn(stack[|stack| - 2]) + ToRpn(stack[|stack| - 1]);
    }
  }

  /** Whatever a successful build leaves on the stack, its post-order lists spell the input after the initial stack's. */
  lemma {:induction false} BuildKeepsFlattening(stack: seq<Tree>, actions: seq<RPN>)
    requires TreeActions(stack, actions).Ok?
    ensures Flatten(TreeActions(stack, actions).value) == Flatten(stack) + actions
    decreases |actions|
  {
    if |actions| == 0 {
      assert Flatten(stack) + actions == Flatten(stack);
    } else {
      var a := actions[0];
      var next := ExecRpnAction(stack, a).value;
      FlattenStep(stack, a);
      BuildKeepsFlattening(next, actions[1..]);
      assert actions == [a] + actions[1..];
    }
  }

  /** The other round trip: a list that leaves exactly one tree is that tree's post-order list. */
  lemma ToRpnOfParseToTree(actions: seq<RPN>)
    requires ParseToTree(actions).Ok? && Net(actions) == 1
    ensures ToRpn(ParseToTree(actions).value) == actions
  {
    var stack := TreeActions([], actions).value;
    BuildKeepsFlattening([], actions);
    TreeActionsIsRun([], actions);
    assert |stack| == Net(actions) == 1;
    assert ParseToTree(actions).value == stack[0];
    assert stack[..0] == [];
    assert Flatten(stack) == Flatten([]) + ToRpn(stack[0]);
    assert Flatten([]) + actions == actions;
  }

  /* ------------------------------- evaluation ------------------------------- */

  /** Bottom-up evaluation of a tree, left operand first, stopping at the first error. */
  function Eval<T>(t: Tree, interp: Interp<T>): Result<T> {
    match t
    case Name(x) => interp.name(x)
    case Unary(op, c) =>
      var v :- Eval(c, interp);
      interp.unary(v, op)
    case Binary(op, l, r) =>
      var a :- Eval(l, interp);
      var b :- Eval(r, interp);
      interp.binary(a, b, op)
  }

  /** Running a tree's list on top of any stack pushes the tree's value, or stops with the evaluation's error. */
  lemma {:induction false} RunIsEval<T>(stack: seq<T>, t: Tree, rest: seq<RPN>, interp: Interp<T>)
    ensures ExecActions(stack, ToRpn(t) + rest, interp)
         == (match Eval(t, interp)
             case Ok(v) => ExecActions(stack + [v], rest, interp)
             case Err(e) => Err(e))
    decreases t
  {
    match t
    case Name(x) =>
      assert (ToRpn(t) + rest)[0] == RPN.Name(x);
      assert (ToRpn(t) + rest)[1..] == rest;
    case Unary(op, c) =>
      assert ToRpn(t) + rest == ToRpn(c) + ([RPN.Unary(op)] + rest);
      RunIsEval(stack, c, [RPN.Unary(op)] + rest, interp);
      assert ([RPN.Unary(op)] + rest)[1..] == rest;
      if Eval(c, interp).Ok? {
        assert (stack + [Eval(c, interp).value])[..|stack|] == stack;
      }
    case Binary(op, l, r) =>
      assert ToRpn(t) + rest == ToRpn(l) + (ToRpn(r) + ([RPN.Binary(op)] + rest));
      RunIsEval(stack, l, ToRpn(r) + ([RPN.Binary(op)] + rest), interp);
      if Eval(l, interp).Ok? {
        var a := Eval(l, interp).value;
        RunIsEval(stack + [a], r, [RPN.Binary(op)] + rest, interp);
        assert ([RPN.Binary(op)] + rest)[1..] == rest;
        if Eval(r, interp).Ok? {
          assert (stack + [a] + [Eval(r, interp).value])[..|stack|] == stack;
        }
      }
  }

  /** `exec_rpn` over a tree's list is the tree's evaluation. */
  lemma ExecRpnIsEval<T>(t: Tree, interp: Interp<T>)
    ensures ExecRpn(ToRpn(t), interp) == Eval(t, interp)
  {
    RunIsEval([], t, [], interp);
    assert ToRpn(t) + [] == ToRpn(t);
  }

  /* -------------------------------- example -------------------------------- */

  /** `toto tata + titi - *`, with the `+` unary, builds `toto * ((+tata) - titi)`. */
  lemma ParseToTreeExample()
    ensures ParseToTree([RPN.Name("toto"), RPN.Name("tata"), RPN.Unary(Plus), RPN.Name("titi"),
                         RPN.Binary(Subtraction), RPN.Binary(Multiplication)])
         == Ok(Tree.Binary(Multiplication, Tree.Name("toto"), Tree.Binary(Subtraction, Tree.Unary(Plus, Tree.Name("tata")), Tree.Name("titi"))))
  {
    var t := Tree.Binary(Multiplication, Tree.Name("toto"), Tree.Binary(Subtraction, Tree.Unary(Plus, Tree.Name("tata")), Tree.Name("titi")));
    assert ToRpn(t) == [RPN.Name("toto"), RPN.Name("tata"), RPN.Unary(Plus), RPN.Name("titi"),
                        RPN.Binary(Subtraction), RPN.Binary(Multiplication)];
    ParseToTreeOfToRpn(t);
  }
}
