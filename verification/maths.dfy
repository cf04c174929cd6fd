/**
  The legacy integer pipeline: a line of text is cut into tokens, the
  tokens are rearranged in place into a tree whose root is the first
  element (children are found at relative offsets), names are replaced by
  the values of a variable map and then read as `i64` numbers, and the tree
  is evaluated from its root.

  Errors meant for the user are plain messages (`Failed`). A panic of the
  program, and a recursion or loop of the program that never ends (a stack
  overflow in `math_compute_index`, an endless `while let` in
  `read_named_variables`), are kept apart as `Aborted`.
 */
module Maths {
  import opened Errors
  import opened MachineInt
  import opened Radix
  import Lexer

  /** The legacy alphabet: the four arithmetic operators and parentheses. */
  const MATH_CHARS: seq<char> := ['+', '-', '*', '/', '(', ')']

  const CLOSE_WITHOUT_OPEN: string := "Error, closing a parenthesis with no matching open ones.\n"
  const OPEN_WITHOUT_CLOSE: string := "Error, opening parenthesis with no matching closed one.\n"
  const EMPTY_LINE: string := "Error, empty line of math.\n"

  /** The message of a text that is no number. */
  function Unformattable(s: string): string {
    "Unable to format " + s + " into a number"
  }

  datatype Abort = Panic | Diverge

  datatype Outcome<+T> = Done(value: T) | Failed(message: string) | Aborted(why: Abort) {
    predicate IsFailure() {
      !Done?
    }

    function PropagateFailure<U>(): Outcome<U>
      requires !Done?
    {
      if Failed? then Failed(message) else Aborted(why)
    }

    function Extract(): T
      requires Done?
    {
      value
    }
  }

  /**
    An element of a line. `Name` and `Operator` come from the tokenizer;
    `Value`, `Operation`, `ParenOpen` and `ParenClose` are written by the
    parser and the readers. Offsets are relative to the element's own index.
   */
  datatype MathValue =
    | Name(text: string)
    | Operator(c: char)
    | Value(n: i64)
    | Operation(op: char, first: int, second: int)
    | ParenOpen(inside: int)
    | ParenClose(size: nat)

  /* -------------------------------- tokenizer -------------------------------- */

  function ToValue(t: Lexer.Lexeme): MathValue {
    match t
    case Word(x) => Name(x)
    case Symbol(c) => Operator(c)
  }

  function ToValues(ts: seq<Lexer.Lexeme>): (r: seq<MathValue>)
    ensures |r| == |ts|
    ensures forall k :: 0 <= k < |ts| ==> r[k] == ToValue(ts[k])
  {
    if |ts| == 0 then [] else [ToValue(ts[0])] + ToValues(ts[1..])
  }

  /**
    `math_token`: each alphabet character is an `Operator`, each maximal run
    of other characters a `Name`; no end marker is added.
   */
  function MathToken(s: string): (r: seq<MathValue>)
    ensures |r| == |Lexer.Scan(MATH_CHARS, s)|
    ensures forall k :: 0 <= k < |r| ==> r[k] == ToValue(Lexer.Scan(MATH_CHARS, s)[k])
  {
    ToValues(Lexer.Scan(MATH_CHARS, s))
  }

  /** The text a token stands for. */
  function Spelling(line: seq<MathValue>): string {
    if |line| == 0 then []
    else
      (match line[0]
       case Name(x) => x
       case Operator(c) => [c]
       case _ => []) + Spelling(line[1..])
  }

  lemma {:induction false} SpellingOfValues(ts: seq<Lexer.Lexeme>)
    ensures Spelling(ToValues(ts)) == Lexer.Concat(ts)
    decreases |ts|
  {
    if |ts| > 0 {
      SpellingOfValues(ts[1..]);
      assert ToValues(ts)[1..] == ToValues(ts[1..]);
    }
  }

  /** The tokens spell the text back: nothing is dropped or added. */
  lemma MathTokenSpellsInput(s: string)
    ensures Spelling(MathToken(s)) == s
  {
    Lexer.ScanIsLex(MATH_CHARS, s);
    Lexer.LexSpellsInput(MATH_CHARS, s);
    SpellingOfValues(Lexer.Scan(MATH_CHARS, s));
  }

  /**
    Names are non-empty and free of alphabet characters, operators belong to
    the alphabet, and no two names are adjacent.
   */
  lemma MathTokenShape(s: string)
    ensures forall k :: 0 <= k < |MathToken(s)| ==>
              || (MathToken(s)[k].Name? && |MathToken(s)[k].text| > 0
                  && forall j :: 0 <= j < |MathToken(s)[k].text| ==> MathToken(s)[k].text[j] !in MATH_CHARS)
              || (MathToken(s)[k].Operator? && MathToken(s)[k].c in MATH_CHARS)
    ensures forall k :: 0 <= k < |MathToken(s)| - 1 ==> !(MathToken(s)[k].Name? && MathToken(s)[k + 1].Name?)
  {
    Lexer.ScanIsLex(MATH_CHARS, s);
    Lexer.LexWellFormed(MATH_CHARS, s);
    var ts := Lexer.Scan(MATH_CHARS, s);
    forall k | 0 <= k < |MathToken(s)|
      ensures || (MathToken(s)[k].Name? && |MathToken(s)[k].text| > 0
                  && forall j :: 0 <= j < |MathToken(s)[k].text| ==> MathToken(s)[k].text[j] !in MATH_CHARS)
              || (MathToken(s)[k].Operator? && MathToken(s)[k].c in MATH_CHARS)
    {
      assert Lexer.Proper(MATH_CHARS, ts[k]);
    }
  }

  /* -------------------------------- the parser ------------------------------- */

  predicate IsParenOperator(v: MathValue) {
    v == Operator('(') || v == Operator(')')
  }

  /** No parenthesis is left as an `Operator`. */
  predicate NoParens(line: seq<MathValue>) {
    forall k :: 0 <= k < |line| ==> !IsParenOperator(line[k])
  }

  function NameOf(v: MathValue): multiset<string> {
    if v.Name? then multiset{v.text} else multiset{}
  }

  /** The texts of the names of a line, with their multiplicities. */
  function Names(line: seq<MathValue>): multiset<string>
    decreases |line|
  {
    if |line| == 0 then multiset{} else Names(line[..|line| - 1]) + NameOf(line[|line| - 1])
  }

  /** The first element moved to index `k`, its offsets adjusted so that it still points at the same elements. */
  function Rebase(v: MathValue, k: int): (r: MathValue)
    ensures NameOf(r) == NameOf(v)
    ensures IsParenOperator(r) == IsParenOperator(v)
  {
    match v
    case ParenOpen(o) => ParenOpen(o - k)
    case Operation(c, o1, o2) => Operation(c, o1 - k, o2 - k)
    case _ => v
  }

  /**
    `math_parse`: groups are folded first, then the line is split on its
    rightmost `+` or `-`, then on its rightmost `/` or `*`. A successful
    parse keeps the length of the line and its names, and leaves no
    parenthesis operator behind.
   */
  function MathParse(line: seq<MathValue>): (r: Outcome<seq<MathValue>>)
    ensures r.Done? ==> |r.value| == |line|
    ensures r.Done? ==> Names(r.value) == Names(line)
    ensures r.Done? ==> NoParens(r.value)
    decreases |line|, 3
  {
    var grouped :- ParenParse(line);
    var additive :- ParseOp(grouped, ['+', '-']);
    ParseOp(additive, ['/', '*'])
  }

  /** `paren_parse`: every outermost group becomes `ParenOpen(1)`, its parsed inside, `ParenClose(size)`. */
  function ParenParse(line: seq<MathValue>): (r: Outcome<seq<MathValue>>)
    ensures r.Done? ==> |r.value| == |line|
    ensures r.Done? ==> Names(r.value) == Names(line)
    ensures r.Done? ==> NoParens(r.value)
    decreases |line|, 2
  {
    ParenLoop(line, 0, 0, 0)
  }

  /**
    What the scan of `paren_parse` has done before index `i`: with no group
    open the prefix is free of parenthesis operators; with one open, the
    part before its `(` is.
   */
  predicate ParenReady(line: seq<MathValue>, i: nat, depth: nat, open: nat)
    requires i <= |line|
  {
    if depth == 0 then NoParens(line[..i]) else open <= i && NoParens(line[..open])
  }

  /**
    The loop of `paren_parse` from index `i`, `depth` groups deep, the
    outermost open group having started at `open`. Only indices below `i`
    have been rewritten.
   */
  function ParenLoop(line: seq<MathValue>, i: nat, depth: nat, open: nat): (r: Outcome<seq<MathValue>>)
    requires i <= |line|
    requires depth > 0 ==> open < i && line[open] == Operator('(')
    ensures r.Done? ==> |r.value| == |line|
    ensures r.Done? ==> Names(r.value) == Names(line)
    ensures r.Done? && ParenReady(line, i, depth, open) ==> NoParens(r.value)
    decreases |line|, 1, |line| - i
  {
    if i == |line| then
      if depth != 0 then Failed(OPEN_WITHOUT_CLOSE) else Done(line)
    else if depth == 0 then
      if line[i] == Operator('(') then ParenLoop(line, i + 1, 1, i)
      else if line[i] == Operator(')') then Failed(CLOSE_WITHOUT_OPEN)
      else
        assert ParenReady(line, i, 0, open) ==> ParenReady(line, i + 1, 0, open) by {
          assert line[..i + 1] == line[..i] + [line[i]];
        }
        ParenLoop(line, i + 1, 0, open)
    else if line[i] == Operator('(') then ParenLoop(line, i + 1, depth + 1, open)
    else if line[i] == Operator(')') then
      if depth == 1 then
        var inside :- MathParse(line[open + 1..i]);
        var folded := line[..open] + [ParenOpen(1)] + inside + [ParenClose(i - open - 1)] + line[i + 1..];
        FoldKeeps(line, open, i, inside);
        ParenLoop(folded, i + 1, 0, open)
      else ParenLoop(line, i + 1, depth - 1, open)
    else ParenLoop(line, i + 1, depth, open)
  }

  /**
    `parse_op`: an empty line is an error, a single element is left alone,
    and a longer line is scanned from its next-to-last element down to its
    second one for an operator of `ops`.
   */
  function ParseOp(line: seq<MathValue>, ops: seq<char>): (r: Outcome<seq<MathValue>>)
    ensures r.Done? ==> |r.value| == |line|
    ensures r.Done? ==> Names(r.value) == Names(line)
    ensures r.Done? && NoParens(line) ==> NoParens(r.value)
    ensures |line| == 0 ==> r == Failed(EMPTY_LINE)
    ensures |line| == 1 ==> r == Done(line)
    decreases |line|, 2
  {
    if |line| == 0 then Failed(EMPTY_LINE)
    else if |line| == 1 then Done(line)
    else ScanOps(line, ops, |line| - 2)
  }

  /**
    The scan of `parse_op` at `index`. A `ParenClose(size)` moves the scan
    back by `size`; moving below zero is an unsigned underflow (a panic),
    and a size of zero would never move it again.
   */
  function ScanOps(line: seq<MathValue>, ops: seq<char>, index: nat): (r: Outcome<seq<MathValue>>)
    requires index < |line| - 1
    ensures r.Done? ==> |r.value| == |line|
    ensures r.Done? ==> Names(r.value) == Names(line)
    ensures r.Done? && NoParens(line) ==> NoParens(r.value)
    decreases |line|, 1, index
  {
    if index < 1 then Done(line)
    else
      match line[index]
      case Operator(c) => if c in ops then MakeOp(line, index, c) else ScanOps(line, ops, index - 1)
      case ParenClose(size) =>
        if size == 0 then Aborted(Diverge)
        else if size > index then Aborted(Panic)
        else ScanOps(line, ops, index - size)
      case _ => ScanOps(line, ops, index - 1)
  }

  /**
    `make_op`: both sides of the operator at `index` are parsed; the
    operation takes the first slot, pointing at `index` and `index + 1`, and
    the left side's root moves to the operator's slot.
   */
  function MakeOp(line: seq<MathValue>, index: nat, c: char): (r: Outcome<seq<MathValue>>)
    requires 1 <= index < |line| - 1
    requires line[index] == Operator(c)
    ensures r.Done? ==> |r.value| == |line|
    ensures r.Done? ==> Names(r.value) == Names(line)
    ensures r.Done? ==> NoParens(r.value)
    decreases |line|, 0
  {
    var left :- MathParse(line[..index]);
    var right :- MathParse(line[index + 1..]);
    var result := Layout(c, left, right);
    MakeOpKeepsNames(line, index, left, right, c);
    assert NoParens(result) by {
      NoParensAppend([Operation(c, index, index + 1)], left[1..]);
      NoParensAppend([Operation(c, index, index + 1)] + left[1..], [Rebase(left[0], index)]);
      NoParensAppend([Operation(c, index, index + 1)] + left[1..] + [Rebase(left[0], index)], right);
    }
    Done(result)
  }

  /**
    The line `make_op` leaves: the operation first, pointing at the left
    side's root (moved to just after the left side) and at the right side's
    root (just after that).
   */
  function Layout(c: char, left: seq<MathValue>, right: seq<MathValue>): (r: seq<MathValue>)
    requires |left| >= 1
    ensures |r| == |left| + 1 + |right|
  {
    [Operation(c, |left|, |left| + 1)] + left[1..] + [Rebase(left[0], |left|)] + right
  }

  /* --------------------- names and parentheses under splicing --------------------- */

  lemma NoParensAppend(a: seq<MathValue>, b: seq<MathValue>)
    requires NoParens(a) && NoParens(b)
    ensures NoParens(a + b)
  {
    forall k | 0 <= k < |a + b| ensures !IsParenOperator((a + b)[k]) {
      if k >= |a| { assert (a + b)[k] == b[k - |a|]; }
    }
  }

  lemma {:induction false} NamesAppend(a: seq<MathValue>, b: seq<MathValue>)
    ensures Names(a + b) == Names(a) + Names(b)
    decreases |b|
  {
    if |b| == 0 {
      assert a + b == a;
    } else {
      var b' := b[..|b| - 1];
      assert (a + b)[..|a + b| - 1] == a + b';
      assert (a + b)[|a + b| - 1] == b[|b| - 1];
      NamesAppend(a, b');
    }
  }

  lemma NamesOne(v: MathValue)
    ensures Names([v]) == NameOf(v)
  {
    assert [v][..0] == [];
  }

  /** Folding the group from `open` to `i` keeps the length and the names, and leaves no parenthesis before `i + 1`. */
  lemma FoldKeeps(line: seq<MathValue>, open: nat, i: nat, inside: seq<MathValue>)
    requires open < i < |line| && line[open] == Operator('(') && line[i] == Operator(')')
    requires |inside| == i - open - 1 && Names(inside) == Names(line[open + 1..i]) && NoParens(inside)
    ensures |line[..open] + [ParenOpen(1)] + inside + [ParenClose(i - open - 1)] + line[i + 1..]| == |line|
    ensures Names(line[..open] + [ParenOpen(1)] + inside + [ParenClose(i - open - 1)] + line[i + 1..]) == Names(line)
    ensures ParenReady(line, i, 1, open)
            ==> ParenReady(line[..open] + [ParenOpen(1)] + inside + [ParenClose(i - open - 1)] + line[i + 1..], i + 1, 0, open)
  {
    var folded := line[..open] + [ParenOpen(1)] + inside + [ParenClose(i - open - 1)] + line[i + 1..];
    SpliceKeepsNames(line, open, i, ParenOpen(1), inside, ParenClose(i - open - 1));
    if ParenReady(line, i, 1, open) {
      assert folded[..i + 1] == line[..open] + [ParenOpen(1)] + inside + [ParenClose(i - open - 1)];
      NoParensAppend(line[..open], [ParenOpen(1)]);
      NoParensAppend(line[..open] + [ParenOpen(1)], inside);
      NoParensAppend(line[..open] + [ParenOpen(1)] + inside, [ParenClose(i - open - 1)]);
    }
  }

  /** Replacing the slice `(lo, hi)` and its two non-name ends keeps the names when the new middle has the same names. */
  lemma SpliceKeepsNames(line: seq<MathValue>, lo: nat, hi: nat, x: MathValue, mid: seq<MathValue>, y: MathValue)
    requires lo < hi < |line|
    requires !line[lo].Name? && !line[hi].Name? && !x.Name? && !y.Name?
    requires Names(mid) == Names(line[lo + 1..hi])
    ensures Names(line[..lo] + [x] + mid + [y] + line[hi + 1..]) == Names(line)
  {
    assert line == line[..lo] + [line[lo]] + line[lo + 1..hi] + [line[hi]] + line[hi + 1..];
    NamesAppend(line[..lo] + [x] + mid + [y], line[hi + 1..]);
    NamesAppend(line[..lo] + [x] + mid, [y]);
    NamesAppend(line[..lo] + [x], mid);
    NamesAppend(line[..lo], [x]);
    NamesAppend(line[..lo] + [line[lo]] + line[lo + 1..hi] + [line[hi]], line[hi + 1..]);
    NamesAppend(line[..lo] + [line[lo]] + line[lo + 1..hi], [line[hi]]);
    NamesAppend(line[..lo] + [line[lo]], line[lo + 1..hi]);
    NamesAppend(line[..lo], [line[lo]]);
    NamesOne(x);
    NamesOne(y);
    NamesOne(line[lo]);
    NamesOne(line[hi]);
  }

  lemma MakeOpKeepsNames(line: seq<MathValue>, index: nat, left: seq<MathValue>, right: seq<MathValue>, c: char)
    requires 1 <= index < |line| - 1
    requires line[index] == Operator(c)
    requires |left| == index
    requires Names(left) == Names(line[..index]) && Names(right) == Names(line[index + 1..])
    ensures Names([Operation(c, index, index + 1)] + left[1..] + [Rebase(left[0], index)] + right) == Names(line)
  {
    SplitNames(line, index);
    RebasedNames(left, index, c);
    NamesAppend([Operation(c, index, index + 1)] + left[1..] + [Rebase(left[0], index)], right);
  }

  /** The names of a line are those on either side of a non-name. */
  lemma SplitNames(line: seq<MathValue>, index: nat)
    requires index < |line| && !line[index].Name?
    ensures Names(line) == Names(line[..index]) + Names(line[index + 1..])
  {
    assert line == line[..index] + [line[index]] + line[index + 1..];
    NamesAppend(line[..index] + [line[index]], line[index + 1..]);
    NamesAppend(line[..index], [line[index]]);
    NamesOne(line[index]);
  }

  /** Moving the root of the left side behind it, in front of a non-name, keeps its names. */
  lemma RebasedNames(left: seq<MathValue>, index: nat, c: char)
    requires |left| >= 1
    ensures Names([Operation(c, index, index + 1)] + left[1..] + [Rebase(left[0], index)]) == Names(left)
  {
    var head := Operation(c, index, index + 1);
    assert left == [left[0]] + left[1..];
    NamesAppend([left[0]], left[1..]);
    NamesOne(left[0]);
    NamesAppend([head] + left[1..], [Rebase(left[0], index)]);
    NamesAppend([head], left[1..]);
    NamesOne(head);
    NamesOne(Rebase(left[0], index));
  }

  /* --------------------------- what paren_parse accepts --------------------------- */

  /** How an element changes the depth of groups: `(` opens one, `)` closes one. */
  function Delta(v: MathValue): int {
    if v == Operator('(') then 1 else if v == Operator(')') then -1 else 0
  }

  /** Opening minus closing parenthesis operators among the first `i` elements. */
  function Balance(line: seq<MathValue>, i: nat): int
    requires i <= |line|
  {
    if i == 0 then 0
    else Balance(line, i - 1) + Delta(line[i - 1])
  }

  /** Every prefix closes no more groups than it opens, and the whole line closes them all. */
  predicate Balanced(line: seq<MathValue>) {
    && (forall i :: 0 <= i <= |line| ==> Balance(line, i) >= 0)
    && Balance(line, |line|) == 0
  }

  lemma {:induction false} BalanceOfNoParens(line: seq<MathValue>, i: nat)
    requires i <= |line| && NoParens(line)
    ensures Balance(line, i) == 0
  {
    if i > 0 {
      BalanceOfNoParens(line, i - 1);
    }
  }

  /** A line without parenthesis operators is balanced. */
  lemma NoParensBalanced(line: seq<MathValue>)
    requires NoParens(line)
    ensures Balanced(line)
  {
    forall i | 0 <= i <= |line| ensures Balance(line, i) >= 0 {
      BalanceOfNoParens(line, i);
    }
    BalanceOfNoParens(line, |line|);
  }

  lemma {:induction false} BalanceAppend(a: seq<MathValue>, b: seq<MathValue>, i: nat)
    requires i <= |b|
    ensures Balance(a + b, |a| + i) == Balance(a, |a|) + Balance(b, i)
  {
    if i == 0 {
      BalancePrefix(a, b, |a|);
    } else {
      BalanceAppend(a, b, i - 1);
      assert (a + b)[|a| + i - 1] == b[i - 1];
    }
  }

  lemma {:induction false} BalancePrefix(a: seq<MathValue>, b: seq<MathValue>, i: nat)
    requires i <= |a|
    ensures Balance(a + b, i) == Balance(a, i)
  {
    if i > 0 {
      BalancePrefix(a, b, i - 1);
      assert (a + b)[i - 1] == a[i - 1];
    }
  }

  /** Two balanced lines in a row are balanced. */
  lemma BalancedAppend(a: seq<MathValue>, b: seq<MathValue>)
    requires Balanced(a) && Balanced(b)
    ensures Balanced(a + b)
  {
    forall i | 0 <= i <= |a + b| ensures Balance(a + b, i) >= 0 {
      if i <= |a| {
        BalancePrefix(a, b, i);
      } else {
        BalanceAppend(a, b, i - |a|);
      }
    }
    BalanceAppend(a, b, |b|);
  }

  /** A balanced line between parentheses is balanced. */
  lemma BalancedGroup(x: seq<MathValue>)
    requires Balanced(x)
    ensures Balanced([Operator('(')] + x + [Operator(')')])
  {
    var g := [Operator('(')] + x + [Operator(')')];
    assert g == [Operator('(')] + (x + [Operator(')')]);
    forall i | 0 <= i <= |g| ensures Balance(g, i) >= 0 {
      if i >= 1 {
        BalanceAppend([Operator('(')], x + [Operator(')')], i - 1);
        if i - 1 <= |x| {
          BalancePrefix(x, [Operator(')')], i - 1);
        } else {
          BalanceAppend(x, [Operator(')')], 1);
        }
      }
    }
    BalanceAppend([Operator('(')], x + [Operator(')')], |x| + 1);
    BalanceAppend(x, [Operator(')')], 1);
  }

  lemma {:induction false} BalanceOfSameElements(a: seq<MathValue>, b: seq<MathValue>, i: nat)
    requires i <= |a| == |b|
    requires forall k :: 0 <= k < i ==> IsParenOperator(a[k]) == IsParenOperator(b[k]) && (IsParenOperator(a[k]) ==> a[k] == b[k])
    ensures Balance(a, i) == Balance(b, i)
  {
    if i > 0 {
      BalanceOfSameElements(a, b, i - 1);
    }
  }

  predicate NonNegativeUpTo(line: seq<MathValue>, i: nat)
    requires i <= |line|
  {
    forall k :: 0 <= k <= i ==> Balance(line, k) >= 0
  }

  lemma NonNegativeStep(line: seq<MathValue>, i: nat)
    requires i < |line|
    requires NonNegativeUpTo(line, i) && Balance(line, i + 1) >= 0
    ensures NonNegativeUpTo(line, i + 1)
  {
  }

  /**
    The loop's view: `depth` is the balance of the original line before `i`,
    the elements from `i` on are still the original ones, and no prefix so
    far went below zero.
   */
  lemma {:induction false} ParenLoopBalanced(orig: seq<MathValue>, line: seq<MathValue>, i: nat, depth: nat, open: nat)
    requires i <= |line| == |orig|
    requires depth > 0 ==> open < i && line[open] == Operator('(')
    requires line[i..] == orig[i..]
    requires depth == Balance(orig, i)
    requires NonNegativeUpTo(orig, i)
    requires ParenLoop(line, i, depth, open).Done?
    ensures Balanced(orig)
    decreases |line| - i
  {
    if i < |line| {
      assert line[i] == orig[i] by { assert line[i..][0] == orig[i..][0]; }
      assert line[i + 1..] == orig[i + 1..] by { assert line[i + 1..] == line[i..][1..]; }
      assert Balance(orig, i + 1) == depth + Delta(orig[i]);
      // a `)` with no group open fails, so it is not the case here
      if depth > 0 || line[i] != Operator(')') {
        NonNegativeStep(orig, i);
        if depth == 0 {
          if line[i] == Operator('(') {
            ParenLoopBalanced(orig, line, i + 1, 1, i);
          } else {
            ParenLoopBalanced(orig, line, i + 1, 0, open);
          }
        } else if line[i] == Operator('(') {
          ParenLoopBalanced(orig, line, i + 1, depth + 1, open);
        } else if line[i] == Operator(')') && depth == 1 {
          ClosingGroupBalanced(orig, line, i, open);
        } else {
          ParenLoopBalanced(orig, line, i + 1, if line[i] == Operator(')') then depth - 1 else depth, open);
        }
      }
    } else {
      assert ParenLoop(line, i, depth, open) == (if depth != 0 then Failed(OPEN_WITHOUT_CLOSE) else Done(line));
    }
  }

  lemma {:induction false} ClosingGroupBalanced(orig: seq<MathValue>, line: seq<MathValue>, i: nat, open: nat)
    requires i < |line| == |orig|
    requires open < i && line[open] == Operator('(') && line[i] == Operator(')')
    requires line[i + 1..] == orig[i + 1..]
    requires Balance(orig, i + 1) == 0
    requires NonNegativeUpTo(orig, i + 1)
    requires ParenLoop(line, i, 1, open).Done?
    ensures Balanced(orig)
    decreases |line| - i, 1
  {
    ParenLoopCloses(line, i, open);
    var inside := MathParse(line[open + 1..i]).value;
    FoldedTail(line, open, i, inside);
    FoldedBalanced(orig, line[..open] + [ParenOpen(1)] + inside + [ParenClose(i - open - 1)] + line[i + 1..], i, open);
  }

  lemma FoldedBalanced(orig: seq<MathValue>, folded: seq<MathValue>, i: nat, open: nat)
    requires i < |folded| == |orig|
    requires folded[i + 1..] == orig[i + 1..]
    requires Balance(orig, i + 1) == 0
    requires NonNegativeUpTo(orig, i + 1)
    requires ParenLoop(folded, i + 1, 0, open).Done?
    ensures Balanced(orig)
    decreases |orig| - i, 0
  {
    ParenLoopBalanced(orig, folded, i + 1, 0, open);
  }

  lemma FoldedTail(line: seq<MathValue>, open: nat, i: nat, inside: seq<MathValue>)
    requires open < i < |line| && |inside| == i - open - 1
    ensures |line[..open] + [ParenOpen(1)] + inside + [ParenClose(i - open - 1)] + line[i + 1..]| == |line|
    ensures (line[..open] + [ParenOpen(1)] + inside + [ParenClose(i - open - 1)] + line[i + 1..])[i + 1..] == line[i + 1..]
  {
    var front := line[..open] + [ParenOpen(1)] + inside + [ParenClose(i - open - 1)];
    assert |front| == i + 1;
    assert (front + line[i + 1..])[i + 1..] == line[i + 1..];
  }

  /** A `)` closing the outermost group: the loop goes on only if the inside parses, on the folded line. */
  lemma ParenLoopCloses(line: seq<MathValue>, i: nat, open: nat)
    requires open < i < |line| && line[open] == Operator('(') && line[i] == Operator(')')
    requires ParenLoop(line, i, 1, open).Done?
    ensures MathParse(line[open + 1..i]).Done?
    ensures ParenLoop(line, i, 1, open)
            == ParenLoop(line[..open] + [ParenOpen(1)] + MathParse(line[open + 1..i]).value + [ParenClose(i - open - 1)] + line[i + 1..],
                         i + 1, 0, open)
  {
  }

  /** `paren_parse` accepts only lines whose parenthesis operators are balanced. */
  lemma ParenParseBalanced(line: seq<MathValue>)
    requires ParenParse(line).Done?
    ensures Balanced(line)
  {
    assert NonNegativeUpTo(line, 0);
    ParenLoopBalanced(line, line, 0, 0, 0);
  }

  /* ------------------------------ simple layouts ------------------------------ */

  /** With no group open, a rest free of parenthesis operators is passed over. */
  lemma {:induction false} ParenLoopIdle(line: seq<MathValue>, i: nat, open: nat)
    requires i <= |line|
    requires forall k :: i <= k < |line| ==> !IsParenOperator(line[k])
    ensures ParenLoop(line, i, 0, open) == Done(line)
    decreases |line| - i
  {
    if i < |line| {
      ParenLoopIdle(line, i + 1, open);
    }
  }

  /** A line with no parenthesis operator goes through `paren_parse` unchanged. */
  lemma ParenParseIdle(line: seq<MathValue>)
    requires NoParens(line)
    ensures ParenParse(line) == Done(line)
  {
    ParenLoopIdle(line, 0, 0);
  }

  /** The scan passes over anything but operators and group ends without a change. */
  lemma {:induction false} ScanOpsIdle(line: seq<MathValue>, ops: seq<char>, index: nat)
    requires index < |line| - 1
    requires forall k :: 1 <= k <= index ==> !line[k].Operator? && !line[k].ParenClose?
    ensures ScanOps(line, ops, index) == Done(line)
    decreases index
  {
    if index >= 1 {
      ScanOpsIdle(line, ops, index - 1);
    }
  }

  /** With no group open, an element that is no parenthesis operator is passed over. */
  lemma ParenLoopStep(line: seq<MathValue>, i: nat, open: nat)
    requires i < |line| && !IsParenOperator(line[i])
    ensures ParenLoop(line, i, 0, open) == ParenLoop(line, i + 1, 0, open)
  {
  }

  /**
    Inside a group whose contents are balanced, the loop only counts
    depth: the first time it comes back to depth one is at the end `j`.
   */
  lemma {:induction false} ParenLoopCounts(line: seq<MathValue>, open: nat, t: nat, j: nat)
    requires open < j < |line| && line[open] == Operator('(')
    requires Balanced(line[open + 1..j])
    requires t <= j - open - 1
    ensures ParenLoop(line, open + 1 + t, 1 + Balance(line[open + 1..j], t), open) == ParenLoop(line, j, 1, open)
    decreases j - open - 1 - t
  {
    if t < j - open - 1 {
      assert Balance(line[open + 1..j], t) >= 0 && Balance(line[open + 1..j], t + 1) >= 0;
      ParenLoopCountsStep(line, open, t, j);
      ParenLoopCounts(line, open, t + 1, j);
    } else {
      assert Balance(line[open + 1..j], t) == 0;
    }
  }

  lemma ParenLoopCountsStep(line: seq<MathValue>, open: nat, t: nat, j: nat)
    requires open < j < |line| && line[open] == Operator('(')
    requires t < j - open - 1
    requires Balance(line[open + 1..j], t) >= 0 && Balance(line[open + 1..j], t + 1) >= 0
    ensures ParenLoop(line, open + 1 + t, 1 + Balance(line[open + 1..j], t), open)
            == ParenLoop(line, open + 1 + (t + 1), 1 + Balance(line[open + 1..j], t + 1), open)
  {
    var i := open + 1 + t;
    var depth := 1 + Balance(line[open + 1..j], t);
    var next := 1 + Balance(line[open + 1..j], t + 1);
    assert next == depth + Delta(line[i]) by { BalanceInside(line, open, t, j); }
    ParenLoopDeepStep(line, i, depth, next, open);
  }

  lemma BalanceInside(line: seq<MathValue>, open: nat, t: nat, j: nat)
    requires open < j <= |line| && t < j - open - 1
    ensures Balance(line[open + 1..j], t + 1) == Balance(line[open + 1..j], t) + Delta(line[open + 1 + t])
  {
    var s := line[open + 1..j];
    assert s[t] == line[open + 1 + t];
  }

  /** Inside a group that stays open, the loop moves one element on and only counts depth. */
  lemma ParenLoopDeepStep(line: seq<MathValue>, i: nat, depth: nat, next: nat, open: nat)
    requires open < i < |line| && line[open] == Operator('(') && depth >= 1
    requires line[i] == Operator(')') ==> depth >= 2
    requires next == depth + Delta(line[i])
    ensures ParenLoop(line, i, depth, open) == ParenLoop(line, i + 1, next, open)
  {
  }

  /**
    A group at `open`, closed at `j`, whose contents are balanced and parse
    to `inside`: the loop folds it and goes on after it.
   */
  lemma GroupFolds(line: seq<MathValue>, open: nat, j: nat, previous: nat, inside: seq<MathValue>)
    requires open < j < |line|
    requires line[open] == Operator('(') && line[j] == Operator(')')
    requires Balanced(line[open + 1..j])
    requires MathParse(line[open + 1..j]) == Done(inside)
    ensures ParenLoop(line, open, 0, previous)
            == ParenLoop(line[..open] + [ParenOpen(1)] + inside + [ParenClose(j - open - 1)] + line[j + 1..], j + 1, 0, open)
  {
    GroupOpens(line, open, previous);
    ParenLoopCounts(line, open, 0, j);
    assert Balance(line[open + 1..j], 0) == 0;
    GroupCloses(line, open, j, inside);
  }

  lemma GroupOpens(line: seq<MathValue>, open: nat, previous: nat)
    requires open < |line| && line[open] == Operator('(')
    ensures ParenLoop(line, open, 0, previous) == ParenLoop(line, open + 1, 1, open)
  {
  }

  /** The group `line[open..j + 1]` is balanced inside, parses to `inside`, and folding it gives `folded`. */
  predicate FoldsAt(line: seq<MathValue>, open: nat, j: nat, inside: seq<MathValue>, folded: seq<MathValue>) {
    && open < j < |line|
    && line[open] == Operator('(') && line[j] == Operator(')')
    && Balanced(line[open + 1..j])
    && MathParse(line[open + 1..j]) == Done(inside)
    && folded == line[..open] + [ParenOpen(1)] + inside + [ParenClose(j - open - 1)] + line[j + 1..]
  }

  /** `GroupFolds` with the folded line named. */
  lemma GroupFoldsTo(line: seq<MathValue>, open: nat, j: nat, previous: nat, inside: seq<MathValue>, folded: seq<MathValue>)
    requires FoldsAt(line, open, j, inside, folded)
    ensures ParenLoop(line, open, 0, previous) == ParenLoop(folded, j + 1, 0, open)
  {
    GroupFolds(line, open, j, previous, inside);
  }

  lemma GroupCloses(line: seq<MathValue>, open: nat, j: nat, inside: seq<MathValue>)
    requires open < j < |line|
    requires line[open] == Operator('(') && line[j] == Operator(')')
    requires MathParse(line[open + 1..j]) == Done(inside)
    ensures ParenLoop(line, j, 1, open)
            == ParenLoop(line[..open] + [ParenOpen(1)] + inside + [ParenClose(j - open - 1)] + line[j + 1..], j + 1, 0, open)
  {
  }

  /** The scan of `parse_op` moves past an element that is no operator of `ops` and no group end. */
  predicate Passed(v: MathValue, ops: seq<char>) {
    (v.Operator? ==> v.c !in ops) && !v.ParenClose?
  }

  /** The scan passes down from `hi` to `lo` over elements it does not stop at. */
  lemma {:induction false} ScanOpsPasses(line: seq<MathValue>, ops: seq<char>, lo: nat, hi: nat)
    requires lo <= hi < |line| - 1
    requires forall k :: lo < k <= hi ==> Passed(line[k], ops)
    ensures ScanOps(line, ops, hi) == ScanOps(line, ops, lo)
    decreases hi - lo
  {
    if lo < hi {
      ScanOpsPasses(line, ops, lo, hi - 1);
    }
  }

  /** A group end of size `size` at `index` sends the scan to `index - size`. */
  lemma ScanOpsJumps(line: seq<MathValue>, ops: seq<char>, index: nat)
    requires 1 <= index < |line| - 1
    requires line[index].ParenClose? && 1 <= line[index].size <= index
    ensures ScanOps(line, ops, index) == ScanOps(line, ops, index - line[index].size)
  {
  }

  /** The scan stops at an operator of `ops`. */
  lemma ScanOpsStops(line: seq<MathValue>, ops: seq<char>, index: nat)
    requires 1 <= index < |line| - 1
    requires line[index].Operator? && line[index].c in ops
    ensures ScanOps(line, ops, index) == MakeOp(line, index, line[index].c)
  {
  }

  /**
    A parsed line: no operator is left, and every group end points back at
    an element of the line.
   */
  predicate Settled(line: seq<MathValue>) {
    forall k :: 0 <= k < |line| ==> !line[k].Operator? && (line[k].ParenClose? ==> 1 <= line[k].size <= k)
  }

  lemma {:induction false} ScanOpsSettled(line: seq<MathValue>, ops: seq<char>, index: nat)
    requires index < |line| - 1
    requires Settled(line)
    ensures ScanOps(line, ops, index) == Done(line)
    decreases index
  {
    if index >= 1 {
      if line[index].ParenClose? {
        ScanOpsSettled(line, ops, index - line[index].size);
      } else {
        ScanOpsSettled(line, ops, index - 1);
      }
    }
  }

  lemma ParseOpSettled(line: seq<MathValue>, ops: seq<char>)
    requires |line| >= 1 && Settled(line)
    ensures ParseOp(line, ops) == Done(line)
  {
    if |line| >= 2 {
      ScanOpsSettled(line, ops, |line| - 2);
    }
  }

  /** Parsing a settled line again changes nothing. */
  lemma SettledParse(line: seq<MathValue>)
    requires |line| >= 1 && Settled(line)
    ensures MathParse(line) == Done(line)
  {
    ParenParseIdle(line);
    ParseOpSettled(line, ['+', '-']);
    ParseOpSettled(line, ['/', '*']);
  }

  /** A single element that is no parenthesis operator is a parsed line of its own. */
  lemma SingleParse(x: MathValue)
    requires !IsParenOperator(x)
    ensures MathParse([x]) == Done([x])
  {
    ParenParseIdle([x]);
  }

  /** An element the scan of `parse_op` steps over. */
  predicate Operand(x: MathValue) {
    !x.Operator? && !x.ParenClose?
  }

  /** `x c y` for one of the four operators becomes the operation over `x` and `y`. */
  lemma BinaryParse(x: MathValue, c: char, y: MathValue)
    requires Operand(x) && Operand(y)
    requires c in "+-*/"
    ensures MathParse([x, Operator(c), y]) == Done(Layout(c, [x], [y]))
    ensures Layout(c, [x], [y]) == [Operation(c, 1, 2), Rebase(x, 1), y]
  {
    if c in ['+', '-'] {
      BinaryParseAdditive(x, c, y);
    } else {
      BinaryParseMultiplicative(x, c, y);
    }
  }

  lemma BinaryParseAdditive(x: MathValue, c: char, y: MathValue)
    requires Operand(x) && Operand(y)
    requires c in ['+', '-']
    ensures MathParse([x, Operator(c), y]) == Done(Layout(c, [x], [y]))
    ensures Layout(c, [x], [y]) == [Operation(c, 1, 2), Rebase(x, 1), y]
  {
    var line := [x, Operator(c), y];
    assert NoParens(line);
    ParenParseIdle(line);
    BinaryMakeOp(x, c, y);
    ThreeParseOpStops(line, ['+', '-'], c);
    ThreeParseOpPasses(Layout(c, [x], [y]), ['/', '*']);
  }

  lemma BinaryParseMultiplicative(x: MathValue, c: char, y: MathValue)
    requires Operand(x) && Operand(y)
    requires c in "*/"
    ensures MathParse([x, Operator(c), y]) == Done(Layout(c, [x], [y]))
    ensures Layout(c, [x], [y]) == [Operation(c, 1, 2), Rebase(x, 1), y]
  {
    var line := [x, Operator(c), y];
    assert NoParens(line);
    ParenParseIdle(line);
    BinaryMakeOp(x, c, y);
    ThreeParseOpPasses(line, ['+', '-']);
    ThreeParseOpStops(line, ['/', '*'], c);
  }

  /** On three elements `parse_op` looks only at the middle one: an operator of `ops` there is split on. */
  lemma ThreeParseOpStops(line: seq<MathValue>, ops: seq<char>, c: char)
    requires |line| == 3 && line[1] == Operator(c) && c in ops
    ensures ParseOp(line, ops) == MakeOp(line, 1, c)
  {
  }

  /** On three elements `parse_op` looks only at the middle one: anything else there leaves the line alone. */
  lemma ThreeParseOpPasses(line: seq<MathValue>, ops: seq<char>)
    requires |line| == 3 && !line[1].ParenClose? && (line[1].Operator? ==> line[1].c !in ops)
    ensures ParseOp(line, ops) == Done(line)
  {
    assert ScanOps(line, ops, 1) == ScanOps(line, ops, 0);
  }

  lemma BinaryMakeOp(x: MathValue, c: char, y: MathValue)
    requires Operand(x) && Operand(y)
    ensures MakeOp([x, Operator(c), y], 1, c) == Done(Layout(c, [x], [y]))
    ensures Layout(c, [x], [y]) == [Operation(c, 1, 2), Rebase(x, 1), y]
  {
    var line := [x, Operator(c), y];
    assert line[..1] == [x] && line[2..] == [y];
    SingleParse(x);
    SingleParse(y);
    MakeOpOf(line, 1, c, [x], [y]);
    LayoutOfSingles(c, x, y);
  }

  lemma LayoutOfSingles(c: char, x: MathValue, y: MathValue)
    ensures Layout(c, [x], [y]) == [Operation(c, 1, 2), Rebase(x, 1), y]
  {
    assert [x][1..] == [];
  }

  /** `make_op` once both sides are parsed. */
  lemma MakeOpOf(line: seq<MathValue>, index: nat, c: char, left: seq<MathValue>, right: seq<MathValue>)
    requires 1 <= index < |line| - 1
    requires line[index] == Operator(c)
    requires MathParse(line[..index]) == Done(left)
    requires MathParse(line[index + 1..]) == Done(right)
    ensures MakeOp(line, index, c) == Done(Layout(c, left, right))
  {
  }

  /* ------------------------------- reading numbers ------------------------------ */

  /** What `from_str_radix` makes of a text in `number_from_string` as written: hexadecimal after `0x` only past 3 bytes. */
  function IntegerReadingAsWritten(s: string): Option<i64> {
    if ByteLen(s) > 3 && HexPrefix(s) then FromStrRadix(s[2..], 16) else FromStrRadix(s, 10)
  }

  /** The same with the bound that admits one hexadecimal digit: hexadecimal after `0x` from 3 characters on. */
  function IntegerReading(s: string): Option<i64> {
    if |s| >= 3 && HexPrefix(s) then FromStrRadix(s[2..], 16) else FromStrRadix(s, 10)
  }

  /**
    `number_from_string` as written: a text of more than three bytes
    starting with `0x` is hexadecimal, any other is decimal. The prefix test
    slices the text at byte 2, which panics inside a multi-byte character.
   */
  function NumberFromStringAsWritten(s: string): (r: Outcome<i64>)
    ensures r.Aborted? <==> ByteLen(s) > 3 && !SlicesAtTwo(s)
    ensures r.Aborted? ==> r.why == Panic
    ensures !HexPrefix(s) && !r.Aborted? ==> (r.Done? <==> FromStrRadix(s, 10).Some?)
    ensures r.Done? && !HexPrefix(s) ==> FromStrRadix(s, 10) == Some(r.value)
    ensures !r.Aborted? ==> (r.Done? <==> IntegerReadingAsWritten(s).Some?)
    ensures r.Done? ==> IntegerReadingAsWritten(s) == Some(r.value)
    ensures r.Failed? ==> r.message == Unformattable(s)
  {
    if ByteLen(s) > 3 && !SlicesAtTwo(s) then Aborted(Panic)
    else
      var converted := IntegerReadingAsWritten(s);
      match converted
      case Some(n) => Done(n)
      case None => Failed(Unformattable(s))
  }

  /**
    `number_from_string` with the prefix tested on characters and the
    length bound that also admits a single hexadecimal digit (`0x1`).
   */
  function NumberFromString(s: string): (r: Outcome<i64>)
    ensures !r.Aborted?
    ensures r.Failed? <==> IntegerReading(s).None?
    ensures r.Done? ==> IntegerReading(s) == Some(r.value)
    ensures r.Failed? ==> r.message == Unformattable(s)
  {
    var converted := IntegerReading(s);
    match converted
    case Some(n) => Done(n)
    case None => Failed(Unformattable(s))
  }

  /** Every `i64` written in decimal reads back as itself, in both readers. */
  lemma DecimalNumberRoundTrip(n: i64)
    ensures NumberFromString(DecimalText(n)) == Done(n)
    ensures NumberFromStringAsWritten(DecimalText(n)) == Done(n)
  {
    DecimalRoundTrip(n);
    assert !HexPrefix(DecimalText(n));
    AsciiAgrees(DecimalText(n));
  }

  /** Every non-negative `i64` written as `0x` and hexadecimal digits reads back as itself, a single digit included. */
  lemma HexNumberRoundTrip(n: i64)
    requires n >= 0
    ensures NumberFromString("0x" + Digits(n, 16)) == Done(n)
  {
    var s := "0x" + Digits(n, 16);
    assert s[2..] == Digits(n, 16);
    assert HexPrefix(s) && |s| >= 3;
    HexRoundTrip(n);
  }

  /**
    Wherever `number_from_string` as written neither panics nor meets a three-character
    `0x` text, the two agree.
   */
  lemma NumberFromStringAgrees(s: string)
    requires !NumberFromStringAsWritten(s).Aborted?
    requires !(|s| == 3 && HexPrefix(s))
    ensures NumberFromString(s) == NumberFromStringAsWritten(s)
  {
    if HexPrefix(s) && |s| >= 3 {
      assert ByteLen(s) == Utf8Len(s[0]) + ByteLen(s[1..]);
      assert ByteLen(s[1..]) == Utf8Len(s[1]) + ByteLen(s[2..]);
      assert s[2..] == [s[2]] + s[3..];
      assert ByteLen(s[2..]) == Utf8Len(s[2]) + ByteLen(s[3..]) by { assert s[2..][1..] == s[3..]; }
      assert |s[3..]| > 0;
      assert ByteLen(s[3..]) >= 1;
    }
  }

  /** On ASCII text other than a three-character `0x` text the two readers agree. */
  lemma AsciiAgrees(s: string)
    requires forall i :: 0 <= i < |s| ==> s[i] < '\U{0080}'
    requires !(|s| == 3 && HexPrefix(s))
    ensures NumberFromStringAsWritten(s) == NumberFromString(s)
  {
    ByteLenAscii(s);
    NumberFromStringAgrees(s);
  }

  /** `0x1` is one hexadecimal digit, yet `number_from_string` reads it as a decimal and fails. */
  lemma ShortHexRejected()
    ensures NumberFromStringAsWritten("0x1") == Failed(Unformattable("0x1"))
    ensures NumberFromString("0x1") == Done(1)
  {
    assert ByteLen("0x1") == 3 by {
      assert "0x1"[1..] == "x1" && "x1"[1..] == "1" && "1"[1..] == "";
    }
    assert FromStrRadix("0x1", 10).None? by {
      assert "0x1"[..2] == "0x";
      assert DigitValue('x', 10).None?;
    }
    assert "0x1"[2..] == "1";
  }

  /** A euro sign followed by two digits is five bytes long and byte 2 falls inside the euro sign. */
  lemma EuroTextPanics()
    ensures NumberFromStringAsWritten("€12") == Aborted(Panic)
    ensures NumberFromString("€12") == Failed(Unformattable("€12"))
  {
    assert ByteLen("€12") == 5 by {
      assert "€12"[1..] == "12" && "12"[1..] == "2" && "2"[1..] == "";
    }
    assert !SlicesAtTwo("€12");
    assert FromStrRadix("€12", 10).None? by {
      var ds := "€12";
      assert DigitsValue(ds[..2], 10).None? by {
        assert ds[..2][..1] == "€";
        assert DigitValue('€', 10).None?;
      }
    }
  }

  /**
    `read_numbers`: every name is replaced by the number `number_from_string`
    reads it as; the first name it does not read stops the line with that
    name's error or panic.
   */
  function ReadNumbers(line: seq<MathValue>): (r: Outcome<seq<MathValue>>)
    ensures r.Done? <==> forall k :: 0 <= k < |line| && line[k].Name? ==> NumberFromStringAsWritten(line[k].text).Done?
    ensures r.Done? ==> |r.value| == |line|
    ensures r.Done? ==> forall k :: 0 <= k < |line| ==>
              if line[k].Name? then r.value[k].Value? && NumberFromStringAsWritten(line[k].text) == Done(r.value[k].n)
              else r.value[k] == line[k]
    ensures !r.Done? ==> exists k :: 0 <= k < |line| && line[k].Name? && FirstUnread(line, k)
                                     && r == NumberFromStringAsWritten(line[k].text).PropagateFailure()
  {
    if |line| == 0 then Done([])
    else
      var head := if line[0].Name? then NumberFromStringAsWritten(line[0].text) else Done(0);
      if !head.Done? then
        assert FirstUnread(line, 0);
        head.PropagateFailure()
      else
        var tail := ReadNumbers(line[1..]);
        if !tail.Done? then
          FirstUnreadShift(line);
          tail
        else Done([if line[0].Name? then Value(head.value) else line[0]] + tail.value)
  }

  /** The name at `k` is the first of the line that `number_from_string` does not read. */
  predicate FirstUnread(line: seq<MathValue>, k: int)
    requires 0 <= k < |line|
  {
    line[k].Name? && !NumberFromStringAsWritten(line[k].text).Done?
    && forall j :: 0 <= j < k && line[j].Name? ==> NumberFromStringAsWritten(line[j].text).Done?
  }

  lemma FirstUnreadShift(line: seq<MathValue>)
    requires |line| >= 1
    requires line[0].Name? ==> NumberFromStringAsWritten(line[0].text).Done?
    ensures forall k :: 0 <= k < |line| - 1 && FirstUnread(line[1..], k) ==> FirstUnread(line, k + 1)
  {
  }

  /** The numbers of a line, given element by element. */
  lemma ReadNumbersGives(line: seq<MathValue>, out: seq<MathValue>)
    requires |out| == |line|
    requires forall k :: 0 <= k < |line| ==>
               if line[k].Name? then out[k].Value? && NumberFromStringAsWritten(line[k].text) == Done(out[k].n)
               else out[k] == line[k]
    ensures ReadNumbers(line) == Done(out)
  {
    var r := ReadNumbers(line);
    assert r.Done?;
    forall k | 0 <= k < |line| ensures r.value[k] == out[k] {
      if line[k].Name? {
        assert Done(r.value[k].n) == Done(out[k].n);
      }
    }
    assert r.value == out;
  }

  /** Reading the numbers of a line that has been read already changes nothing. */
  lemma ReadNumbersIdempotent(line: seq<MathValue>)
    requires ReadNumbers(line).Done?
    ensures ReadNumbers(ReadNumbers(line).value) == ReadNumbers(line)
  {
    var once := ReadNumbers(line).value;
    assert forall k :: 0 <= k < |once| ==> !once[k].Name?;
    ReadNumbersNoNames(once);
  }

  lemma {:induction false} ReadNumbersNoNames(line: seq<MathValue>)
    requires forall k :: 0 <= k < |line| ==> !line[k].Name?
    ensures ReadNumbers(line) == Done(line)
    decreases |line|
  {
    if |line| > 0 {
      ReadNumbersNoNames(line[1..]);
      assert [line[0]] + line[1..] == line;
    }
  }

  /* ----------------------------- named variables ----------------------------- */

  /** `k` steps along the chain of `m` from `n`, stopping at the first text that is no key. */
  function Follow(m: map<string, string>, n: string, k: nat): string
    decreases k
  {
    if k == 0 || n !in m then n else Follow(m, m[n], k - 1)
  }

  /** Every chain ends: from any key, as many steps as there are keys reach a text that is no key. */
  predicate ChainsEnd(m: map<string, string>) {
    forall n :: n in m ==> Follow(m, n, |m|) !in m
  }

  lemma {:induction false} FollowStays(m: map<string, string>, n: string, j: nat, k: nat)
    requires j <= k
    requires Follow(m, n, j) !in m
    ensures Follow(m, n, k) == Follow(m, n, j)
    decreases j
  {
    if j > 0 && n in m {
      FollowStays(m, m[n], j - 1, k - 1);
    }
  }

  lemma {:induction false} FollowStep(m: map<string, string>, n: string, j: nat)
    requires Follow(m, n, j) in m
    ensures Follow(m, n, j + 1) == m[Follow(m, n, j)]
    decreases j
  {
    if j > 0 {
      FollowStep(m, m[n], j - 1);
    }
  }

  /** `i + j` steps are `i` steps and then `j` more. */
  lemma {:induction false} FollowAdd(m: map<string, string>, n: string, i: nat, j: nat)
    ensures Follow(m, n, i + j) == Follow(m, Follow(m, n, i), j)
    decreases i
  {
    if i > 0 && n in m {
      FollowAdd(m, m[n], i - 1, j);
    }
  }

  /** A sequence without repeats has as many distinct elements as it is long. */
  lemma {:induction false} DistinctCount(q: seq<string>)
    requires forall i, j :: 0 <= i < j < |q| ==> q[i] != q[j]
    ensures |set x | x in q| == |q|
    decreases |q|
  {
    if |q| > 0 {
      var rest := q[1..];
      DistinctCount(rest);
      assert forall j :: 0 <= j < |rest| ==> rest[j] == q[j + 1];
      assert q[0] !in (set x | x in rest);
      assert (set x | x in q) == {q[0]} + (set x | x in rest) by {
        assert q == [q[0]] + rest;
      }
    }
  }

  /** A chain that is still at a key after `|m|` steps has come back to a text it had already reached. */
  lemma {:induction false} ChainRepeats(m: map<string, string>, n: string) returns (i: nat, j: nat)
    requires Follow(m, n, |m|) in m
    ensures i < j <= |m| && Follow(m, n, i) == Follow(m, n, j)
  {
    var q := seq(|m| + 1, k requires 0 <= k <= |m| => Follow(m, n, k));
    forall k | 0 <= k < |q|
      ensures q[k] in m
    {
      if q[k] !in m {
        FollowStays(m, n, k, |m|);
      }
    }
    var reached := set x | x in q;
    assert reached <= m.Keys;
    assert m.Keys == reached + (m.Keys - reached);
    if forall a, b :: 0 <= a < b < |q| ==> q[a] != q[b] {
      DistinctCount(q);
      assert false;
    }
    i, j :| 0 <= i < j < |q| && q[i] == q[j];
  }

  /** Once the chain comes back to a text with every step before at a key, it stays at keys for ever. */
  lemma {:induction false} ChainCycles(m: map<string, string>, n: string, i: nat, p: nat, k: nat)
    requires p > 0
    requires Follow(m, n, i + p) in m
    requires Follow(m, n, i) == Follow(m, n, i + p)
    ensures Follow(m, n, k) in m
    decreases k
  {
    if k <= i + p {
      if Follow(m, n, k) !in m {
        FollowStays(m, n, k, i + p);
      }
    } else {
      FollowAdd(m, n, i + p, k - i - p);
      FollowAdd(m, n, i, k - i - p);
      assert k - p == i + (k - i - p);
      ChainCycles(m, n, i, p, k - p);
    }
  }

  /** The end of the chain from `n`: after as many steps as there are keys, the first text along it that is no key, if any. */
  function Chase(m: map<string, string>, n: string): (r: string)
    ensures ChainsEnd(m) ==> r !in m
    ensures n !in m ==> r == n
  {
    Follow(m, n, |m|)
  }

  /** A chain that does not end within `|m|` steps never ends; one that ends does so at `Chase`. */
  lemma ChaseEnds(m: map<string, string>, n: string)
    ensures Chase(m, n) in m <==> forall k: nat :: Follow(m, n, k) in m
    ensures forall k: nat :: Follow(m, n, k) !in m ==> Follow(m, n, k) == Chase(m, n)
  {
    if Chase(m, n) in m {
      var i, j := ChainRepeats(m, n);
      if Follow(m, n, j) !in m {
        FollowStays(m, n, j, |m|);
      }
      forall k: nat
        ensures Follow(m, n, k) in m
      {
        ChainCycles(m, n, i, j - i, k);
      }
    } else {
      assert Follow(m, n, |m|) !in m;
    }
    forall k: nat | Follow(m, n, k) !in m
      ensures Follow(m, n, k) == Chase(m, n)
    {
      if k <= |m| {
        FollowStays(m, n, k, |m|);
      } else if Chase(m, n) !in m {
        FollowStays(m, n, |m|, k);
      }
    }
  }

  /** The `while let` of `read_named_variables`: step along the map while the text is a key. */
  method ChaseLoop(m: map<string, string>, start: string) returns (r: string)
    requires exists k: nat :: Follow(m, start, k) !in m
    ensures r !in m
    ensures r == Chase(m, start)
  {
    ChaseEnds(m, start);
    r := start;
    var j: nat := 0;
    while r in m
      invariant j <= |m|
      invariant r == Follow(m, start, j)
      decreases |m| - j
    {
      if j == |m| {
        assert false;
      }
      FollowStep(m, start, j);
      r := m[r];
      j := j + 1;
    }
    FollowStays(m, start, j, |m|);
  }

  /**
    `read_named_variables`: with no map nothing changes; otherwise each name
    that is a key is replaced by the number its chain ends at, and the first
    name whose chain end `number_from_string` does not read, or whose chain
    never ends, stops the line with its error, panic or divergence.
   */
  function ReadNamedVariables(line: seq<MathValue>, vars: Option<map<string, string>>): (r: Outcome<seq<MathValue>>)
    ensures vars.None? ==> r == Done(line)
    ensures r.Done? ==> |r.value| == |line|
    ensures r.Done? && vars.Some? ==> forall k :: 0 <= k < |line| ==>
              if line[k].Name? && line[k].text in vars.value then
                r.value[k].Value? && Substituted(vars.value, line[k]) == Done(r.value[k].n)
              else r.value[k] == line[k]
    ensures vars.Some? ==> (r.Done? <==> forall k :: 0 <= k < |line| && line[k].Name? && line[k].text in vars.value ==>
                              Substituted(vars.value, line[k]).Done?)
    ensures !r.Done? ==> vars.Some? && (exists k :: 0 <= k < |line| && FirstUnmapped(line, vars.value, k)
                                          && r == Substituted(vars.value, line[k]).PropagateFailure())
  {
    match vars
    case None => Done(line)
    case Some(m) => SubstituteSpec(line, m); Substitute(line, m)
  }

  /**
    The number a name that is a key of `m` is replaced by: its chain's end,
    read by `number_from_string`; a chain that never ends is a divergence.
   */
  function Substituted(m: map<string, string>, x: MathValue): Outcome<i64>
    requires x.Name? && x.text in m
  {
    var end := Chase(m, m[x.text]);
    if end in m then Aborted(Diverge) else NumberFromStringAsWritten(end)
  }

  /**
    A name diverges exactly when its chain stays at keys for ever, and
    otherwise it reads the first text along the chain that is no key.
   */
  lemma SubstitutedMeaning(m: map<string, string>, x: MathValue)
    requires x.Name? && x.text in m
    ensures Substituted(m, x) == Aborted(Diverge) <==> forall k: nat :: Follow(m, m[x.text], k) in m
    ensures forall k: nat :: Follow(m, m[x.text], k) !in m ==>
              Substituted(m, x) == NumberFromStringAsWritten(Follow(m, m[x.text], k))
  {
    ChaseEnds(m, m[x.text]);
  }

  /** The element at `k` is the first key of the line whose substitution does not give a number. */
  predicate FirstUnmapped(line: seq<MathValue>, m: map<string, string>, k: int)
    requires 0 <= k < |line|
  {
    line[k].Name? && line[k].text in m && !Substituted(m, line[k]).Done?
    && forall j :: 0 <= j < k && line[j].Name? && line[j].text in m ==> Substituted(m, line[j]).Done?
  }

  function Substitute(line: seq<MathValue>, m: map<string, string>): (r: Outcome<seq<MathValue>>)
    ensures r.Done? ==> |r.value| == |line|
  {
    if |line| == 0 then Done([])
    else
      var mapped := line[0].Name? && line[0].text in m;
      var head := if mapped then Substituted(m, line[0]) else Done(0);
      if !head.Done? then head.PropagateFailure()
      else
        var tail := Substitute(line[1..], m);
        if !tail.Done? then tail
        else Done([if mapped then Value(head.value) else line[0]] + tail.value)
  }

  /**
    Each name that is a key becomes its chain's number, the substitution
    fails exactly when one of those numbers does not read, and then with
    the outcome of the first.
   */
  lemma {:induction false} SubstituteSpec(line: seq<MathValue>, m: map<string, string>)
    ensures Substitute(line, m).Done? ==> forall k :: 0 <= k < |line| ==>
              if line[k].Name? && line[k].text in m then
                Substitute(line, m).value[k].Value? && Substituted(m, line[k]) == Done(Substitute(line, m).value[k].n)
              else Substitute(line, m).value[k] == line[k]
    ensures Substitute(line, m).Done? <==> forall k :: 0 <= k < |line| && line[k].Name? && line[k].text in m ==>
                                            Substituted(m, line[k]).Done?
    ensures !Substitute(line, m).Done? ==> exists k :: 0 <= k < |line| && FirstUnmapped(line, m, k)
                                             && Substitute(line, m) == Substituted(m, line[k]).PropagateFailure()
    decreases |line|
  {
    if |line| > 0 {
      var tail := line[1..];
      SubstituteSpec(tail, m);
      assert forall k :: 1 <= k < |line| ==> line[k] == tail[k - 1];
      var mapped := line[0].Name? && line[0].text in m;
      var head := if mapped then Substituted(m, line[0]) else Done(0);
      if !head.Done? {
        assert FirstUnmapped(line, m, 0);
      } else if Substitute(tail, m).Done? {
        var out := Substitute(line, m).value;
        assert out == [if mapped then Value(head.value) else line[0]] + Substitute(tail, m).value;
        assert forall k :: 1 <= k < |line| ==> out[k] == Substitute(tail, m).value[k - 1];
      } else {
        var k :| 0 <= k < |tail| && FirstUnmapped(tail, m, k) && Substitute(tail, m) == Substituted(m, tail[k]).PropagateFailure();
        assert line[k + 1] == tail[k];
        assert FirstUnmapped(line, m, k + 1);
      }
    }
  }

  /** The substitution of a line, given element by element. */
  lemma SubstituteGives(line: seq<MathValue>, m: map<string, string>, out: seq<MathValue>)
    requires |out| == |line|
    requires forall k :: 0 <= k < |line| ==>
               if line[k].Name? && line[k].text in m then
                 out[k].Value? && Substituted(m, line[k]) == Done(out[k].n)
               else out[k] == line[k]
    ensures ReadNamedVariables(line, Some(m)) == Done(out)
  {
    var r := Substitute(line, m);
    SubstituteSpec(line, m);
    assert r.Done?;
    forall k | 0 <= k < |line| ensures r.value[k] == out[k] {
      if line[k].Name? && line[k].text in m {
        assert Done(r.value[k].n) == Done(out[k].n);
      }
    }
    assert r.value == out;
  }

  /* -------------------------------- evaluation -------------------------------- */

  /** The `i64` operators of the legacy pipeline; `Aborted(Panic)` where Rust panics. */
  function Apply(op: char, a: i64, b: i64): (r: Outcome<i64>)
    ensures r.Done? <==> (op == '+' || op == '-' || op == '*' || (op == '/' && b != 0 && !(a == I64_MIN && b == -1)))
    ensures op == '/' && r.Done? ==> a == b * r.value + TruncRem(a, b)
    ensures op == '+' ==> r == Done(Wrap(a + b))
    ensures op == '-' ==> r == Done(Wrap(a - b))
    ensures op == '*' ==> r == Done(Wrap(a * b))
    ensures op == '+' && I64_MIN <= a + b <= I64_MAX ==> r == Done(a + b)
    ensures op == '-' && I64_MIN <= a - b <= I64_MAX ==> r == Done(a - b)
    ensures op == '*' && I64_MIN <= a * b <= I64_MAX ==> r == Done(a * b)
  {
    match op
    case '*' => Done(Wrap(a * b))
    case '/' =>
      if b == 0 || (a == I64_MIN && b == -1) then Aborted(Panic)
      else
        TruncDivInRange(a, b);
        Done(TruncDiv(a, b))
    case '+' => Done(Wrap(a + b))
    case '-' => Done(Wrap(a - b))
    case _ => Aborted(Panic)
  }

  /**
    `math_compute_index`: the value of the tree rooted at `index`. An index
    outside the line panics. With `fuel` at the line's length, running out
    means a root-to-leaf path repeated an element, on which the program
    recurses until its stack overflows. Parsed lines can hold such a cycle
    (`1-(+)`, see `MathsExamples.CycleExample`).
   */
  function Compute(line: seq<MathValue>, index: int, fuel: nat): (r: Outcome<i64>)
    ensures (index < 0 || index >= |line|) ==> r == Aborted(Panic)
    ensures 0 <= index < |line| && fuel > 0 && !HasArm(line[index]) ==> r == Aborted(Panic)
    ensures r.Done? ==> 0 <= index < |line| && fuel > 0 && HasArm(line[index])
    decreases fuel
  {
    if index < 0 || index >= |line| then Aborted(Panic)
    else if fuel == 0 then Aborted(Diverge)
    else
      match line[index]
      case Value(n) => Done(n)
      case ParenOpen(o) => Compute(line, index + o, fuel - 1)
      case Operation(op, o1, o2) =>
        var a :- Compute(line, index + o1, fuel - 1);
        var b :- Compute(line, index + o2, fuel - 1);
        Apply(op, a, b)
      case _ => Aborted(Panic)
  }

  /** The elements `math_compute_index` has an arm for; on any other (a name, an operator, a closing parenthesis) it panics. */
  predicate HasArm(x: MathValue) {
    x.Value? || x.ParenOpen? || x.Operation?
  }

  /** More fuel changes nothing once the evaluation did not run out. */
  lemma {:induction false} ComputeFuel(line: seq<MathValue>, index: int, fuel: nat, more: nat)
    requires fuel <= more
    requires Compute(line, index, fuel) != Aborted(Diverge)
    ensures Compute(line, index, more) == Compute(line, index, fuel)
    decreases fuel
  {
    if 0 <= index < |line| && fuel > 0 {
      match line[index]
      case Value(n) =>
      case ParenOpen(o) => ComputeFuel(line, index + o, fuel - 1, more - 1);
      case Operation(op, o1, o2) =>
        ComputeFuel(line, index + o1, fuel - 1, more - 1);
        if Compute(line, index + o1, fuel - 1).Done? {
          ComputeFuel(line, index + o2, fuel - 1, more - 1);
        }
      case _ =>
    }
  }

  /**
    The value found at `index` is the same once the line is embedded
    between other elements: offsets are relative.
   */
  lemma {:induction false} ComputeEmbedded(before: seq<MathValue>, line: seq<MathValue>, after: seq<MathValue>, index: int, fuel: nat)
    requires Compute(line, index, fuel).Done?
    ensures Compute(before + line + after, |before| + index, fuel) == Compute(line, index, fuel)
    decreases fuel
  {
    var whole := before + line + after;
    assert whole[|before| + index] == line[index];
    match line[index]
    case Value(n) =>
    case ParenOpen(o) =>
      ComputeEmbedded(before, line, after, index + o, fuel - 1);
    case Operation(op, o1, o2) =>
      ComputeEmbedded(before, line, after, index + o1, fuel - 1);
      ComputeEmbedded(before, line, after, index + o2, fuel - 1);
  }

  /** The elements an evaluation at `index` goes to next: the inside of a group, or the two operands. */
  function Children(line: seq<MathValue>, index: int): seq<int> {
    if index < 0 || index >= |line| then []
    else
      match line[index]
      case ParenOpen(o) => [index + o]
      case Operation(_, o1, o2) => [index + o1, index + o2]
      case _ => []
  }

  /** `to` is reached from `from` after exactly `k` steps from an element to one of its children. */
  predicate Reaches(line: seq<MathValue>, from: int, k: nat, to: int)
    decreases k
  {
    if k == 0 then from == to
    else exists c :: c in Children(line, from) && Reaches(line, c, k - 1, to)
  }

  /** A finished evaluation finishes at every element it reaches, with the fuel left there. */
  lemma {:induction false} ReachedComputes(line: seq<MathValue>, from: int, fuel: nat, k: nat, to: int)
    requires Compute(line, from, fuel).Done?
    requires Reaches(line, from, k, to)
    ensures k < fuel && Compute(line, to, fuel - k).Done?
    decreases k
  {
    if k > 0 {
      var c :| c in Children(line, from) && Reaches(line, c, k - 1, to);
      ChildComputes(line, from, fuel, c);
      ReachedComputes(line, c, fuel - 1, k - 1, to);
    }
  }

  lemma ChildComputes(line: seq<MathValue>, index: int, fuel: nat, c: int)
    requires Compute(line, index, fuel).Done?
    requires c in Children(line, index)
    ensures fuel >= 1 && Compute(line, c, fuel - 1).Done?
  {
  }

  /** A finished evaluation never comes back to the element it started from. */
  lemma {:induction false} NoReturn(line: seq<MathValue>, index: int, fuel: nat, k: nat)
    requires Compute(line, index, fuel).Done?
    requires k >= 1
    ensures !Reaches(line, index, k, index)
    decreases fuel
  {
    if Reaches(line, index, k, index) {
      ReachedComputes(line, index, fuel, k, index);
      NoReturn(line, index, fuel - k, k);
    }
  }

  /** An element the evaluation never reaches can be changed without changing the value. */
  lemma {:induction false} ComputeFrame(line: seq<MathValue>, index: int, fuel: nat, p: int, x: MathValue)
    requires 0 <= p < |line|
    requires Compute(line, index, fuel).Done?
    requires forall k :: 0 <= k <= fuel ==> !Reaches(line, index, k, p)
    ensures Compute(line[p := x], index, fuel) == Compute(line, index, fuel)
    decreases fuel, 1
  {
    assert !Reaches(line, index, 0, p);
    var line' := line[p := x];
    assert line'[index] == line[index];
    match line[index]
    case Value(n) =>
    case ParenOpen(o) =>
      FrameChild(line, index, fuel, p, x, index + o);
    case Operation(op, o1, o2) =>
      FrameChild(line, index, fuel, p, x, index + o1);
      FrameChild(line, index, fuel, p, x, index + o2);
  }

  lemma {:induction false} FrameChild(line: seq<MathValue>, index: int, fuel: nat, p: int, x: MathValue, c: int)
    requires 0 <= p < |line|
    requires Compute(line, index, fuel).Done?
    requires forall k :: 0 <= k <= fuel ==> !Reaches(line, index, k, p)
    requires c in Children(line, index)
    ensures fuel >= 1 && Compute(line[p := x], c, fuel - 1) == Compute(line, c, fuel - 1)
    decreases fuel, 0
  {
    ChildComputes(line, index, fuel, c);
    forall k | 0 <= k <= fuel - 1 ensures !Reaches(line, c, k, p) {
      if Reaches(line, c, k, p) {
        assert Reaches(line, index, k + 1, p);
      }
    }
    ComputeFrame(line, c, fuel - 1, p, x);
  }

  /** A child of a finished root evaluates the same once the root is overwritten and more elements follow. */
  lemma LeftChildSame(left: seq<MathValue>, head: MathValue, rest: seq<MathValue>, fuel: nat, c: int)
    requires |left| >= 1
    requires Compute(left, 0, fuel + 1).Done?
    requires c in Children(left, 0)
    ensures Compute(left[0 := head] + rest, c, fuel) == Compute(left, c, fuel)
  {
    ChildComputes(left, 0, fuel + 1, c);
    forall k | 0 <= k <= fuel ensures !Reaches(left, c, k, 0) {
      if Reaches(left, c, k, 0) {
        assert Reaches(left, 0, k + 1, 0);
        NoReturn(left, 0, fuel + 1, k + 1);
      }
    }
    ComputeFrame(left, c, fuel, 0, head);
    ComputeEmbedded([], left[0 := head], rest, c, fuel);
    assert [] + left[0 := head] + rest == left[0 := head] + rest;
  }

  lemma LayoutSplits(c: char, left: seq<MathValue>, right: seq<MathValue>)
    requires |left| >= 1
    ensures Layout(c, left, right) == left[0 := Operation(c, |left|, |left| + 1)] + ([Rebase(left[0], |left|)] + right)
  {
    var n := |left|;
    var l := Layout(c, left, right);
    var r := left[0 := Operation(c, n, n + 1)] + ([Rebase(left[0], n)] + right);
    forall k | 0 <= k < |l| ensures l[k] == r[k] {
      if k == 0 {
      } else if k < n {
        assert l[k] == left[1..][k - 1];
      } else if k == n {
      } else {
        assert l[k] == right[k - n - 1];
      }
    }
  }

  /** The moved root of the left side still evaluates to the left side's value. */
  lemma MovedRootComputes(c: char, left: seq<MathValue>, right: seq<MathValue>)
    requires |left| >= 1
    requires MathFinalCompute(left).Done?
    ensures Compute(Layout(c, left, right), |left|, |left|) == MathFinalCompute(left)
  {
    var n := |left|;
    LayoutSplits(c, left, right);
    assert Layout(c, left, right)[n] == Rebase(left[0], n);
    match left[0]
    case Value(v) =>
    case ParenOpen(o) => MovedGroup(c, left, right, o);
    case Operation(op, o1, o2) => MovedOperation(c, left, right, op, o1, o2);
  }

  lemma MovedGroup(c: char, left: seq<MathValue>, right: seq<MathValue>, o: int)
    requires |left| >= 1 && left[0] == ParenOpen(o)
    requires MathFinalCompute(left).Done?
    requires Layout(c, left, right) == left[0 := Operation(c, |left|, |left| + 1)] + ([Rebase(left[0], |left|)] + right)
    ensures Compute(Layout(c, left, right), |left|, |left|) == MathFinalCompute(left)
  {
    var n := |left|;
    var layout := Layout(c, left, right);
    LeftChildSame(left, Operation(c, n, n + 1), [Rebase(left[0], n)] + right, n - 1, o);
    assert layout[n] == ParenOpen(o - n);
    assert Compute(layout, n, n) == Compute(layout, o, n - 1);
  }

  lemma MovedOperation(c: char, left: seq<MathValue>, right: seq<MathValue>, op: char, o1: int, o2: int)
    requires |left| >= 1 && left[0] == Operation(op, o1, o2)
    requires MathFinalCompute(left).Done?
    requires Layout(c, left, right) == left[0 := Operation(c, |left|, |left| + 1)] + ([Rebase(left[0], |left|)] + right)
    ensures Compute(Layout(c, left, right), |left|, |left|) == MathFinalCompute(left)
  {
    var n := |left|;
    var layout := Layout(c, left, right);
    LeftChildSame(left, Operation(c, n, n + 1), [Rebase(left[0], n)] + right, n - 1, o1);
    LeftChildSame(left, Operation(c, n, n + 1), [Rebase(left[0], n)] + right, n - 1, o2);
    assert layout[n] == Operation(op, o1 - n, o2 - n);
    SameOperands(layout, n, left, 0, n, op, o1 - n, o2 - n, o1, o2);
  }

  /** Two slots holding the same operator over operands of equal value have that value too. */
  lemma SameOperands(l1: seq<MathValue>, i1: int, l2: seq<MathValue>, i2: int, fuel: nat, op: char, p1: int, p2: int, q1: int, q2: int)
    requires fuel >= 1 && 0 <= i1 < |l1| && 0 <= i2 < |l2|
    requires l1[i1] == Operation(op, p1, p2) && l2[i2] == Operation(op, q1, q2)
    requires Compute(l1, i1 + p1, fuel - 1) == Compute(l2, i2 + q1, fuel - 1)
    requires Compute(l1, i1 + p2, fuel - 1) == Compute(l2, i2 + q2, fuel - 1)
    ensures Compute(l1, i1, fuel) == Compute(l2, i2, fuel)
  {
  }

  /**
    The line `make_op` builds evaluates to the operator applied to the
    values of its two sides.
   */
  lemma LayoutComputes(c: char, left: seq<MathValue>, right: seq<MathValue>, a: i64, b: i64)
    requires |left| >= 1
    requires MathFinalCompute(left) == Done(a) && MathFinalCompute(right) == Done(b)
    ensures MathFinalCompute(Layout(c, left, right)) == Apply(c, a, b)
  {
    var layout := Layout(c, left, right);
    var n := |left|;
    LayoutLeftComputes(c, left, right, a);
    LayoutRightComputes(c, left, right, b);
    LayoutSplits(c, left, right);
    assert layout[0] == Operation(c, n, n + 1);
  }

  lemma LayoutLeftComputes(c: char, left: seq<MathValue>, right: seq<MathValue>, a: i64)
    requires |left| >= 1
    requires MathFinalCompute(left) == Done(a)
    ensures Compute(Layout(c, left, right), |left|, |Layout(c, left, right)| - 1) == Done(a)
  {
    MovedRootComputes(c, left, right);
    ComputeFuel(Layout(c, left, right), |left|, |left|, |Layout(c, left, right)| - 1);
  }

  lemma LayoutRightComputes(c: char, left: seq<MathValue>, right: seq<MathValue>, b: i64)
    requires |left| >= 1
    requires MathFinalCompute(right) == Done(b)
    ensures Compute(Layout(c, left, right), |left| + 1, |Layout(c, left, right)| - 1) == Done(b)
  {
    var layout := Layout(c, left, right);
    var n := |left|;
    assert layout == layout[..n + 1] + right + [];
    ComputeEmbedded(layout[..n + 1], right, [], 0, |right|);
    ComputeFuel(layout, n + 1, |right|, |layout| - 1);
  }

  /** A group folded by `paren_parse` evaluates to its parsed inside. */
  lemma GroupComputes(before: seq<MathValue>, inside: seq<MathValue>, size: nat, after: seq<MathValue>)
    requires MathFinalCompute(inside).Done?
    ensures Compute(before + [ParenOpen(1)] + inside + [ParenClose(size)] + after, |before|, |inside| + 1)
            == MathFinalCompute(inside)
  {
    var line := before + [ParenOpen(1)] + inside + [ParenClose(size)] + after;
    assert line == (before + [ParenOpen(1)]) + inside + ([ParenClose(size)] + after);
    ComputeEmbedded(before + [ParenOpen(1)], inside, [ParenClose(size)] + after, 0, |inside|);
    assert line[|before|] == ParenOpen(1);
  }

  /** `math_final_compute`: the value of the tree rooted at the first element. */
  function MathFinalCompute(line: seq<MathValue>): (r: Outcome<i64>)
    ensures |line| == 0 ==> r == Aborted(Panic)
    ensures |line| > 0 && !HasArm(line[0]) ==> r == Aborted(Panic)
    ensures |line| > 0 && line[0].Value? ==> r == Done(line[0].n)
    ensures r.Done? ==> |line| > 0 && HasArm(line[0])
  {
    Compute(line, 0, |line|)
  }

  /** Dividing by a side whose value is 0 panics. */
  lemma DivisionByZeroPanics(left: seq<MathValue>, right: seq<MathValue>, a: i64)
    requires |left| >= 1
    requires MathFinalCompute(left) == Done(a) && MathFinalCompute(right) == Done(0)
    ensures MathFinalCompute(Layout('/', left, right)) == Aborted(Panic)
  {
    LayoutComputes('/', left, right, a, 0);
  }

  /** Dividing the smallest `i64` by -1 overflows, which panics. */
  lemma DivisionOverflowPanics(left: seq<MathValue>, right: seq<MathValue>)
    requires |left| >= 1
    requires MathFinalCompute(left) == Done(I64_MIN) && MathFinalCompute(right) == Done(-1)
    ensures MathFinalCompute(Layout('/', left, right)) == Aborted(Panic)
  {
    LayoutComputes('/', left, right, I64_MIN, -1);
  }

  /** `math_compute`: tokenize, parse, substitute the variables, read the numbers, evaluate. */
  function MathCompute(s: string, vars: Option<map<string, string>>): (r: Outcome<i64>)
    ensures MathParse(MathToken(s)).Failed? ==> r == Failed(MathParse(MathToken(s)).message)
    ensures r.Done? ==> MathParse(MathToken(s)).Done?
  {
    var tokens := MathToken(s);
    var parsed :- MathParse(tokens);
    var named :- ReadNamedVariables(parsed, vars);
    var numbers :- ReadNumbers(named);
    MathFinalCompute(numbers)
  }
}
