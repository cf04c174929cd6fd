/**
  Reading an expression written directly in reverse Polish notation.

  The text goes through the infix tokenizer; each name token is split into
  whitespace-separated words, each of which becomes a name instruction, and
  each operator token becomes a binary instruction. There are no unary
  operators in this notation. The resulting list is then validated.

  `parse_rpn` validates by a trial evaluation in which every name stands for
  1 (`ParseRpnAsWritten`). That accepts a list that leaves several values on
  the stack, reports an underflow as an internal bug, and rejects balanced
  lists whose trial values divide by zero, while `parse_rpn`'s own tests expect
  exactly the unbalanced lists to fail with `UnbalancedStack`. `ParseRpn`
  checks the stack height instead.
 */
module RpnParser {
  import opened Errors
  import opened Operators
  import opened Tokenize
  import opened RpnStack
  import opened Solve

  /** The text after the token in the internal bug of `math_parse_rpn`. */
  const PARSE_RPN_BUG: string := " should not have been on math_parse_rpn."

  /* ------------------------------ splitting words ----------------------------- */

  /** The characters `split_words` turns into spaces: tab, space, line feed, carriage return, no-break space. */
  predicate IsBlank(c: char) {
    c == '\t' || c == ' ' || c == '\n' || c == '\r' || c == '\U{00A0}'
  }

  /** `replace(blanks, " ")`: every blank becomes a space, everything else is kept. */
  function Uniform(s: string): (r: string)
    ensures |r| == |s|
    ensures forall i :: 0 <= i < |s| ==> r[i] == if IsBlank(s[i]) then ' ' else s[i]
  {
    if |s| == 0 then [] else [if IsBlank(s[0]) then ' ' else s[0]] + Uniform(s[1..])
  }

  /** `split(" ")`: the pieces between spaces, empty ones included; there is always at least one. */
  function Pieces(s: string): (r: seq<string>)
    ensures |r| >= 1
  {
    if |s| == 0 then [""]
    else
      var rest := Pieces(s[1..]);
      if s[0] == ' ' then [""] + rest else [[s[0]] + rest[0]] + rest[1..]
  }

  /** `filter(|x| *x != "")`. */
  function NonEmpty(ps: seq<string>): (r: seq<string>)
    ensures |r| <= |ps|
    ensures forall i :: 0 <= i < |r| ==> r[i] != [] && r[i] in ps
  {
    if |ps| == 0 then []
    else if ps[0] == [] then NonEmpty(ps[1..])
    else [ps[0]] + NonEmpty(ps[1..])
  }

  /** A word: not empty, and no blank inside. */
  predicate IsWord(w: string) {
    |w| > 0 && forall i :: 0 <= i < |w| ==> !IsBlank(w[i])
  }

  /** `split_words`: the maximal runs of non-blank characters, in order. */
  function SplitWords(s: string): (r: seq<string>)
    ensures forall i :: 0 <= i < |r| ==> IsWord(r[i])
  {
    var u := Uniform(s);
    PiecesHaveNoSpace(u);
    NonEmpty(Pieces(u))
  }

  /** No piece contains a space, and a piece of a text without blanks other than spaces has no blank at all. */
  lemma {:induction false} PiecesHaveNoSpace(s: string)
    requires forall i :: 0 <= i < |s| ==> IsBlank(s[i]) ==> s[i] == ' '
    ensures forall k, i :: 0 <= k < |Pieces(s)| && 0 <= i < |Pieces(s)[k]| ==> !IsBlank(Pieces(s)[k][i])
    decreases |s|
  {
    if |s| > 0 {
      PiecesHaveNoSpace(s[1..]);
    }
  }

  /** Concatenation of a list of strings. */
  function Flatten(ws: seq<string>): string {
    if |ws| == 0 then [] else ws[0] + Flatten(ws[1..])
  }

  /** The characters of `s` that are not blanks, in order. */
  function NonBlank(s: string): (r: string)
    ensures |r| <= |s|
  {
    if |s| == 0 then [] else (if IsBlank(s[0]) then [] else [s[0]]) + NonBlank(s[1..])
  }

  /** The words joined by single spaces. */
  function Join(ws: seq<string>): string {
    if |ws| == 0 then []
    else if |ws| == 1 then ws[0]
    else ws[0] + " " + Join(ws[1..])
  }

  lemma {:induction false} FlattenNonEmpty(ps: seq<string>)
    ensures Flatten(NonEmpty(ps)) == Flatten(ps)
    decreases |ps|
  {
    if |ps| > 0 {
      FlattenNonEmpty(ps[1..]);
    }
  }

  lemma {:induction false} FlattenPieces(s: string)
    ensures Flatten(Pieces(s)) == NonBlank(s) || exists i :: 0 <= i < |s| && IsBlank(s[i]) && s[i] != ' '
    ensures (forall i :: 0 <= i < |s| ==> IsBlank(s[i]) ==> s[i] == ' ') ==> Flatten(Pieces(s)) == NonBlank(s)
    decreases |s|
  {
    if |s| > 0 {
      FlattenPieces(s[1..]);
      var rest := Pieces(s[1..]);
      if (forall i :: 0 <= i < |s| ==> IsBlank(s[i]) ==> s[i] == ' ') {
        assert forall i :: 0 <= i < |s[1..]| ==> IsBlank(s[1..][i]) ==> s[1..][i] == ' ' by {
          forall i | 0 <= i < |s[1..]| ensures IsBlank(s[1..][i]) ==> s[1..][i] == ' ' {
            assert s[1..][i] == s[i + 1];
          }
        }
        if s[0] != ' ' {
          assert Flatten([[s[0]] + rest[0]] + rest[1..]) == [s[0]] + rest[0] + Flatten(rest[1..]);
          assert Flatten(rest) == rest[0] + Flatten(rest[1..]);
        }
      }
    }
  }

  lemma {:induction false} NonBlankUniform(s: string)
    ensures NonBlank(Uniform(s)) == NonBlank(s)
    decreases |s|
  {
    if |s| > 0 {
      assert Uniform(s)[1..] == Uniform(s[1..]);
      NonBlankUniform(s[1..]);
    }
  }

  /** The words, put together, are exactly the non-blank characters of the text. */
  lemma SplitWordsKeepsCharacters(s: string)
    ensures Flatten(SplitWords(s)) == NonBlank(s)
  {
    var u := Uniform(s);
    FlattenNonEmpty(Pieces(u));
    FlattenPieces(u);
    NonBlankUniform(s);
  }

  /** A word followed by more text starts the first piece of that text. */
  lemma {:induction false} PiecesAfterWord(w: string, t: string)
    requires forall i :: 0 <= i < |w| ==> w[i] != ' '
    ensures Pieces(w + t) == [w + Pieces(t)[0]] + Pieces(t)[1..]
    decreases |w|
  {
    if |w| > 0 {
      assert (w + t)[1..] == w[1..] + t;
      PiecesAfterWord(w[1..], t);
      assert [w[0]] + (w[1..] + Pieces(t)[0]) == w + Pieces(t)[0];
    } else {
      assert w + t == t && w + Pieces(t)[0] == Pieces(t)[0];
      assert Pieces(t) == [Pieces(t)[0]] + Pieces(t)[1..];
    }
  }

  /** Splitting words joined by spaces gives the words back. */
  lemma {:induction false} SplitJoinRoundTrip(ws: seq<string>)
    requires forall i :: 0 <= i < |ws| ==> IsWord(ws[i])
    ensures SplitWords(Join(ws)) == ws
    decreases |ws|
  {
    JoinIsUniform(ws);
    PiecesOfJoin(ws);
    NonEmptyOfWords(ws);
  }

  lemma {:induction false} JoinIsUniform(ws: seq<string>)
    requires forall i :: 0 <= i < |ws| ==> IsWord(ws[i])
    ensures Uniform(Join(ws)) == Join(ws)
    decreases |ws|
  {
    var j := Join(ws);
    if |ws| >= 2 {
      JoinIsUniform(ws[1..]);
      assert IsWord(ws[0]);
      assert j == ws[0] + " " + Join(ws[1..]);
      forall i | 0 <= i < |j| ensures Uniform(j)[i] == j[i] {
        if i < |ws[0]| {
          assert j[i] == ws[0][i];
        } else if i > |ws[0]| {
          assert j[i] == Join(ws[1..])[i - |ws[0]| - 1];
          assert Uniform(Join(ws[1..]))[i - |ws[0]| - 1] == Join(ws[1..])[i - |ws[0]| - 1];
        }
      }
    } else if |ws| == 1 {
      assert IsWord(ws[0]);
    }
  }

  lemma {:induction false} PiecesOfJoin(ws: seq<string>)
    requires forall i :: 0 <= i < |ws| ==> IsWord(ws[i])
    ensures |ws| >= 1 ==> Pieces(Join(ws)) == ws
    ensures |ws| == 0 ==> Pieces(Join(ws)) == [""]
    decreases |ws|
  {
    if |ws| == 1 {
      assert IsWord(ws[0]);
      PiecesAfterWord(ws[0], "");
      assert ws[0] + "" == ws[0];
    } else if |ws| >= 2 {
      assert IsWord(ws[0]);
      PiecesOfJoin(ws[1..]);
      var t := " " + Join(ws[1..]);
      assert ws[0] + " " + Join(ws[1..]) == ws[0] + t;
      PiecesAfterWord(ws[0], t);
      assert t[1..] == Join(ws[1..]);
      assert Pieces(t) == [""] + ws[1..];
      assert ws[0] + "" == ws[0];
    }
  }

  lemma {:induction false} NonEmptyOfWords(ws: seq<string>)
    requires forall i :: 0 <= i < |ws| ==> IsWord(ws[i])
    ensures NonEmpty(ws) == ws
    ensures NonEmpty([""]) == []
    decreases |ws|
  {
    if |ws| > 0 {
      assert IsWord(ws[0]);
      NonEmptyOfWords(ws[1..]);
    }
  }

  /** Splitting is idempotent: the words of the joined words are the words. */
  lemma SplitWordsIdempotent(s: string)
    ensures SplitWords(Join(SplitWords(s))) == SplitWords(s)
  {
    SplitJoinRoundTrip(SplitWords(s));
  }

  /** A leading blank is skipped. */
  lemma SplitWordsBlank(b: char, t: string)
    requires IsBlank(b)
    ensures SplitWords([b] + t) == SplitWords(t)
  {
    var u := Uniform([b] + t);
    assert u[1..] == Uniform(t);
    assert Pieces(u) == [""] + Pieces(Uniform(t));
  }

  lemma {:induction false} UniformConcat(x: string, y: string)
    ensures Uniform(x + y) == Uniform(x) + Uniform(y)
    decreases |x|
  {
    if |x| > 0 {
      assert (x + y)[1..] == x[1..] + y;
      UniformConcat(x[1..], y);
    } else {
      assert x + y == y;
    }
  }

  /** Blanks become spaces around a leading word. */
  lemma UniformWordBlank(w: string, b: char, t: string)
    requires IsWord(w) && IsBlank(b)
    ensures Uniform(w + [b] + t) == w + " " + Uniform(t)
  {
    UniformConcat(w + [b], t);
    UniformConcat(w, [b]);
    assert Uniform(w) == w;
    assert Uniform([b]) == " ";
  }

  /** A word followed by a space is the first piece. */
  lemma PiecesWordSpace(w: string, u: string)
    requires forall i :: 0 <= i < |w| ==> w[i] != ' '
    ensures Pieces(w + " " + u) == [w] + Pieces(u)
  {
    var rest := " " + u;
    assert w + " " + u == w + rest;
    PiecesAfterWord(w, rest);
    assert rest[1..] == u;
    assert Pieces(rest) == [""] + Pieces(u);
    assert w + "" == w;
  }

  /** A leading word ended by a blank is the first word. */
  lemma SplitWordsWord(w: string, b: char, t: string)
    requires IsWord(w) && IsBlank(b)
    ensures SplitWords(w + [b] + t) == [w] + SplitWords(t)
  {
    UniformWordBlank(w, b, t);
    PiecesWordSpace(w, Uniform(t));
    var ps := Pieces(Uniform(t));
    assert NonEmpty([w] + ps) == [w] + NonEmpty(ps) by {
      assert ([w] + ps)[1..] == ps;
    }
  }

  /** A word alone is one word. */
  lemma SplitWordsLast(w: string)
    requires IsWord(w)
    ensures SplitWords(w) == [w]
  {
    SplitJoinRoundTrip([w]);
  }

  /* --------------------------------- tokens --------------------------------- */

  /** `parse_rpn_operator`: a glyph the table does not know is an `InvalidRPNOperator`; its other errors pass through. */
  function ParseRpnOperator(c: char, table: OperatorTable): (r: Result<seq<RPN>>)
    ensures r.Ok? <==> table.binaryFromChar(c).Ok?
    ensures r.Ok? ==> r.value == [RPN.Binary(table.binaryFromChar(c).value)]
    ensures r.Err? ==> r.error == if table.binaryFromChar(c).error.MathParseInternalBug? then InvalidRPNOperator(c)
                                  else table.binaryFromChar(c).error
  {
    match table.binaryFromChar(c)
    case Ok(op) => Ok([RPN.Binary(op)])
    case Err(MathParseInternalBug(_)) => Err(InvalidRPNOperator(c))
    case Err(e) => Err(e)
  }

  /** Name instructions for a list of words. */
  function Names(ws: seq<string>): (r: seq<RPN>)
    ensures |r| == |ws|
    ensures forall i :: 0 <= i < |r| ==> r[i] == RPN.Name(ws[i])
  {
    if |ws| == 0 then [] else [RPN.Name(ws[0])] + Names(ws[1..])
  }

  /** `parse_rpn_name`: one name instruction per word of the token. */
  function ParseRpnName(names: string): (r: seq<RPN>)
    ensures |r| == |SplitWords(names)|
    ensures forall i :: 0 <= i < |r| ==> r[i].Name? && r[i].text == SplitWords(names)[i]
  {
    Names(SplitWords(names))
  }

  /** What one token contributes: words, a binary operator, nothing for the sentinel and the merge placeholder. */
  function TokenActions(token: MathValue, table: OperatorTable): (r: Result<seq<RPN>>)
    ensures r.Ok? ==> forall i :: 0 <= i < |r.value| ==> !r.value[i].Unary?
    ensures r.Ok? ==> forall i :: 0 <= i < |r.value| ==> r.value[i].Name? ==> IsWord(r.value[i].text)
    ensures token.Operation? || token.UnaryOperation? || token.ParenClose? || (token.ParenOpen? && token.offset != 1)
            ==> IsInternalBug(r)
  {
    match token
    case Name(x) => Ok(ParseRpnName(x))
    case Operator(c) => ParseRpnOperator(c, table)
    case TrailingError => Ok([])
    case ParenOpen(offset) =>
      if offset == 1 then Ok([]) else Err(MathParseInternalBug(PARSE_RPN_BUG))
    case _ => Err(MathParseInternalBug(PARSE_RPN_BUG))
  }

  /** Every name instruction holds a word and there is no unary instruction. */
  predicate RpnShaped(actions: seq<RPN>) {
    forall i :: 0 <= i < |actions| ==> !actions[i].Unary? && (actions[i].Name? ==> IsWord(actions[i].text))
  }

  /** `rpn_parse_tokens`: the tokens' contributions in order, stopping at the first error. */
  function RpnParseTokens(tokens: seq<MathValue>, table: OperatorTable): (r: Result<seq<RPN>>)
    ensures r.Ok? ==> RpnShaped(r.value)
    decreases |tokens|
  {
    if |tokens| == 0 then Ok([])
    else
      var head :- TokenActions(tokens[0], table);
      var tail :- RpnParseTokens(tokens[1..], table);
      assert forall i :: |head| <= i < |head + tail| ==> (head + tail)[i] == tail[i - |head|];
      Ok(head + tail)
  }

  /** Parsing a concatenation of token lists is parsing each part, the first error winning. */
  lemma {:induction false} RpnParseTokensAppend(a: seq<MathValue>, b: seq<MathValue>, table: OperatorTable)
    ensures RpnParseTokens(a + b, table)
         == (match RpnParseTokens(a, table)
             case Err(e) => Err(e)
             case Ok(x) =>
               (match RpnParseTokens(b, table)
                case Err(e) => Err(e)
                case Ok(y) => Ok(x + y)))
    decreases |a|
  {
    if |a| == 0 {
      assert a + b == b;
      match RpnParseTokens(b, table)
      case Err(_) =>
      case Ok(y) => assert [] + y == y;
    } else {
      assert (a + b)[0] == a[0];
      assert (a + b)[1..] == a[1..] + b;
      RpnParseTokensAppend(a[1..], b, table);
      match TokenActions(a[0], table)
      case Err(_) =>
      case Ok(h) =>
        match RpnParseTokens(a[1..], table)
        case Err(_) =>
        case Ok(x) =>
          match RpnParseTokens(b, table)
          case Err(_) =>
          case Ok(y) => assert h + (x + y) == (h + x) + y;
    }
  }

  /* ------------------------------- validation ------------------------------- */

  /** The map `check_rpn_valid` solves with: every name is the text `1`. */
  function OneEverywhere(name: string): Option<string> {
    Some("1")
  }

  /**
    `check_rpn_valid`: a trial evaluation with every name read as `1`. What
    it accepts never underflows and leaves at least one value.
   */
  function CheckRpnValid(rpn: seq<RPN>, solveText: string -> Result<Number>, arith: FloatArith): (r: Result<()>)
    ensures r.Ok? <==> MathSolve(rpn, OneEverywhere, solveText, arith).Ok?
    ensures r.Ok? ==> NeedsMet(0, rpn) && Net(rpn) >= 1
    ensures r.Err? ==> r.error == MathSolve(rpn, OneEverywhere, solveText, arith).error
  {
    match MathSolve(rpn, OneEverywhere, solveText, arith)
    case Ok(_) => Ok(())
    case Err(e) => Err(e)
  }

  /** `parse_rpn` as written: tokens, instructions, trial evaluation. */
  function ParseRpnAsWritten(expression: string, table: OperatorTable, solveText: string -> Result<Number>,
                             arith: FloatArith): (r: Result<seq<RPN>>)
    ensures r.Ok? ==> RpnParseTokens(MathToken(expression), table) == r
    ensures r.Ok? ==> NeedsMet(0, r.value) && Net(r.value) >= 1
  {
    var rpn :- RpnParseTokens(MathToken(expression), table);
    var _ :- CheckRpnValid(rpn, solveText, arith);
    Ok(rpn)
  }

  /** The stack check `parse_rpn`'s tests expect: no underflow, and exactly one value at the end. */
  function CheckRpnBalanced(rpn: seq<RPN>): (r: Result<()>)
    ensures r.Ok? <==> NeedsMet(0, rpn) && Net(rpn) == 1
    ensures r.Err? ==> r.error == UnbalancedStack
  {
    if NeedsMet(0, rpn) && Net(rpn) == 1 then Ok(()) else Err(UnbalancedStack)
  }

  /** `parse_rpn` with the stack check in place of the trial evaluation. */
  function ParseRpn(expression: string, table: OperatorTable): (r: Result<seq<RPN>>)
    ensures r.Ok? <==> RpnParseTokens(MathToken(expression), table).Ok?
                       && NeedsMet(0, RpnParseTokens(MathToken(expression), table).value)
                       && Net(RpnParseTokens(MathToken(expression), table).value) == 1
    ensures r.Ok? ==> r == RpnParseTokens(MathToken(expression), table) && RpnShaped(r.value)
    ensures RpnParseTokens(MathToken(expression), table).Err? ==> r == RpnParseTokens(MathToken(expression), table)
    ensures RpnParseTokens(MathToken(expression), table).Ok? && r.Err? ==> r.error == UnbalancedStack
  {
    var rpn :- RpnParseTokens(MathToken(expression), table);
    var _ :- CheckRpnBalanced(rpn);
    Ok(rpn)
  }

  /**
    The stack check is what makes a list runnable: under an interpretation
    that never fails, an accepted list runs to a single value.
   */
  lemma ParseRpnRuns<T(!new)>(expression: string, table: OperatorTable, interp: Interp<T>)
    requires ParseRpn(expression, table).Ok?
    requires Total(interp)
    ensures ExecActions([], ParseRpn(expression, table).value, interp).Ok?
    ensures |ExecActions([], ParseRpn(expression, table).value, interp).value| == 1
  {
    ExecTotal([], ParseRpn(expression, table).value, interp);
  }

  /**
    Where the trial evaluation succeeds on a balanced list, `parse_rpn`
    as written and the checked one agree; they differ only on unbalanced lists
    and on lists whose trial values fail.
   */
  lemma ParseRpnAgrees(expression: string, table: OperatorTable, solveText: string -> Result<Number>, arith: FloatArith)
    ensures ParseRpnAsWritten(expression, table, solveText, arith).Ok?
            && Net(ParseRpnAsWritten(expression, table, solveText, arith).value) == 1
            ==> ParseRpn(expression, table) == ParseRpnAsWritten(expression, table, solveText, arith)
    ensures ParseRpn(expression, table).Ok? && MathSolve(ParseRpn(expression, table).value, OneEverywhere, solveText, arith).Ok?
            ==> ParseRpnAsWritten(expression, table, solveText, arith) == ParseRpn(expression, table)
    ensures RpnParseTokens(MathToken(expression), table).Err?
            ==> ParseRpnAsWritten(expression, table, solveText, arith) == ParseRpn(expression, table)
  {
  }
}
