/**
  The character scan shared by both tokenizers of the library: an operator
  character (one of the alphabet `ops`) is a token on its own, and a maximal
  run of other characters is one word. The scan is stated over an arbitrary
  alphabet, so its facts hold for the current alphabet and the legacy one.
 */
module Lexer {
  import opened Errors

  datatype Lexeme = Word(text: string) | Symbol(c: char)

  /** Linear membership test over a slice. */
  function IsIn(a: char, chars: seq<char>): (r: bool)
    ensures r <==> a in chars
  {
    if |chars| == 0 then false
    else if a == chars[0] then true
    else IsIn(a, chars[1..])
  }

  /**
    The scan loop, one character per call. `nameStart` is the index where the
    word being written began, if one is being written.
   */
  function ScanLoop(ops: seq<char>, s: string, i: nat, nameStart: Option<nat>, ret: seq<Lexeme>): seq<Lexeme>
    requires i <= |s|
    requires nameStart.Some? ==> nameStart.value < i
    decreases |s| - i
  {
    if i == |s| then
      if nameStart.Some? then ret + [Word(s[nameStart.value..])] else ret
    else if IsIn(s[i], ops) then
      var flushed := if nameStart.Some? then ret + [Word(s[nameStart.value..i])] else ret;
      ScanLoop(ops, s, i + 1, None, flushed + [Symbol(s[i])])
    else if nameStart.None? then
      ScanLoop(ops, s, i + 1, Some(i), ret)
    else
      ScanLoop(ops, s, i + 1, nameStart, ret)
  }

  function Scan(ops: seq<char>, s: string): seq<Lexeme> {
    ScanLoop(ops, s, 0, None, [])
  }

  /** Length of the longest prefix of `s` free of operator characters. */
  function NameRun(ops: seq<char>, s: string): (n: nat)
    ensures n <= |s|
    ensures |s| > 0 && s[0] !in ops ==> n >= 1
  {
    if |s| == 0 || s[0] in ops then 0 else 1 + NameRun(ops, s[1..])
  }

  /** Reference lexer, defined by the first character of what is left. */
  function Lex(ops: seq<char>, s: string): seq<Lexeme>
    decreases |s|
  {
    if |s| == 0 then []
    else if s[0] in ops then [Symbol(s[0])] + Lex(ops, s[1..])
    else
      var n := NameRun(ops, s);
      [Word(s[..n])] + Lex(ops, s[n..])
  }

  /** The characters a lexeme stands for in the tokenized text. */
  function TextOf(t: Lexeme): string {
    match t
    case Word(x) => x
    case Symbol(c) => [c]
  }

  function Concat(ts: seq<Lexeme>): string {
    if |ts| == 0 then [] else TextOf(ts[0]) + Concat(ts[1..])
  }

  predicate NoOpBetween(ops: seq<char>, s: string, a: nat, b: nat)
    requires a <= b <= |s|
  {
    forall j :: a <= j < b ==> s[j] !in ops
  }

  predicate NoOpIn(ops: seq<char>, s: string) {
    forall j :: 0 <= j < |s| ==> s[j] !in ops
  }

  /** A lexeme the scan can produce: a non-empty operator-free word, or an alphabet symbol. */
  predicate Proper(ops: seq<char>, t: Lexeme) {
    || (t.Word? && |t.text| > 0 && NoOpIn(ops, t.text))
    || (t.Symbol? && t.c in ops)
  }

  predicate NoAdjacentWords(ts: seq<Lexeme>) {
    forall j :: 0 <= j < |ts| - 1 ==> !(ts[j].Word? && ts[j + 1].Word?)
  }

  predicate WellFormed(ops: seq<char>, ts: seq<Lexeme>) {
    (forall j :: 0 <= j < |ts| ==> Proper(ops, ts[j])) && NoAdjacentWords(ts)
  }

  /** Well-formedness is checked one lexeme at a time from the front. */
  lemma WellFormedCons(ops: seq<char>, t: Lexeme, ts: seq<Lexeme>)
    requires Proper(ops, t) && WellFormed(ops, ts)
    requires |ts| > 0 ==> !(t.Word? && ts[0].Word?)
    ensures WellFormed(ops, [t] + ts)
  {
    var all := [t] + ts;
    forall j | 0 <= j < |all| ensures Proper(ops, all[j]) {
      if j > 0 { assert all[j] == ts[j - 1]; }
    }
    forall j | 0 <= j < |all| - 1 ensures !(all[j].Word? && all[j + 1].Word?) {
      if j > 0 { assert all[j] == ts[j - 1] && all[j + 1] == ts[j]; }
    }
  }

  lemma {:induction false} NameRunAcross(ops: seq<char>, s: string, k: nat, i: nat)
    requires k <= i <= |s|
    requires NoOpBetween(ops, s, k, i)
    ensures NameRun(ops, s[k..]) == (i - k) + NameRun(ops, s[i..])
    decreases i - k
  {
    if k < i {
      assert s[k..][0] == s[k];
      assert s[k..][1..] == s[k + 1..];
      NameRunAcross(ops, s, k + 1, i);
    }
  }

  lemma LexAtSymbol(ops: seq<char>, s: string, i: nat)
    requires i < |s| && s[i] in ops
    ensures Lex(ops, s[i..]) == [Symbol(s[i])] + Lex(ops, s[i + 1..])
  {
    assert s[i..][0] == s[i] && s[i..][1..] == s[i + 1..];
  }

  /** A run of word characters from `k` that stops at `i` is one `Word`. */
  lemma LexAtWordEnd(ops: seq<char>, s: string, k: nat, i: nat)
    requires k < i <= |s|
    requires NoOpBetween(ops, s, k, i)
    requires i == |s| || s[i] in ops
    ensures Lex(ops, s[k..]) == [Word(s[k..i])] + Lex(ops, s[i..])
  {
    var t := s[k..];
    NameRunAcross(ops, s, k, i);
    if i < |s| {
      assert s[i..][0] == s[i];
    }
    assert NameRun(ops, s[i..]) == 0;
    assert t[0] == s[k] && s[k] !in ops;
    assert t[..i - k] == s[k..i] && t[i - k..] == s[i..];
    assert Lex(ops, t) == [Word(t[..NameRun(ops, t)])] + Lex(ops, t[NameRun(ops, t)..]);
  }

  /** The loop with no word open appends the reference lexemes of the rest. */
  lemma {:induction false} ScanLoopIdle(ops: seq<char>, s: string, i: nat, ret: seq<Lexeme>)
    requires i <= |s|
    ensures ScanLoop(ops, s, i, None, ret) == ret + Lex(ops, s[i..])
    decreases |s| - i, 0
  {
    if i == |s| {
      assert s[i..] == [];
    } else if s[i] in ops {
      ScanLoopIdle(ops, s, i + 1, ret + [Symbol(s[i])]);
      LexAtSymbol(ops, s, i);
    } else {
      ScanLoopWriting(ops, s, i + 1, i, ret);
    }
  }

  /** The loop with a word open since `k` appends the reference lexemes from `k`. */
  lemma {:induction false} ScanLoopWriting(ops: seq<char>, s: string, i: nat, k: nat, ret: seq<Lexeme>)
    requires k < i <= |s|
    requires NoOpBetween(ops, s, k, i)
    ensures ScanLoop(ops, s, i, Some(k), ret) == ret + Lex(ops, s[k..])
    decreases |s| - i, 1
  {
    if i == |s| {
      ScanLoopWordAtEnd(ops, s, k, ret);
    } else if s[i] in ops {
      ScanLoopWordThenSymbol(ops, s, i, k, ret);
    } else {
      assert NoOpBetween(ops, s, k, i + 1);
      ScanLoopExtends(ops, s, i, k, ret);
      ScanLoopWriting(ops, s, i + 1, k, ret);
    }
  }

  lemma ScanLoopWordAtEnd(ops: seq<char>, s: string, k: nat, ret: seq<Lexeme>)
    requires k < |s| && NoOpBetween(ops, s, k, |s|)
    ensures ScanLoop(ops, s, |s|, Some(k), ret) == ret + Lex(ops, s[k..])
  {
    LexAtWordEnd(ops, s, k, |s|);
    assert s[|s|..] == [] && s[k..|s|] == s[k..];
  }

  lemma ScanLoopWordThenSymbol(ops: seq<char>, s: string, i: nat, k: nat, ret: seq<Lexeme>)
    requires k < i < |s| && s[i] in ops
    requires NoOpBetween(ops, s, k, i)
    ensures ScanLoop(ops, s, i, Some(k), ret) == ret + Lex(ops, s[k..])
    decreases |s| - i, 0
  {
    var written := ret + [Word(s[k..i])] + [Symbol(s[i])];
    ScanLoopFlushes(ops, s, i, k, ret);
    ScanLoopIdle(ops, s, i + 1, written);
    WordThenSymbol(ops, s, k, i);
  }

  /** An operator character ends the open word and is written after it. */
  lemma ScanLoopFlushes(ops: seq<char>, s: string, i: nat, k: nat, ret: seq<Lexeme>)
    requires k < i < |s| && s[i] in ops
    ensures ScanLoop(ops, s, i, Some(k), ret) == ScanLoop(ops, s, i + 1, None, ret + [Word(s[k..i])] + [Symbol(s[i])])
  {
  }

  /** Any other character extends the open word. */
  lemma ScanLoopExtends(ops: seq<char>, s: string, i: nat, k: nat, ret: seq<Lexeme>)
    requires k < i < |s| && s[i] !in ops
    ensures ScanLoop(ops, s, i, Some(k), ret) == ScanLoop(ops, s, i + 1, Some(k), ret)
  {
  }

  lemma WordThenSymbol(ops: seq<char>, s: string, k: nat, i: nat)
    requires k < i < |s|
    requires NoOpBetween(ops, s, k, i) && s[i] in ops
    ensures Lex(ops, s[k..]) == [Word(s[k..i])] + [Symbol(s[i])] + Lex(ops, s[i + 1..])
  {
    LexAtSymbol(ops, s, i);
    LexAtWordEnd(ops, s, k, i);
  }

  /** The scan computes the reference lexer. */
  lemma ScanIsLex(ops: seq<char>, s: string)
    ensures Scan(ops, s) == Lex(ops, s)
  {
    ScanLoopIdle(ops, s, 0, []);
    assert s[0..] == s;
  }

  /** Nothing is dropped: the lexemes spell the input back. */
  lemma {:induction false} LexSpellsInput(ops: seq<char>, s: string)
    ensures Concat(Lex(ops, s)) == s
    decreases |s|
  {
    if |s| > 0 {
      if s[0] in ops {
        LexSpellsInput(ops, s[1..]);
        assert Concat(Lex(ops, s)) == [s[0]] + Concat(Lex(ops, s[1..]));
      } else {
        var n := NameRun(ops, s);
        LexSpellsInput(ops, s[n..]);
        ConcatCons(Word(s[..n]), Lex(ops, s[n..]));
        assert s[..n] + s[n..] == s;
      }
    }
  }

  lemma ConcatCons(t: Lexeme, ts: seq<Lexeme>)
    ensures Concat([t] + ts) == TextOf(t) + Concat(ts)
  {
    assert ([t] + ts)[1..] == ts;
  }

  /** The text of two lexeme lists one after the other. */
  lemma {:induction false} ConcatAppend(a: seq<Lexeme>, b: seq<Lexeme>)
    ensures Concat(a + b) == Concat(a) + Concat(b)
    decreases |a|
  {
    if |a| > 0 {
      ConcatAppend(a[1..], b);
      assert (a + b)[1..] == a[1..] + b;
    } else {
      assert a + b == b;
    }
  }

  lemma {:induction false} NameRunPrefixIsWord(ops: seq<char>, s: string)
    ensures NoOpIn(ops, s[..NameRun(ops, s)])
    ensures NameRun(ops, s) < |s| ==> s[NameRun(ops, s)] in ops
    decreases |s|
  {
    if |s| > 0 && s[0] !in ops {
      NameRunPrefixIsWord(ops, s[1..]);
      var n := NameRun(ops, s);
      forall j | 0 <= j < n ensures s[..n][j] !in ops {
        if j > 0 { assert s[..n][j] == s[1..][..n - 1][j - 1]; }
      }
      if n < |s| { assert s[n] == s[1..][n - 1]; }
    }
  }

  /** The reference lexer emits only proper lexemes, and never two words in a row. */
  lemma {:induction false} LexWellFormed(ops: seq<char>, s: string)
    ensures WellFormed(ops, Lex(ops, s))
    ensures |s| > 0 ==> |Lex(ops, s)| > 0 && (Lex(ops, s)[0].Symbol? <==> s[0] in ops)
    decreases |s|
  {
    if |s| > 0 {
      if s[0] in ops {
        LexWellFormed(ops, s[1..]);
      } else {
        var n := NameRun(ops, s);
        NameRunPrefixIsWord(ops, s);
        LexWellFormed(ops, s[n..]);
        var rest := Lex(ops, s[n..]);
        assert n < |s| ==> s[n..][0] in ops;
        assert |rest| > 0 ==> rest[0].Symbol?;
        var all := [Word(s[..n])] + rest;
        forall j | 0 <= j < |all| ensures Proper(ops, all[j]) {
          if j > 0 { assert all[j] == rest[j - 1]; }
        }
        forall j | 0 <= j < |all| - 1 ensures !(all[j].Word? && all[j + 1].Word?) {
          if j > 0 { assert all[j] == rest[j - 1] && all[j + 1] == rest[j]; }
        }
      }
    }
  }

  /**
    The lexer's output is the only well-formed lexeme list spelling `s`:
    proper lexemes, no two words adjacent, nothing dropped.
   */
  lemma {:induction false} LexUnique(ops: seq<char>, s: string, ts: seq<Lexeme>)
    requires WellFormed(ops, ts)
    requires Concat(ts) == s
    ensures ts == Lex(ops, s)
    decreases |ts|
  {
    if |ts| > 0 {
      var rest := ts[1..];
      assert WellFormed(ops, rest) by {
        forall j | 0 <= j < |rest| ensures Proper(ops, rest[j]) { assert rest[j] == ts[j + 1]; }
        forall j | 0 <= j < |rest| - 1 ensures !(rest[j].Word? && rest[j + 1].Word?) {
          assert rest[j] == ts[j + 1] && rest[j + 1] == ts[j + 2];
        }
      }
      ConcatCons(ts[0], rest);
      assert ts == [ts[0]] + rest;
      LexUnique(ops, Concat(rest), rest);
      assert Proper(ops, ts[0]);
      if ts[0].Symbol? {
        assert s[0] == ts[0].c && s[1..] == Concat(rest);
      } else {
        var x := ts[0].text;
        assert s == x + Concat(rest);
        assert |rest| > 0 ==> rest[0].Symbol? by {
          if |rest| > 0 { assert Proper(ops, ts[1]) && !(ts[0].Word? && ts[1].Word?); }
        }
        if |rest| > 0 {
          ConcatCons(rest[0], rest[1..]);
          assert rest == [rest[0]] + rest[1..];
          assert s[|x|] == rest[0].c;
        }
        assert NoOpBetween(ops, s, 0, |x|) by {
          forall j | 0 <= j < |x| ensures s[j] !in ops { assert s[j] == x[j]; }
        }
        NameRunAcross(ops, s, 0, |x|);
        assert s[0..] == s;
        assert NameRun(ops, s[|x|..]) == 0;
        assert s[..|x|] == x && s[|x|..] == Concat(rest);
        assert s[0] == x[0];
      }
    } else {
      assert s == [];
    }
  }
}
