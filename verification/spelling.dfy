/** A character-by-character check that a list of lexemes spells a given text, for the worked examples. */
module Spelling {
  import opened Lexer

  /** `x` occurs in `s` at offset `j`, from its `k`-th character on. */
  function MatchesAt(x: string, s: string, j: nat, k: nat): bool
    requires j + |x| <= |s|
    decreases |x| - k
  {
    k >= |x| || (s[j + k] == x[k] && MatchesAt(x, s, j, k + 1))
  }

  /** The lexemes from the `i`-th on spell `s` from offset `j` on. */
  function SpellsFrom(ts: seq<Lexeme>, s: string, i: nat, j: nat): bool
    decreases |ts| - i
  {
    if i >= |ts| then j == |s|
    else
      var x := TextOf(ts[i]);
      j + |x| <= |s| && MatchesAt(x, s, j, 0) && SpellsFrom(ts, s, i + 1, j + |x|)
  }

  lemma {:induction false} MatchesAtSound(x: string, s: string, j: nat, k: nat)
    requires j + |x| <= |s| && k <= |x| && MatchesAt(x, s, j, k)
    ensures s[j + k..j + |x|] == x[k..]
    decreases |x| - k
  {
    if k < |x| {
      MatchesAtSound(x, s, j, k + 1);
      assert s[j + k..j + |x|] == [s[j + k]] + s[j + k + 1..j + |x|];
      assert x[k..] == [x[k]] + x[k + 1..];
    }
  }

  lemma {:induction false} SpellsFromSound(ts: seq<Lexeme>, s: string, i: nat, j: nat)
    requires i <= |ts| && j <= |s| && SpellsFrom(ts, s, i, j)
    ensures Concat(ts[i..]) == s[j..]
    decreases |ts| - i
  {
    if i < |ts| {
      var x := TextOf(ts[i]);
      SpellsFromSound(ts, s, i + 1, j + |x|);
      MatchesAtSound(x, s, j, 0);
      assert ts[i..] == [ts[i]] + ts[i + 1..];
      ConcatCons(ts[i], ts[i + 1..]);
      assert s[j..] == s[j..j + |x|] + s[j + |x|..];
    }
  }

  /** Lexemes that pass the character check spell the text. */
  lemma SpellsSound(ts: seq<Lexeme>, s: string)
    requires SpellsFrom(ts, s, 0, 0)
    ensures Concat(ts) == s
  {
    SpellsFromSound(ts, s, 0, 0);
    assert ts[0..] == ts && s[0..] == s;
  }
}
