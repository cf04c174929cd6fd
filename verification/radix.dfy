/**
  `i64::from_str_radix` for the two radices the engine uses, and the UTF-8
  byte lengths that Rust's `str::len` and byte slicing work with.

  A text is accepted when it is an optional `+` or `-` followed by at least
  one digit of the radix and its value fits in `i64`; letters of either case
  are hexadecimal digits. The reason for a rejection (empty text, bad digit,
  overflow) is not kept, as no caller looks at it.
 */
module Radix {
  import opened Errors
  import opened MachineInt

  /** The value of `c` as a digit of `radix` (10 or 16), if it is one. */
  function DigitValue(c: char, radix: nat): (r: Option<nat>)
    requires radix == 10 || radix == 16
    ensures r.Some? ==> r.value < radix
  {
    if '0' <= c <= '9' then Some(c as nat - '0' as nat)
    else if radix == 16 && 'a' <= c <= 'f' then Some(c as nat - 'a' as nat + 10)
    else if radix == 16 && 'A' <= c <= 'F' then Some(c as nat - 'A' as nat + 10)
    else None
  }

  /** The value of a non-empty digit string, most significant digit first. */
  function DigitsValue(ds: string, radix: nat): Option<nat>
    requires radix == 10 || radix == 16
    decreases |ds|
  {
    if |ds| == 0 then None
    else
      var d := DigitValue(ds[|ds| - 1], radix);
      if d.None? then None
      else if |ds| == 1 then d
      else
        var high := DigitsValue(ds[..|ds| - 1], radix);
        if high.None? then None else Some(high.value * radix + d.value)
  }

  /** `i64::from_str_radix(s, radix)`, keeping only whether it succeeds and with what value. */
  function FromStrRadix(s: string, radix: nat): (r: Option<i64>)
    requires radix == 10 || radix == 16
    ensures r.Some? ==> |s| >= 1
    ensures r.Some? && s[0] == '-' ==> r.value <= 0
  {
    if |s| == 0 then None
    else if (s[0] == '+' || s[0] == '-') && |s| == 1 then None
    else
      var negative := s[0] == '-';
      var digits := if s[0] == '+' || s[0] == '-' then s[1..] else s;
      match DigitsValue(digits, radix)
      case None => None
      case Some(v) =>
        var signed := if negative then -(v as int) else v as int;
        if I64_MIN <= signed <= I64_MAX then Some(signed) else None
  }

  /* ----------------------------- rendering back ----------------------------- */

  const DIGIT_CHARS: string := "0123456789abcdef"

  /** The digits of `k` in `radix`, most significant first, without leading zeros. */
  function Digits(k: nat, radix: nat): (r: string)
    requires radix == 10 || radix == 16
    ensures |r| >= 1
    ensures forall i :: 0 <= i < |r| ==> DigitValue(r[i], radix).Some?
    decreases k
  {
    if k < radix then [DIGIT_CHARS[k]]
    else Digits(k / radix, radix) + [DIGIT_CHARS[k % radix]]
  }

  lemma DigitCharValue(k: nat, radix: nat)
    requires (radix == 10 || radix == 16) && k < radix
    ensures DigitValue(DIGIT_CHARS[k], radix) == Some(k)
  {
  }

  /** Appending a digit multiplies the value read so far by the radix and adds the digit. */
  lemma DigitsValueSnoc(high: string, c: char, radix: nat)
    requires radix == 10 || radix == 16
    requires DigitsValue(high, radix).Some? && DigitValue(c, radix).Some?
    ensures DigitsValue(high + [c], radix) == Some(DigitsValue(high, radix).value * radix + DigitValue(c, radix).value)
  {
    var ds := high + [c];
    assert ds[..|ds| - 1] == high && ds[|ds| - 1] == c;
  }

  /** Reading back the digits of `k` gives `k`. */
  lemma {:induction false} DigitsRoundTrip(k: nat, radix: nat)
    requires radix == 10 || radix == 16
    ensures DigitsValue(Digits(k, radix), radix) == Some(k)
    decreases k
  {
    DigitCharValue(k % radix, radix);
    if k >= radix {
      var high := Digits(k / radix, radix);
      assert Digits(k, radix) == high + [DIGIT_CHARS[k % radix]];
      DigitsRoundTrip(k / radix, radix);
      DigitsValueSnoc(high, DIGIT_CHARS[k % radix], radix);
      assert (k / radix) * radix + k % radix == k;
    } else {
      assert Digits(k, radix) == [DIGIT_CHARS[k]];
    }
  }

  /** `n` written in decimal, with a leading `-` when negative: what `to_string` gives for an `i64`. */
  function DecimalText(n: i64): (r: string)
    ensures |r| >= 1 && (r[0] == '-' || '0' <= r[0] <= '9')
    ensures forall i :: 1 <= i < |r| ==> '0' <= r[i] <= '9'
  {
    var ds := Digits(Abs(n), 10);
    assert forall i :: 0 <= i < |ds| ==> '0' <= ds[i] <= '9' by {
      forall i | 0 <= i < |ds| ensures '0' <= ds[i] <= '9' {
        assert DigitValue(ds[i], 10).Some?;
      }
    }
    if n < 0 then "-" + ds else ds
  }

  /** Every `i64` written in decimal is read back by `from_str_radix(_, 10)`. */
  lemma DecimalRoundTrip(n: i64)
    ensures FromStrRadix(DecimalText(n), 10) == Some(n)
  {
    var ds := Digits(Abs(n), 10);
    DigitsRoundTrip(Abs(n), 10);
    if n < 0 {
      assert DecimalText(n)[1..] == ds;
    }
  }

  /** Every non-negative `i64` written in hexadecimal is read back by `from_str_radix(_, 16)`. */
  lemma HexRoundTrip(n: i64)
    requires n >= 0
    ensures FromStrRadix(Digits(n, 16), 16) == Some(n)
  {
    DigitsRoundTrip(n, 16);
    assert DigitValue(Digits(n, 16)[0], 16).Some?;
  }

  /* ------------------------------- UTF-8 bytes ------------------------------- */

  /** The number of bytes `c` takes in UTF-8. */
  function Utf8Len(c: char): (r: nat)
    ensures 1 <= r <= 4
  {
    if c < '\U{0080}' then 1
    else if c < '\U{0800}' then 2
    else if c < '\U{10000}' then 3
    else 4
  }

  /** `str::len`: the length in UTF-8 bytes. */
  function ByteLen(s: string): (r: nat)
    ensures r >= |s|
  {
    if |s| == 0 then 0 else Utf8Len(s[0]) + ByteLen(s[1..])
  }

  /** Every character is at least one byte and an ASCII text is one byte per character. */
  lemma {:induction false} ByteLenAscii(s: string)
    requires forall i :: 0 <= i < |s| ==> s[i] < '\U{0080}'
    ensures ByteLen(s) == |s|
    decreases |s|
  {
    if |s| > 0 {
      ByteLenAscii(s[1..]);
    }
  }

  /**
    Byte offset 2 falls between two characters of `s`, so that `&s[0..2]`
    does not panic: the first character takes two bytes, or the first two
    take one each.
   */
  predicate SlicesAtTwo(s: string) {
    (|s| >= 1 && Utf8Len(s[0]) == 2) || (|s| >= 2 && Utf8Len(s[0]) == 1 && Utf8Len(s[1]) == 1)
  }

  /** `&s[0..2] == "0x"`, given that the slice is defined: the first two characters are `0` and `x`. */
  predicate HexPrefix(s: string) {
    |s| >= 2 && s[0] == '0' && s[1] == 'x'
  }

  /** A text that starts with `0x` can always be sliced at byte 2. */
  lemma HexPrefixSlices(s: string)
    requires HexPrefix(s)
    ensures SlicesAtTwo(s)
  {
  }
}
