/** Decimal text of integers: what a template literal prints for an integer (`${n}`)
    and what `parseInt(s)` reads back from a string. */
module Decimal {
  import opened Wrappers

  predicate IsDigit(ch: char) { '0' <= ch <= '9' }

  predicate AllDigits(s: string) { forall i :: 0 <= i < |s| ==> IsDigit(s[i]) }

  function DigitValue(ch: char): (d: nat)
    requires IsDigit(ch)
    ensures d < 10
  {
    ch as int - '0' as int
  }

  function DigitChar(d: nat): (ch: char)
    requires d < 10
    ensures IsDigit(ch) && DigitValue(ch) == d
  {
    ('0' as int + d) as char
  }

  /** `${n}` for a non-negative integer: its decimal digits, with no leading zero. */
  function NatText(n: nat): (s: string)
    ensures |s| >= 1 && AllDigits(s)
    ensures n > 0 ==> s[0] != '0'
    ensures (|s| == 1) == (n < 10)
    ensures n < 100 ==> |s| <= 2
  {
    if n < 10 then [DigitChar(n)] else NatText(n / 10) + [DigitChar(n % 10)]
  }

  /** `${i}` for any integer: a minus sign before the digits of a negative one. */
  function IntText(i: int): (s: string)
    ensures |s| >= 1 && (s[0] == '-' <==> i < 0)
  {
    if i < 0 then "-" + NatText(-i) else NatText(i)
  }

  /** The number a string of decimal digits denotes ("" denotes 0). */
  function DigitsValue(s: string): nat
    requires AllDigits(s)
  {
    if s == [] then 0 else 10 * DigitsValue(s[..|s| - 1]) + DigitValue(s[|s| - 1])
  }

  /** The value of a two-digit text. */
  lemma TwoDigitValue(s: string)
    requires |s| == 2 && AllDigits(s)
    ensures DigitsValue(s) == 10 * DigitValue(s[0]) + DigitValue(s[1])
  {
    assert s[..1][..0] == [];
    assert DigitsValue(s[..1]) == DigitValue(s[0]);
  }

  /** The value of a four-digit text. */
  lemma FourDigitValue(s: string)
    requires |s| == 4 && AllDigits(s)
    ensures DigitsValue(s) ==
            1000 * DigitValue(s[0]) + 100 * DigitValue(s[1]) + 10 * DigitValue(s[2]) + DigitValue(s[3])
  {
    var s3 := s[..3];
    assert s3[..2] == s[..2] && s3[2] == s[2];
    TwoDigitValue(s[..2]);
    assert DigitsValue(s3) == 10 * DigitsValue(s[..2]) + DigitValue(s[2]);
  }

  /** The decimal text of `n` reads back as `n`. */
  lemma {:induction false} DigitsValueOfNatText(n: nat)
    ensures DigitsValue(NatText(n)) == n
  {
    if n >= 10 {
      DigitsValueOfNatText(n / 10);
      var s := NatText(n);
      assert s[..|s| - 1] == NatText(n / 10);
    }
  }

  /** The longest prefix of `s` made of digits. */
  function DigitPrefix(s: string): (p: string)
    ensures p <= s && AllDigits(p)
    ensures |p| < |s| ==> !IsDigit(s[|p|])
  {
    if s == [] || !IsDigit(s[0]) then "" else [s[0]] + DigitPrefix(s[1..])
  }

  /** A string of digits is its own digit prefix. */
  lemma {:induction false} DigitPrefixOfDigits(s: string)
    requires AllDigits(s)
    ensures DigitPrefix(s) == s
  {
    if s != [] {
      DigitPrefixOfDigits(s[1..]);
      assert [s[0]] + s[1..] == s;
    }
  }

  /** The run of digits at the start of `u`, as `parseInt` reads it once the sign is
      taken off; `None` when `u` does not start with a digit. */
  function LeadingNumber(u: string): (r: Option<nat>)
    ensures r.None? <==> u == [] || !IsDigit(u[0])
    ensures AllDigits(u) && u != [] ==> r == Some(DigitsValue(u))
  {
    var digits := DigitPrefix(u);
    assert AllDigits(u) ==> digits == u by {
      if AllDigits(u) { DigitPrefixOfDigits(u); }
    }
    if digits == [] then None else Some(DigitsValue(digits))
  }

  /** `parseInt(s)` in base 10: an optional sign, then the longest run of digits; `NaN`
      (here `None`) when no digit follows the sign. */
  function ParseInt(s: string): (r: Option<int>)
    ensures r.None? <==> s == [] || (!IsDigit(s[0]) && (s[0] !in "+-" || |s| == 1 || !IsDigit(s[1])))
    ensures AllDigits(s) && s != [] ==> r == Some(DigitsValue(s))
  {
    if s != [] && (s[0] == '-' || s[0] == '+') then
      match LeadingNumber(s[1..])
      case None => None
      case Some(v) => var magnitude: int := v; Some(if s[0] == '-' then -magnitude else magnitude)
    else
      match LeadingNumber(s)
      case None => None
      case Some(v) => Some(v)
  }

  /** `parseInt(`${n}`)` gives back `n`. */
  lemma ParseIntOfNatText(n: nat)
    ensures ParseInt(NatText(n)) == Some(n)
  {
    DigitsValueOfNatText(n);
  }
}
