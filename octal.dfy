/**
 * Octal rendering of an integer as Python's `format(n, 'o')` (the `{mode:o}`
 * conversion) writes it: base-8 digits with no leading zero, `"0"` for
 * zero, and a leading `-` for a negative number.  `Parse` reads such a
 * numeral back.
 */
module Octal {

  predicate IsDigit(c: char)
  {
    '0' <= c <= '7'
  }

  function Digit(d: nat): (c: char)
    requires d < 8
    ensures IsDigit(c)
  {
    (d + '0' as int) as char
  }

  function DigitValue(c: char): (d: nat)
    requires IsDigit(c)
    ensures d < 8 && Digit(d) == c
  {
    c as int - '0' as int
  }

  /** A numeral `format(n, 'o')` can produce for some n >= 0: nonempty digits, no leading zero. */
  predicate IsNatNumeral(s: string)
  {
    |s| >= 1 && (forall i :: 0 <= i < |s| ==> IsDigit(s[i])) && (s[0] != '0' || s == "0")
  }

  /** A numeral `format(n, 'o')` can produce for some integer n. */
  predicate IsNumeral(s: string)
  {
    IsNatNumeral(s) || (|s| >= 2 && s[0] == '-' && IsNatNumeral(s[1..]) && s[1..] != "0")
  }

  /** The base-8 digits of `n`, most significant first. */
  function NatDigits(n: nat): (s: string)
    ensures IsNatNumeral(s)
    decreases n
  {
    if n < 8 then [Digit(n)] else NatDigits(n / 8) + [Digit(n % 8)]
  }

  /** The value of a string of octal digits, most significant first. */
  function DigitsValue(s: string): nat
    requires forall i :: 0 <= i < |s| ==> IsDigit(s[i])
  {
    if s == [] then 0 else DigitsValue(s[..|s| - 1]) * 8 + DigitValue(s[|s| - 1])
  }

  /** `format(n, 'o')`. */
  function Format(n: int): (s: string)
    ensures IsNumeral(s)
  {
    if n < 0 then "-" + NatDigits(-n) else NatDigits(n)
  }

  /** The integer an octal numeral stands for. */
  function Parse(s: string): int
    requires IsNumeral(s)
  {
    if s[0] == '-' then -(DigitsValue(s[1..]) as int) else DigitsValue(s)
  }

  lemma {:induction false} NatDigitsValue(n: nat)
    ensures DigitsValue(NatDigits(n)) == n
    decreases n
  {
    var s := NatDigits(n);
    if n >= 8 {
      NatDigitsValue(n / 8);
      assert s[..|s| - 1] == NatDigits(n / 8);
    }
  }

  /** A numeral with no leading zero and more than one digit stands for a positive number. */
  lemma {:induction false} DigitsValuePositive(s: string)
    requires forall i :: 0 <= i < |s| ==> IsDigit(s[i])
    requires s != [] && s[0] != '0'
    ensures DigitsValue(s) >= 1
    decreases |s|
  {
    if |s| > 1 {
      DigitsValuePositive(s[..|s| - 1]);
    }
  }

  lemma {:induction false} ValueNatDigits(s: string)
    requires IsNatNumeral(s)
    ensures NatDigits(DigitsValue(s)) == s
    decreases |s|
  {
    if |s| > 1 {
      var p := s[..|s| - 1];
      assert IsNatNumeral(p) by { assert p[0] == s[0]; }
      DigitsValuePositive(p);
      ValueNatDigits(p);
      var n := DigitsValue(s);
      assert n / 8 == DigitsValue(p) && n % 8 == DigitValue(s[|s| - 1]);
      assert s == p + [s[|s| - 1]];
    }
  }

  /** Reading the rendering of `n` back in base 8 yields `n`. */
  lemma ParseFormat(n: int)
    ensures Parse(Format(n)) == n
  {
    if n < 0 {
      NatDigitsValue(-n);
      assert ("-" + NatDigits(-n))[1..] == NatDigits(-n);
    } else {
      NatDigitsValue(n);
    }
  }

  /** Every octal numeral is the rendering of the number it stands for. */
  lemma FormatParse(s: string)
    requires IsNumeral(s)
    ensures Format(Parse(s)) == s
  {
    if s[0] == '-' {
      ValueNatDigits(s[1..]);
      DigitsValuePositive(s[1..]);
      assert s == "-" + s[1..];
    } else {
      ValueNatDigits(s);
    }
  }

  /** Distinct numbers render as distinct numerals. */
  lemma FormatInjective(m: int, n: int)
    requires Format(m) == Format(n)
    ensures m == n
  {
    ParseFormat(m);
    ParseFormat(n);
  }
}
