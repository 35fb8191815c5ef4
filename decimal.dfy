/**
  Python's `%d` conversion: a number is truncated toward zero and rendered
  as a decimal integer with an optional leading minus sign and no leading
  zeros. ParseInt is the strict inverse, accepting exactly the strings that
  `%d` can produce.
 */
module Decimal {
  import opened Wrappers

  predicate IsDigit(c: char) {
    '0' <= c <= '9'
  }

  function DigitChar(d: nat): (c: char)
    requires d < 10
    ensures IsDigit(c) && c as int - '0' as int == d
  {
    ('0' as int + d) as char
  }

  function DigitValue(c: char): (d: nat)
    requires IsDigit(c)
    ensures d < 10 && DigitChar(d) == c
  {
    c as int - '0' as int
  }

  predicate AllDigits(s: string) {
    forall i :: 0 <= i < |s| ==> IsDigit(s[i])
  }

  /** A non-empty digit string without a leading zero, except "0" itself. */
  predicate IsCanonical(s: string) {
    |s| >= 1 && AllDigits(s) && (s[0] == '0' ==> |s| == 1)
  }

  /** The decimal digits of a natural number, most significant first. */
  function Digits(n: nat): (s: string)
    ensures IsCanonical(s)
    ensures (s == "0") == (n == 0)
    decreases n
  {
    if n < 10 then [DigitChar(n)] else Digits(n / 10) + [DigitChar(n % 10)]
  }

  /** The number a digit string denotes. */
  function NatValue(s: string): nat
    requires AllDigits(s)
  {
    if s == [] then 0 else NatValue(s[..|s| - 1]) * 10 + DigitValue(s[|s| - 1])
  }

  /** `"%d" % n` for an integer n. */
  function FormatInt(n: int): (s: string)
    ensures |s| >= 1
    ensures (s[0] == '-') == (n < 0)
    ensures forall i :: 0 <= i < |s| ==> IsDigit(s[i]) || (i == 0 && s[i] == '-')
  {
    if n < 0 then "-" + Digits(-n) else Digits(n)
  }

  /** The integer a string written by FormatInt denotes; None for every other string. */
  function ParseInt(s: string): Option<int> {
    if IsCanonical(s) then Some(NatValue(s))
    else if |s| >= 2 && s[0] == '-' && IsCanonical(s[1..]) && s[1..] != "0" then Some(-(NatValue(s[1..]) as int))
    else None
  }

  /** The conversion `%d` applies to a float: truncation toward zero. */
  function Truncate(x: real): (n: int)
    ensures 0.0 <= x ==> 0 <= n && n as real <= x < n as real + 1.0
    ensures x < 0.0 ==> n <= 0 && n as real - 1.0 < x <= n as real
  {
    if 0.0 <= x then x.Floor else -((-x).Floor)
  }

  lemma {:induction false} NatValueOfDigits(n: nat)
    ensures NatValue(Digits(n)) == n
  {
    var s := Digits(n);
    if n >= 10 {
      NatValueOfDigits(n / 10);
      assert s[..|s| - 1] == Digits(n / 10);
    } else {
      assert s[..|s| - 1] == [];
    }
  }

  /** A canonical digit string that does not start with '0' denotes a positive number. */
  lemma {:induction false} PositiveValue(s: string)
    requires IsCanonical(s) && s[0] != '0'
    ensures NatValue(s) >= 1
  {
    var p := s[..|s| - 1];
    if |s| == 1 {
      assert p == [];
    } else {
      assert p[0] == s[0];
      PositiveValue(p);
    }
  }

  lemma {:induction false} DigitsOfNatValue(s: string)
    requires IsCanonical(s)
    ensures Digits(NatValue(s)) == s
  {
    var p := s[..|s| - 1];
    var last := s[|s| - 1];
    if |s| == 1 {
      assert p == [];
      assert s == [last];
    } else {
      assert p[0] == s[0];
      assert IsCanonical(p);
      PositiveValue(p);
      DigitsOfNatValue(p);
      var n := NatValue(s);
      assert n == NatValue(p) * 10 + DigitValue(last);
      assert n / 10 == NatValue(p) && n % 10 == DigitValue(last);
      assert s == p + [last];
    }
  }

  /** Parsing what `%d` wrote gives the number back. */
  lemma FormatThenParse(n: int)
    ensures ParseInt(FormatInt(n)) == Some(n)
  {
    var s := FormatInt(n);
    if n < 0 {
      NatValueOfDigits(-n);
      assert s[1..] == Digits(-n);
      assert !IsDigit(s[0]);
    } else {
      NatValueOfDigits(n);
    }
  }

  /** Every string ParseInt accepts is exactly what `%d` writes for its value. */
  lemma ParseThenFormat(s: string, n: int)
    requires ParseInt(s) == Some(n)
    ensures FormatInt(n) == s
  {
    if IsCanonical(s) {
      DigitsOfNatValue(s);
    } else {
      var t := s[1..];
      assert t[0] != '0';
      PositiveValue(t);
      DigitsOfNatValue(t);
      assert s == "-" + t;
    }
  }

  lemma FormatIntInjective(m: int, n: int)
    requires FormatInt(m) == FormatInt(n)
    ensures m == n
  {
    FormatThenParse(m);
    FormatThenParse(n);
  }
}
