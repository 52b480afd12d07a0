/**
 * Decimal integer literals: what `int(text)` reads from a query-string value,
 * and the canonical rendering that reads back to the same number.
 */
module Numerals {
  import opened Wrappers

  predicate IsDigit(c: char) {
    '0' <= c <= '9'
  }

  predicate AllDigits(s: string) {
    forall i :: 0 <= i < |s| ==> IsDigit(s[i])
  }

  function DigitValue(c: char): nat
    requires IsDigit(c)
  {
    (c as int) - ('0' as int)
  }

  function DigitChar(d: nat): (c: char)
    requires d < 10
    ensures IsDigit(c) && DigitValue(c) == d
  {
    ('0' as int + d) as char
  }

  /** The value of a run of decimal digits, most significant first. */
  function DigitsValue(s: string): nat
    requires AllDigits(s)
  {
    if s == [] then 0 else DigitsValue(s[..|s| - 1]) * 10 + DigitValue(s[|s| - 1])
  }

  /** An optional sign followed by one or more decimal digits; anything else is rejected. */
  function ParseInt(s: string): (r: Option<int>)
    ensures r.Some? <==> (s != [] && AllDigits(s)) || (|s| >= 2 && s[0] in "+-" && AllDigits(s[1..]))
    ensures s != [] && AllDigits(s) ==> r == Some(DigitsValue(s) as int)
    ensures |s| >= 2 && s[0] == '+' && AllDigits(s[1..]) ==> r == Some(DigitsValue(s[1..]) as int)
    ensures |s| >= 2 && s[0] == '-' && AllDigits(s[1..]) ==> r == Some(0 - DigitsValue(s[1..]) as int)
  {
    if s != [] && AllDigits(s) then Some(DigitsValue(s))
    else if |s| >= 2 && s[0] == '-' && AllDigits(s[1..]) then Some(0 - DigitsValue(s[1..]) as int)
    else if |s| >= 2 && s[0] == '+' && AllDigits(s[1..]) then Some(DigitsValue(s[1..]))
    else None
  }

  /** The decimal digits of `n` without leading zeros. */
  function ShowNat(n: nat): (s: string)
    ensures s != [] && AllDigits(s)
  {
    if n < 10 then [DigitChar(n)] else ShowNat(n / 10) + [DigitChar(n % 10)]
  }

  /** `str(n)`. */
  function ShowInt(n: int): (s: string)
    ensures s != []
  {
    if n < 0 then "-" + ShowNat(-n) else ShowNat(n)
  }

  lemma {:induction false} ShowNatValue(n: nat)
    ensures DigitsValue(ShowNat(n)) == n
  {
    if n >= 10 {
      var s := ShowNat(n);
      ShowNatValue(n / 10);
      assert s[..|s| - 1] == ShowNat(n / 10);
    }
  }

  /** A leading zero does not change the value of a run of digits. */
  lemma {:induction false} LeadingZero(s: string)
    requires AllDigits(s)
    ensures AllDigits("0" + s) && DigitsValue("0" + s) == DigitsValue(s)
  {
    var t := "0" + s;
    if s != [] {
      assert t[..|t| - 1] == "0" + s[..|s| - 1];
      LeadingZero(s[..|s| - 1]);
    }
  }

  /** A plus sign before a run of digits reads as the digits alone. */
  lemma ParsePlus(s: string)
    requires s != [] && AllDigits(s)
    ensures ParseInt("+" + s) == ParseInt(s)
  {
    var t := "+" + s;
    assert t[1..] == s;
    assert !IsDigit(t[0]);
  }

  /** A minus sign before a run of digits reads as the negated value. */
  lemma ParseMinus(s: string)
    requires s != [] && AllDigits(s)
    ensures ParseInt("-" + s) == Some(0 - DigitsValue(s) as int)
  {
    var t := "-" + s;
    assert t[1..] == s;
    assert !IsDigit(t[0]);
  }

  /** Reading back the rendering of any integer gives that integer. */
  lemma ParseShowInt(n: int)
    ensures ParseInt(ShowInt(n)) == Some(n)
  {
    if n < 0 {
      ParseMinus(ShowNat(-n));
      ShowNatValue(-n);
    } else {
      ShowNatValue(n);
    }
  }
}
