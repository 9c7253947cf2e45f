/** Decimal text of integers as Ruby renders and reads it: `Integer#to_s`
    and `String#to_i`, plus the powers of two used by bit masks. */
module Numbers {

  function Pow2(k: nat): (r: nat)
    ensures r >= 1
  {
    if k == 0 then 1 else 2 * Pow2(k - 1)
  }

  predicate IsDigit(c: char) {
    '0' <= c <= '9'
  }

  function DigitChar(d: nat): (c: char)
    requires d < 10
    ensures IsDigit(c)
  {
    "0123456789"[d]
  }

  function DigitValue(c: char): (d: nat)
    requires IsDigit(c)
    ensures d < 10
  {
    (c as int) - ('0' as int)
  }

  lemma DigitRoundTrip(d: nat)
    requires d < 10
    ensures DigitValue(DigitChar(d)) == d
  {
  }

  predicate AllDigits(s: string) {
    forall i :: 0 <= i < |s| ==> IsDigit(s[i])
  }

  /** Decimal digits of a natural number, most significant first. */
  function NatText(n: nat): (s: string)
    ensures |s| >= 1 && AllDigits(s)
    ensures s[0] == '0' ==> n == 0
  {
    if n < 10 then [DigitChar(n)] else NatText(n / 10) + [DigitChar(n % 10)]
  }

  /** `Integer#to_s`: a minus sign for negatives, then the digits. */
  function IntText(n: int): (s: string)
    ensures |s| >= 1
    ensures n >= 0 ==> AllDigits(s)
    ensures n < 0 ==> s[0] == '-' && AllDigits(s[1..])
  {
    if n < 0 then "-" + NatText(-n) else NatText(n)
  }

  /** The value of a string of decimal digits. */
  function DigitsValue(s: string): nat
    requires AllDigits(s)
  {
    if |s| == 0 then 0 else DigitsValue(s[..|s| - 1]) * 10 + DigitValue(s[|s| - 1])
  }

  lemma {:induction false} NatTextValue(n: nat)
    ensures DigitsValue(NatText(n)) == n
  {
    if n < 10 {
      DigitRoundTrip(n);
    } else {
      var s := NatText(n);
      assert s[..|s| - 1] == NatText(n / 10);
      NatTextValue(n / 10);
      DigitRoundTrip(n % 10);
    }
  }

  predicate IsRubySpace(c: char) {
    c == ' ' || c == '\t' || c == '\n' || c == '\U{B}' || c == '\U{C}' || c == '\r'
  }

  /** The digits `String#to_i` consumes from the front of `s`: a run of
      digits in which a single underscore may separate two digits; the
      underscores are dropped. `afterDigit` says a digit was just read. */
  function DigitRun(s: string, afterDigit: bool): (r: string)
    ensures AllDigits(r) && |r| <= |s|
  {
    if |s| == 0 then []
    else if IsDigit(s[0]) then [s[0]] + DigitRun(s[1..], true)
    else if afterDigit && s[0] == '_' && |s| >= 2 && IsDigit(s[1]) then DigitRun(s[1..], false)
    else []
  }

  /** `String#to_i` in base 10: leading white space, an optional sign, then
      the digit run; anything else ends the number, and no digits give 0. */
  function StrToI(s: string): (r: int)
    ensures |s| == 0 ==> r == 0
  {
    if |s| > 0 && IsRubySpace(s[0]) then StrToI(s[1..])
    else if |s| > 0 && s[0] == '-' then 0 - DigitsValue(DigitRun(s[1..], false)) as int
    else if |s| > 0 && s[0] == '+' then DigitsValue(DigitRun(s[1..], false)) as int
    else DigitsValue(DigitRun(s, false)) as int
  }

  lemma {:induction false} DigitRunOfDigits(s: string, afterDigit: bool)
    requires AllDigits(s)
    ensures DigitRun(s, afterDigit) == s
  {
    if |s| > 0 {
      DigitRunOfDigits(s[1..], true);
    }
  }

  lemma NatTextRead(n: nat)
    ensures StrToI(NatText(n)) == n
  {
    var t := NatText(n);
    assert !IsRubySpace(t[0]) && t[0] != '-' && t[0] != '+';
    DigitRunOfDigits(t, false);
    NatTextValue(n);
  }

  lemma NegTextRead(n: nat)
    ensures StrToI("-" + NatText(n)) == -(n as int)
  {
    var t := NatText(n);
    var s := "-" + t;
    assert s[0] == '-' && s[1..] == t;
    DigitRunOfDigits(t, false);
    NatTextValue(n);
  }

  /** Reading back what `Integer#to_s` wrote gives the same integer. */
  lemma IntTextRoundTrip(n: int)
    ensures StrToI(IntText(n)) == n
  {
    if n < 0 {
      assert IntText(n) == "-" + NatText(-n);
      NegTextRead(-n);
    } else {
      assert IntText(n) == NatText(n);
      NatTextRead(n);
    }
  }

  /** Distinct integers have distinct decimal texts. */
  lemma IntTextInjective(m: int, n: int)
    ensures IntText(m) == IntText(n) ==> m == n
  {
    IntTextRoundTrip(m);
    IntTextRoundTrip(n);
  }
}
