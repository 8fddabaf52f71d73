/** Integers written out in base ten. */
module Decimal {

  /** The character of a decimal digit. */
  function DigitChar(d: nat): (c: char)
    requires d < 10
    ensures '0' <= c <= '9'
    ensures c as int - '0' as int == d
  {
    (('0' as int) + d) as char
  }

  /** The decimal text of an integer: Python's `str(n)`, and JavaScript's `String(n)` for an integer below 10^21. */
  function DecimalText(n: int): (r: string)
    ensures |r| >= 1
    ensures forall i :: 0 <= i < |r| ==> r[i] == '-' || '0' <= r[i] <= '9'
    ensures r[0] == '-' <==> n < 0
    ensures 0 <= n < 10 <==> |r| == 1 && r[0] != '-'
    decreases if n < 0 then 1 - n else n
  {
    if n < 0 then "-" + DecimalText(-n)
    else if n < 10 then [DigitChar(n)]
    else DecimalText(n / 10) + [DigitChar(n % 10)]
  }

  /** A number of two or more digits is its leading digits followed by its last digit. */
  lemma LastDigitSplit(a: nat, b: nat)
    requires a / 10 == b / 10 && a % 10 == b % 10
    ensures a == b
  {
  }

  /** A negative number's text is a minus sign before its magnitude's. */
  lemma NegativeText(a: int, b: int)
    requires a < 0 && DecimalText(a) == DecimalText(b)
    ensures b < 0 && DecimalText(-a) == DecimalText(-b)
  {
    var s := DecimalText(a);
    assert DecimalText(-a) == s[1..] == DecimalText(-b);
  }

  /** A one-digit text names its digit. */
  lemma SingleDigitText(a: int, b: int)
    requires 0 <= a < 10 && DecimalText(a) == DecimalText(b)
    ensures a == b
  {
    assert 0 <= b < 10;
    assert DigitChar(a) == DecimalText(a)[0] == DigitChar(b);
  }

  /** A longer text is the text of the leading digits followed by the last digit. */
  lemma MultiDigitText(a: int, b: int)
    requires a >= 10 && DecimalText(a) == DecimalText(b)
    ensures b >= 10 && DecimalText(a / 10) == DecimalText(b / 10) && a % 10 == b % 10
  {
    var s := DecimalText(a);
    assert b >= 10;
    var ta, tb := DecimalText(a / 10), DecimalText(b / 10);
    assert s == ta + [DigitChar(a % 10)] && s == tb + [DigitChar(b % 10)];
    assert ta == s[..|s| - 1] == tb;
    assert DigitChar(a % 10) == s[|s| - 1] == DigitChar(b % 10);
  }

  /** Different integers have different decimal texts, so `str(n)` names `n`. */
  lemma {:induction false} DecimalTextInjective(a: int, b: int)
    requires DecimalText(a) == DecimalText(b)
    ensures a == b
    decreases (if a < 0 then 1 - a else a) + (if b < 0 then 1 - b else b)
  {
    if a < 0 {
      NegativeText(a, b);
      DecimalTextInjective(-a, -b);
    } else if a < 10 {
      SingleDigitText(a, b);
    } else {
      MultiDigitText(a, b);
      DecimalTextInjective(a / 10, b / 10);
      LastDigitSplit(a, b);
    }
  }
}
