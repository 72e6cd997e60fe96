/** Fixed-width decimal numerals. */
module Decimals {
  import opened Bytes

  predicate IsDigit(c: char) {
    '0' <= c <= '9'
  }

  predicate AllDigits(text: string) {
    forall i | 0 <= i < |text| :: IsDigit(text[i])
  }

  function DigitValue(c: char): nat
    requires IsDigit(c)
  {
    c as int - '0' as int
  }

  function DigitOf(n: nat): (c: Byte)
    requires n < 10
    ensures IsDigit(c) && DigitValue(c) == n
  {
    ('0' as int + n) as char
  }

  function Pow10(n: nat): (p: nat)
    ensures p > 0
  {
    if n == 0 then 1 else 10 * Pow10(n - 1)
  }

  /** The last `width` decimal digits of `n`, leading zeros included. */
  function Digits(n: nat, width: nat): (text: Text)
    ensures |text| == width && AllDigits(text)
  {
    if width == 0 then [] else Digits(n / 10, width - 1) + [DigitOf(n % 10)]
  }

  function Value(digits: string): nat
    requires AllDigits(digits)
  {
    if digits == [] then 0
    else 10 * Value(digits[..|digits| - 1]) + DigitValue(digits[|digits| - 1])
  }

  lemma {:induction false} ValueOfDigits(n: nat, width: nat)
    requires n < Pow10(width)
    ensures Value(Digits(n, width)) == n
  {
    if width > 0 {
      ValueOfDigits(n / 10, width - 1);
      var text := Digits(n, width);
      assert text[..width - 1] == Digits(n / 10, width - 1);
    }
  }

  lemma TwoDigits(n: nat)
    requires n < 100
    ensures Value(Digits(n, 2)) == n
  {
    assert Pow10(2) == 100;
    ValueOfDigits(n, 2);
  }

  lemma LastDigit(front: nat, c: char)
    requires IsDigit(c)
    ensures (10 * front + DigitValue(c)) / 10 == front
    ensures DigitOf((10 * front + DigitValue(c)) % 10) == c
  {
    assert DigitValue(c) < 10;
  }

  lemma {:induction false} DigitsOfValue(digits: string)
    requires AllDigits(digits)
    ensures Digits(Value(digits), |digits|) == digits
  {
    if digits != [] {
      var front, c := digits[..|digits| - 1], digits[|digits| - 1];
      DigitsOfValue(front);
      LastDigit(Value(front), c);
      assert digits == front + [c];
    }
  }

  lemma {:induction false} ValueIsBounded(digits: string)
    requires AllDigits(digits)
    ensures Value(digits) < Pow10(|digits|)
  {
    if digits != [] {
      ValueIsBounded(digits[..|digits| - 1]);
    }
  }

  /** A numeral is positional, its most significant digit first. */
  lemma {:induction false} LeadingDigit(c: char, digits: string)
    requires IsDigit(c) && AllDigits(digits)
    ensures AllDigits([c] + digits)
    ensures Value([c] + digits) == (c as int - '0' as int) * Pow10(|digits|) + Value(digits)
  {
    var all := [c] + digits;
    if digits == [] {
      assert all[..0] == [];
    } else {
      assert all[..|all| - 1] == [c] + digits[..|digits| - 1];
      LeadingDigit(c, digits[..|digits| - 1]);
    }
  }

  /** Reading one more digit. */
  lemma ValueOfMore(digits: string, c: char)
    requires AllDigits(digits) && IsDigit(c)
    ensures AllDigits(digits + [c]) && Value(digits + [c]) == 10 * Value(digits) + DigitValue(c)
  {
    assert (digits + [c])[..|digits|] == digits;
  }

  /** A numeral read from left to right. */
  method ReadDigits(text: string) returns (value: nat)
    requires AllDigits(text)
    ensures value == Value(text)
  {
    value := 0;
    for i := 0 to |text|
      invariant value == Value(text[..i])
    {
      ValueOfMore(text[..i], text[i]);
      assert text[..i + 1] == text[..i] + [text[i]];
      value := value * 10 + DigitValue(text[i]);
    }
    assert text[..|text|] == text;
  }
}
