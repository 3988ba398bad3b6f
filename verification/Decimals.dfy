/** Decimal numbers as the standard library prints them and parses them into unsigned types. */
module Decimals {
  import opened Wrappers

  predicate IsDigit(c: char) {
    '0' <= c <= '9'
  }

  predicate AllDigits(s: string) {
    forall i :: 0 <= i < |s| ==> IsDigit(s[i])
  }

  function Value(s: string): nat
    requires AllDigits(s)
  {
    if s == [] then 0 else 10 * Value(s[..|s| - 1]) + (s[|s| - 1] as int - '0' as int)
  }

  function Digit(d: nat): (c: char)
    requires d < 10
    ensures IsDigit(c) && c as int - '0' as int == d
  {
    ('0' as int + d) as char
  }

  function Digits(n: nat): (s: string)
    ensures s != [] && AllDigits(s)
  {
    (if n < 10 then "" else Digits(n / 10)) + [Digit(n % 10)]
  }

  /** An optional plus sign, at least one digit, digits only, and a value that fits. */
  function Parse(s: string, max: nat): Option<nat> {
    var body := if s != [] && s[0] == '+' then s[1..] else s;
    if body != [] && AllDigits(body) && Value(body) <= max then Some(Value(body)) else None
  }

  lemma ValueAppend(s: string, c: char)
    requires AllDigits(s) && IsDigit(c)
    ensures AllDigits(s + [c]) && Value(s + [c]) == 10 * Value(s) + (c as int - '0' as int)
  {
    assert (s + [c])[..|s|] == s;
  }

  lemma {:induction false} DigitsValue(n: nat)
    ensures Value(Digits(n)) == n
  {
    var c := Digit(n % 10);
    if n < 10 {
      ValueAppend("", c);
    } else {
      DigitsValue(n / 10);
      ValueAppend(Digits(n / 10), c);
    }
  }

  /** One digit below ten, and no leading zero from ten on. */
  lemma {:induction false} NoLeadingZero(n: nat)
    ensures if n < 10 then |Digits(n)| == 1 else |Digits(n)| > 1 && Digits(n)[0] != '0'
  {
    if n >= 10 {
      NoLeadingZero(n / 10);
      if n < 100 {
        assert Digits(n / 10)[0] == Digit(n / 10 % 10);
      }
    }
  }

  /** Parsing undoes printing. */
  lemma ParseUndoesPrint(n: nat, max: nat)
    ensures Parse(Digits(n), max) == if n <= max then Some(n) else None
  {
    DigitsValue(n);
    assert IsDigit(Digits(n)[0]);
  }
}
