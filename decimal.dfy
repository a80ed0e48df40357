/** The decimal formatter `itos` used to render row numbers in error messages. */
module Decimal {

  predicate IsDigit(c: char) {
    '0' <= c <= '9'
  }

  /** The character of a single decimal digit. */
  function DigitChar(d: nat): (c: char)
    requires d < 10
    ensures IsDigit(c) && c as int - '0' as int == d
  {
    ('0' as int + d) as char
  }

  /** The canonical decimal spelling of `n`: digits only, most significant first. */
  function DecimalString(n: nat): (r: string)
    ensures |r| >= 1
    ensures forall i :: 0 <= i < |r| ==> IsDigit(r[i])
    ensures r[0] == '0' <==> n == 0
    ensures n == 0 ==> r == "0"
    decreases n
  {
    if n < 10 then [DigitChar(n)] else DecimalString(n / 10) + [DigitChar(n % 10)]
  }

  /** The number a string of decimal digits denotes. */
  function DecimalValue(s: string): nat
    requires forall i :: 0 <= i < |s| ==> IsDigit(s[i])
  {
    if s == [] then 0
    else
      assert IsDigit(s[|s| - 1]);
      10 * DecimalValue(s[..|s| - 1]) + (s[|s| - 1] as int - '0' as int)
  }

  /** A digit string as `itos` can produce it: non-empty, and no leading zero unless it is `"0"`. */
  predicate IsCanonicalDecimal(s: string) {
    |s| >= 1 &&
    (forall i :: 0 <= i < |s| ==> IsDigit(s[i])) &&
    (s[0] == '0' ==> s == "0")
  }

  /** Reading back what `DecimalString` wrote gives the number again. */
  lemma {:induction false} DecimalValueOfString(n: nat)
    ensures DecimalValue(DecimalString(n)) == n
    decreases n
  {
    var r := DecimalString(n);
    if n >= 10 {
      DecimalValueOfString(n / 10);
      assert r[..|r| - 1] == DecimalString(n / 10);
    }
  }

  /** Every canonical digit string is the spelling of its own value, so `DecimalString` is onto them. */
  lemma {:induction false} StringOfDecimalValue(s: string)
    requires IsCanonicalDecimal(s)
    ensures DecimalString(DecimalValue(s)) == s
    decreases |s|
  {
    if |s| > 1 {
      var p := s[..|s| - 1];
      assert IsCanonicalDecimal(p);
      StringOfDecimalValue(p);
      DecimalValuePositive(p);
      var v := DecimalValue(s);
      assert v / 10 == DecimalValue(p) && v % 10 == s[|s| - 1] as int - '0' as int;
    }
  }

  lemma {:induction false} DecimalValuePositive(s: string)
    requires |s| >= 1 && forall i :: 0 <= i < |s| ==> IsDigit(s[i])
    requires s[0] != '0'
    ensures DecimalValue(s) >= 1
    decreases |s|
  {
    if |s| > 1 {
      DecimalValuePositive(s[..|s| - 1]);
    }
  }

  /** `itos`: builds the digits from the least significant end, inserting each in front. */
  method Itos(number: nat) returns (result: string)
    ensures result == DecimalString(number)
    ensures IsCanonicalDecimal(result)
  {
    result := "";
    if number == 0 {
      result := result + ['0'];
    }
    var n := number;
    while n != 0
      invariant n == 0 ==> result == DecimalString(number)
      invariant n != 0 ==> DecimalString(n) + result == DecimalString(number)
      decreases n
    {
      result := [DigitChar(n % 10)] + result;
      n := n / 10;
    }
  }
}
