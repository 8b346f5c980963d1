/**
 * JavaScript's conversions between integers and their decimal text:
 * `String(n)` for an integer, and `Number(s)` restricted to strings that are
 * an optionally signed run of decimal digits surrounded by white space.
 */
module JsNumber {
  import opened Wrappers
  import opened JsText

  predicate IsDigit(c: char) {
    '0' <= c <= '9'
  }

  function DigitValue(c: char): (d: nat)
    requires IsDigit(c)
    ensures d < 10
  {
    (c as int) - ('0' as int)
  }

  function DigitChar(d: nat): (c: char)
    requires d < 10
    ensures IsDigit(c) && DigitValue(c) == d
  {
    (('0' as int) + d) as char
  }

  predicate AllDigits(s: string) {
    forall i :: 0 <= i < |s| ==> IsDigit(s[i])
  }

  /** The value of a run of decimal digits, most significant first. */
  function DigitsValue(s: string): nat
    requires AllDigits(s)
    decreases |s|
  {
    if s == [] then 0 else DigitsValue(s[..|s| - 1]) * 10 + DigitValue(s[|s| - 1])
  }

  /** The decimal text of a natural number, without leading zeros. */
  function NatToString(n: nat): (s: string)
    ensures s != [] && AllDigits(s)
    decreases n
  {
    if n < 10 then [DigitChar(n)] else NatToString(n / 10) + [DigitChar(n % 10)]
  }

  /** `String(i)` for an integer `i`. */
  function IntToString(i: int): (s: string)
    ensures s != []
  {
    if i < 0 then "-" + NatToString(-i) else NatToString(i)
  }

  /**
   * `Number(s)`: the integer a decimal string denotes, `Some(0)` for a string
   * that is empty or all white space, and `None` (JavaScript's NaN) otherwise.
   */
  function NumberOf(s: string): Option<int> {
    var t := Trim(s);
    if t == [] then Some(0)
    else if t[0] == '-' || t[0] == '+' then
      if |t| > 1 && AllDigits(t[1..]) then
        var magnitude: int := DigitsValue(t[1..]);
        Some(if t[0] == '-' then -magnitude else magnitude)
      else None
    else if AllDigits(t) then Some(DigitsValue(t))
    else None
  }

  /** Reading back the decimal text of a natural number gives that number. */
  lemma {:induction false} NatToStringValue(n: nat)
    ensures DigitsValue(NatToString(n)) == n
    decreases n
  {
    if n >= 10 {
      NatToStringValue(n / 10);
      var s := NatToString(n);
      assert s[..|s| - 1] == NatToString(n / 10);
    }
  }

  /** A digit is not white space. */
  lemma DigitNotWhiteSpace(c: char)
    requires IsDigit(c)
    ensures !IsWhiteSpace(c)
  {
  }

  /** `Number(String(i)) === i` for every integer `i`. */
  lemma NumberOfIntToString(i: int)
    ensures NumberOf(IntToString(i)) == Some(i)
  {
    var s := IntToString(i);
    var m: nat := if i < 0 then -i else i;
    var digits := NatToString(m);
    NatToStringValue(m);
    DigitNotWhiteSpace(digits[|digits| - 1]);
    if i < 0 {
      assert s == "-" + digits && s[1..] == digits;
      assert s[|s| - 1] == digits[|digits| - 1];
    } else {
      assert s == digits;
      DigitNotWhiteSpace(digits[0]);
    }
    TrimKeepsTrimmed(s);
  }
}
