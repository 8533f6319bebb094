/**
 * Decimal rendering of unsigned integers, as Rust's `format!("{}", n)` writes
 * them, and a reader that recovers the number from its digits.
 */
module Decimal {

  type Byte = x: int | 0 <= x < 256

  predicate IsDigit(c: char) { '0' <= c <= '9' }

  predicate IsDigits(s: string) { forall i :: 0 <= i < |s| ==> IsDigit(s[i]) }

  function DigitChar(d: nat): (c: char)
    requires d < 10
    ensures IsDigit(c) && c as int - '0' as int == d
  {
    ('0' as int + d) as char
  }

  /** The shortest decimal form of `n`: never empty, no leading zero except for 0 itself. */
  function Digits(n: nat): (s: string)
    ensures 1 <= |s| && IsDigits(s)
    ensures (s[0] == '0') == (n == 0)
  {
    if n < 10 then [DigitChar(n)] else Digits(n / 10) + [DigitChar(n % 10)]
  }

  /** The number a string of decimal digits denotes. */
  function Value(s: string): nat
    requires IsDigits(s)
  {
    if s == [] then 0 else 10 * Value(s[..|s| - 1]) + (s[|s| - 1] as int - '0' as int)
  }

  lemma {:induction false} ValueOfDigits(n: nat)
    ensures Value(Digits(n)) == n
  {
    if n >= 10 {
      var s := Digits(n);
      assert s[..|s| - 1] == Digits(n / 10);
      ValueOfDigits(n / 10);
    }
  }

  /** The ASCII bytes of a digit string. */
  function DigitBytes(n: nat): (b: seq<Byte>)
    ensures |b| == |Digits(n)|
    ensures forall i :: 0 <= i < |b| ==> b[i] == Digits(n)[i] as int && 0x30 <= b[i] <= 0x39
  {
    var s := Digits(n);
    seq(|s|, i requires 0 <= i < |s| => s[i] as int)
  }
}
