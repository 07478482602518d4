/**
 The expression formatter. `_fmt_num` renders a float with Python's
 `format(x, ".12g")`; that float-to-decimal conversion belongs to the
 runtime library, so the model takes it as a parameter `fmt` and assumes of
 it only that its output is a numeral: digits, `.`, `-`, `+` and the exponent
 letter `e`. The pin count is rendered differently, with `str(int(N))`,
 which is defined here in full together with its inverse.
 */
module Formatter {

  const NumeralChars: string := "0123456789.-+e"

  /** Every character of `s` can occur in a `.12g` rendering of a finite float. */
  predicate IsNumeral(s: string) {
    forall i :: 0 <= i < |s| ==> s[i] in NumeralChars
  }

  /** The one property the model assumes of `_fmt_num`. */
  ghost predicate IsNumeralFormatter(fmt: real -> string) {
    forall x :: IsNumeral(fmt(x))
  }

  predicate IsDigit(c: char) {
    '0' <= c <= '9'
  }

  function DigitChar(d: int): (c: char)
    requires 0 <= d < 10
    ensures IsDigit(c) && c as int - '0' as int == d
  {
    ('0' as int + d) as char
  }

  /** Decimal digits of a natural number, without leading zeros. */
  function NatToString(n: nat): (s: string)
    ensures |s| > 0 && (forall i :: 0 <= i < |s| ==> IsDigit(s[i]))
    ensures s[0] == '0' <==> n == 0
    decreases n
  {
    if n < 10 then [DigitChar(n)] else NatToString(n / 10) + [DigitChar(n % 10)]
  }

  /** Python's `str(n)` for an int: an optional minus sign, then the digits. */
  function IntToString(n: int): (s: string)
    ensures IsNumeral(s)
    ensures |s| > 0 && (s[0] == '-' <==> n < 0)
  {
    if n < 0 then "-" + NatToString(-n) else NatToString(n)
  }

  /** Reads back a string of decimal digits. */
  function ParseNat(s: string): nat
    requires forall i :: 0 <= i < |s| ==> IsDigit(s[i])
  {
    if s == [] then 0
    else
      var d := s[|s| - 1] as int - '0' as int;
      assert IsDigit(s[|s| - 1]);
      ParseNat(s[..|s| - 1]) * 10 + d
  }

  /** Reads back what `IntToString` writes. */
  function ParseInt(s: string): int
    requires |s| > 0
    requires forall i :: 0 <= i < |s| ==> IsDigit(s[i]) || (i == 0 && s[i] == '-')
  {
    if s[0] == '-' then
      assert forall i :: 0 <= i < |s[1..]| ==> s[1..][i] == s[i + 1];
      -(ParseNat(s[1..]) as int)
    else ParseNat(s)
  }

  lemma {:induction false} ParseNatToString(n: nat)
    ensures ParseNat(NatToString(n)) == n
    decreases n
  {
    if n >= 10 {
      var s := NatToString(n);
      assert s[..|s| - 1] == NatToString(n / 10);
      ParseNatToString(n / 10);
    }
  }

  /** `str(int(N))` is the exact decimal form of N: reading it back gives N. */
  lemma IntToStringRoundTrip(n: int)
    ensures ParseInt(IntToString(n)) == n
  {
    if n < 0 {
      assert IntToString(n)[1..] == NatToString(-n);
      ParseNatToString(-n);
    } else {
      ParseNatToString(n);
    }
  }
}
