/** Decimal rendering of a Kotlin `Long`, as string templates (`"${n}"`) produce it. */
module Decimal {

  predicate IsDigit(c: char) {
    '0' <= c <= '9'
  }

  function DigitChar(d: int): (c: char)
    requires 0 <= d < 10
    ensures IsDigit(c)
  {
    (('0' as int) + d) as char
  }

  function DigitValue(c: char): int {
    c as int - '0' as int
  }

  /** Digits of `n`, most significant first, without leading zeros. */
  function NatToString(n: nat): (s: string)
    ensures |s| >= 1
    ensures forall i :: 0 <= i < |s| ==> IsDigit(s[i])
    ensures |s| > 1 ==> s[0] != '0'
    decreases n
  {
    if n < 10 then [DigitChar(n)] else NatToString(n / 10) + [DigitChar(n % 10)]
  }

  /** `Long.toString()`: a minus sign before the digits of a negative number. */
  function LongToString(n: int): (s: string)
    ensures |s| >= 1
    ensures s[0] == '-' <==> n < 0
    // after the optional sign come the digits of |n|
    ensures n >= 0 ==> (forall i :: 0 <= i < |s| ==> IsDigit(s[i])) && ParseDigits(s) == n
    ensures n < 0 ==> (forall i :: 1 <= i < |s| ==> IsDigit(s[i])) && ParseDigits(s[1..]) == -n
    // no padding: the digits never start with a superfluous zero
    ensures n >= 0 ==> |s| == 1 || s[0] != '0'
    ensures n < 0 ==> |s| >= 2 && (|s| == 2 || s[1] != '0')
  {
    if n < 0 then
      ParseNatToString(-n);
      "-" + NatToString(-n)
    else
      ParseNatToString(n);
      NatToString(n)
  }

  /** Reads a string of digits back as a number. */
  function ParseDigits(s: string): int
    requires forall i :: 0 <= i < |s| ==> IsDigit(s[i])
  {
    if s == [] then 0 else ParseDigits(s[..|s| - 1]) * 10 + DigitValue(s[|s| - 1])
  }

  /** Parsing undoes rendering. */
  lemma {:induction false} ParseNatToString(n: nat)
    ensures ParseDigits(NatToString(n)) == n
    decreases n
  {
    if n >= 10 {
      var s := NatToString(n / 10);
      var t := NatToString(n);
      assert t == s + [DigitChar(n % 10)];
      assert t[..|t| - 1] == s;
      ParseNatToString(n / 10);
    }
  }

  /** Distinct numbers render to distinct strings. */
  lemma NatToStringInjective(a: nat, b: nat)
    requires NatToString(a) == NatToString(b)
    ensures a == b
  {
    ParseNatToString(a);
    ParseNatToString(b);
  }

  lemma LongToStringInjective(a: int, b: int)
    requires LongToString(a) == LongToString(b)
    ensures a == b
  {
    var s := LongToString(a);
    if a < 0 {
      assert b < 0;
      assert s[1..] == NatToString(-a) == NatToString(-b);
      NatToStringInjective(-a, -b);
    } else {
      assert b >= 0;
      NatToStringInjective(a, b);
    }
  }
}
