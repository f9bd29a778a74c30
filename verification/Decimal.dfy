/** Decimal digits, as printf writes them and strtol reads them. */
module Decimal {
  function Digit(d: nat): char
    requires d < 10
  {
    ('0' as nat + d) as char
  }

  predicate IsDecimal(c: char) {
    '0' <= c <= '9'
  }

  function DigitValue(c: char): nat
    requires IsDecimal(c)
  {
    c as nat - '0' as nat
  }

  predicate AllDecimal(s: string) {
    forall i :: 0 <= i < |s| ==> IsDecimal(s[i])
  }

  function Dec(n: nat): (r: string)
    ensures r != "" && AllDecimal(r)
    ensures r[0] == '0' ==> n == 0 && |r| == 1
  {
    if n < 10 then [Digit(n)] else Dec(n / 10) + [Digit(n % 10)]
  }

  function Undec(s: string): nat
    requires AllDecimal(s)
  {
    if s == "" then 0 else 10 * Undec(s[..|s| - 1]) + DigitValue(s[|s| - 1])
  }

  lemma {:induction false} DecRoundTrip(n: nat)
    ensures Undec(Dec(n)) == n
  {
    if n < 10 {
      assert Dec(n)[..0] == "";
    } else {
      DecRoundTrip(n / 10);
      assert Dec(n)[..|Dec(n)| - 1] == Dec(n / 10);
    }
  }

  function Pow10(k: nat): nat {
    if k == 0 then 1 else 10 * Pow10(k - 1)
  }

  lemma {:induction false} DecLength(n: nat, k: nat)
    requires n < Pow10(k) && k > 0
    ensures |Dec(n)| <= k
  {
    if n >= 10 {
      assert k > 1;
      assert n / 10 < Pow10(k - 1);
      DecLength(n / 10, k - 1);
    }
  }
}
