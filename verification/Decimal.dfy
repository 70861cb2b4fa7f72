/** Decimal numerals as `format!` writes them and `str::parse` reads them. */
module Decimal {
  import opened Text

  function Digit(d: nat): char
    requires d < 10
  {
    "0123456789"[d]
  }

  predicate IsDigit(c: char) { '0' <= c <= '9' }

  function DigitValue(c: char): nat
    requires IsDigit(c)
  {
    c as int - '0' as int
  }

  predicate AllDigits(s: string) {
    forall i :: 0 <= i < |s| ==> IsDigit(s[i])
  }

  /** `{n}` */
  function Dec(n: nat): (s: string)
    ensures s != "" && AllDigits(s)
    ensures |s| > 1 ==> s[0] != '0'
  {
    if n < 10 then [Digit(n)] else Dec(n / 10) + [Digit(n % 10)]
  }

  function Value(s: string): nat
    requires AllDigits(s)
  {
    if s == "" then 0 else 10 * Value(s[..|s| - 1]) + DigitValue(s[|s| - 1])
  }

  /** `s.parse` for an unsigned type holding the numbers below `limit`. */
  function ParseUnsigned(s: string, limit: nat): Option<nat> {
    var d := if |s| > 1 && s[0] == '+' then s[1..] else s;
    if d == "" || !AllDigits(d) || Value(d) >= limit then None else Some(Value(d))
  }

  lemma {:induction false} ValueOfDec(n: nat)
    ensures Value(Dec(n)) == n
  {
    if n >= 10 {
      ValueOfDec(n / 10);
      assert Dec(n)[..|Dec(n)| - 1] == Dec(n / 10);
    } else {
      assert Dec(n)[..0] == "";
    }
  }

  lemma ParseOfDec(n: nat, limit: nat)
    requires n < limit
    ensures ParseUnsigned(Dec(n), limit) == Some(n)
  {
    ValueOfDec(n);
    assert IsDigit(Dec(n)[0]);
  }

  /** A numeral without leading zeros is the one its value prints as. */
  lemma {:induction false} DecOfValue(s: string)
    requires s != "" && AllDigits(s) && (|s| > 1 ==> s[0] != '0')
    ensures Dec(Value(s)) == s
  {
    var last := DigitValue(s[|s| - 1]);
    if |s| == 1 {
      assert s[..0] == "" && Value(s) == last;
    } else {
      var t := s[..|s| - 1];
      DecOfValue(t);
      ValuePositive(t);
      assert Value(s) / 10 == Value(t) && Value(s) % 10 == last;
      assert s == t + [s[|s| - 1]];
    }
  }

  lemma {:induction false} ValuePositive(s: string)
    requires s != "" && AllDigits(s) && s[0] != '0'
    ensures Value(s) > 0
  {
    if |s| > 1 { ValuePositive(s[..|s| - 1]); }
  }

  function Pow10(k: nat): nat {
    if k == 0 then 1 else 10 * Pow10(k - 1)
  }

  /** A numeral has at most `k` digits exactly when its value is below ten to the `k`. */
  lemma {:induction false} DecLength(n: nat, k: nat)
    requires k > 0
    ensures |Dec(n)| <= k <==> n < Pow10(k)
  {
    if n >= 10 {
      if k == 1 {
        assert Pow10(1) == 10 * Pow10(0);
      } else {
        DecLength(n / 10, k - 1);
      }
    } else {
      Pow10Positive(k - 1);
    }
  }

  lemma {:induction false} Pow10Positive(k: nat)
    ensures Pow10(k) > 0
  {
    if k > 0 { Pow10Positive(k - 1); }
  }
}
