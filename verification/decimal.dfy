/**
 * Decimal digit strings: JavaScript's `Number.prototype.toString()` on a
 * non-negative integer, and its inverse. JavaScript agrees with this plain
 * spelling below 10^21 (and is exact only up to 2^53); the values spelled
 * here are codes below 10^6 and minute counts.
 */
module Decimal {

  predicate IsDigit(c: char) {
    '0' <= c <= '9'
  }

  predicate AllDigits(s: string) {
    forall i :: 0 <= i < |s| ==> IsDigit(s[i])
  }

  function DigitValue(c: char): (d: nat)
    requires IsDigit(c)
    ensures d < 10
  {
    (c as int) - ('0' as int)
  }

  function DigitChar(d: nat): (c: char)
    requires d < 10
    ensures IsDigit(c) && DigitValue(c) == d
  {
    (('0' as int) + d) as char
  }

  function Pow10(k: nat): (p: nat)
    ensures p >= 1
  {
    if k == 0 then 1 else 10 * Pow10(k - 1)
  }

  lemma SixDigitBounds()
    ensures Pow10(5) == 100000 && Pow10(6) == 1000000
  {
    assert Pow10(1) == 10;
    assert Pow10(2) == 100;
    assert Pow10(3) == 1000;
    assert Pow10(4) == 10000;
  }

  /** The shortest decimal spelling of `n`, most significant digit first. */
  function NatToString(n: nat): (s: string)
    ensures |s| >= 1 && AllDigits(s)
    ensures n > 0 ==> s[0] != '0'
    decreases n
  {
    if n < 10 then [DigitChar(n)]
    else NatToString(n / 10) + [DigitChar(n % 10)]
  }

  /** The value of a string of decimal digits (leading zeros allowed). */
  function StringToNat(s: string): nat
    requires AllDigits(s)
    decreases |s|
  {
    if |s| == 0 then 0
    else 10 * StringToNat(s[..|s| - 1]) + DigitValue(s[|s| - 1])
  }

  /** Reading back what `NatToString` wrote gives the number again. */
  lemma {:induction false} ParseShow(n: nat)
    ensures StringToNat(NatToString(n)) == n
    decreases n
  {
    if n >= 10 {
      var s := NatToString(n);
      assert s[..|s| - 1] == NatToString(n / 10);
      ParseShow(n / 10);
    }
  }

  /** A number with exactly `k` significant digits is spelled with `k` characters. */
  lemma {:induction false} ShowLength(n: nat, k: nat)
    requires k >= 1 && Pow10(k - 1) <= n < Pow10(k)
    ensures |NatToString(n)| == k
    decreases k
  {
    if k > 1 {
      assert Pow10(k - 1) == 10 * Pow10(k - 2);
      assert n >= 10;
      assert Pow10(k - 2) <= n / 10 < Pow10(k - 1);
      ShowLength(n / 10, k - 1);
    } else {
      assert n < 10;
    }
  }

  /** A leading zero does not change the value of a digit string. */
  lemma {:induction false} LeadingZero(s: string)
    requires AllDigits(s)
    ensures AllDigits("0" + s) && StringToNat("0" + s) == StringToNat(s)
    decreases |s|
  {
    var t := "0" + s;
    if |s| > 0 {
      assert t[..|t| - 1] == "0" + s[..|s| - 1];
      LeadingZero(s[..|s| - 1]);
    }
  }

  /** A digit string of length `k` is worth less than ten to the `k`. */
  lemma {:induction false} ValueBelowPow(s: string)
    requires AllDigits(s)
    ensures StringToNat(s) < Pow10(|s|)
    decreases |s|
  {
    if |s| > 0 {
      ValueBelowPow(s[..|s| - 1]);
    }
  }

  /** A digit string without a leading zero is worth at least ten to the (length - 1). */
  lemma {:induction false} ValueAbovePow(s: string)
    requires AllDigits(s) && |s| >= 1 && s[0] != '0'
    ensures StringToNat(s) >= Pow10(|s| - 1)
    decreases |s|
  {
    if |s| > 1 {
      var p := s[..|s| - 1];
      assert p[0] == s[0];
      ValueAbovePow(p);
    } else {
      assert DigitValue(s[0]) >= 1;
    }
  }

  /**
   * Every canonical digit string (no leading zero, or the single digit "0")
   * is the spelling of its own value.
   */
  lemma {:induction false} ShowParse(s: string)
    requires AllDigits(s) && |s| >= 1 && (s[0] != '0' || |s| == 1)
    ensures NatToString(StringToNat(s)) == s
    decreases |s|
  {
    var n := StringToNat(s);
    if |s| == 1 {
      assert StringToNat(s[..0]) == 0;
      assert n == DigitValue(s[0]);
      assert NatToString(n) == [DigitChar(n)];
    } else {
      var p := s[..|s| - 1];
      assert p[0] == s[0];
      ValueAbovePow(p);
      assert StringToNat(p) >= 1;
      assert n >= 10;
      assert n / 10 == StringToNat(p) && n % 10 == DigitValue(s[|s| - 1]);
      ShowParse(p);
      assert s == p + [s[|s| - 1]];
    }
  }
}
