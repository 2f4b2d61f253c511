/**
 Decimal rendering of integers, as Python's `str(int)` and f-string
 interpolation produce it: an optional '-' followed by base-10 digits with no
 leading zeros. `Parse` reads such text back, so that a message that embeds a
 number can be shown to carry that number.
 */
module Decimal {
  import opened Wrappers

  predicate IsDigit(c: char) {
    '0' <= c <= '9'
  }

  predicate AllDigits(s: string) {
    forall i :: 0 <= i < |s| ==> IsDigit(s[i])
  }

  function DigitChar(d: nat): (c: char)
    requires d < 10
    ensures IsDigit(c)
  {
    (('0' as int) + d) as char
  }

  function DigitValue(c: char): (d: nat)
    requires IsDigit(c)
    ensures d < 10
  {
    (c as int) - ('0' as int)
  }

  /** The base-10 digits of a natural number, most significant first */
  function NatDigits(n: nat): (s: string)
    ensures |s| > 0 && AllDigits(s)
    ensures n < 10 <==> |s| == 1
    ensures s[0] == '0' <==> n == 0
    decreases n
  {
    if n < 10 then [DigitChar(n)] else NatDigits(n / 10) + [DigitChar(n % 10)]
  }

  /** The number a string of digits denotes */
  function FromDigits(s: string): nat
    requires AllDigits(s)
  {
    if |s| == 0 then 0 else FromDigits(s[..|s| - 1]) * 10 + DigitValue(s[|s| - 1])
  }

  /** `str(n)` for a Python int */
  function Show(n: int): (s: string)
    ensures |s| > 0
    ensures n < 0 <==> s[0] == '-'
    ensures n < 0 ==> AllDigits(s[1..])
    ensures n >= 0 ==> AllDigits(s)
  {
    if n < 0 then "-" + NatDigits(-n) else NatDigits(n)
  }

  /** Digits as `str` writes them: at least one, and no leading zero unless the numeral is "0" */
  predicate Canonical(digits: string) {
    |digits| > 0 && AllDigits(digits) && (|digits| > 1 ==> digits[0] != '0')
  }

  /**
   Reads a numeral in the form `str(int)` writes: canonical digits, optionally
   after a '-' that is never followed by "0". None for any other text.
   */
  function Parse(s: string): Option<int> {
    if |s| > 1 && s[0] == '-' && Canonical(s[1..]) && s[1..] != "0" then Some(-(FromDigits(s[1..]) as int))
    else if Canonical(s) then Some(FromDigits(s))
    else None
  }

  lemma {:induction false} FromNatDigits(n: nat)
    ensures FromDigits(NatDigits(n)) == n
    decreases n
  {
    if n >= 10 {
      var s := NatDigits(n);
      assert s[..|s| - 1] == NatDigits(n / 10);
      FromNatDigits(n / 10);
    }
  }

  /** Reading back what `Show` wrote gives the original number */
  lemma ParseShow(n: int)
    ensures Parse(Show(n)) == Some(n)
  {
    var s := Show(n);
    if n < 0 {
      var digits := NatDigits(-n);
      assert s[1..] == digits;
      FromNatDigits(-n);
    } else {
      assert IsDigit(s[0]);
      FromNatDigits(n);
    }
  }

  /** Canonical digits are exactly what `NatDigits` writes for the number they denote */
  lemma {:induction false} NatDigitsFrom(s: string)
    requires Canonical(s)
    ensures NatDigits(FromDigits(s)) == s
    decreases |s|
  {
    if |s| > 1 {
      var p := s[..|s| - 1];
      var d := DigitValue(s[|s| - 1]);
      assert Canonical(p) by { assert p[0] == s[0]; }
      NatDigitsFrom(p);
      var n := FromDigits(s);
      assert n == FromDigits(p) * 10 + d;
      assert FromDigits(p) != 0 by { assert NatDigits(FromDigits(p))[0] == s[0]; }
      assert n / 10 == FromDigits(p) && n % 10 == d;
      assert DigitChar(d) == s[|s| - 1];
      assert s == p + [s[|s| - 1]];
    } else {
      assert DigitChar(DigitValue(s[0])) == s[0];
    }
  }

  /** The only text that reads back as n is the text `Show` writes for n */
  lemma ShowParse(s: string, n: int)
    ensures Parse(s) == Some(n) <==> s == Show(n)
  {
    if s == Show(n) {
      ParseShow(n);
    }
    if Parse(s) == Some(n) {
      if |s| > 1 && s[0] == '-' && Canonical(s[1..]) && s[1..] != "0" {
        NatDigitsFrom(s[1..]);
        assert s == "-" + s[1..];
      } else {
        NatDigitsFrom(s);
      }
    }
  }
}
