/** The calendar's dictionary keys of Frontend/TaskCalender/src/components/BottomCenter.jsx:
    `${year}-${month}-${day}` with a 0-based month and no padding, built with JavaScript's
    decimal number-to-string conversion. */
module DateKeys {

  predicate IsDigit(c: char) { '0' <= c <= '9' }

  predicate AllDigits(s: string) { forall k :: 0 <= k < |s| ==> IsDigit(s[k]) }

  function DigitChar(d: nat): (c: char)
    requires d < 10
    ensures IsDigit(c) && c as int - '0' as int == d
  {
    ('0' as int + d) as char
  }

  /** The decimal text of a natural number, without leading zeros. */
  function NatText(n: nat): (s: string)
    ensures |s| > 0 && AllDigits(s)
    ensures |s| > 1 ==> s[0] != '0'
  {
    if n < 10 then [DigitChar(n)] else NatText(n / 10) + [DigitChar(n % 10)]
  }

  /** The number a string of digits denotes. */
  function DigitsValue(s: string): nat
    requires AllDigits(s)
  {
    if s == [] then 0 else DigitsValue(s[..|s| - 1]) * 10 + (s[|s| - 1] as int - '0' as int)
  }

  /** Reading the decimal text back gives the number. */
  lemma {:induction false} NatTextValue(n: nat)
    ensures DigitsValue(NatText(n)) == n
  {
    if n >= 10 {
      NatTextValue(n / 10);
      var s := NatText(n);
      assert s[..|s| - 1] == NatText(n / 10);
    }
  }

  /** Distinct numbers have distinct decimal texts. */
  lemma NatTextInjective(m: nat, n: nat)
    ensures NatText(m) == NatText(n) <==> m == n
  {
    NatTextValue(m);
    NatTextValue(n);
  }

  /** The decimal text of an integer: a '-' before the text of its magnitude when negative. */
  function IntText(i: int): (s: string)
    ensures |s| > 0 && (s[0] == '-' <==> i < 0)
    ensures '-' !in s[1..]
  {
    if i < 0 then "-" + NatText(-i) else NatText(i)
  }

  lemma IntTextInjective(i: int, j: int)
    ensures IntText(i) == IntText(j) <==> i == j
  {
    if IntText(i) == IntText(j) {
      if i < 0 {
        assert IntText(i)[1..] == NatText(-i) && IntText(j)[1..] == NatText(-j);
        NatTextInjective(-i, -j);
      } else {
        NatTextInjective(i, j);
      }
    }
  }

  /** `${year}-${month}-${day}`. */
  function DateKey(year: int, month: nat, day: nat): string {
    IntText(year) + "-" + NatText(month) + "-" + NatText(day)
  }

  /** Two strings joined by '-' split back uniquely when the right parts have no '-'. */
  lemma SplitAtLastDash(a: string, b: string, c: string, d: string)
    requires '-' !in b && '-' !in d
    requires a + "-" + b == c + "-" + d
    ensures a == c && b == d
  {
    var s := a + "-" + b;
    LastDash(a, b);
    LastDash(c, d);
    assert |a| == |c|;
    assert a == s[..|a|] && c == s[..|c|];
    assert b == s[|a| + 1..] && d == s[|c| + 1..];
  }

  /** In `a + "-" + b` with no '-' in `b`, the separator is the last '-'. */
  lemma LastDash(a: string, b: string)
    requires '-' !in b
    ensures var s := a + "-" + b; s[|a|] == '-' && forall k :: |a| < k < |s| ==> s[k] != '-'
  {
    var s := a + "-" + b;
    forall k | |a| < k < |s| ensures s[k] != '-' {
      assert s[k] == b[k - |a| - 1];
    }
  }

  /** Keys are equal exactly when the dates are: the unpadded key cannot confuse, say,
      month 1 day 11 with month 11 day 1, because the separators stay in place. */
  lemma DateKeyInjective(y1: int, m1: nat, d1: nat, y2: int, m2: nat, d2: nat)
    ensures DateKey(y1, m1, d1) == DateKey(y2, m2, d2) <==> y1 == y2 && m1 == m2 && d1 == d2
  {
    if DateKey(y1, m1, d1) == DateKey(y2, m2, d2) {
      NoDash(NatText(d1));
      NoDash(NatText(d2));
      NoDash(NatText(m1));
      NoDash(NatText(m2));
      SplitAtLastDash(IntText(y1) + "-" + NatText(m1), NatText(d1), IntText(y2) + "-" + NatText(m2), NatText(d2));
      SplitAtLastDash(IntText(y1), NatText(m1), IntText(y2), NatText(m2));
      NatTextInjective(d1, d2);
      NatTextInjective(m1, m2);
      IntTextInjective(y1, y2);
    }
  }

  lemma NoDash(s: string)
    requires AllDigits(s)
    ensures '-' !in s
  {
  }
}
