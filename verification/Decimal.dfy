// Decimal rendering and reading of integers (strconv, math/big).
module Decimal {
  predicate IsDigit(c: char) { '0' <= c <= '9' }

  predicate AllDigits(s: string) { forall i :: 0 <= i < |s| ==> IsDigit(s[i]) }

  /** The length of the leading run of digits. */
  function DigitRun(s: string): (n: nat)
    ensures n <= |s|
  {
    if s == "" || !IsDigit(s[0]) then 0 else 1 + DigitRun(s[1..])
  }

  function DigitValue(c: char): int { c as int - '0' as int }

  /** The value of a run of digits. */
  function DigitsValue(s: string): int
  {
    if s == "" then 0 else DigitsValue(s[..|s| - 1]) * 10 + DigitValue(s[|s| - 1])
  }

  function DigitChar(d: nat): (c: char)
    requires d < 10
    ensures IsDigit(c) && DigitValue(c) == d
  {
    ('0' as int + d) as char
  }

  function Render(n: nat): (s: string)
    ensures s != "" && AllDigits(s)
  {
    if n < 10 then [DigitChar(n)] else Render(n / 10) + [DigitChar(n % 10)]
  }

  /** strconv.FormatInt in base 10. */
  function RenderInt(n: int): string
  {
    if n < 0 then "-" + Render(-n) else Render(n)
  }

  lemma {:induction false} DigitRunOf(s: string, rest: string)
    requires AllDigits(s)
    requires rest == "" || !IsDigit(rest[0])
    ensures DigitRun(s + rest) == |s|
  {
    if s == "" {
      assert s + rest == rest;
    } else {
      assert (s + rest)[1..] == s[1..] + rest;
      DigitRunOf(s[1..], rest);
    }
  }

  /** Reading a rendered number gives the number back. */
  lemma {:induction false} ReadRendered(n: nat)
    ensures DigitsValue(Render(n)) == n
  {
    if n >= 10 {
      ReadRendered(n / 10);
      assert Render(n)[..|Render(n)| - 1] == Render(n / 10);
    } else {
      assert Render(n)[..0] == "";
    }
  }

  lemma RenderInjective(m: int, n: int)
    requires RenderInt(m) == RenderInt(n)
    ensures m == n
  {
    assert m >= 0 ==> IsDigit(RenderInt(m)[0]);
    assert n >= 0 ==> IsDigit(RenderInt(n)[0]);
    if m < 0 && n < 0 {
      assert Render(-m) == RenderInt(m)[1..] == RenderInt(n)[1..] == Render(-n);
      ReadRendered(-m);
      ReadRendered(-n);
    } else if m >= 0 && n >= 0 {
      ReadRendered(m);
      ReadRendered(n);
    }
  }
}
