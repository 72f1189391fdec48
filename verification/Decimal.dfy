/** The `%d` rendering of unsigned integers. Strings are sequences of bytes, one `char` per byte. */
module Decimal {

  predicate IsDigit(c: char) { '0' <= c <= '9' }

  ghost predicate AllDigits(s: string) { forall i :: 0 <= i < |s| ==> IsDigit(s[i]) }

  function Digit(d: int): (c: char)
    requires 0 <= d < 10
    ensures IsDigit(c) && c as int - '0' as int == d
  {
    '0' + d as char
  }

  function Render(n: nat): (s: string)
    ensures |s| > 0 && AllDigits(s)
  {
    if n < 10 then [Digit(n)] else Render(n / 10) + [Digit(n % 10)]
  }

  function Value(s: string): (n: nat)
    requires AllDigits(s)
  {
    if s == [] then 0
    else Value(s[..|s| - 1]) * 10 + (s[|s| - 1] as int - '0' as int)
  }

  lemma {:induction false} RenderRoundTrip(n: nat)
    ensures Value(Render(n)) == n
  {
    if n < 10 {
      assert Render(n) == [Digit(n)];
      assert Render(n)[..0] == [];
    } else {
      RenderRoundTrip(n / 10);
      assert Render(n)[..|Render(n)| - 1] == Render(n / 10);
    }
  }

  lemma RenderInjective(m: nat, n: nat)
    requires Render(m) == Render(n)
    ensures m == n
  {
    RenderRoundTrip(m);
    RenderRoundTrip(n);
  }

  function Pow10(k: nat): (p: nat) ensures p >= 1 { if k == 0 then 1 else 10 * Pow10(k - 1) }

  lemma {:induction false} RenderLength(n: nat, k: nat)
    requires k > 0 && n < Pow10(k)
    ensures |Render(n)| <= k
  {
    if n >= 10 {
      assert Pow10(1) == 10;
      assert n / 10 < Pow10(k - 1);
      RenderLength(n / 10, k - 1);
    }
  }
}
