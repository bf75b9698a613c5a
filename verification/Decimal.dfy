/** Decimal rendering of naturals, as fmt's %d writes them, and its inverse. */
module Decimal {

  function Digit(d: nat): char
    requires d < 10
  {
    ('0' as int + d) as char
  }

  predicate IsDigit(c: char) {
    '0' <= c <= '9'
  }

  predicate AllDigits(s: string) {
    forall i :: 0 <= i < |s| ==> IsDigit(s[i])
  }

  function Render(n: nat): (s: string)
    ensures |s| > 0 && AllDigits(s)
  {
    if n < 10 then [Digit(n)] else Render(n / 10) + [Digit(n % 10)]
  }

  function Value(s: string): nat
    requires AllDigits(s)
  {
    if s == [] then 0 else 10 * Value(s[..|s| - 1]) + (s[|s| - 1] as int - '0' as int)
  }

  /** The form %d writes: at least one digit and no superfluous leading zero. */
  predicate Canonical(s: string) {
    |s| > 0 && AllDigits(s) && (s[0] == '0' ==> |s| == 1)
  }

  lemma {:induction false} RenderCanonical(n: nat)
    ensures Canonical(Render(n)) && Value(Render(n)) == n
    ensures n > 0 ==> Render(n)[0] != '0'
  {
    if n < 10 {
      assert Render(n)[..0] == [];
    } else {
      RenderCanonical(n / 10);
      assert Render(n)[..|Render(n)| - 1] == Render(n / 10);
    }
  }

  lemma {:induction false} ValueOfCanonical(s: string)
    requires Canonical(s)
    ensures Render(Value(s)) == s
    ensures s[0] != '0' ==> Value(s) > 0
  {
    var d := s[|s| - 1] as int - '0' as int;
    assert s == s[..|s| - 1] + [Digit(d)];
    if |s| == 1 {
      assert Value(s) == d;
    } else {
      ValueOfCanonical(s[..|s| - 1]);
    }
  }

  lemma RenderInjective(m: nat, n: nat)
    requires Render(m) == Render(n)
    ensures m == n
  {
    RenderCanonical(m);
    RenderCanonical(n);
  }

  /** The digits, and how a number of several digits is made up. */
  lemma RenderSpelledOut(n: nat, d: nat)
    requires d < 10
    ensures Render(d) == ["0123456789"[d]]
    ensures n > 0 ==> Render(10 * n + d) == Render(n) + ["0123456789"[d]]
  {
    assert Digit(d) == "0123456789"[d];
    assert (10 * n + d) / 10 == n && (10 * n + d) % 10 == d;
  }
}
