/** Decimal numerals. */
module Decimal {

  function Digit(d: nat): char
    requires d < 10
  {
    '0' + d as char
  }

  predicate IsDigit(c: char) {
    '0' <= c <= '9'
  }

  predicate AllDigits(s: string) {
    forall i :: 0 <= i < |s| ==> IsDigit(s[i])
  }

  function Digits(n: nat): (s: string)
    ensures |s| > 0 && AllDigits(s)
  {
    if n < 10 then [Digit(n)] else Digits(n / 10) + [Digit(n % 10)]
  }

  function ParseNat(s: string): nat
    requires AllDigits(s)
  {
    if |s| == 0 then 0
    else ParseNat(s[..|s| - 1]) * 10 + (s[|s| - 1] as nat - '0' as nat)
  }

  lemma {:induction false} ParseDigits(n: nat)
    ensures ParseNat(Digits(n)) == n
  {
    if n >= 10 {
      ParseDigits(n / 10);
      var s := Digits(n / 10) + [Digit(n % 10)];
      assert s[..|s| - 1] == Digits(n / 10);
    } else {
      assert [Digit(n)][..0] == "";
    }
  }

  function IntText(i: int): (s: string)
    ensures |s| > 0
  {
    if i < 0 then "-" + Digits(-i) else Digits(i)
  }

  /** Two numerals, each up to a character that is no digit, agree when what follows does. */
  lemma NumeralEnds(a: nat, b: nat, c: char, x: string, y: string)
    requires !IsDigit(c) && Digits(a) + ([c] + x) == Digits(b) + ([c] + y)
    ensures a == b && x == y
  {
    var u, v := Digits(a), Digits(b);
    var s, t := u + ([c] + x), v + ([c] + y);
    assert |u| == |v| by {
      assert s[|u|] == c && t[|v|] == c;
    }
    assert u == s[..|u|] && v == t[..|v|];
    assert x == s[|u| + 1..] && y == t[|v| + 1..];
    ParseDigits(a);
    ParseDigits(b);
  }
}
