/** Division by products, as digit by digit reading needs it. */
module Digits {
  lemma SmallMultiple(d: nat, x: int)
    requires 0 - d < d * x < d
    ensures x == 0
  {
    assert x >= 1 ==> d * x >= d;
    assert x <= -1 ==> d * x <= 0 - d;
  }

  lemma DivUnique(n: nat, d: nat, q: nat, r: nat)
    requires r < d && n == d * q + r
    ensures n / d == q && n % d == r
  {
    assert n == d * (n / d) + n % d;
    assert d * (q - n / d) == d * q - d * (n / d);
    SmallMultiple(d, q - n / d);
  }

  lemma DivTwice(n: nat, base: nat, p: nat)
    requires base > 0 && p > 0
    ensures base * p > 0 && n / (base * p) == n / base / p
  {
    var q := n / base;
    var a, b := q / p, q % p;
    assert n == base * q + n % base;
    assert q == p * a + b;
    Product(base, p, a, b);
    Below(base, p, b, n % base);
    DivUnique(n, base * p, a, base * b + n % base);
  }

  lemma Product(base: nat, p: nat, a: nat, b: nat)
    ensures base * (p * a + b) == base * p * a + base * b
  {
  }

  lemma Below(base: nat, p: nat, b: nat, r: nat)
    requires b < p && r < base
    ensures base * b + r < base * p
  {
    assert base * (b + 1) <= base * p;
  }
}
