/**
 Quotients and remainders.
 */
module Arithmetic {

  lemma MultipleGrows(d: nat, e: int)
    ensures e >= 1 ==> d * e >= d
    ensures e <= -1 ==> d * e + d <= 0
  {
    assert d * e == d * (e - 1) + d && d * e == d * (e + 1) - d;
  }

  // There is one quotient and one remainder.
  lemma ModuloUnique(n: nat, d: nat, q: nat, r: nat)
    requires n == d * q + r && r < d
    ensures n % d == r && n / d == q
  {
    var e: int := q - n / d;
    assert n == d * (n / d) + n % d;
    assert d * e == d * q - d * (n / d);
    MultipleGrows(d, e);
  }

  lemma ModuloAdds(a: nat, n: nat, p: nat)
    requires p > 0
    ensures (a % p + n) % p == (a + n) % p
  {
    var q, r := a / p, a % p;
    var s, t := (r + n) / p, (r + n) % p;
    assert a + n == p * (q + s) + t;
    ModuloUnique(a + n, p, q + s, t);
  }

  // Going round: from the last of `p` places to the first.
  lemma NextTurn(n: nat, p: nat)
    requires p > 0
    ensures (n + 1) % p == if n % p + 1 == p then 0 else n % p + 1
  {
    var q, r := n / p, n % p;
    assert n == p * q + r;
    if r + 1 == p {
      assert n + 1 == p * (q + 1);
      ModuloUnique(n + 1, p, q + 1, 0);
    } else {
      ModuloUnique(n + 1, p, q, r + 1);
    }
  }
}
