/** Division by a frame size: what it takes for samples to make whole frames. */
module Division {
  lemma MultiplesApart(a: nat, b: nat, d: nat)
    ensures a < b ==> a * d + d <= b * d
  {
    if a < b {
      assert (a + 1) * d <= b * d;
    }
  }

  lemma QuotientOfRemainder(n: nat, d: nat, q: nat, r: nat)
    requires r < d && n == q * d + r
    ensures n / d == q && n % d == r
  {
    var q' := n / d;
    MultiplesApart(q', q, d);
    MultiplesApart(q, q', d);
  }

  lemma Multiple(d: nat, q: nat)
    requires d > 0
    ensures q * d / d == q && q * d % d == 0
  {
    QuotientOfRemainder(q * d, d, q, 0);
  }

  lemma WholeFrames(n: nat, d: nat)
    requires d > 0
    ensures n / d * d <= n && (n / d * d == n <==> n % d == 0)
  {
    assert n == n / d * d + n % d;
  }

  lemma WholeQuotientIff(n: nat, d: nat, q: nat)
    requires d > 0
    ensures n % d == 0 && n / d == q <==> n == q * d
  {
    if n == q * d {
      Multiple(d, q);
    } else {
      WholeFrames(n, d);
    }
  }

  lemma RemainderIff(n: nat, d: nat)
    requires d > 0
    ensures n % d == n <==> n < d
  {
  }

  lemma SumOfWhole(a: nat, b: nat, d: nat)
    requires d > 0 && a % d == 0
    ensures (a + b) / d == a / d + b / d && (a + b) % d == b % d
  {
    WholeFrames(a, d);
    assert (a / d + b / d) * d + b % d == a + b;
    QuotientOfRemainder(a + b, d, a / d + b / d, b % d);
  }
}
