/**
  Facts about integer division that the arithmetic cores share.
 */
module Division {

  lemma {:induction false} Scale(a: int, b: int, d: int)
    requires a <= b && d >= 0
    ensures a * d <= b * d
  {
  }

  // A quotient is known by its remainder.
  lemma {:induction false} QuotientIs(n: int, d: int, q: int)
    requires d > 0 && 0 <= n - q * d < d
    ensures n / d == q
  {
    if n / d < q {
      Scale(n / d + 1, q, d);
    } else if n / d > q {
      Scale(q + 1, n / d, d);
    }
  }

  lemma {:induction false} Quotient(n: int, d: int) returns (q: int)
    requires d > 0
    ensures q == n / d && 0 <= n - q * d < d
  {
    q := n / d;
  }

  lemma {:induction false} AtLeast(n: int, d: int, k: int)
    requires d > 0
    ensures n / d >= k <==> n >= k * d
  {
    var q := Quotient(n, d);
    if q >= k {
      Scale(k, q, d);
    } else {
      Scale(q + 1, k, d);
    }
  }

  // Reducing a summand first makes no difference.
  lemma {:induction false} ModSum(a: nat, b: nat, n: nat)
    requires n > 0
    ensures (a + b % n) % n == (a + b) % n
  {
    var q, r := (a + b) / n, (a + b) % n;
    var y := a + b % n;
    var p := b / n;
    assert y == a + b - p * n && y - (q - p) * n == r by {
      assert (q - p) * n == q * n - p * n;
    }
    QuotientIs(y, n, q - p);
  }
}
