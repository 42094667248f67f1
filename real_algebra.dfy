/** Facts of ordered-field algebra on plain `real` values, each stated for
    the step of an amortization proof that needs it. Kept apart so that each
    is proved about variables only, without the recursive functions of the
    engine in sight. */
module RealAlgebra {

  /** `a * b > 0` for `a, b > 0`. */
  lemma ProductPositive(a: real, b: real)
    requires a > 0.0 && b > 0.0
    ensures a * b > 0.0
  {
  }

  /** `a * b >= 0` for `a, b >= 0`. */
  lemma ProductNonNegative(a: real, b: real)
    requires a >= 0.0 && b >= 0.0
    ensures a * b >= 0.0
  {
  }

  /** `x * y >= y >= 1` for `x, y >= 1`, and `x * y > 1` when also `x > 1`. */
  lemma {:induction false} ProductAtLeastOne(x: real, y: real, xy: real)
    requires x >= 1.0 && y >= 1.0 && xy == x * y
    ensures xy >= y && xy >= 1.0
    ensures x > 1.0 ==> xy > 1.0
  {
    var e := x - 1.0;
    assert xy == e * y + y;
    ProductNonNegative(e, y);
    if x > 1.0 {
      ProductPositive(e, y);
    }
  }

  /** `a <= b` follows from `a * d <= b * d` for a positive `d`. */
  lemma CancelPositive(a: real, b: real, d: real)
    requires d > 0.0 && a * d <= b * d
    ensures a <= b
  {
  }

  /** `a < b` follows from `a * d < b * d` for a positive `d`. */
  lemma CancelPositiveStrict(a: real, b: real, d: real)
    requires d > 0.0 && a * d < b * d
    ensures a < b
  {
  }

  /** `a * (c - 1) + a == a * c`: one more payment of `a`. */
  lemma ScaleStep(a: real, c0: real, c: real)
    requires c0 == c - 1.0
    ensures a * c0 + a == a * c
  {
  }

  /** A payment `m` with `m * (q - 1) == p * r * q`, `q > 1`, `r > 0`
      exceeds `p * r` when `p > 0` and is 0 when `p == 0`. */
  lemma {:induction false} PaymentAlgebra(p: real, r: real, q: real, m: real)
    requires r > 0.0 && q > 1.0 && m * (q - 1.0) == p * r * q
    ensures p > 0.0 ==> m > p * r
    ensures p == 0.0 ==> m == 0.0
  {
    var d := q - 1.0;
    if p > 0.0 {
      var pr := p * r;
      assert p * r * q == pr * d + pr;
      ProductPositive(p, r);
      assert m * d == pr * d + pr;
      CancelPositiveStrict(pr, m, d);
    } else if p == 0.0 {
      assert m * d == 0.0 * d;
      CancelPositive(m, 0.0, d);
      CancelPositive(0.0, m, d);
    }
  }

  /** Two payments that solve `m * d == x` for the same positive `d` are
      equal. */
  lemma {:induction false} SolutionUnique(m: real, m': real, d: real, x: real)
    requires d > 0.0 && m * d == x && m' * d == x
    ensures m == m'
  {
    CancelPositive(m, m', d);
    CancelPositive(m', m, d);
  }

  /** One month of the closed form: if `b * r == p * r * q - m * (q - 1)`,
      then the next balance `b' = b - (m - b * r)` satisfies the same with
      `q' = (1 + r) * q`. */
  lemma ClosedFormStep(b: real, b': real, r: real, q: real, q': real, p: real, m: real)
    requires b * r == p * r * q - m * (q - 1.0)
    requires b' == b - (m - b * r) && q' == (1.0 + r) * q
    ensures b' * r == p * r * q' - m * (q' - 1.0)
  {
    assert b * r * r == (p * r * q - m * (q - 1.0)) * r;
  }

  /** From the closed form `b * r == p * r * qk - m * (qk - 1)` and the
      payment equation `m * (qn - 1) == p * r * qn`:
      `b * (qn - 1) == p * (qn - qk)`. */
  lemma {:induction false} AnnuityAlgebra(b: real, r: real, qk: real, qn: real, p: real, m: real)
    requires r > 0.0
    requires b * r == p * r * qk - m * (qk - 1.0)
    requires m * (qn - 1.0) == p * r * qn
    ensures b * (qn - 1.0) == p * (qn - qk)
  {
    var d := qn - 1.0;
    assert b * r * d == p * r * qk * d - m * d * (qk - 1.0);
    assert m * d * (qk - 1.0) == p * r * qn * (qk - 1.0);
    assert r * (b * d) == r * (p * (qn - qk));
  }

  /** With `b * r == p * r * q - m * (q - 1)` and `q > 1`, `r > 0`: the
      balance `b` is zero exactly when `m * (q - 1) == p * r * q`. */
  lemma {:induction false} ZeroBalanceAlgebra(b: real, r: real, q: real, p: real, m: real)
    requires r > 0.0 && q > 1.0
    requires b * r == p * r * q - m * (q - 1.0)
    ensures b == 0.0 <==> m * (q - 1.0) == p * r * q
  {
    if b != 0.0 {
      assert b * r != 0.0;
    }
  }

  /** With `b * (qn - 1) == p * (qn - qk)`, `1 <= qk <= qn`, `qn > 1` and
      `p >= 0`: `0 <= b <= p`. */
  lemma {:induction false} RangeAlgebra(p: real, qn: real, qk: real, b: real)
    requires p >= 0.0 && qn > 1.0 && 1.0 <= qk <= qn
    requires b * (qn - 1.0) == p * (qn - qk)
    ensures 0.0 <= b <= p
  {
    var d := qn - 1.0;
    ProductNonNegative(p, qn - qk);
    ProductNonNegative(p, qk - 1.0);
    assert p * d == p * (qn - qk) + p * (qk - 1.0);
    assert b * d == p * (qn - qk);
    CancelPositive(0.0, b, d);
    CancelPositive(b, p, d);
  }

  /** With the closed form `b * r == p * r * q - m * (q - 1)`, `q >= 1` and a
      payment `m >= p * r`: the interest `b * r` is at most the payment. */
  lemma {:induction false} InterestBelowPayment(b: real, r: real, q: real, p: real, m: real)
    requires q >= 1.0 && m >= p * r
    requires b * r == p * r * q - m * (q - 1.0)
    ensures b * r <= m
  {
    assert b * r - m == q * (p * r - m);
    ProductNonNegative(q, m - p * r);
  }
}
