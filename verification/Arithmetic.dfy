/** Facts about products and quotients of reals that the solver needs by name. */
module Arithmetic {
  import opened Totals

  lemma ProductGrows(a: real, b: real, c: real)
    requires a <= b && c >= 0.0
    ensures Product(a, c) <= Product(b, c)
  {
  }

  lemma ProductNonNegative(a: real, b: real)
    requires a >= 0.0 && b >= 0.0
    ensures Product(a, b) >= 0.0
  {
  }

  lemma DivisionBack(a: real, b: real)
    requires b != 0.0
    ensures Product(a / b, b) == a
  {
  }

  lemma QuotientNonNegative(a: real, b: real)
    requires a >= 0.0 && b > 0.0
    ensures a / b >= 0.0
  {
  }

  lemma NonZero(a: real, b: real)
    requires a != 0.0 && b != 0.0
    ensures a * b != 0.0
  {
  }

  lemma UniqueQuotient(a: real, c: real, d: real)
    requires c != 0.0 && d * c == a
    ensures a / c == d
  {
  }

  lemma QuotientSwap(a: real, b: real, t: real)
    requires t != 0.0
    ensures (a / t) * b == a * (b / t)
  {
  }

  lemma Strict(a: real, b: real, c: real)
    requires a < b && c > 0.0
    ensures a * c < b * c
  {
  }

  lemma QuotientMonotone(a: real, b: real, c: real)
    requires a <= b && c > 0.0
    ensures a / c <= b / c
  {
  }

  lemma Positive(a: real, b: real)
    requires a > 0.0 && b > 0.0
    ensures a / b > 0.0
  {
  }

  /** Amounts after a proportional fee below one are equal only if the amounts are. */
  lemma NetDistinct(takerFee: real, x: real, y: real)
    requires takerFee < 1.0
    ensures x - Product(takerFee, x) == y - Product(takerFee, y) <==> x == y
  {
    if x != y {
      NonZero(1.0 - takerFee, x - y);
      assert (x - Product(takerFee, x)) - (y - Product(takerFee, y)) == (1.0 - takerFee) * (x - y);
    }
  }

  lemma QuotientNonPositive(a: real, b: real)
    requires a <= 0.0 && b > 0.0
    ensures a / b <= 0.0
  {
    if a < 0.0 { Positive(-a, b); }
    var x := a / b;
    assert x * b == a;
  }

  lemma ProductNonPositive(a: real, b: real)
    requires a >= 0.0 && b <= 0.0
    ensures a * b <= 0.0
  {
    ProductNonNegative(a, -b);
  }
}
