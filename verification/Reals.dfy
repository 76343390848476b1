/** Facts about products and quotients of real numbers, one operation at a time. */
module Reals {

  /** A product as one term. */
  function Times(a: real, b: real): real {
    a * b
  }

  lemma NonNegativeProduct(a: real, b: real)
    requires a >= 0.0 && b >= 0.0
    ensures a * b >= 0.0
  {}

  lemma PositiveProduct(a: real, b: real)
    requires a > 0.0 && b > 0.0
    ensures a * b > 0.0
  {}

  lemma NegatedProduct(a: real, b: real)
    ensures -a * b == -(a * b) && a * -b == -(a * b) && -a * -b == a * b
  {}

  lemma DifferenceTimes(a: real, b: real, c: real)
    ensures (a - b) * c == a * c - b * c
  {}

  lemma SumTimes(a: real, b: real, c: real)
    ensures (a + b) * c == a * c + b * c
  {}

  lemma SquareNonNegative(a: real)
    ensures a * a >= 0.0
  {
    if a >= 0.0 {
      NonNegativeProduct(a, a);
    } else {
      NonNegativeProduct(-a, -a);
      NegatedProduct(a, a);
    }
  }

  /** A product with a positive factor has the sign of the other. */
  lemma SignOfProduct(x: real, d: real)
    requires d > 0.0
    ensures x >= 0.0 <==> x * d >= 0.0
    ensures x > 0.0 <==> x * d > 0.0
  {
    NegatedProduct(x, d);
    if x > 0.0 {
      PositiveProduct(x, d);
    } else if x < 0.0 {
      PositiveProduct(-x, d);
    }
  }

  lemma QuotientTimes(a: real, b: real)
    requires b != 0.0
    ensures a / b * b == a
  {}

  /** The only number that times a positive divisor gives the dividend is the quotient. */
  lemma QuotientIs(a: real, b: real, q: real)
    requires b > 0.0 && q * b == a
    ensures a / b == q
  {
    var p := a / b;
    QuotientTimes(a, b);
    DifferenceTimes(p, q, b);
    SignOfProduct(p - q, b);
    DifferenceTimes(q, p, b);
    SignOfProduct(q - p, b);
  }

  lemma NonNegativeQuotient(a: real, b: real)
    requires a >= 0.0 && b > 0.0
    ensures a / b >= 0.0
  {
    QuotientTimes(a, b);
    SignOfProduct(a / b, b);
  }

  /** Quotients by the same positive divisor stand as their dividends. */
  lemma QuotientOrder(a: real, b: real, d: real)
    requires d > 0.0
    ensures a <= b <==> a / d <= b / d
    ensures a < b <==> a / d < b / d
  {
    QuotientTimes(a, d);
    QuotientTimes(b, d);
    DifferenceTimes(b / d, a / d, d);
    SignOfProduct(b / d - a / d, d);
  }

  lemma PositiveTimes(a: real, b: real)
    requires a > 0.0 && b > 0.0
    ensures Times(a, b) > 0.0
  {
    PositiveProduct(a, b);
  }

  lemma SumOfTimes(a: real, b: real, c: real, d: real)
    ensures Times(a - b + c, d) == Times(a, d) - Times(b, d) + Times(c, d)
  {}

  lemma OneTimes(d: real)
    ensures Times(1.0, d) == d
  {}

  lemma QuotientBack(a: real, b: real)
    requires b != 0.0
    ensures Times(a / b, b) == a
  {
    QuotientTimes(a, b);
  }
}
