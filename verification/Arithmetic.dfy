/**
 Products and quotients of reals.
 */
module Arithmetic {

  lemma ProductNotNegative(a: real, b: real)
    requires a >= 0.0 && b >= 0.0
    ensures a * b >= 0.0
  {
  }

  lemma ProductMonotone(a: real, b: real, factor: real)
    requires a <= b && factor > 0.0
    ensures a * factor <= b * factor
  {
    var gap := b - a;
    ProductNotNegative(gap, factor);
    assert b * factor == a * factor + gap * factor;
  }

  lemma QuotientTimes(a: real, b: real)
    requires b > 0.0
    ensures a / b * b == a
  {
  }

  lemma QuotientBounds(a: real, b: real, d: real)
    requires d > 0.0 && 0.0 <= a <= b
    ensures 0.0 <= a / d <= b / d
    ensures a <= d ==> a / d <= 1.0
  {
    var gap := b - a;
    assert gap / d >= 0.0;
    assert b / d == a / d + gap / d;
    if a <= d {
      var rest := d - a;
      assert rest / d >= 0.0;
      assert 1.0 == d / d == a / d + rest / d;
    }
  }
}
