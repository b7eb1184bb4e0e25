/** Facts about probabilities and products of reals that the clinical models share. */
module Probability {
  predicate Unit(p: real)
  {
    0.0 <= p <= 1.0
  }

  /** Scaling a non-negative value by a probability keeps it between 0 and itself. */
  lemma MulUnitLe(w: real, x: real)
    requires w >= 0.0 && 0.0 <= x <= 1.0
    ensures 0.0 <= w * x <= w
  {
    assert w * (1.0 - x) >= 0.0;
  }

  /** A non-negative value over a larger positive one is a probability. */
  lemma DivUnit(s: real, d: real)
    requires d > 0.0 && 0.0 <= s <= d
    ensures 0.0 <= s / d <= 1.0
  {
    var r := s / d;
    assert r * d == s;
    if r > 1.0 {
      assert false;
    }
    if r < 0.0 {
      assert false;
    }
  }

  /** The weighted sum of two probabilities lies between 0 and the sum of the weights. */
  lemma WeightedSumLe(w1: real, x: real, w2: real, y: real)
    requires w1 >= 0.0 && w2 >= 0.0 && 0.0 <= x <= 1.0 && 0.0 <= y <= 1.0
    ensures 0.0 <= w1 * x + w2 * y <= w1 + w2
  {
    MulUnitLe(w1, x);
    MulUnitLe(w2, y);
    calc {
      w1 * x + w2 * y;
    <= w1 + w2 * y;
    <= w1 + w2;
    }
  }

  /** Splitting a value by a probability and its complement loses nothing. */
  lemma Split(a: real, p: real)
    ensures a * p + a * (1.0 - p) == a
  {
  }

  lemma Prod2(a: real, b: real)
    requires a >= 0.0 && b >= 0.0
    ensures a * b >= 0.0
  {
  }

  lemma Prod3(a: real, b: real, c: real)
    requires a >= 0.0 && b >= 0.0 && c >= 0.0
    ensures a * b * c >= 0.0
  {
    Prod2(a, b);
    Prod2(a * b, c);
  }

  lemma Prod4(a: real, b: real, c: real, d: real)
    requires a >= 0.0 && b >= 0.0 && c >= 0.0 && d >= 0.0
    ensures a * b * c * d >= 0.0
  {
    Prod3(a, b, c);
    Prod2(a * b * c, d);
  }
}
