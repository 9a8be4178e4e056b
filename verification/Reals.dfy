/** Real arithmetic shared by the metrics: means, square roots and products the solver can treat as one quantity. */
module Reals {
  import opened Sequences

  /** The mean; 0 for no data. */
  function Mean(xs: seq<real>): real {
    if |xs| == 0 then 0.0 else Sum(xs) / |xs| as real
  }

  /** Multiplication under a name, so that proofs can treat a product as one quantity. */
  function Times(x: real, y: real): real {
    x * y
  }

  ghost predicate IsSquareRoot(sqrt: real -> real) {
    forall v :: v >= 0.0 ==> sqrt(v) >= 0.0 && Times(sqrt(v), sqrt(v)) == v
  }

  lemma TimesSign(x: real, y: real)
    requires x > 0.0
    ensures Times(x, y) > 0.0 <==> y > 0.0
    ensures Times(x, y) == 0.0 <==> y == 0.0
  {
    var z := -y;
    assert Times(x, z) == -Times(x, y);
    assert y > 0.0 ==> x * y > 0.0;
    assert z > 0.0 ==> x * z > 0.0;
    assert y == 0.0 ==> x * y == 0.0;
  }

  lemma TimesSelf(x: real)
    ensures Times(x, x) >= 0.0
    ensures Times(x, x) == 0.0 <==> x == 0.0
  {
    if x > 0.0 {
      TimesSign(x, x);
    } else if x < 0.0 {
      TimesSign(-x, -x);
      assert Times(-x, -x) == Times(x, x);
    }
  }

  lemma TimesOrder(k: real, x: real, y: real)
    requires k >= 0.0 && x <= y
    ensures Times(k, x) <= Times(k, y)
    ensures k > 0.0 && x < y ==> Times(k, x) < Times(k, y)
  {
    TimesMinus(k, y, x);
    if k == 0.0 {
      TimesNothing(k, x);
      TimesNothing(k, y);
    } else {
      TimesSign(k, y - x);
    }
  }

  lemma TimesMinus(k: real, x: real, y: real)
    ensures Times(k, x - y) == Times(k, x) - Times(k, y)
  {
  }

  lemma TimesNothing(k: real, x: real)
    requires k == 0.0
    ensures Times(k, x) == 0.0
  {
  }

  lemma TimesSum(k: real, x: real, y: real)
    ensures Times(k, x + y) == Times(k, x) + Times(k, y)
  {
  }

  lemma TimesDifference(x: real, y: real)
    ensures Times(x - y, x + y) == Times(x, x) - Times(y, y)
  {
  }

  lemma TimesMove(k: real, a: real)
    ensures Times(k * a, k * a) == Times(k, Times(k, Times(a, a)))
    ensures Times(a, k * a) == Times(k, Times(a, a))
  {
  }

  lemma SquaresOrder(x: real, y: real)
    requires x >= 0.0 && y >= 0.0
    ensures x >= y <==> Times(x, x) >= Times(y, y)
    ensures x == y <==> Times(x, x) == Times(y, y)
  {
    TimesDifference(x, y);
    TimesDifference(y, x);
    if x < y {
      TimesSign(y + x, y - x);
      assert Times(y - x, y + x) == Times(y + x, y - x);
    } else if x > y {
      TimesSign(x + y, x - y);
      assert Times(x - y, x + y) == Times(x + y, x - y);
    }
  }

  lemma QuotientTimes(c: real, s: real)
    requires s > 0.0
    ensures Times(s, c / s) == c
  {
  }

  lemma QuotientOrder(a: real, b: real, d: real)
    requires d > 0.0
    ensures a / d <= b / d <==> a <= b
    ensures a / d == b / d <==> a == b
    ensures d / d == 1.0
  {
    QuotientTimes(a, d);
    QuotientTimes(b, d);
    QuotientTimes(d, d);
    var x, y := a / d, b / d;
    assert Times(d, y - x) == Times(d, y) - Times(d, x);
    assert Times(d, d / d - 1.0) == Times(d, d / d) - d;
    TimesSign(d, y - x);
    TimesSign(d, d / d - 1.0);
  }

  lemma QuotientSum(a: real, b: real, d: real)
    requires d > 0.0
    ensures a / d + b / d == (a + b) / d
  {
    QuotientTimes(a, d);
    QuotientTimes(b, d);
    QuotientTimes(a + b, d);
    var gap := a / d + b / d - (a + b) / d;
    assert Times(d, gap) == Times(d, a / d) + Times(d, b / d) - Times(d, (a + b) / d);
    TimesSign(d, gap);
  }

  lemma RootOfProduct(x: real, y: real, sqrt: real -> real)
    requires IsSquareRoot(sqrt) && x > 0.0 && y > 0.0
    ensures sqrt(Times(x, y)) > 0.0 && Times(sqrt(Times(x, y)), sqrt(Times(x, y))) == Times(x, y)
  {
    TimesSign(x, y);
    TimesSelf(sqrt(Times(x, y)));
  }
}
