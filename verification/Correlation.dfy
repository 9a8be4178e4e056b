/** Pearson correlation as the scripts and the reliability-decay metric compute it. */
module Correlation {
  import opened Sequences
  import opened Reals

  function Centred(xs: seq<real>): (r: seq<real>)
    requires |xs| > 0
    ensures |r| == |xs|
  {
    seq(|xs|, i requires 0 <= i < |xs| => xs[i] - Mean(xs))
  }

  function Dot(u: seq<real>, v: seq<real>): real
    requires |u| == |v|
  {
    if |u| == 0 then 0.0
    else
      var n := |u| - 1;
      Dot(u[..n], v[..n]) + Times(u[n], v[n])
  }

  function PearsonR(xs: seq<real>, ys: seq<real>, sqrt: real -> real): real
    requires IsSquareRoot(sqrt)
  {
    if |xs| != |ys| || |xs| < 2 then 0.0
    else
      var u, v := Centred(xs), Centred(ys);
      if Dot(u, u) <= 0.0 || Dot(v, v) <= 0.0 then 0.0
      else
        RootOfProduct(Dot(u, u), Dot(v, v), sqrt);
        Dot(u, v) / sqrt(Times(Dot(u, u), Dot(v, v)))
  }

  // ---- Cauchy-Schwarz, with its equality case ----

  function Misfit(p: real, q: real, a: real, b: real): real {
    Times(p, b) - Times(q, a)
  }

  function Residual(u: seq<real>, v: seq<real>, p: real, q: real): (r: seq<real>)
    requires |u| == |v|
    ensures |r| == |u|
  {
    seq(|u|, i requires 0 <= i < |u| => Misfit(p, q, u[i], v[i]))
  }

  lemma MisfitSquared(p: real, q: real, a: real, b: real)
    ensures var m := Misfit(p, q, a, b);
            Times(m, m) == Times(p * p, Times(b, b)) - 2.0 * Times(p * q, Times(a, b)) + Times(q * q, Times(a, a))
  {
  }

  /** The squared residuals of fitting `v` to `u`, expanded over the whole sample. */
  lemma {:induction false} ResidualIdentity(u: seq<real>, v: seq<real>, p: real, q: real)
    requires |u| == |v|
    ensures var r := Residual(u, v, p, q);
            Dot(r, r) == Times(p * p, Dot(v, v)) - 2.0 * Times(p * q, Dot(u, v)) + Times(q * q, Dot(u, u))
  {
    if |u| > 0 {
      var n := |u| - 1;
      ResidualIdentity(u[..n], v[..n], p, q);
      assert Residual(u, v, p, q)[..n] == Residual(u[..n], v[..n], p, q);
      MisfitSquared(p, q, u[n], v[n]);
      TimesSum(p * p, Dot(v[..n], v[..n]), Times(v[n], v[n]));
      TimesSum(p * q, Dot(u[..n], v[..n]), Times(u[n], v[n]));
      TimesSum(q * q, Dot(u[..n], u[..n]), Times(u[n], u[n]));
    }
  }

  lemma {:induction false} DotSelf(u: seq<real>)
    ensures Dot(u, u) >= 0.0
    ensures Dot(u, u) == 0.0 <==> forall i :: 0 <= i < |u| ==> u[i] == 0.0
  {
    if |u| > 0 {
      DotSelf(u[..|u| - 1]);
      TimesSelf(u[|u| - 1]);
      assert u == u[..|u| - 1] + [u[|u| - 1]];
    }
  }

  function Gap(u: seq<real>, v: seq<real>): real
    requires |u| == |v|
  {
    Times(Dot(u, u), Dot(v, v)) - Times(Dot(u, v), Dot(u, v))
  }

  /** The residual of the best fit carries exactly the gap in the Cauchy-Schwarz inequality. */
  lemma {:induction false} BestFitResidual(u: seq<real>, v: seq<real>)
    requires |u| == |v|
    ensures var r := Residual(u, v, Dot(u, u), Dot(u, v));
            Dot(r, r) == Times(Dot(u, u), Gap(u, v))
  {
    ResidualIdentity(u, v, Dot(u, u), Dot(u, v));
    FitAlgebra(Dot(u, u), Dot(v, v), Dot(u, v));
  }

  lemma FitAlgebra(x: real, y: real, c: real)
    ensures Times(x * x, y) - 2.0 * Times(x * c, c) + Times(c * c, x) == Times(x, Times(x, y) - Times(c, c))
  {
  }

  lemma {:induction false} DotZero(u: seq<real>, v: seq<real>)
    requires |u| == |v| && forall i :: 0 <= i < |u| ==> u[i] == 0.0
    ensures Dot(u, v) == 0.0
  {
    if |u| > 0 {
      DotZero(u[..|u| - 1], v[..|v| - 1]);
    }
  }

  /** The covariance squared never exceeds the product of the variances. */
  lemma {:induction false} CauchySchwarz(u: seq<real>, v: seq<real>)
    requires |u| == |v|
    ensures Times(Dot(u, v), Dot(u, v)) <= Times(Dot(u, u), Dot(v, v))
  {
    DotSelf(u);
    if Dot(u, u) == 0.0 {
      DotZero(u, v);
    } else {
      BestFitResidual(u, v);
      DotSelf(Residual(u, v, Dot(u, u), Dot(u, v)));
      TimesSign(Dot(u, u), Gap(u, v));
    }
  }

  ghost predicate Proportional(u: seq<real>, v: seq<real>, slope: real)
    requires |u| == |v|
  {
    forall i :: 0 <= i < |u| ==> v[i] == slope * u[i]
  }

  lemma DivideOut(x: real, c: real, a: real, b: real)
    requires x > 0.0 && Misfit(x, c, a, b) == 0.0
    ensures b == c / x * a
  {
    var k := c / x;
    QuotientTimes(c, x);
    assert Times(x, b - k * a) == Times(x, b) - Times(Times(x, k), a);
    TimesSign(x, b - k * a);
  }

  /** Equality forces the two samples to be proportional ... */
  lemma {:induction false} TightMeansProportional(u: seq<real>, v: seq<real>)
    requires |u| == |v| && Dot(u, u) > 0.0 && Gap(u, v) == 0.0
    ensures Proportional(u, v, Dot(u, v) / Dot(u, u))
  {
    var r := Residual(u, v, Dot(u, u), Dot(u, v));
    BestFitResidual(u, v);
    TimesSign(Dot(u, u), Gap(u, v));
    DotSelf(r);
    forall i | 0 <= i < |u| ensures v[i] == Dot(u, v) / Dot(u, u) * u[i] {
      assert r[i] == 0.0;
      DivideOut(Dot(u, u), Dot(u, v), u[i], v[i]);
    }
  }

  lemma DotNext(u: seq<real>, v: seq<real>)
    requires |u| == |v| > 0
    ensures var n := |u| - 1;
            Dot(u, v) == Dot(u[..n], v[..n]) + Times(u[n], v[n])
  {
  }

  /** ... and proportional samples scale the sums. */
  lemma {:induction false} ProportionalSums(u: seq<real>, v: seq<real>, slope: real)
    requires |u| == |v| && Proportional(u, v, slope)
    ensures Dot(u, v) == Times(slope, Dot(u, u))
    ensures Dot(v, v) == Times(slope, Dot(u, v))
  {
    if |u| > 0 {
      var n := |u| - 1;
      var x, y := u[n], v[n];
      ProportionalSums(u[..n], v[..n], slope);
      DotNext(u, u);
      DotNext(u, v);
      DotNext(v, v);
      TimesSum(slope, Dot(u[..n], u[..n]), Times(x, x));
      TimesSum(slope, Dot(u[..n], v[..n]), Times(x, y));
      assert y == slope * x;
      TimesMove(slope, x);
    }
  }

  // ---- The correlation coefficient ----

  lemma BoundedQuotient(c: real, s: real)
    requires s > 0.0 && Times(c, c) <= Times(s, s)
    ensures -1.0 <= c / s <= 1.0
    ensures c / s == 1.0 <==> c == s
    ensures c / s > 0.0 <==> c > 0.0
    ensures c / s < 0.0 <==> c < 0.0
  {
    var q := c / s;
    QuotientTimes(c, s);
    TimesSign(s, q);
    assert Times(-c, -c) == Times(c, c);
    TimesSign(s, q - 1.0);
    TimesSign(s, -1.0 - q);
    assert Times(s, q - 1.0) == c - s && Times(s, -1.0 - q) == -c - s;
    if c > s {
      SquaresOrder(s, c);
    } else if -c > s {
      SquaresOrder(s, -c);
    }
  }

  ghost predicate NonDegenerate(xs: seq<real>, ys: seq<real>) {
    && |xs| == |ys| && |xs| >= 2
    && Dot(Centred(xs), Centred(xs)) > 0.0 && Dot(Centred(ys), Centred(ys)) > 0.0
  }

  /** A sample that does not vary has no covariance with any other. */
  lemma NoVarianceNoCovariance(u: seq<real>, v: seq<real>)
    requires |u| == |v| && (Dot(u, u) <= 0.0 || Dot(v, v) <= 0.0)
    ensures Dot(u, v) == 0.0
  {
    CauchySchwarz(u, v);
    DotSelf(u);
    DotSelf(v);
    TimesSelf(Dot(u, v));
    if Dot(u, u) == 0.0 {
      TimesNothing(Dot(u, u), Dot(v, v));
    } else {
      TimesNothing(Dot(v, v), Dot(u, u));
      assert Times(Dot(u, u), Dot(v, v)) == Times(Dot(v, v), Dot(u, u));
    }
  }

  /** The coefficient is within [-1, 1] on every input, before any clamping, and has the sign of the covariance. */
  lemma {:induction false} PearsonRange(xs: seq<real>, ys: seq<real>, sqrt: real -> real)
    requires IsSquareRoot(sqrt)
    ensures -1.0 <= PearsonR(xs, ys, sqrt) <= 1.0
    ensures |xs| == |ys| && |xs| >= 2 ==>
              && (PearsonR(xs, ys, sqrt) > 0.0 <==> Dot(Centred(xs), Centred(ys)) > 0.0)
              && (PearsonR(xs, ys, sqrt) < 0.0 <==> Dot(Centred(xs), Centred(ys)) < 0.0)
  {
    if |xs| == |ys| && |xs| >= 2 {
      var u, v := Centred(xs), Centred(ys);
      if Dot(u, u) > 0.0 && Dot(v, v) > 0.0 {
        RootOfProduct(Dot(u, u), Dot(v, v), sqrt);
        CauchySchwarz(u, v);
        BoundedQuotient(Dot(u, v), sqrt(Times(Dot(u, u), Dot(v, v))));
      } else {
        NoVarianceNoCovariance(u, v);
      }
    }
  }

  /** The square of the coefficient, times both variance sums, is the covariance sum squared. */
  lemma {:induction false} PearsonSquared(xs: seq<real>, ys: seq<real>, sqrt: real -> real)
    requires IsSquareRoot(sqrt) && NonDegenerate(xs, ys)
    ensures var u, v, r := Centred(xs), Centred(ys), PearsonR(xs, ys, sqrt);
            Times(Times(r, r), Times(Dot(u, u), Dot(v, v))) == Times(Dot(u, v), Dot(u, v))
  {
    var u, v, r := Centred(xs), Centred(ys), PearsonR(xs, ys, sqrt);
    var s := sqrt(Times(Dot(u, u), Dot(v, v)));
    RootOfProduct(Dot(u, u), Dot(v, v), sqrt);
    QuotientTimes(Dot(u, v), s);
    assert Times(Times(r, r), Times(s, s)) == Times(Times(s, r), Times(s, r));
  }

  ghost predicate OnLine(xs: seq<real>, ys: seq<real>, slope: real, intercept: real) {
    |xs| == |ys| && forall i :: 0 <= i < |xs| ==> ys[i] == slope * xs[i] + intercept
  }

  ghost predicate RisingLine(xs: seq<real>, ys: seq<real>, slope: real, intercept: real) {
    OnLine(xs, ys, slope, intercept) && slope > 0.0
  }

  lemma {:induction false} SumOfLine(xs: seq<real>, ys: seq<real>, slope: real, intercept: real)
    requires OnLine(xs, ys, slope, intercept)
    ensures Sum(ys) == Times(slope, Sum(xs)) + Times(|xs| as real, intercept)
  {
    if |xs| > 0 {
      var n := |xs| - 1;
      SumOfLine(xs[..n], ys[..n], slope, intercept);
      TimesSum(slope, Sum(xs[..n]), xs[n]);
      TimesSum(intercept, n as real, 1.0);
      assert Times(n as real, intercept) == Times(intercept, n as real);
      assert Times(|xs| as real, intercept) == Times(intercept, |xs| as real);
    }
  }

  lemma {:induction false} MeanOfLine(xs: seq<real>, ys: seq<real>, slope: real, intercept: real)
    requires |xs| > 0 && OnLine(xs, ys, slope, intercept)
    ensures Mean(ys) == slope * Mean(xs) + intercept
  {
    SumOfLine(xs, ys, slope, intercept);
    LineMeans(|xs| as real, Sum(xs), Sum(ys), slope, intercept);
  }

  lemma LineMeans(n: real, sx: real, sy: real, k: real, b: real)
    requires n > 0.0 && sy == Times(k, sx) + Times(n, b)
    ensures sy / n == k * (sx / n) + b
  {
    var mx, my := sx / n, sy / n;
    QuotientTimes(sx, n);
    QuotientTimes(sy, n);
    assert Times(n, my - (k * mx + b)) == Times(n, my) - Times(k, Times(n, mx)) - Times(n, b);
    TimesSign(n, my - (k * mx + b));
  }

  lemma {:induction false} LineIsProportional(xs: seq<real>, ys: seq<real>, slope: real, intercept: real)
    requires |xs| > 0 && OnLine(xs, ys, slope, intercept)
    ensures Proportional(Centred(xs), Centred(ys), slope)
  {
    MeanOfLine(xs, ys, slope, intercept);
    forall i | 0 <= i < |xs| ensures Centred(ys)[i] == slope * Centred(xs)[i] {
      assert slope * (xs[i] - Mean(xs)) == slope * xs[i] - slope * Mean(xs);
    }
  }

  lemma {:induction false} ProportionalIsLine(xs: seq<real>, ys: seq<real>, slope: real)
    requires |xs| == |ys| > 0 && slope > 0.0 && Proportional(Centred(xs), Centred(ys), slope)
    ensures RisingLine(xs, ys, slope, Mean(ys) - slope * Mean(xs))
  {
    forall i | 0 <= i < |xs| ensures ys[i] == slope * xs[i] + (Mean(ys) - slope * Mean(xs)) {
      assert Centred(ys)[i] == slope * Centred(xs)[i];
      assert slope * (xs[i] - Mean(xs)) == slope * xs[i] - slope * Mean(xs);
    }
  }

  lemma {:induction false} LineMeansPerfect(xs: seq<real>, ys: seq<real>, sqrt: real -> real, slope: real,
                                            intercept: real)
    requires IsSquareRoot(sqrt) && NonDegenerate(xs, ys) && RisingLine(xs, ys, slope, intercept)
    ensures PearsonR(xs, ys, sqrt) == 1.0
  {
    var u, v := Centred(xs), Centred(ys);
    var x, y, c := Dot(u, u), Dot(v, v), Dot(u, v);
    LineIsProportional(xs, ys, slope, intercept);
    ProportionalSums(u, v, slope);
    TimesSign(slope, x);
    assert Times(x, Times(slope, c)) == Times(Times(slope, x), c);
    RootOfProduct(x, y, sqrt);
    SquaresOrder(sqrt(Times(x, y)), c);
    BoundedQuotient(c, sqrt(Times(x, y)));
  }

  lemma {:induction false} PerfectMeansLine(xs: seq<real>, ys: seq<real>, sqrt: real -> real)
    requires IsSquareRoot(sqrt) && NonDegenerate(xs, ys) && PearsonR(xs, ys, sqrt) == 1.0
    ensures exists slope, intercept :: RisingLine(xs, ys, slope, intercept)
  {
    var u, v := Centred(xs), Centred(ys);
    var x, y, c := Dot(u, u), Dot(v, v), Dot(u, v);
    RootOfProduct(x, y, sqrt);
    CauchySchwarz(u, v);
    BoundedQuotient(c, sqrt(Times(x, y)));
    TightMeansProportional(u, v);
    QuotientTimes(c, x);
    TimesSign(x, c / x);
    ProportionalIsLine(xs, ys, c / x);
  }

  /** The coefficient is 1 exactly when both samples vary and the second is a rising straight line over the first. */
  lemma {:induction false} PerfectCorrelation(xs: seq<real>, ys: seq<real>, sqrt: real -> real)
    requires IsSquareRoot(sqrt)
    ensures PearsonR(xs, ys, sqrt) == 1.0
       <==> NonDegenerate(xs, ys) && exists slope, intercept :: RisingLine(xs, ys, slope, intercept)
  {
    if PearsonR(xs, ys, sqrt) == 1.0 {
      PerfectMeansLine(xs, ys, sqrt);
    }
    forall slope, intercept | NonDegenerate(xs, ys) && RisingLine(xs, ys, slope, intercept)
      ensures PearsonR(xs, ys, sqrt) == 1.0
    {
      LineMeansPerfect(xs, ys, sqrt, slope, intercept);
    }
  }

  // ---- Reliability decay ----

  function Shares(iterations: seq<nat>, budget: nat): (r: seq<real>)
    requires budget > 0
    ensures |r| == |iterations|
  {
    seq(|iterations|, i requires 0 <= i < |iterations| => iterations[i] as real / budget as real)
  }

  function Losses(scores: seq<real>): (r: seq<real>)
    ensures |r| == |scores|
  {
    seq(|scores|, i requires 0 <= i < |scores| => 1.0 - scores[i])
  }

  /** The iterations spent, as reals. */
  function Efforts(iterations: seq<nat>): (r: seq<real>)
    ensures |r| == |iterations|
  {
    seq(|iterations|, i requires 0 <= i < |iterations| => iterations[i] as real)
  }

  lemma {:induction false} ScaledDot(u: seq<real>, v: seq<real>, w: seq<real>, k: real)
    requires |u| == |v| == |w| && Proportional(u, v, k)
    ensures Dot(v, w) == Times(k, Dot(u, w)) && Dot(w, v) == Times(k, Dot(w, u))
  {
    if |u| > 0 {
      var n := |u| - 1;
      ScaledDot(u[..n], v[..n], w[..n], k);
      TimesSum(k, Dot(u[..n], w[..n]), Times(u[n], w[n]));
      TimesSum(k, Dot(w[..n], u[..n]), Times(w[n], u[n]));
      assert v[n] == k * u[n];
      ScaledTimes(k, u[n], w[n]);
    }
  }

  lemma ScaledTimes(k: real, x: real, y: real)
    ensures Times(k * x, y) == Times(k, Times(x, y)) && Times(y, k * x) == Times(k, Times(y, x))
  {
  }

  /** Effort shares and losses vary as the iterations over the budget and as the scores turned round: their covariance
      times the budget is that of iterations and scores with its sign changed, and so on for the variances. */
  lemma {:induction false} LossMirrorsScore(scores: seq<real>, iterations: seq<nat>, budget: nat)
    requires |scores| == |iterations| > 0 && budget > 0
    ensures var b, e, s := budget as real, Centred(Efforts(iterations)), Centred(scores);
            var u, v := Centred(Shares(iterations, budget)), Centred(Losses(scores));
            && Times(b, Dot(u, v)) == -Dot(e, s)
            && Times(b, Times(b, Dot(u, u))) == Dot(e, e)
            && Dot(v, v) == Dot(s, s)
  {
    var b, es, us, vs := budget as real, Efforts(iterations), Shares(iterations, budget), Losses(scores);
    forall i | 0 <= i < |us| ensures es[i] == b * us[i] + 0.0 {
      QuotientTimes(iterations[i] as real, b);
      assert Times(b, us[i]) == b * us[i];
    }
    assert OnLine(scores, vs, -1.0, 1.0);
    LineIsProportional(us, es, b, 0.0);
    LineIsProportional(scores, vs, -1.0, 1.0);
    var e, s, u, v := Centred(es), Centred(scores), Centred(us), Centred(vs);
    ScaledDot(u, e, v, b);
    ScaledDot(u, e, e, b);
    ScaledDot(u, e, u, b);
    ScaledDot(s, v, e, -1.0);
    ScaledDot(s, v, v, -1.0);
    ScaledDot(s, v, s, -1.0);
  }

  const NEGLIGIBLE := 0.0000000001

  function Clamp01(x: real): real {
    if x < 0.0 then 0.0 else if x > 1.0 then 1.0 else x
  }

  predicate Undefined(scores: seq<real>, iterations: seq<nat>, budget: nat) {
    || |scores| < 2 || |iterations| != |scores| || budget == 0
    || Dot(Centred(Shares(iterations, budget)), Centred(Shares(iterations, budget))) < NEGLIGIBLE
    || Dot(Centred(Losses(scores)), Centred(Losses(scores))) < NEGLIGIBLE
  }

  /** One minus the positive part of the correlation between effort and loss; 1 when it is undefined. */
  function ReliabilityDecay(scores: seq<real>, iterations: seq<nat>, budget: nat, sqrt: real -> real): real
    requires IsSquareRoot(sqrt)
  {
    if Undefined(scores, iterations, budget) then 1.0
    else 1.0 - Clamp01(PearsonR(Shares(iterations, budget), Losses(scores), sqrt))
  }

  /** The decay metric is within [0,1] on every input; the upper clamp never fires; it is 0 exactly when it is defined
      and the loss is a rising straight line over the effort spent, and 1 exactly when it is undefined or they are not
      positively related. */
  lemma {:induction false} DecayExtremes(scores: seq<real>, iterations: seq<nat>, budget: nat, sqrt: real -> real)
    requires IsSquareRoot(sqrt)
    ensures var rdc := ReliabilityDecay(scores, iterations, budget, sqrt);
            && 0.0 <= rdc <= 1.0
            && (budget > 0 ==> PearsonR(Shares(iterations, budget), Losses(scores), sqrt) <= 1.0)
            && (rdc == 0.0
                <==> && !Undefined(scores, iterations, budget)
                     && exists slope, intercept ::
                          RisingLine(Shares(iterations, budget), Losses(scores), slope, intercept))
            && (rdc == 1.0
                <==> || Undefined(scores, iterations, budget)
                     || Dot(Centred(Shares(iterations, budget)), Centred(Losses(scores))) <= 0.0)
  {
    if budget > 0 {
      var xs, ys := Shares(iterations, budget), Losses(scores);
      PearsonRange(xs, ys, sqrt);
      PerfectCorrelation(xs, ys, sqrt);
      assert !Undefined(scores, iterations, budget) ==> NonDegenerate(xs, ys);
    }
  }

  /** Between the extremes too the decay is one less the coefficient: where effort and loss rise together, the square of
      what is missing to one, times both variance sums, is their covariance sum squared. */
  lemma {:induction false} DecaySquared(scores: seq<real>, iterations: seq<nat>, budget: nat, sqrt: real -> real)
    requires IsSquareRoot(sqrt) && !Undefined(scores, iterations, budget)
    requires Dot(Centred(Shares(iterations, budget)), Centred(Losses(scores))) > 0.0
    ensures var u, v := Centred(Shares(iterations, budget)), Centred(Losses(scores));
            var missing := 1.0 - ReliabilityDecay(scores, iterations, budget, sqrt);
            Times(Times(missing, missing), Times(Dot(u, u), Dot(v, v))) == Times(Dot(u, v), Dot(u, v))
  {
    var xs, ys := Shares(iterations, budget), Losses(scores);
    assert NonDegenerate(xs, ys);
    PearsonRange(xs, ys, sqrt);
    PearsonSquared(xs, ys, sqrt);
  }

  /** Read off iterations and scores themselves: the metric is undefined for fewer than two runs, for lists of different
      lengths, without a budget, or when iterations over the budget or scores hardly vary; otherwise it is 1 exactly
      when the scores do not fall with the iterations. */
  lemma {:induction false} DecayOfScores(scores: seq<real>, iterations: seq<nat>, budget: nat, sqrt: real -> real)
    requires IsSquareRoot(sqrt)
    ensures var e, s := Efforts(iterations), scores;
            Undefined(scores, iterations, budget)
            <==> || |s| <= 1 || |s| != |e| || budget == 0
                 || Dot(Centred(e), Centred(e)) < Times(budget as real, Times(budget as real, 0.0000000001))
                 || Dot(Centred(s), Centred(s)) < 0.0000000001
    ensures !Undefined(scores, iterations, budget) ==>
              (ReliabilityDecay(scores, iterations, budget, sqrt) == 1.0
               <==> Dot(Centred(Efforts(iterations)), Centred(scores)) >= 0.0)
  {
    if |scores| > 1 && |scores| == |iterations| && budget > 0 {
      var b := budget as real;
      var u, v := Centred(Shares(iterations, budget)), Centred(Losses(scores));
      LossMirrorsScore(scores, iterations, budget);
      TimesSign(b, Dot(u, v));
      OrderScaled(b, Dot(u, u), NEGLIGIBLE);
      OrderScaled(b, Times(b, Dot(u, u)), Times(b, NEGLIGIBLE));
      DecayExtremes(scores, iterations, budget, sqrt);
    }
  }

  lemma OrderScaled(k: real, x: real, y: real)
    requires k > 0.0
    ensures x < y <==> Times(k, x) < Times(k, y)
  {
    if x < y {
      TimesOrder(k, x, y);
    } else {
      TimesOrder(k, y, x);
    }
  }
}
