/** The experiment accept gate: effect threshold, exact Wilcoxon test, Cohen's dz and the advisory fact-check gate. */
module AcceptGate {
  import opened Sequences
  import opened Reals
  import opened Wilcoxon
  import WilcoxonLaws

  datatype Mode = Smoke | Full

  function PThreshold(mode: Mode): real {
    if mode.Full? then 0.05 else 0.10
  }

  function DzThreshold(mode: Mode): real {
    if mode.Full? then 0.40 else 0.30
  }

  function LargerOf(x: real, y: real): real {
    if x >= y then x else y
  }

  function SquaredGap(m: real): real -> real {
    d => (d - m) * (d - m)
  }

  /** The sample variance, with the n - 1 denominator. */
  function Variance(xs: seq<real>): real
    requires |xs| >= 2
  {
    RealSumBy(xs, SquaredGap(Mean(xs))) / (|xs| - 1) as real
  }

  /** A float that may be infinite. */
  datatype Extended = Finite(value: real) | PlusInfinity | MinusInfinity {
    predicate AtLeast(bound: real) {
      match this
      case Finite(v) => v >= bound
      case PlusInfinity => true
      case MinusInfinity => false
    }
  }

  function CohenDz(deltas: seq<real>, sqrt: real -> real): Extended {
    if |deltas| < 2 then Finite(0.0)
    else
      var mean, sd := Mean(deltas), sqrt(Variance(deltas));
      if sd <= 0.0 then
        if mean > 0.0 then PlusInfinity else if mean < 0.0 then MinusInfinity else Finite(0.0)
      else Finite(mean / sd)
  }

  // ---- The advisory fact-check gate ----

  datatype Summary = Summary(total: int, matched: int, unknown: int)

  function FactRate(part: int, total: int): real {
    if total > 0 then part as real / total as real else 0.0
  }

  function SmallestTotal(summaries: seq<Summary>): int
    requires |summaries| > 0
  {
    var last := summaries[|summaries| - 1].total;
    if |summaries| == 1 then last
    else
      var rest := SmallestTotal(summaries[..|summaries| - 1]);
      if rest <= last then rest else last
  }

  predicate SanityGate(summaries: seq<Summary>) {
    |summaries| > 0 &&
    var n := |summaries| as real;
    && RealSumBy(summaries, (s: Summary) => FactRate(s.matched, s.total)) / n >= 0.78
    && RealSumBy(summaries, (s: Summary) => FactRate(s.unknown, s.total)) / n <= 0.05
    && SmallestTotal(summaries) >= 8
  }

  // ---- The verdict ----

  datatype Reason = EffectTooSmall | WilcoxonTooLarge | DzTooSmall | SanityFailed

  predicate EffectGate(deltas: seq<real>, noiseFloor: real) {
    Mean(deltas) >= LargerOf(0.010, noiseFloor * 2.0)
  }

  predicate WilcoxonGate(deltas: seq<real>, mode: Mode, approx: (real, nat) -> real) {
    PValue(deltas, approx) <= PThreshold(mode)
  }

  predicate DzGate(deltas: seq<real>, mode: Mode, sqrt: real -> real) {
    CohenDz(deltas, sqrt).AtLeast(DzThreshold(mode))
  }

  /** Accepts exactly when the three main gates pass; the fact-check gate only ever adds a reason. */
  method JudgeAccept(deltas: seq<real>, summaries: seq<Summary>, noiseFloor: real, mode: Mode,
                     sqrt: real -> real, approx: (real, nat) -> real)
    returns (accepted: bool, reasons: seq<Reason>)
    ensures accepted
       <==> EffectGate(deltas, noiseFloor) && WilcoxonGate(deltas, mode, approx) && DzGate(deltas, mode, sqrt)
    ensures accepted <==> forall r :: r in reasons ==> r == SanityFailed
    ensures SanityFailed in reasons <==> !SanityGate(summaries)
    ensures EffectTooSmall in reasons <==> !EffectGate(deltas, noiseFloor)
    ensures WilcoxonTooLarge in reasons <==> !WilcoxonGate(deltas, mode, approx)
    ensures DzTooSmall in reasons <==> !DzGate(deltas, mode, sqrt)
  {
    var _, wp := SignedRankP(deltas, approx);
    accepted, reasons := Verdict(EffectGate(deltas, noiseFloor), wp <= PThreshold(mode), DzGate(deltas, mode, sqrt),
                                 SanityGate(summaries));
  }

  method Verdict(effect: bool, wilcoxon: bool, dz: bool, sane: bool) returns (accepted: bool, reasons: seq<Reason>)
    ensures accepted <==> effect && wilcoxon && dz
    ensures (EffectTooSmall in reasons <==> !effect) && (WilcoxonTooLarge in reasons <==> !wilcoxon)
    ensures (DzTooSmall in reasons <==> !dz) && (SanityFailed in reasons <==> !sane)
  {
    reasons := [];
    if !effect {
      reasons := reasons + [EffectTooSmall];
    }
    if !wilcoxon {
      reasons := reasons + [WilcoxonTooLarge];
    }
    if !dz {
      reasons := reasons + [DzTooSmall];
    }
    if !sane {
      reasons := reasons + [SanityFailed];
    }
    accepted := effect && wilcoxon && dz;
    ListedReasons(effect, wilcoxon, dz, sane);
    assert reasons == Unless(effect, EffectTooSmall) + Unless(wilcoxon, WilcoxonTooLarge) + Unless(dz, DzTooSmall)
                      + Unless(sane, SanityFailed);
  }

  function Unless(passed: bool, reason: Reason): seq<Reason> {
    if passed then [] else [reason]
  }

  lemma ListedReasons(a: bool, b: bool, c: bool, d: bool)
    ensures var reasons := Unless(a, EffectTooSmall) + Unless(b, WilcoxonTooLarge)
                           + Unless(c, DzTooSmall) + Unless(d, SanityFailed);
            && (EffectTooSmall in reasons <==> !a) && (WilcoxonTooLarge in reasons <==> !b)
            && (DzTooSmall in reasons <==> !c) && (SanityFailed in reasons <==> !d)
  {
  }

  /** What an accepted experiment has shown: a mean gain of a hundredth and of twice the noise floor, a p-value within a
      twentieth or a tenth, and an effect size of 0.40 or 0.30. */
  lemma AcceptedMeans(deltas: seq<real>, noiseFloor: real, mode: Mode, sqrt: real -> real, approx: (real, nat) -> real)
    ensures EffectGate(deltas, noiseFloor) <==> Mean(deltas) >= 0.010 && Mean(deltas) >= 2.0 * noiseFloor
    ensures WilcoxonGate(deltas, mode, approx)
       <==> PValue(deltas, approx) <= match mode { case Full => 0.05 case Smoke => 0.10 }
    ensures DzGate(deltas, mode, sqrt)
       <==> CohenDz(deltas, sqrt).AtLeast(match mode { case Full => 0.40 case Smoke => 0.30 })
    ensures |deltas| < 2 ==> !DzGate(deltas, mode, sqrt)
    ensures |deltas| == 0 ==> !EffectGate(deltas, noiseFloor)
  {
  }

  // ---- The advisory gate ----

  function MatchedShare(summaries: seq<Summary>): real
    requires forall s :: s in summaries ==> s.total > 0
  {
    if |summaries| == 0 then 0.0
    else
      var n := |summaries| - 1;
      assert summaries[n] in summaries;
      MatchedShare(summaries[..n]) + summaries[n].matched as real / summaries[n].total as real
  }

  function UnknownShare(summaries: seq<Summary>): real
    requires forall s :: s in summaries ==> s.total > 0
  {
    if |summaries| == 0 then 0.0
    else
      var n := |summaries| - 1;
      assert summaries[n] in summaries;
      UnknownShare(summaries[..n]) + summaries[n].unknown as real / summaries[n].total as real
  }

  lemma {:induction false} SmallestIsSmallest(summaries: seq<Summary>)
    requires |summaries| > 0
    ensures SmallestTotal(summaries) >= 8 <==> forall s :: s in summaries ==> s.total >= 8
  {
    var n := |summaries| - 1;
    assert summaries == summaries[..n] + [summaries[n]];
    if n > 0 {
      SmallestIsSmallest(summaries[..n]);
    }
  }

  lemma {:induction false} SharesAreRates(summaries: seq<Summary>)
    requires forall s :: s in summaries ==> s.total > 0
    ensures RealSumBy(summaries, (s: Summary) => FactRate(s.matched, s.total)) == MatchedShare(summaries)
    ensures RealSumBy(summaries, (s: Summary) => FactRate(s.unknown, s.total)) == UnknownShare(summaries)
  {
    if |summaries| > 0 {
      var n := |summaries| - 1;
      assert summaries[n] in summaries;
      SharesAreRates(summaries[..n]);
    }
  }

  /** The advisory gate passes exactly when there are summaries, each over at least eight facts, with 78 per cent of
      them matched and at most 5 per cent unknown on average; a summary without facts always fails it. */
  lemma {:induction false} SanityExactly(summaries: seq<Summary>)
    ensures SanityGate(summaries)
       <==> && |summaries| > 0 && (forall s :: s in summaries ==> s.total >= 8)
            && MatchedShare(summaries) >= 0.78 * |summaries| as real
            && UnknownShare(summaries) <= 0.05 * |summaries| as real
  {
    if |summaries| > 0 {
      SmallestIsSmallest(summaries);
      if forall s :: s in summaries ==> s.total >= 8 {
        var n := |summaries| as real;
        SharesAreRates(summaries);
        QuotientTimes(MatchedShare(summaries), n);
        QuotientTimes(UnknownShare(summaries), n);
        TimesSign(n, MatchedShare(summaries) / n - 0.78);
        TimesSign(n, 0.05 - UnknownShare(summaries) / n);
        TimesMinus(n, MatchedShare(summaries) / n, 0.78);
        TimesMinus(n, 0.05, UnknownShare(summaries) / n);
      }
    }
  }

  // ---- What the Wilcoxon gate demands of small samples ----

  lemma FractionAtMost(a: real, n: real, k: real, bound: real)
    requires n > 0.0 && k > 0.0 && k * bound == 1.0
    ensures a / n <= bound <==> k * a <= n
  {
    QuotientTimes(a, n);
    assert Times(n, bound - a / n) == Times(n, bound) - a;
    TimesSign(n, bound - a / n);
    assert Times(k, Times(n, bound) - a) == (k * bound) * n - k * a;
    TimesSign(k, Times(n, bound) - a);
  }

  lemma {:induction false} PThresholdCounts(nz: seq<real>, mode: Mode)
    ensures ExactP(nz) <= PThreshold(mode)
       <==> (if mode.Full? then 20 else 10) * Favourable(nz) <= Pow2(|nz|)
  {
    FractionAtMost(Favourable(nz) as real, Pow2(|nz|) as real, if mode.Full? then 20.0 else 10.0, PThreshold(mode));
  }

  lemma {:induction false} Pow2Below(n: nat, k: nat)
    requires n <= k
    ensures Pow2(n) <= Pow2(k)
    decreases k
  {
    if n < k {
      Pow2Below(n, k - 1);
    }
  }

  /** No data at all passes with fewer than 4 non-zero pairs in smoke mode, or fewer than 5 in full mode. */
  lemma {:induction false} TooFewPairsNeverPass(deltas: seq<real>, mode: Mode, approx: (real, nat) -> real)
    requires WilcoxonGate(deltas, mode, approx)
    ensures |NonZero(deltas)| >= if mode.Full? then 5 else 4
  {
    var nz := NonZero(deltas);
    var need := if mode.Full? then 5 else 4;
    assert Pow2(3) == 8 && Pow2(4) == 16;
    if 0 < |nz| < need {
      PThresholdCounts(nz, mode);
      WilcoxonLaws.NonZeroIsNonZero(deltas);
      WilcoxonLaws.FewestFavourable(nz);
      Pow2Below(|nz|, need - 1);
    }
  }

  /** At the smallest sample that can pass, it passes exactly when every pair is a win:
      4 pairs in smoke mode, and the script's default 5 pairs in full mode. */
  lemma {:induction false} SmallestSampleNeedsAllWins(deltas: seq<real>, mode: Mode, approx: (real, nat) -> real)
    requires |deltas| == if mode.Full? then 5 else 4
    ensures WilcoxonGate(deltas, mode, approx) <==> forall d :: d in deltas ==> d > 0.0
  {
    var nz := NonZero(deltas);
    assert Pow2(4) == 16 && Pow2(5) == 32;
    WilcoxonLaws.NonZeroIsNonZero(deltas);
    if |nz| == |deltas| {
      FilterKeepsAll(deltas, (d: real) => d != 0.0);
      WilcoxonLaws.FewestFavourable(nz);
      PThresholdCounts(nz, mode);
      assert WilcoxonGate(deltas, mode, approx) <==> Favourable(nz) == 1;
      assert forall i :: 0 <= i < |nz| ==> nz[i] in deltas;
    } else {
      if WilcoxonGate(deltas, mode, approx) {
        TooFewPairsNeverPass(deltas, mode, approx);
        assert false;
      }
      if forall d :: d in deltas ==> d > 0.0 {
        FilterWhole(deltas, (d: real) => d != 0.0);
        assert false;
      }
    }
  }

  lemma {:induction false} FilterKeepsAll<T>(s: seq<T>, p: T -> bool)
    requires |Filter(s, p)| == |s|
    ensures Filter(s, p) == s
  {
    if |s| > 0 {
      var n := |s| - 1;
      assert s == s[..n] + [s[n]];
      assert p(s[n]);
      FilterKeepsAll(s[..n], p);
    }
  }

  lemma {:induction false} FilterWhole<T>(s: seq<T>, p: T -> bool)
    requires forall x :: x in s ==> p(x)
    ensures Filter(s, p) == s
  {
    if |s| > 0 {
      var n := |s| - 1;
      assert s[n] in s && s == s[..n] + [s[n]];
      FilterWhole(s[..n], p);
    }
  }

  /** The gate is one-sided with room to spare: if it passes an exactly tested sample, the mirrored sample's
      p-value is above 0.9 (smoke) or 0.95 (full), so no experiment passes in both directions. */
  lemma {:induction false} MirroredSampleFails(deltas: seq<real>, mode: Mode, approx: (real, nat) -> real)
    requires |NonZero(deltas)| <= EXACT_LIMIT && WilcoxonGate(deltas, mode, approx)
    ensures PValue(WilcoxonLaws.Negated(deltas), approx) > 1.0 - PThreshold(mode)
    ensures !WilcoxonGate(WilcoxonLaws.Negated(deltas), mode, approx)
  {
    TooFewPairsNeverPass(deltas, mode, approx);
    WilcoxonLaws.PairedP(deltas, approx);
  }

  // ---- Cohen's dz without the square root ----

  lemma {:induction false} SumOfSquaresNonNegative(xs: seq<real>, m: real)
    ensures RealSumBy(xs, SquaredGap(m)) >= 0.0
  {
    if |xs| > 0 {
      SumOfSquaresNonNegative(xs[..|xs| - 1], m);
      TimesSelf(xs[|xs| - 1] - m);
    }
  }

  lemma QuotientAtLeast(m: real, sd: real, t: real)
    requires sd > 0.0
    ensures m / sd >= t <==> m >= Times(sd, t)
  {
    QuotientTimes(m, sd);
    assert Times(sd, t - m / sd) == Times(sd, t) - m;
    TimesSign(sd, t - m / sd);
  }

  /** The dz gate is a positive mean whose square reaches the threshold's share of the variance, zero variance
      included. */
  lemma DzGateSquared(deltas: seq<real>, mode: Mode, sqrt: real -> real)
    requires IsSquareRoot(sqrt) && |deltas| >= 2
    ensures var m, t := Mean(deltas), DzThreshold(mode);
            DzGate(deltas, mode, sqrt) <==> m > 0.0 && Times(m, m) >= Times(t * t, Variance(deltas))
  {
    var m, t, v := Mean(deltas), DzThreshold(mode), Variance(deltas);
    var n1 := (|deltas| - 1) as real;
    SumOfSquaresNonNegative(deltas, m);
    QuotientOrder(0.0, RealSumBy(deltas, SquaredGap(m)), n1);
    var sd := sqrt(v);
    TimesSelf(m);
    if sd > 0.0 {
      QuotientAtLeast(m, sd, t);
      TimesSign(sd, t);
      assert Times(Times(sd, t), Times(sd, t)) == Times(t * t, Times(sd, sd));
      if m > 0.0 {
        SquaresOrder(m, Times(sd, t));
      }
    }
  }

  function SquareSum(xs: seq<real>): real {
    if |xs| == 0 then 0.0 else SquareSum(xs[..|xs| - 1]) + xs[|xs| - 1] * xs[|xs| - 1]
  }

  lemma {:induction false} GapsBySquares(xs: seq<real>, m: real)
    ensures RealSumBy(xs, SquaredGap(m)) == SquareSum(xs) - 2.0 * Times(m, Sum(xs)) + Times(|xs| as real, m * m)
  {
    if |xs| > 0 {
      var n := |xs| - 1;
      GapsBySquares(xs[..n], m);
      TimesSum(m, Sum(xs[..n]), xs[n]);
      assert Times(m, xs[n]) == m * xs[n];
      assert Times(|xs| as real, m * m) == Times(n as real, m * m) + m * m;
      assert (xs[n] - m) * (xs[n] - m) == xs[n] * xs[n] - 2.0 * (m * xs[n]) + m * m;
    }
  }

  /** The variance is the sum of squares less n times the squared mean, over n - 1. */
  lemma {:induction false} VarianceBySquares(xs: seq<real>)
    requires |xs| >= 2
    ensures var n, m := |xs| as real, Mean(xs);
            Times(n - 1.0, Variance(xs)) == SquareSum(xs) - Times(n, m * m)
  {
    var n, m := |xs| as real, Mean(xs);
    GapsBySquares(xs, m);
    QuotientTimes(Sum(xs), n);
    QuotientTimes(RealSumBy(xs, SquaredGap(m)), n - 1.0);
    assert Times(m, Times(n, m)) == Times(n, m * m);
  }

  // ---- The t-table the script interpolates for five pairs ----

  function TTable(t: real): real {
    if t <= 0.0 then
      0.5 + (if -t * 0.1 <= 0.5 then -t * 0.1 else 0.5)
    else if t < 1.533 then 0.5 - t / 1.533 * 0.4
    else if t < 2.132 then 0.10 - (t - 1.533) / (2.132 - 1.533) * 0.05
    else if t < 2.776 then 0.05 - (t - 2.132) / (2.776 - 2.132) * 0.025
    else if t < 3.747 then 0.025 - (t - 2.776) / (3.747 - 2.776) * 0.015
    else 0.01
  }

  /** The table's own entries, the even odds at zero, and the pieces' midpoints. */
  lemma TTableEntries()
    ensures TTable(0.0) == 0.5 && TTable(1.533) == 0.10 && TTable(2.132) == 0.05 && TTable(2.776) == 0.025
    ensures TTable(3.747) == 0.01 && TTable(-5.0) == 1.0 && TTable(-2.0) == 0.7
    ensures TTable(0.7665) == 0.3 && TTable(1.8325) == 0.075 && TTable(2.454) == 0.0375 && TTable(3.2615) == 0.0175
  {
  }

  /** Across all six pieces a larger t never reports a larger p, and p stays between 0.01 and 1. */
  lemma TTableAntitone(t: real, u: real)
    requires t <= u
    ensures 0.01 <= TTable(u) <= TTable(t) <= 1.0
  {
  }
}
