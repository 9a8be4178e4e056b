/** Repeated-run metrics: pass rate, longest passing streak and PASS@(k,T). */
module PassMetrics {
  import opened Sequences
  import opened Reals

  function Passes(scores: seq<real>, threshold: real): (r: seq<bool>)
    ensures |r| == |scores|
  {
    seq(|scores|, i requires 0 <= i < |scores| => scores[i] >= threshold)
  }

  function PassCount(passes: seq<bool>): nat {
    CountIf(passes, (p: bool) => p)
  }

  // ---- The longest passing streak ----

  ghost predicate PassingRun(passes: seq<bool>, from: nat, to: nat) {
    from <= to <= |passes| && forall i :: from <= i < to ==> passes[i]
  }

  ghost predicate LongestRun(length: nat, passes: seq<bool>) {
    && (exists from: nat, to: nat :: PassingRun(passes, from, to) && to - from == length)
    && (forall from: nat, to: nat :: PassingRun(passes, from, to) ==> to - from <= length)
  }

  /** The passing run that ends the sequence. */
  function Trailing(passes: seq<bool>): nat {
    if |passes| == 0 || !passes[|passes| - 1] then 0 else Trailing(passes[..|passes| - 1]) + 1
  }

  function Longest(passes: seq<bool>): nat {
    if |passes| == 0 then 0
    else
      var before, here := Longest(passes[..|passes| - 1]), Trailing(passes);
      if before >= here then before else here
  }

  lemma {:induction false} TrailingIsMaximal(passes: seq<bool>)
    ensures Trailing(passes) <= |passes|
    ensures PassingRun(passes, |passes| - Trailing(passes), |passes|)
    ensures forall from: nat :: PassingRun(passes, from, |passes|) ==> |passes| - from <= Trailing(passes)
  {
    if |passes| > 0 && passes[|passes| - 1] {
      var front := passes[..|passes| - 1];
      TrailingIsMaximal(front);
      forall from: nat | PassingRun(passes, from, |passes|) ensures |passes| - from <= Trailing(passes) {
        if from < |passes| {
          assert PassingRun(front, from, |front|);
        }
      }
    }
  }

  lemma {:induction false} LongestIsLongest(passes: seq<bool>)
    ensures LongestRun(Longest(passes), passes)
  {
    TrailingIsMaximal(passes);
    if |passes| == 0 {
      assert PassingRun(passes, 0, 0);
    } else {
      var front := passes[..|passes| - 1];
      LongestIsLongest(front);
      var from: nat, to: nat :| PassingRun(front, from, to) && to - from == Longest(front);
      assert PassingRun(passes, from, to);
      forall from: nat, to: nat | PassingRun(passes, from, to) ensures to - from <= Longest(passes) {
        if to < |passes| {
          assert PassingRun(front, from, to);
        }
      }
    }
  }

  /** The streak scan over the runs of a task. */
  method LongestStreak(passes: seq<bool>) returns (maxStreak: nat)
    ensures LongestRun(maxStreak, passes)
    ensures maxStreak == Longest(passes)
  {
    var currentStreak := 0;
    maxStreak := 0;
    for i := 0 to |passes|
      invariant currentStreak == Trailing(passes[..i]) && maxStreak == Longest(passes[..i])
    {
      TakeNext(passes, i);
      if passes[i] {
        currentStreak := currentStreak + 1;
        maxStreak := if maxStreak >= currentStreak then maxStreak else currentStreak;
      } else {
        currentStreak := 0;
      }
    }
    assert passes[..|passes|] == passes;
    LongestIsLongest(passes);
  }

  lemma ProductMonotone(x: nat, y: nat, k: nat)
    requires x <= y
    ensures x * k <= y * k
  {
  }

  /** Every failure closes at most one longest streak's worth of passes. */
  lemma {:induction false} FailuresSeparateStreaks(passes: seq<bool>)
    ensures PassCount(passes) <= Longest(passes) * (|passes| - PassCount(passes)) + Trailing(passes)
    ensures Trailing(passes) <= Longest(passes) <= PassCount(passes)
    ensures Trailing(passes) <= PassCount(passes)
  {
    if |passes| > 0 {
      var front := passes[..|passes| - 1];
      FailuresSeparateStreaks(front);
      var fails := |front| - PassCount(front);
      ProductMonotone(Longest(front), Longest(passes), fails);
      assert Longest(passes) * (fails + 1) == Longest(passes) * fails + Longest(passes);
    }
  }

  /** A streak cannot exceed the passes, and k runs with p passes cannot avoid a streak of p / (k - p + 1). */
  lemma {:induction false} StreakPigeonhole(passes: seq<bool>)
    ensures var k, p := |passes|, PassCount(passes);
            Longest(passes) <= p && Longest(passes) * (k - p + 1) >= p
  {
    FailuresSeparateStreaks(passes);
    var fails := |passes| - PassCount(passes);
    assert Longest(passes) * (fails + 1) == Longest(passes) * fails + Longest(passes);
  }

  // ---- The two rates ----

  function Rate(count: nat, k: nat): real {
    if k == 0 then 0.0 else count as real / k as real
  }

  function PassAtK(scores: seq<real>, threshold: real): real {
    Rate(PassCount(Passes(scores, threshold)), |scores|)
  }

  function PassConsecutiveK(scores: seq<real>, threshold: real): real {
    Rate(Longest(Passes(scores, threshold)), |scores|)
  }

  lemma RateOrder(a: nat, b: nat, k: nat)
    requires k > 0
    ensures Rate(a, k) <= Rate(b, k) <==> a <= b
    ensures Rate(a, k) == Rate(b, k) <==> a == b
    ensures Rate(k, k) == 1.0
    ensures 0.0 <= Rate(a, k)
  {
    QuotientOrder(a as real, b as real, k as real);
    QuotientOrder(0.0, a as real, k as real);
  }

  /** The streak rate never exceeds the pass rate, both are in [0,1], and they reach 1 together; without runs both
      are 0. */
  lemma {:induction false} RatesAgreeAtOne(scores: seq<real>, threshold: real)
    ensures |scores| == 0 ==> PassConsecutiveK(scores, threshold) == PassAtK(scores, threshold) == 0.0
    ensures 0.0 <= PassConsecutiveK(scores, threshold) <= PassAtK(scores, threshold) <= 1.0
    ensures PassConsecutiveK(scores, threshold) == 1.0 <==> PassAtK(scores, threshold) == 1.0
  {
    var passes, k := Passes(scores, threshold), |scores|;
    var p, longest := PassCount(passes), Longest(passes);
    if k > 0 {
      StreakPigeonhole(passes);
      RateOrder(longest, p, k);
      RateOrder(p, k, k);
      RateOrder(longest, k, k);
      if p == k {
        assert longest * (k - p + 1) == longest;
      }
    }
  }

  // ---- PASS@(k,T) over any cost axis: steps or seconds ----

  /** How many runs pass at a cost that `within` admits. */
  function PassWithin<C>(scores: seq<real>, costs: seq<C>, threshold: real, within: C -> bool): nat
    requires |scores| == |costs|
  {
    if |scores| == 0 then 0
    else
      var n := |scores| - 1;
      PassWithin(scores[..n], costs[..n], threshold, within)
        + (if scores[n] >= threshold && within(costs[n]) then 1 else 0)
  }

  function UpToSteps(t: nat): nat -> bool {
    (c: nat) => c <= t
  }

  function UpToSeconds(t: real): real -> bool {
    (c: real) => c <= t
  }

  function PassAtKSteps(scores: seq<real>, iterations: seq<nat>, threshold: real,
                        thresholds: seq<nat>): seq<(nat, real)>
  {
    if |scores| == 0 || |iterations| != |scores| then []
    else
      seq(|thresholds|, i requires 0 <= i < |thresholds| =>
        (thresholds[i], Rate(PassWithin(scores, iterations, threshold, UpToSteps(thresholds[i])), |scores|)))
  }

  function PassAtKSeconds(scores: seq<real>, durations: seq<real>, threshold: real,
                          thresholds: seq<real>): seq<(real, real)>
  {
    if |scores| == 0 || |durations| != |scores| then []
    else
      seq(|thresholds|, i requires 0 <= i < |thresholds| =>
        (thresholds[i], Rate(PassWithin(scores, durations, threshold, UpToSeconds(thresholds[i])), |scores|)))
  }

  lemma {:induction false} PassWithinMonotone<C>(scores: seq<real>, costs: seq<C>, threshold: real, w: C -> bool,
                                                 w': C -> bool)
    requires |scores| == |costs| && forall c :: c in costs ==> w(c) ==> w'(c)
    ensures PassWithin(scores, costs, threshold, w) <= PassWithin(scores, costs, threshold, w')
  {
    if |scores| > 0 {
      var n := |scores| - 1;
      assert costs[n] in costs;
      PassWithinMonotone(scores[..n], costs[..n], threshold, w, w');
    }
  }

  ghost predicate CoversPasses<C>(scores: seq<real>, costs: seq<C>, threshold: real, w: C -> bool)
    requires |scores| == |costs|
  {
    forall i :: 0 <= i < |scores| && scores[i] >= threshold ==> w(costs[i])
  }

  lemma CoversNext<C>(scores: seq<real>, costs: seq<C>, threshold: real, w: C -> bool)
    requires |scores| == |costs| > 0
    ensures var n := |scores| - 1;
            CoversPasses(scores, costs, threshold, w)
            <==> CoversPasses(scores[..n], costs[..n], threshold, w) && (scores[n] >= threshold ==> w(costs[n]))
  {
    var n := |scores| - 1;
    assert forall i :: 0 <= i < n ==> scores[..n][i] == scores[i] && costs[..n][i] == costs[i];
  }

  /** No budget admits more passes than there are, and it admits all exactly when it covers every passing run. */
  lemma {:induction false} PassWithinBound<C>(scores: seq<real>, costs: seq<C>, threshold: real, w: C -> bool)
    requires |scores| == |costs|
    ensures PassWithin(scores, costs, threshold, w) <= PassCount(Passes(scores, threshold))
    ensures PassWithin(scores, costs, threshold, w) == PassCount(Passes(scores, threshold))
            <==> CoversPasses(scores, costs, threshold, w)
  {
    if |scores| > 0 {
      var n := |scores| - 1;
      PassWithinBound(scores[..n], costs[..n], threshold, w);
      assert Passes(scores, threshold)[..n] == Passes(scores[..n], threshold);
      CoversNext(scores, costs, threshold, w);
    }
  }

  /** PASS@(k,T) over steps: monotone in T, at most pass@k, and equal to it exactly when T covers every passing run. */
  lemma {:induction false} StepsCurve(scores: seq<real>, iterations: seq<nat>, threshold: real, ts: seq<nat>, i: nat,
                                      j: nat)
    requires |scores| == |iterations| > 0 && i < |ts| && j < |ts| && ts[i] <= ts[j]
    ensures var curve := PassAtKSteps(scores, iterations, threshold, ts);
            && curve[i].1 <= curve[j].1 <= PassAtK(scores, threshold)
            && (curve[j].1 == PassAtK(scores, threshold)
                <==> forall r :: 0 <= r < |scores| && scores[r] >= threshold ==> iterations[r] <= ts[j])
  {
    var k := |scores|;
    var a := PassWithin(scores, iterations, threshold, UpToSteps(ts[i]));
    var b := PassWithin(scores, iterations, threshold, UpToSteps(ts[j]));
    PassWithinMonotone(scores, iterations, threshold, UpToSteps(ts[i]), UpToSteps(ts[j]));
    PassWithinBound(scores, iterations, threshold, UpToSteps(ts[j]));
    RateOrder(a, b, k);
    RateOrder(b, PassCount(Passes(scores, threshold)), k);
  }

  /** The same curve over wall-clock seconds. */
  lemma {:induction false} SecondsCurve(scores: seq<real>, durations: seq<real>, threshold: real, ts: seq<real>,
                                        i: nat, j: nat)
    requires |scores| == |durations| > 0 && i < |ts| && j < |ts| && ts[i] <= ts[j]
    ensures var curve := PassAtKSeconds(scores, durations, threshold, ts);
            && curve[i].1 <= curve[j].1 <= PassAtK(scores, threshold)
            && (curve[j].1 == PassAtK(scores, threshold)
                <==> forall r :: 0 <= r < |scores| && scores[r] >= threshold ==> durations[r] <= ts[j])
  {
    var k := |scores|;
    var a := PassWithin(scores, durations, threshold, UpToSeconds(ts[i]));
    var b := PassWithin(scores, durations, threshold, UpToSeconds(ts[j]));
    PassWithinMonotone(scores, durations, threshold, UpToSeconds(ts[i]), UpToSeconds(ts[j]));
    PassWithinBound(scores, durations, threshold, UpToSeconds(ts[j]));
    RateOrder(a, b, k);
    RateOrder(b, PassCount(Passes(scores, threshold)), k);
  }

  // ---- The value of the curve ----

  /** The runs among the first `n` that pass within the budget. */
  function RunsWithin<C>(scores: seq<real>, costs: seq<C>, threshold: real, within: C -> bool, n: nat): set<nat>
    requires |scores| == |costs| && n <= |scores|
  {
    set r: nat | r < n && scores[r] >= threshold && within(costs[r])
  }

  lemma {:induction false} PassWithinCounts<C>(scores: seq<real>, costs: seq<C>, threshold: real, within: C -> bool)
    requires |scores| == |costs|
    ensures PassWithin(scores, costs, threshold, within) == |RunsWithin(scores, costs, threshold, within, |scores|)|
  {
    if |scores| > 0 {
      var n := |scores| - 1;
      PassWithinCounts(scores[..n], costs[..n], threshold, within);
      var before := RunsWithin(scores[..n], costs[..n], threshold, within, n);
      var all := RunsWithin(scores, costs, threshold, within, n + 1);
      assert all == before + (if scores[n] >= threshold && within(costs[n]) then {n} else {});
    }
  }

  /** Each point of the step curve is its threshold with the share of runs that pass within it, counted one by one. */
  lemma {:induction false} StepsValue(scores: seq<real>, iterations: seq<nat>, threshold: real, ts: seq<nat>, i: nat)
    requires |scores| == |iterations| > 0 && i < |ts|
    ensures var point := PassAtKSteps(scores, iterations, threshold, ts)[i];
            var within := set r: nat | r < |scores| && scores[r] >= threshold && iterations[r] <= ts[i];
            point.0 == ts[i] && Times(|scores| as real, point.1) == |within| as real
  {
    PassWithinCounts(scores, iterations, threshold, UpToSteps(ts[i]));
    var within := set r: nat | r < |scores| && scores[r] >= threshold && iterations[r] <= ts[i];
    assert within == RunsWithin(scores, iterations, threshold, UpToSteps(ts[i]), |scores|);
    QuotientTimes(|within| as real, |scores| as real);
  }

  lemma {:induction false} SecondsValue(scores: seq<real>, durations: seq<real>, threshold: real, ts: seq<real>, i: nat)
    requires |scores| == |durations| > 0 && i < |ts|
    ensures var point := PassAtKSeconds(scores, durations, threshold, ts)[i];
            var within := set r: nat | r < |scores| && scores[r] >= threshold && durations[r] <= ts[i];
            point.0 == ts[i] && Times(|scores| as real, point.1) == |within| as real
  {
    PassWithinCounts(scores, durations, threshold, UpToSeconds(ts[i]));
    var within := set r: nat | r < |scores| && scores[r] >= threshold && durations[r] <= ts[i];
    assert within == RunsWithin(scores, durations, threshold, UpToSeconds(ts[i]), |scores|);
    QuotientTimes(|within| as real, |scores| as real);
  }
}
