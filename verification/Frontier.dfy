/** The context-length axis: boundary parsing, bucket lookup and per-bucket means. */
module Frontier {
  import opened Sequences

  const DEFAULT_BUCKETS: seq<nat> := [2048, 4096, 8192]

  /** The environment variable: unset, blank, or comma-separated parts, each a number or not. */
  datatype Setting = Unset | Blank | Parts(parts: seq<Option<nat>>)

  ghost predicate StrictlyIncreasing(values: seq<nat>) {
    forall i, j :: 0 <= i < j < |values| ==> values[i] < values[j]
  }

  function Values(parts: seq<Option<nat>>): seq<nat>
    requires forall i :: 0 <= i < |parts| ==> parts[i].Some?
  {
    seq(|parts|, i requires 0 <= i < |parts| => parts[i].value)
  }

  /** Neighbours are compared, as the source's two-element windows do. */
  function ParseBuckets(raw: Setting): (r: seq<nat>)
    ensures |r| > 0
  {
    match raw
    case Unset => DEFAULT_BUCKETS
    case Blank => DEFAULT_BUCKETS
    case Parts(parts) =>
      if (exists i :: 0 <= i < |parts| && parts[i].None?) || |parts| == 0 then DEFAULT_BUCKETS
      else
        var values := Values(parts);
        if forall i :: 0 < i < |values| ==> values[i - 1] < values[i] then values else DEFAULT_BUCKETS
  }

  lemma {:induction false} NeighboursDecide(values: seq<nat>)
    requires forall i :: 0 < i < |values| ==> values[i - 1] < values[i]
    ensures StrictlyIncreasing(values)
  {
    if |values| > 1 {
      var n := |values| - 1;
      NeighboursDecide(values[..n]);
      forall i | 0 <= i < n ensures values[i] < values[n] {
        assert values[i] <= values[n - 1];
      }
    }
  }

  /** Whatever the environment holds, the boundaries come out strictly increasing; a well-formed list is kept as it
      is. */
  lemma {:induction false} ParsedBucketsIncrease(raw: Setting)
    ensures StrictlyIncreasing(ParseBuckets(raw))
    ensures raw.Parts? && |raw.parts| > 0 && (forall i :: 0 <= i < |raw.parts| ==> raw.parts[i].Some?)
              && StrictlyIncreasing(Values(raw.parts))
            ==> ParseBuckets(raw) == Values(raw.parts)
  {
    NeighboursDecide(ParseBuckets(raw));
  }

  // ---- Bucket lookup ----

  function FirstAbove(tokens: nat, boundaries: seq<nat>): (r: nat)
    ensures r <= |boundaries|
  {
    if |boundaries| == 0 || tokens < boundaries[0] then 0 else 1 + FirstAbove(tokens, boundaries[1..])
  }

  /** The index of the first boundary above the count, or one past the last. */
  function BucketFor(tokens: nat, boundaries: seq<nat>): Option<nat> {
    if |boundaries| == 0 then None else Some(FirstAbove(tokens, boundaries))
  }

  function Reached(tokens: nat, boundaries: seq<nat>): nat {
    CountIf(boundaries, (b: nat) => b <= tokens)
  }

  lemma {:induction false} ReachedNone(tokens: nat, boundaries: seq<nat>)
    requires forall i :: 0 <= i < |boundaries| ==> tokens < boundaries[i]
    ensures Reached(tokens, boundaries) == 0
  {
    if |boundaries| > 0 {
      ReachedNone(tokens, boundaries[..|boundaries| - 1]);
    }
  }

  /** Over increasing boundaries, scanning for the first one above a count is counting those it has reached. */
  lemma {:induction false} BucketIsCount(tokens: nat, boundaries: seq<nat>)
    requires StrictlyIncreasing(boundaries)
    ensures FirstAbove(tokens, boundaries) == Reached(tokens, boundaries)
    ensures BucketFor(tokens, boundaries) == if boundaries == [] then None else Some(Reached(tokens, boundaries))
  {
    if |boundaries| > 0 {
      if tokens < boundaries[0] {
        forall i | 0 <= i < |boundaries| ensures tokens < boundaries[i] {
          assert i > 0 ==> boundaries[0] < boundaries[i];
        }
        ReachedNone(tokens, boundaries);
      } else {
        BucketIsCount(tokens, boundaries[1..]);
        CountIfConcat([boundaries[0]], boundaries[1..], (b: nat) => b <= tokens);
        assert [boundaries[0]] + boundaries[1..] == boundaries;
        assert CountIf([boundaries[0]][..0], (b: nat) => b <= tokens) == 0;
      }
    }
  }

  lemma {:induction false} ReachedMonotone(t: nat, u: nat, boundaries: seq<nat>)
    requires t <= u
    ensures Reached(t, boundaries) <= Reached(u, boundaries)
  {
    if |boundaries| > 0 {
      ReachedMonotone(t, u, boundaries[..|boundaries| - 1]);
    }
  }

  /** A longer context never falls into a lower bucket. */
  lemma {:induction false} BucketMonotone(t: nat, u: nat, boundaries: seq<nat>)
    requires t <= u && StrictlyIncreasing(boundaries)
    ensures FirstAbove(t, boundaries) <= FirstAbove(u, boundaries)
  {
    BucketIsCount(t, boundaries);
    BucketIsCount(u, boundaries);
    ReachedMonotone(t, u, boundaries);
  }

  // ---- Per-bucket means ----

  datatype Result = Result(tokens: nat, score: real)

  function InBucket(results: seq<Result>, boundaries: seq<nat>, b: nat): seq<Result> {
    Filter(results, (r: Result) => FirstAbove(r.tokens, boundaries) == b)
  }

  function Total(results: seq<Result>): real {
    RealSumBy(results, (r: Result) => r.score)
  }

  lemma {:induction false} InBucketAppend(results: seq<Result>, boundaries: seq<nat>, r: Result, b: nat)
    ensures InBucket(results + [r], boundaries, b)
         == InBucket(results, boundaries, b) + (if FirstAbove(r.tokens, boundaries) == b then [r] else [])
  {
    assert (results + [r])[..|results|] == results;
  }

  lemma {:induction false} BucketTotalAppend(results: seq<Result>, boundaries: seq<nat>, r: Result, b: nat)
    ensures Total(InBucket(results + [r], boundaries, b))
         == Total(InBucket(results, boundaries, b)) + (if FirstAbove(r.tokens, boundaries) == b then r.score else 0.0)
  {
    var kept := InBucket(results, boundaries, b);
    InBucketAppend(results, boundaries, r, b);
    assert (kept + [r])[..|kept|] == kept;
    assert kept + [] == kept;
  }

  ghost predicate Accumulated(acc: map<nat, (real, nat)>, results: seq<Result>, boundaries: seq<nat>) {
    && (forall b: nat :: b in acc <==> |InBucket(results, boundaries, b)| > 0)
    && (forall b :: b in acc ==>
          acc[b] == (Total(InBucket(results, boundaries, b)), |InBucket(results, boundaries, b)|))
  }

  function Accumulate(acc: map<nat, (real, nat)>, bucket: nat, score: real): map<nat, (real, nat)> {
    var (sum, count) := if bucket in acc then acc[bucket] else (0.0, 0);
    acc[bucket := (sum + score, count + 1)]
  }

  lemma {:induction false} AccumulateNext(acc: map<nat, (real, nat)>, results: seq<Result>, boundaries: seq<nat>,
                                          r: Result)
    requires Accumulated(acc, results, boundaries)
    ensures Accumulated(Accumulate(acc, FirstAbove(r.tokens, boundaries), r.score), results + [r], boundaries)
  {
    var bucket := FirstAbove(r.tokens, boundaries);
    var next := Accumulate(acc, bucket, r.score);
    forall b: nat
      ensures b in next <==> |InBucket(results + [r], boundaries, b)| > 0
      ensures b in next ==>
                next[b] == (Total(InBucket(results + [r], boundaries, b)), |InBucket(results + [r], boundaries, b)|)
    {
      InBucketAppend(results, boundaries, r, b);
      BucketTotalAppend(results, boundaries, r, b);
      EmptyBucketTotal(results, boundaries, b);
    }
  }

  /** A bucket appears exactly when some result falls into it, with the mean of those results. */
  ghost predicate BucketMeans(means: map<nat, real>, results: seq<Result>, boundaries: seq<nat>) {
    && (forall b: nat :: b in means <==> |InBucket(results, boundaries, b)| > 0)
    && (forall b :: b in means ==>
          means[b] * |InBucket(results, boundaries, b)| as real == Total(InBucket(results, boundaries, b)))
  }

  function MeansOf(acc: map<nat, (real, nat)>): map<nat, real> {
    map b | b in acc && acc[b].1 > 0 :: acc[b].0 / acc[b].1 as real
  }

  lemma {:induction false} MeansOfAccumulated(acc: map<nat, (real, nat)>, results: seq<Result>, boundaries: seq<nat>)
    requires Accumulated(acc, results, boundaries)
    ensures BucketMeans(MeansOf(acc), results, boundaries)
  {
    forall b | b in MeansOf(acc)
      ensures MeansOf(acc)[b] * |InBucket(results, boundaries, b)| as real == Total(InBucket(results, boundaries, b))
    {
      QuotientBack(acc[b].0, acc[b].1);
    }
  }

  method ComputeBucketScores(results: seq<Result>, boundaries: seq<nat>) returns (means: map<nat, real>)
    ensures |boundaries| == 0 ==> means == map[]
    ensures |boundaries| > 0 ==> BucketMeans(means, results, boundaries)
  {
    if |results| == 0 || |boundaries| == 0 {
      return map[];
    }
    var acc: map<nat, (real, nat)> := map[];
    for i := 0 to |results|
      invariant Accumulated(acc, results[..i], boundaries)
    {
      TakeNext(results, i);
      AccumulateNext(acc, results[..i], boundaries, results[i]);
      acc := Accumulate(acc, FirstAbove(results[i].tokens, boundaries), results[i].score);
    }
    assert results[..|results|] == results;
    MeansOfAccumulated(acc, results, boundaries);
    means := MeansOf(acc);
  }

  lemma QuotientBack(sum: real, count: nat)
    requires count > 0
    ensures sum / count as real * count as real == sum
  {
  }

  lemma EmptyBucketTotal(results: seq<Result>, boundaries: seq<nat>, b: nat)
    ensures |InBucket(results, boundaries, b)| == 0 ==> Total(InBucket(results, boundaries, b)) == 0.0
  {
  }

  /** The sum over buckets 0..n of mean times count. */
  function WeightedMeans(means: map<nat, real>, results: seq<Result>, boundaries: seq<nat>, n: nat): real {
    if n == 0 then 0.0
    else
      WeightedMeans(means, results, boundaries, n - 1)
        + (if n - 1 in means then means[n - 1] * |InBucket(results, boundaries, n - 1)| as real else 0.0)
  }

  function BucketTotals(results: seq<Result>, boundaries: seq<nat>, n: nat): real {
    if n == 0 then 0.0 else BucketTotals(results, boundaries, n - 1) + Total(InBucket(results, boundaries, n - 1))
  }

  lemma BucketTotalsNext(results: seq<Result>, boundaries: seq<nat>, n: nat)
    requires n > 0
    ensures BucketTotals(results, boundaries, n)
         == BucketTotals(results, boundaries, n - 1) + Total(InBucket(results, boundaries, n - 1))
  {
  }

  lemma {:induction false} BucketTotalsAppend(results: seq<Result>, boundaries: seq<nat>, r: Result, n: nat)
    ensures BucketTotals(results + [r], boundaries, n)
         == BucketTotals(results, boundaries, n) + (if FirstAbove(r.tokens, boundaries) < n then r.score else 0.0)
  {
    if n > 0 {
      BucketTotalsAppend(results, boundaries, r, n - 1);
      BucketTotalAppend(results, boundaries, r, n - 1);
      BucketTotalsNext(results, boundaries, n);
      BucketTotalsNext(results + [r], boundaries, n);
    }
  }

  lemma {:induction false} BucketsHoldEverything(results: seq<Result>, boundaries: seq<nat>)
    ensures BucketTotals(results, boundaries, |boundaries| + 1) == Total(results)
  {
    if |results| == 0 {
      EmptyTotals(boundaries, |boundaries| + 1);
    } else {
      var front, r := results[..|results| - 1], results[|results| - 1];
      BucketsHoldEverything(front, boundaries);
      BucketTotalsAppend(front, boundaries, r, |boundaries| + 1);
      assert front + [r] == results;
    }
  }

  lemma {:induction false} EmptyTotals(boundaries: seq<nat>, n: nat)
    ensures BucketTotals([], boundaries, n) == 0.0
  {
    if n > 0 {
      EmptyTotals(boundaries, n - 1);
    }
  }

  lemma {:induction false} WeightedIsTotals(means: map<nat, real>, results: seq<Result>, boundaries: seq<nat>, n: nat)
    requires BucketMeans(means, results, boundaries)
    ensures WeightedMeans(means, results, boundaries, n) == BucketTotals(results, boundaries, n)
  {
    if n > 0 {
      WeightedIsTotals(means, results, boundaries, n - 1);
      EmptyBucketTotal(results, boundaries, n - 1);
      var b: nat := n - 1;
      assert b in means <==> |InBucket(results, boundaries, b)| > 0;
    }
  }

  /** Weighted by their bucket counts, the means add up to the total score, and no bucket lies past the last
      boundary. */
  lemma {:induction false} BucketScoresConserve(means: map<nat, real>, results: seq<Result>, boundaries: seq<nat>)
    requires BucketMeans(means, results, boundaries)
    ensures WeightedMeans(means, results, boundaries, |boundaries| + 1) == Total(results)
    ensures forall b :: b in means ==> b <= |boundaries|
  {
    WeightedIsTotals(means, results, boundaries, |boundaries| + 1);
    BucketsHoldEverything(results, boundaries);
    forall b | b in means ensures b <= |boundaries| {
      assert InBucket(results, boundaries, b)[0] in InBucket(results, boundaries, b);
    }
  }
}
