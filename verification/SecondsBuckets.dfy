/** Aggregation of PASS@(k,T_seconds) across tasks: float keys are merged into epsilon buckets,
    averaged per bucket and reported in ascending order of the key. */
module SecondsBuckets {
  import opened Sequences

  datatype Sample = Sample(seconds: real, rate: real)
  datatype Bucket = Bucket(key: real, sum: real, count: nat)

  const EPSILON := 0.000001

  predicate Near(x: real, y: real) {
    -EPSILON < x - y < EPSILON
  }

  /** The first bucket, in creation order, whose key is within epsilon; the number of buckets when there is none. */
  function FirstNear(buckets: seq<Bucket>, seconds: real): (r: nat)
    ensures r <= |buckets|
    ensures r < |buckets| ==> Near(buckets[r].key, seconds)
    ensures forall i :: 0 <= i < r ==> !Near(buckets[i].key, seconds)
  {
    if |buckets| == 0 then 0
    else if Near(buckets[0].key, seconds) then 0
    else 1 + FirstNear(buckets[1..], seconds)
  }

  /** Add the rate to the bucket found, or open a new one. */
  function AddSample(buckets: seq<Bucket>, s: Sample): seq<Bucket> {
    var b := FirstNear(buckets, s.seconds);
    if b < |buckets| then
      buckets[b := Bucket(buckets[b].key, buckets[b].sum + s.rate, buckets[b].count + 1)]
    else buckets + [Bucket(s.seconds, s.rate, 1)]
  }

  function Bucketize(samples: seq<Sample>): seq<Bucket> {
    if |samples| == 0 then []
    else AddSample(Bucketize(samples[..|samples| - 1]), samples[|samples| - 1])
  }

  function Flatten(tasks: seq<seq<Sample>>): seq<Sample> {
    if |tasks| == 0 then [] else Flatten(tasks[..|tasks| - 1]) + tasks[|tasks| - 1]
  }

  predicate ByKey(x: Bucket, y: Bucket) {
    x.key <= y.key
  }

  predicate WellCounted(buckets: seq<Bucket>) {
    forall i :: 0 <= i < |buckets| ==> buckets[i].count > 0
  }

  function Means(buckets: seq<Bucket>): (r: seq<(real, real)>)
    requires WellCounted(buckets)
    ensures |r| == |buckets|
  {
    seq(|buckets|, i requires 0 <= i < |buckets| => (buckets[i].key, buckets[i].sum / buckets[i].count as real))
  }

  /** The buckets in reporting order. */
  function Ordered(samples: seq<Sample>): seq<Bucket> {
    StableSort(Bucketize(samples), ByKey)
  }

  // ---- Each final bucket holds exactly the samples whose first near key it is ----

  function RateSum(samples: seq<Sample>): real {
    RealSumBy(samples, (s: Sample) => s.rate)
  }

  /** The samples that the bucket list `buckets` would send to its `b`-th bucket. */
  function Owned(samples: seq<Sample>, buckets: seq<Bucket>, b: nat): seq<Sample> {
    if |samples| == 0 then []
    else
      var n := |samples| - 1;
      Owned(samples[..n], buckets, b) + (if FirstNear(buckets, samples[n].seconds) == b then [samples[n]] else [])
  }

  ghost predicate Grouped(samples: seq<Sample>, buckets: seq<Bucket>) {
    forall b :: 0 <= b < |buckets| ==>
      && buckets[b].count == |Owned(samples, buckets, b)|
      && buckets[b].sum == RateSum(Owned(samples, buckets, b))
  }

  ghost predicate Separated(buckets: seq<Bucket>) {
    forall i, j :: 0 <= i < j < |buckets| ==> !Near(buckets[i].key, buckets[j].key)
  }

  ghost predicate Covers(buckets: seq<Bucket>, samples: seq<Sample>) {
    forall i :: 0 <= i < |samples| ==> FirstNear(buckets, samples[i].seconds) < |buckets|
  }

  /** Only the keys decide where a sample goes, and appending a bucket does not move covered samples. */
  lemma {:induction false} FirstNearStable(before: seq<Bucket>, after: seq<Bucket>, seconds: real)
    requires |before| <= |after| && forall i :: 0 <= i < |before| ==> before[i].key == after[i].key
    ensures FirstNear(before, seconds) < |before| ==> FirstNear(after, seconds) == FirstNear(before, seconds)
    ensures FirstNear(before, seconds) == |before| ==> FirstNear(after, seconds) >= |before|
  {
    if |before| > 0 && !Near(before[0].key, seconds) {
      FirstNearStable(before[1..], after[1..], seconds);
    }
  }

  lemma {:induction false} OwnedStable(samples: seq<Sample>, before: seq<Bucket>, after: seq<Bucket>, b: nat)
    requires |before| <= |after| && forall i :: 0 <= i < |before| ==> before[i].key == after[i].key
    requires Covers(before, samples)
    ensures Owned(samples, after, b) == Owned(samples, before, b)
    ensures b >= |before| ==> Owned(samples, before, b) == []
  {
    if |samples| > 0 {
      var n := |samples| - 1;
      OwnedStable(samples[..n], before, after, b);
      assert FirstNear(before, samples[n].seconds) < |before|;
      FirstNearStable(before, after, samples[n].seconds);
    }
  }

  lemma {:induction false} RateSumAppend(samples: seq<Sample>, s: Sample)
    ensures RateSum(samples + [s]) == RateSum(samples) + s.rate
  {
    assert (samples + [s])[..|samples|] == samples;
  }

  /** What the pass over the samples maintains. */
  ghost predicate Faithful(samples: seq<Sample>, buckets: seq<Bucket>) {
    Separated(buckets) && Covers(buckets, samples) && Grouped(samples, buckets)
  }

  lemma {:induction false} AddSampleCovers(samples: seq<Sample>, buckets: seq<Bucket>, s: Sample)
    requires Covers(buckets, samples)
    ensures Covers(AddSample(buckets, s), samples + [s])
    ensures FirstNear(AddSample(buckets, s), s.seconds) == FirstNear(buckets, s.seconds)
  {
    var after, all := AddSample(buckets, s), samples + [s];
    FirstNearStable(buckets, after, s.seconds);
    assert |after| > |buckets| ==> Near(after[|buckets|].key, s.seconds);
    forall i | 0 <= i < |all| ensures FirstNear(after, all[i].seconds) < |after| {
      if i < |samples| {
        assert FirstNear(buckets, samples[i].seconds) < |buckets|;
        FirstNearStable(buckets, after, samples[i].seconds);
      }
    }
  }

  lemma {:induction false} AddSampleGroups(samples: seq<Sample>, buckets: seq<Bucket>, s: Sample, c: nat)
    requires Covers(buckets, samples) && Grouped(samples, buckets) && c < |AddSample(buckets, s)|
    ensures var after, mine := AddSample(buckets, s), Owned(samples + [s], AddSample(buckets, s), c);
            after[c].count == |mine| && after[c].sum == RateSum(mine)
  {
    var after, all := AddSample(buckets, s), samples + [s];
    var owned := Owned(samples, buckets, c);
    assert all[..|samples|] == samples;
    AddSampleCovers(samples, buckets, s);
    OwnedStable(samples, buckets, after, c);
    assert Owned(all, after, c) == owned + (if FirstNear(buckets, s.seconds) == c then [s] else []);
    if FirstNear(buckets, s.seconds) == c {
      RateSumAppend(owned, s);
    } else {
      assert owned + [] == owned;
    }
  }

  lemma {:induction false} AddSampleKeepsFaithful(samples: seq<Sample>, buckets: seq<Bucket>, s: Sample)
    requires Faithful(samples, buckets)
    ensures Faithful(samples + [s], AddSample(buckets, s))
  {
    AddSampleCovers(samples, buckets, s);
    forall c | 0 <= c < |AddSample(buckets, s)|
      ensures AddSample(buckets, s)[c].count == |Owned(samples + [s], AddSample(buckets, s), c)|
      ensures AddSample(buckets, s)[c].sum == RateSum(Owned(samples + [s], AddSample(buckets, s), c))
    {
      AddSampleGroups(samples, buckets, s, c);
    }
  }

  /** After all samples: keys at least epsilon apart, every sample within epsilon of its bucket's key, and each
      bucket's sum and count are exactly those of the samples whose first near key it is, in any arrival order. */
  lemma {:induction false} BucketizeFaithful(samples: seq<Sample>)
    ensures Faithful(samples, Bucketize(samples))
  {
    if |samples| > 0 {
      var n := |samples| - 1;
      BucketizeFaithful(samples[..n]);
      AddSampleKeepsFaithful(samples[..n], Bucketize(samples[..n]), samples[n]);
      assert samples[..n] + [samples[n]] == samples;
    }
  }

  // ---- Conservation ----

  function BucketSums(buckets: seq<Bucket>): real {
    RealSumBy(buckets, (b: Bucket) => b.sum)
  }

  function BucketCounts(buckets: seq<Bucket>): nat {
    SumBy(buckets, (b: Bucket) => b.count)
  }

  lemma {:induction false} UpdateTotals(buckets: seq<Bucket>, b: nat, rate: real)
    requires b < |buckets|
    ensures var after := buckets[b := Bucket(buckets[b].key, buckets[b].sum + rate, buckets[b].count + 1)];
            && BucketSums(after) == BucketSums(buckets) + rate
            && BucketCounts(after) == BucketCounts(buckets) + 1
  {
    var n := |buckets| - 1;
    var after := buckets[b := Bucket(buckets[b].key, buckets[b].sum + rate, buckets[b].count + 1)];
    if b < n {
      UpdateTotals(buckets[..n], b, rate);
      assert after[..n] == buckets[..n][b := after[b]];
    } else {
      assert after[..n] == buckets[..n];
    }
  }

  lemma {:induction false} AddSampleTotals(buckets: seq<Bucket>, s: Sample)
    ensures BucketSums(AddSample(buckets, s)) == BucketSums(buckets) + s.rate
    ensures BucketCounts(AddSample(buckets, s)) == BucketCounts(buckets) + 1
  {
    var b := FirstNear(buckets, s.seconds);
    if b < |buckets| {
      UpdateTotals(buckets, b, s.rate);
    } else {
      assert AddSample(buckets, s)[..|buckets|] == buckets;
    }
  }

  lemma {:induction false} BucketizeTotals(samples: seq<Sample>)
    ensures BucketSums(Bucketize(samples)) == RateSum(samples)
    ensures BucketCounts(Bucketize(samples)) == |samples|
    ensures WellCounted(Bucketize(samples))
  {
    if |samples| > 0 {
      BucketizeTotals(samples[..|samples| - 1]);
      AddSampleTotals(Bucketize(samples[..|samples| - 1]), samples[|samples| - 1]);
    }
  }

  lemma {:induction false} InsertTotals(buckets: seq<Bucket>, b: Bucket)
    ensures BucketSums(InsertAfterEquals(buckets, b, ByKey)) == BucketSums(buckets) + b.sum
    ensures BucketCounts(InsertAfterEquals(buckets, b, ByKey)) == BucketCounts(buckets) + b.count
  {
    var r := InsertAfterEquals(buckets, b, ByKey);
    if |buckets| > 0 && !ByKey(buckets[|buckets| - 1], b) {
      InsertTotals(buckets[..|buckets| - 1], b);
    }
    if |buckets| > 0 {
      assert r[..|r| - 1] == if ByKey(buckets[|buckets| - 1], b) then buckets
                             else InsertAfterEquals(buckets[..|buckets| - 1], b, ByKey);
    }
  }

  lemma {:induction false} SortTotals(buckets: seq<Bucket>)
    ensures BucketSums(StableSort(buckets, ByKey)) == BucketSums(buckets)
    ensures BucketCounts(StableSort(buckets, ByKey)) == BucketCounts(buckets)
  {
    if |buckets| > 0 {
      SortTotals(buckets[..|buckets| - 1]);
      InsertTotals(StableSort(buckets[..|buckets| - 1], ByKey), buckets[|buckets| - 1]);
    }
  }

  function Weighted(means: seq<(real, real)>, buckets: seq<Bucket>): real
    requires |means| == |buckets|
  {
    if |means| == 0 then 0.0
    else
      var n := |means| - 1;
      Weighted(means[..n], buckets[..n]) + buckets[n].count as real * means[n].1
  }

  lemma {:induction false} WeightedMeans(buckets: seq<Bucket>)
    requires WellCounted(buckets)
    ensures Weighted(Means(buckets), buckets) == BucketSums(buckets)
  {
    if |buckets| > 0 {
      var n := |buckets| - 1;
      WeightedMeans(buckets[..n]);
      assert Means(buckets)[..n] == Means(buckets[..n]);
      assert buckets[n].count as real * (buckets[n].sum / buckets[n].count as real) == buckets[n].sum;
    }
  }

  lemma OrderedWellCounted(samples: seq<Sample>)
    ensures WellCounted(Ordered(samples))
  {
    BucketizeTotals(samples);
    SortKeepsMembers(Bucketize(samples), ByKey);
    forall i | 0 <= i < |Ordered(samples)| ensures Ordered(samples)[i].count > 0 {
      assert Ordered(samples)[i] in Ordered(samples);
    }
  }

  /** The reported means, weighted by their bucket counts, add up to every input rate; the counts to every sample. */
  lemma {:induction false} NothingLost(samples: seq<Sample>)
    ensures WellCounted(Ordered(samples))
    ensures Weighted(Means(Ordered(samples)), Ordered(samples)) == RateSum(samples)
    ensures BucketCounts(Ordered(samples)) == |samples|
  {
    OrderedWellCounted(samples);
    BucketizeTotals(samples);
    SortTotals(Bucketize(samples));
    WeightedMeans(Ordered(samples));
  }

  /** The report is strictly ascending, neighbouring keys at least epsilon apart. */
  lemma {:induction false} ReportAscending(samples: seq<Sample>)
    ensures forall i, j :: 0 <= i < j < |Ordered(samples)| ==>
              Ordered(samples)[j].key - Ordered(samples)[i].key >= EPSILON
  {
    var buckets, sorted := Bucketize(samples), Ordered(samples);
    BucketizeFaithful(samples);
    StableSortSorts(buckets, ByKey);
    forall i, j | 0 <= i < j < |sorted| ensures sorted[j].key - sorted[i].key >= EPSILON {
      assert ByKey(sorted[i], sorted[j]);
      TwoPlaces(buckets, sorted, i, j);
    }
  }

  lemma {:induction false} TwoPlaces(buckets: seq<Bucket>, sorted: seq<Bucket>, i: nat, j: nat)
    requires multiset(buckets) == multiset(sorted) && i < j < |sorted| && Separated(buckets)
    ensures !Near(sorted[i].key, sorted[j].key)
  {
    assert NoRepeats(buckets);
    PermutationDistinct(buckets, sorted);
    assert sorted[i] in multiset(buckets) && sorted[j] in multiset(buckets);
    var a :| 0 <= a < |buckets| && buckets[a] == sorted[i];
    var c :| 0 <= c < |buckets| && buckets[c] == sorted[j];
    assert a < c ==> !Near(buckets[a].key, buckets[c].key);
    assert c < a ==> !Near(buckets[c].key, buckets[a].key);
  }

  ghost predicate KeyNear(buckets: seq<Bucket>, s: Sample) {
    exists i :: 0 <= i < |buckets| && Near(buckets[i].key, s.seconds)
  }

  lemma {:induction false} NearAfterSort(buckets: seq<Bucket>, s: Sample)
    requires FirstNear(buckets, s.seconds) < |buckets|
    ensures KeyNear(StableSort(buckets, ByKey), s)
  {
    var mine, sorted := buckets[FirstNear(buckets, s.seconds)], StableSort(buckets, ByKey);
    SortKeepsMembers(buckets, ByKey);
    assert mine in sorted;
    var i :| 0 <= i < |sorted| && sorted[i] == mine;
  }

  /** Every sample is within epsilon of a reported key. */
  lemma {:induction false} ReportCovers(samples: seq<Sample>)
    ensures forall s :: s in samples ==> KeyNear(Ordered(samples), s)
  {
    BucketizeFaithful(samples);
    forall s | s in samples ensures KeyNear(Ordered(samples), s) {
      var k :| 0 <= k < |samples| && samples[k] == s;
      NearAfterSort(Bucketize(samples), s);
    }
  }

  /** Keys rise by at least a millionth of a second. */
  ghost predicate Apart(report: seq<(real, real)>) {
    forall i, j :: 0 <= i < j < |report| ==> report[j].0 - report[i].0 >= 0.000001
  }

  /** Some key is within a millionth of the sample's seconds. */
  ghost predicate Reported(report: seq<(real, real)>, s: Sample) {
    exists i :: 0 <= i < |report| && -0.000001 < report[i].0 - s.seconds < 0.000001
  }

  lemma {:induction false} ReportFacts(samples: seq<Sample>)
    ensures WellCounted(Ordered(samples)) && Apart(Means(Ordered(samples)))
    ensures forall s :: s in samples ==> Reported(Means(Ordered(samples)), s)
  {
    OrderedWellCounted(samples);
    ReportAscending(samples);
    ReportCovers(samples);
    var report := Means(Ordered(samples));
    forall s | s in samples ensures Reported(report, s) {
      var i :| 0 <= i < |Ordered(samples)| && Near(Ordered(samples)[i].key, s.seconds);
      assert report[i].0 == Ordered(samples)[i].key;
    }
  }

  // ---- The aggregation loop ----

  lemma FlattenNext(tasks: seq<seq<Sample>>, t: nat, i: nat)
    requires t < |tasks| && i < |tasks[t]|
    ensures var seen := Flatten(tasks[..t]) + tasks[t][..i];
            Flatten(tasks[..t]) + tasks[t][..i + 1] == seen + [tasks[t][i]]
  {
    TakeNext(tasks[t], i);
  }

  lemma {:induction false} BucketizeNext(seen: seq<Sample>, s: Sample)
    ensures Bucketize(seen + [s]) == AddSample(Bucketize(seen), s)
  {
    assert (seen + [s])[..|seen|] == seen;
  }

  method CompositePassAtKSeconds(tasks: seq<seq<Sample>>) returns (report: seq<(real, real)>)
    ensures WellCounted(Ordered(Flatten(tasks)))
    ensures report == Means(Ordered(Flatten(tasks)))
    ensures Apart(report) && forall s :: s in Flatten(tasks) ==> Reported(report, s)
  {
    ReportFacts(Flatten(tasks));
    OrderedWellCounted(Flatten(tasks));
    if |tasks| == 0 {
      return [];
    }
    var buckets: seq<Bucket> := [];
    for t := 0 to |tasks|
      invariant buckets == Bucketize(Flatten(tasks[..t]))
    {
      assert Flatten(tasks[..t]) + tasks[t][..0] == Flatten(tasks[..t]);
      for i := 0 to |tasks[t]|
        invariant buckets == Bucketize(Flatten(tasks[..t]) + tasks[t][..i])
      {
        FlattenNext(tasks, t, i);
        BucketizeNext(Flatten(tasks[..t]) + tasks[t][..i], tasks[t][i]);
        buckets := AddSample(buckets, tasks[t][i]);
      }
      TakeNext(tasks, t);
      assert tasks[t][..|tasks[t]|] == tasks[t];
    }
    assert tasks[..|tasks|] == tasks;
    report := Means(StableSort(buckets, ByKey));
  }
}
