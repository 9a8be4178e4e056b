/** The exact one-sided Wilcoxon signed-rank test of the experiment scripts:
    average ranks with ties, enumeration of all 2^n sign masks, and the p-value. */
module Wilcoxon {
  import opened Sequences
  import opened Reals

  function Abs(x: real): real {
    if x < 0.0 then -x else x
  }

  function NonZero(deltas: seq<real>): seq<real> {
    Filter(deltas, (d: real) => d != 0.0)
  }

  // ---- Ranks ----

  function BelowAbs(v: real): real -> bool {
    d => Abs(d) < v
  }

  function EqualAbs(v: real): real -> bool {
    d => Abs(d) == v
  }

  /** The average of the 1-based positions a value of magnitude `v` takes in the ordering by magnitude. */
  function MidRank(nz: seq<real>, v: real): real {
    CountIf(nz, BelowAbs(v)) as real + (CountIf(nz, EqualAbs(v)) + 1) as real / 2.0
  }

  function Ranks(nz: seq<real>): (r: seq<real>)
    ensures |r| == |nz|
  {
    seq(|nz|, i requires 0 <= i < |nz| => MidRank(nz, Abs(nz[i])))
  }

  function Signs(nz: seq<real>): (r: seq<bool>)
    ensures |r| == |nz|
  {
    seq(|nz|, i requires 0 <= i < |nz| => nz[i] > 0.0)
  }

  /** The sum of the entries of `ranks` that `chosen` selects. */
  function Selected(ranks: seq<real>, chosen: seq<bool>): real
    requires |ranks| == |chosen|
  {
    if |ranks| == 0 then 0.0
    else
      var n := |ranks| - 1;
      Selected(ranks[..n], chosen[..n]) + (if chosen[n] then ranks[n] else 0.0)
  }

  function WPlus(nz: seq<real>): real {
    Selected(Ranks(nz), Signs(nz))
  }

  // ---- Sign masks ----

  function Pow2(n: nat): (r: nat)
    ensures r >= 1
  {
    if n == 0 then 1 else 2 * Pow2(n - 1)
  }

  /** Bit `i` of `mask`, shifting right one place at a time. */
  predicate Bit(mask: nat, i: nat) {
    if i == 0 then mask % 2 == 1 else Bit(mask / 2, i - 1)
  }

  function Bits(mask: nat, n: nat): (r: seq<bool>)
    ensures |r| == n
  {
    seq(n, i requires 0 <= i < n => Bit(mask, i))
  }

  function MaskSum(ranks: seq<real>, mask: nat): real {
    Selected(ranks, Bits(mask, |ranks|))
  }

  /** The rank sum of every mask, in the order the enumeration visits them. */
  function AllSums(ranks: seq<real>): (r: seq<real>)
    ensures |r| == Pow2(|ranks|)
  {
    seq(Pow2(|ranks|), m requires 0 <= m < Pow2(|ranks|) => MaskSum(ranks, m))
  }

  function AtLeast(w: real): real -> bool {
    x => x >= w
  }

  function Exactly(w: real): real -> bool {
    x => x == w
  }

  /** How many masks give a rank sum at least as large as the observed one. */
  function Favourable(nz: seq<real>): nat {
    CountIf(AllSums(Ranks(nz)), AtLeast(WPlus(nz)))
  }

  /** How many masks give exactly the observed rank sum. */
  function Tied(nz: seq<real>): nat {
    CountIf(AllSums(Ranks(nz)), Exactly(WPlus(nz)))
  }

  function ExactP(nz: seq<real>): real {
    Favourable(nz) as real / Pow2(|nz|) as real
  }

  const EXACT_LIMIT := 25

  /** The p-value the script reports; `approx` stands for its normal approximation beyond the exact limit. */
  function PValue(deltas: seq<real>, approx: (real, nat) -> real): real {
    var nz := NonZero(deltas);
    if |nz| == 0 then 0.5
    else if |nz| <= EXACT_LIMIT then ExactP(nz)
    else approx(WPlus(nz), |nz|)
  }

  // ---- The script's loops ----

  function InsertDistinct(sorted: seq<real>, x: real): seq<real> {
    if |sorted| == 0 then [x]
    else
      var n := |sorted| - 1;
      if sorted[n] < x then sorted + [x]
      else if sorted[n] == x then sorted
      else InsertDistinct(sorted[..n], x) + [sorted[n]]
  }

  /** `sorted(set(...))`: the distinct magnitudes in increasing order. */
  function Magnitudes(nz: seq<real>): seq<real> {
    if |nz| == 0 then [] else InsertDistinct(Magnitudes(nz[..|nz| - 1]), Abs(nz[|nz| - 1]))
  }

  ghost predicate Ascending(s: seq<real>) {
    forall i, j :: 0 <= i < j < |s| ==> s[i] < s[j]
  }

  lemma {:induction false} InsertDistinctInserts(sorted: seq<real>, x: real)
    requires Ascending(sorted)
    ensures Ascending(InsertDistinct(sorted, x))
    ensures forall y :: y in InsertDistinct(sorted, x) <==> y in sorted || y == x
  {
    if |sorted| > 0 {
      var n := |sorted| - 1;
      assert sorted == sorted[..n] + [sorted[n]];
      if sorted[n] > x {
        InsertDistinctInserts(sorted[..n], x);
        var front := InsertDistinct(sorted[..n], x);
        forall i | 0 <= i < |front| ensures front[i] < sorted[n] {
          assert front[i] in front;
        }
      }
    }
  }

  lemma {:induction false} MagnitudesSorted(nz: seq<real>)
    ensures Ascending(Magnitudes(nz))
    ensures forall y :: y in Magnitudes(nz) <==> exists d :: d in nz && Abs(d) == y
  {
    if |nz| > 0 {
      var n := |nz| - 1;
      MagnitudesSorted(nz[..n]);
      InsertDistinctInserts(Magnitudes(nz[..n]), Abs(nz[n]));
      assert nz == nz[..n] + [nz[n]];
    }
  }

  /** Walking the distinct magnitudes, everything below the next one is what was below this one plus its ties. */
  lemma {:induction false} CountBelowNext(nz: seq<real>, v: real, next: real)
    requires v < next && forall d :: d in nz ==> (Abs(d) < next <==> Abs(d) <= v)
    ensures CountIf(nz, BelowAbs(next)) == CountIf(nz, BelowAbs(v)) + CountIf(nz, EqualAbs(v))
  {
    if |nz| > 0 {
      assert nz == nz[..|nz| - 1] + [nz[|nz| - 1]];
      CountBelowNext(nz[..|nz| - 1], v, next);
    }
  }

  lemma {:induction false} CountNone<T>(s: seq<T>, p: T -> bool)
    requires forall x :: x in s ==> !p(x)
    ensures CountIf(s, p) == 0
  {
    if |s| > 0 {
      CountNone(s[..|s| - 1], p);
    }
  }

  lemma {:induction false} CountAll<T>(s: seq<T>, p: T -> bool)
    requires forall x :: x in s ==> p(x)
    ensures CountIf(s, p) == |s|
  {
    if |s| > 0 {
      CountAll(s[..|s| - 1], p);
    }
  }

  /** The rank table built by the position counter is the average-rank function. */
  method RankTable(nz: seq<real>) returns (rankOf: map<real, real>)
    ensures forall d :: d in nz ==> Abs(d) in rankOf && rankOf[Abs(d)] == MidRank(nz, Abs(d))
  {
    var absVals := Magnitudes(nz);
    MagnitudesSorted(nz);
    rankOf := map[];
    var pos := 1;
    if |absVals| > 0 {
      forall d | d in nz ensures !BelowAbs(absVals[0])(d) {
        assert Abs(d) in absVals;
      }
      CountNone(nz, BelowAbs(absVals[0]));
    }
    for k := 0 to |absVals|
      invariant k < |absVals| ==> pos == 1 + CountIf(nz, BelowAbs(absVals[k]))
      invariant forall j :: 0 <= j < k ==> absVals[j] in rankOf && rankOf[absVals[j]] == MidRank(nz, absVals[j])
    {
      var v := absVals[k];
      var count := CountIf(nz, EqualAbs(v));
      var avg := (pos + (pos + count - 1)) as real / 2.0;
      rankOf := rankOf[v := avg];
      pos := pos + count;
      if k + 1 < |absVals| {
        forall d | d in nz ensures Abs(d) < absVals[k + 1] <==> Abs(d) <= v {
          assert Abs(d) in absVals;
        }
        CountBelowNext(nz, v, absVals[k + 1]);
      }
    }
    forall d | d in nz ensures Abs(d) in rankOf && rankOf[Abs(d)] == MidRank(nz, Abs(d)) {
      assert Abs(d) in absVals;
    }
  }

  /** The script's test: rank, enumerate every mask, count the sums that reach the observed one. */
  method SignedRankP(deltas: seq<real>, approx: (real, nat) -> real) returns (wPlus: real, p: real)
    ensures wPlus == WPlus(NonZero(deltas))
    ensures p == PValue(deltas, approx)
  {
    var nonZero := NonZero(deltas);
    var n := |nonZero|;
    if n == 0 {
      return 0.0, 0.5;
    }
    var rankOf := RankTable(nonZero);
    var ranks := Ranks(nonZero);
    wPlus := 0.0;
    for i := 0 to n
      invariant wPlus == Selected(ranks[..i], Signs(nonZero)[..i])
    {
      SelectNext(ranks, Signs(nonZero), i);
      assert nonZero[i] in nonZero;
      if nonZero[i] > 0.0 {
        wPlus := wPlus + rankOf[Abs(nonZero[i])];
      }
    }
    assert ranks[..n] == ranks && Signs(nonZero)[..n] == Signs(nonZero);
    if n > EXACT_LIMIT {
      return wPlus, approx(wPlus, n);
    }
    var sums := [];
    for mask := 0 to Pow2(n)
      invariant |sums| == mask
      invariant forall m :: 0 <= m < mask ==> sums[m] == MaskSum(ranks, m)
    {
      var wp := 0.0;
      for i := 0 to n
        invariant wp == Selected(ranks[..i], Bits(mask, n)[..i])
      {
        SelectNext(ranks, Bits(mask, n), i);
        assert nonZero[i] in nonZero;
        if Bit(mask, i) {
          wp := wp + rankOf[Abs(nonZero[i])];
        }
      }
      assert ranks[..n] == ranks && Bits(mask, n)[..n] == Bits(mask, n);
      sums := sums + [wp];
    }
    assert sums == AllSums(ranks);
    var ge := CountIf(sums, AtLeast(wPlus));
    p := ge as real / |sums| as real;
  }

  lemma SelectNext(ranks: seq<real>, chosen: seq<bool>, i: nat)
    requires |ranks| == |chosen| && i < |ranks|
    ensures Selected(ranks[..i + 1], chosen[..i + 1])
         == Selected(ranks[..i], chosen[..i]) + (if chosen[i] then ranks[i] else 0.0)
  {
    assert ranks[..i + 1][..i] == ranks[..i];
    assert chosen[..i + 1][..i] == chosen[..i];
  }

  // ---- Larger deltas rank higher ----

  /** How many entries have a smaller square than `x`, and how many an equal one. */
  function SmallerSquares(nz: seq<real>, x: real): nat {
    CountIf(nz, (d: real) => d * d < x * x)
  }

  function EqualSquares(nz: seq<real>, x: real): nat {
    CountIf(nz, (d: real) => d * d == x * x)
  }

  lemma AbsBySquares(x: real, y: real)
    ensures Abs(x) < Abs(y) <==> x * x < y * y
    ensures Abs(x) == Abs(y) <==> x * x == y * y
  {
    SquaresOrder(Abs(x), Abs(y));
    SquaresOrder(Abs(y), Abs(x));
    assert Times(Abs(x), Abs(x)) == x * x && Times(Abs(y), Abs(y)) == y * y;
  }

  lemma {:induction false} CountsBySquares(nz: seq<real>, x: real)
    ensures CountIf(nz, BelowAbs(Abs(x))) == SmallerSquares(nz, x)
    ensures CountIf(nz, EqualAbs(Abs(x))) == EqualSquares(nz, x)
  {
    if |nz| > 0 {
      CountsBySquares(nz[..|nz| - 1], x);
      AbsBySquares(nz[|nz| - 1], x);
    }
  }

  /** Twice a rank is twice the entries of smaller square, plus those of equal square and one. */
  lemma {:induction false} RankCounts(nz: seq<real>, i: nat)
    requires i < |nz|
    ensures 2.0 * Ranks(nz)[i] == (2 * SmallerSquares(nz, nz[i]) + EqualSquares(nz, nz[i]) + 1) as real
  {
    CountsBySquares(nz, nz[i]);
  }

  lemma {:induction false} SmallerCountsBelow(nz: seq<real>, x: real, y: real)
    requires x * x < y * y
    ensures SmallerSquares(nz, x) + EqualSquares(nz, x) <= SmallerSquares(nz, y)
  {
    if |nz| > 0 {
      SmallerCountsBelow(nz[..|nz| - 1], x, y);
    }
  }

  lemma {:induction false} EqualCountsSame(nz: seq<real>, x: real, y: real)
    requires x * x == y * y
    ensures SmallerSquares(nz, x) == SmallerSquares(nz, y) && EqualSquares(nz, x) == EqualSquares(nz, y)
  {
    if |nz| > 0 {
      EqualCountsSame(nz[..|nz| - 1], x, y);
    }
  }

  lemma {:induction false} CountsItself(nz: seq<real>, i: nat)
    requires i < |nz|
    ensures EqualSquares(nz, nz[i]) > 0
  {
    var n := |nz| - 1;
    if i < n {
      CountsItself(nz[..n], i);
      assert nz[..n][i] == nz[i];
    }
    assert EqualSquares(nz, nz[i]) == EqualSquares(nz[..n], nz[i]) + (if nz[n] * nz[n] == nz[i] * nz[i] then 1 else 0);
  }

  lemma {:induction false} SmallerRanksBelow(nz: seq<real>, i: nat, j: nat)
    requires i < |nz| && j < |nz| && nz[i] * nz[i] < nz[j] * nz[j]
    ensures Ranks(nz)[i] < Ranks(nz)[j]
  {
    RankCounts(nz, i);
    RankCounts(nz, j);
    SmallerCountsBelow(nz, nz[i], nz[j]);
    CountsItself(nz, i);
    CountsItself(nz, j);
  }

  /** A larger delta, of either sign, ranks higher, and only a larger one does. */
  lemma {:induction false} RanksFollowSize(nz: seq<real>, i: nat, j: nat)
    requires i < |nz| && j < |nz|
    ensures Ranks(nz)[i] < Ranks(nz)[j] <==> nz[i] * nz[i] < nz[j] * nz[j]
  {
    if nz[i] * nz[i] < nz[j] * nz[j] {
      SmallerRanksBelow(nz, i, j);
    } else if nz[j] * nz[j] < nz[i] * nz[i] {
      SmallerRanksBelow(nz, j, i);
    } else {
      RankCounts(nz, i);
      RankCounts(nz, j);
      EqualCountsSame(nz, nz[i], nz[j]);
    }
  }

  // ---- The ranks always sum to n(n+1)/2 ----

  /** What an element of magnitude |b| adds to the rank of one of magnitude |a|. */
  function Share(b: real, a: real): real {
    if Abs(b) < Abs(a) then 1.0 else if Abs(b) == Abs(a) then 0.5 else 0.0
  }

  function SharesInto(s: seq<real>, a: real): real {
    RealSumBy(s, (b: real) => Share(b, a))
  }

  function SharesFrom(b: real, s: seq<real>): real {
    RealSumBy(s, (a: real) => Share(b, a))
  }

  function AllShares(of: seq<real>, among: seq<real>): real {
    RealSumBy(of, (a: real) => SharesInto(among, a))
  }

  lemma {:induction false} MidRankIsShares(s: seq<real>, a: real)
    ensures CountIf(s, BelowAbs(Abs(a))) as real + CountIf(s, EqualAbs(Abs(a))) as real / 2.0 == SharesInto(s, a)
  {
    if |s| > 0 {
      MidRankIsShares(s[..|s| - 1], a);
    }
  }

  lemma {:induction false} SharesSplit(of: seq<real>, among: seq<real>)
    requires |among| > 0
    ensures AllShares(of, among) == AllShares(of, among[..|among| - 1]) + SharesFrom(among[|among| - 1], of)
  {
    if |of| > 0 {
      SharesSplit(of[..|of| - 1], among);
    }
  }

  /** Two elements split one unit of rank between them. */
  lemma {:induction false} SharesBothWays(s: seq<real>, x: real)
    ensures SharesInto(s, x) + SharesFrom(x, s) == |s| as real
  {
    if |s| > 0 {
      SharesBothWays(s[..|s| - 1], x);
    }
  }

  lemma {:induction false} AllSharesTotal(s: seq<real>)
    ensures AllShares(s, s) == (|s| * |s|) as real / 2.0
  {
    if |s| > 0 {
      var n := |s| - 1;
      var front, x := s[..n], s[n];
      AllSharesTotal(front);
      SharesSplit(s, s);
      SharesBothWays(front, x);
      assert SharesFrom(x, s) == SharesFrom(x, front) + 0.5;
      assert AllShares(s, front) == AllShares(front, front) + SharesInto(front, x);
      assert |s| * |s| == n * n + 2 * n + 1;
    }
  }

  lemma {:induction false} RanksPrefixSum(nz: seq<real>, k: nat)
    requires k <= |nz|
    ensures Sum(Ranks(nz)[..k]) == AllShares(nz[..k], nz) + k as real / 2.0
  {
    if k > 0 {
      RanksPrefixSum(nz, k - 1);
      TakeNext(nz, k - 1);
      TakeNext(Ranks(nz), k - 1);
      MidRankIsShares(nz, nz[k - 1]);
    }
  }

  /** Whatever the ties, the average ranks of n magnitudes sum to n(n+1)/2. */
  lemma RanksSum(nz: seq<real>)
    ensures Sum(Ranks(nz)) == (|nz| * (|nz| + 1)) as real / 2.0
  {
    RanksPrefixSum(nz, |nz|);
    AllSharesTotal(nz);
    assert nz[..|nz|] == nz && Ranks(nz)[..|nz|] == Ranks(nz);
    assert |nz| * (|nz| + 1) == |nz| * |nz| + |nz|;
  }
}
