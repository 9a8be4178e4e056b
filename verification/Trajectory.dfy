/** Trajectory scoring: the longest-common-subsequence table, sequence accuracy, tool coverage and the composite
    score. */
module Trajectory {
  import opened Sequences
  import opened Reals

  type Calls = seq<string>

  // ---- Subsequences and the longest common one ----

  /** `c` can be read off `a` left to right, skipping entries of `a`. */
  ghost predicate Subseq(c: Calls, a: Calls) {
    if |c| == 0 then true
    else if |a| == 0 then false
    else
      || Subseq(c, a[..|a| - 1])
      || (c[|c| - 1] == a[|a| - 1] && Subseq(c[..|c| - 1], a[..|a| - 1]))
  }

  ghost predicate Common(c: Calls, a: Calls, b: Calls) {
    Subseq(c, a) && Subseq(c, b)
  }

  ghost predicate LongestCommon(n: nat, a: Calls, b: Calls) {
    && (exists c :: Common(c, a, b) && |c| == n)
    && (forall c :: Common(c, a, b) ==> |c| <= n)
  }

  /** The recurrence the table is filled by, over prefixes. */
  function Lcs(a: Calls, b: Calls): nat
    decreases |a| + |b|
  {
    if |a| == 0 || |b| == 0 then 0
    else
      var a', b' := a[..|a| - 1], b[..|b| - 1];
      if a[|a| - 1] == b[|b| - 1] then Lcs(a', b') + 1
      else
        var up, left := Lcs(a', b), Lcs(a, b');
        if up >= left then up else left
  }

  lemma {:induction false} SubseqDropLast(c: Calls, a: Calls)
    requires Subseq(c, a) && |c| > 0
    ensures Subseq(c[..|c| - 1], a)
    decreases |a|
  {
    if Subseq(c, a[..|a| - 1]) {
      SubseqDropLast(c, a[..|a| - 1]);
    }
  }

  lemma {:induction false} SubseqExtend(c: Calls, a: Calls, x: string)
    requires Subseq(c, a)
    ensures Subseq(c, a + [x]) && Subseq(c + [x], a + [x])
  {
    assert (a + [x])[..|a|] == a && (c + [x])[..|c|] == c;
  }

  lemma {:induction false} LcsReached(a: Calls, b: Calls) returns (c: Calls)
    ensures Common(c, a, b) && |c| == Lcs(a, b)
    decreases |a| + |b|
  {
    if |a| == 0 || |b| == 0 {
      c := [];
    } else {
      var a', b' := a[..|a| - 1], b[..|b| - 1];
      var x, y := a[|a| - 1], b[|b| - 1];
      assert a == a' + [x] && b == b' + [y];
      if x == y {
        var d := LcsReached(a', b');
        SubseqExtend(d, a', x);
        SubseqExtend(d, b', x);
        c := d + [x];
      } else if Lcs(a', b) >= Lcs(a, b') {
        c := LcsReached(a', b);
      } else {
        c := LcsReached(a, b');
      }
    }
  }

  lemma {:induction false} LcsNotExceeded(c: Calls, a: Calls, b: Calls)
    requires Common(c, a, b)
    ensures |c| <= Lcs(a, b)
    decreases |a| + |b|
  {
    if |c| > 0 {
      var a', b', c' := a[..|a| - 1], b[..|b| - 1], c[..|c| - 1];
      if a[|a| - 1] == b[|b| - 1] {
        if Subseq(c, a') {
          SubseqDropLast(c, a');
        }
        if Subseq(c, b') {
          SubseqDropLast(c, b');
        }
        LcsNotExceeded(c', a', b');
      } else if c[|c| - 1] != a[|a| - 1] {
        LcsNotExceeded(c, a', b);
      } else {
        LcsNotExceeded(c, a, b');
      }
    }
  }

  lemma LcsIsLongestCommon(a: Calls, b: Calls)
    ensures LongestCommon(Lcs(a, b), a, b)
  {
    var c := LcsReached(a, b);
    forall d | Common(d, a, b) ensures |d| <= Lcs(a, b) {
      LcsNotExceeded(d, a, b);
    }
  }

  /** The dynamic program: one row of the table per call of `a`, one column per call of `b`. */
  method LcsLength(a: Calls, b: Calls) returns (length: nat)
    ensures LongestCommon(length, a, b)
    ensures length == Lcs(a, b)
  {
    var m, n := |a|, |b|;
    var dp := new nat[m + 1, n + 1]((i, j) => 0);
    for i := 1 to m + 1
      invariant forall x, y :: 0 <= x <= m && 0 <= y <= n ==>
                  dp[x, y] == if x < i then Lcs(a[..x], b[..y]) else 0
    {
      for j := 1 to n + 1
        invariant forall x, y :: 0 <= x <= m && 0 <= y <= n ==>
                    dp[x, y] == if x < i || (x == i && y < j) then Lcs(a[..x], b[..y]) else 0
      {
        assert a[..i][..i - 1] == a[..i - 1] && b[..j][..j - 1] == b[..j - 1];
        dp[i, j] := if a[i - 1] == b[j - 1] then dp[i - 1, j - 1] + 1
                    else if dp[i - 1, j] >= dp[i, j - 1] then dp[i - 1, j]
                    else dp[i, j - 1];
      }
    }
    assert a[..m] == a && b[..n] == b;
    LcsIsLongestCommon(a, b);
    length := dp[m, n];
  }

  // ---- The order on call sequences ----

  lemma {:induction false} SubseqShorter(c: Calls, a: Calls)
    requires Subseq(c, a)
    ensures |c| <= |a|
    ensures |c| == |a| ==> c == a
    decreases |a|
  {
    if |c| > 0 {
      if Subseq(c, a[..|a| - 1]) {
        SubseqShorter(c, a[..|a| - 1]);
      } else {
        SubseqShorter(c[..|c| - 1], a[..|a| - 1]);
      }
    }
  }

  lemma {:induction false} SubseqReflexive(a: Calls)
    ensures Subseq(a, a)
  {
    if |a| > 0 {
      SubseqReflexive(a[..|a| - 1]);
    }
  }

  lemma {:induction false} SubseqTransitive(c: Calls, a: Calls, b: Calls)
    requires Subseq(c, a) && Subseq(a, b)
    ensures Subseq(c, b)
    decreases |b|
  {
    if |c| > 0 {
      SubseqShorter(c, a);
      if Subseq(a, b[..|b| - 1]) {
        SubseqTransitive(c, a, b[..|b| - 1]);
      } else if Subseq(c, a[..|a| - 1]) {
        SubseqTransitive(c, a[..|a| - 1], b[..|b| - 1]);
      } else {
        SubseqTransitive(c[..|c| - 1], a[..|a| - 1], b[..|b| - 1]);
      }
    }
  }

  lemma {:induction false} SubseqMembers(c: Calls, a: Calls, x: string)
    requires Subseq(c, a) && x in c
    ensures x in a
    decreases |a|
  {
    assert c == c[..|c| - 1] + [c[|c| - 1]] && a == a[..|a| - 1] + [a[|a| - 1]];
    if Subseq(c, a[..|a| - 1]) {
      SubseqMembers(c, a[..|a| - 1], x);
    } else if x in c[..|c| - 1] {
      SubseqMembers(c[..|c| - 1], a[..|a| - 1], x);
    }
  }

  // ---- The score ----

  datatype TrajectoryScore = TrajectoryScore(sequenceAccuracy: real, toolCoverage: real, extraCalls: nat)

  function Distinct(calls: Calls): set<string> {
    set x | x in calls
  }

  function Fraction(part: nat, whole: nat): real
    requires whole > 0
  {
    part as real / whole as real
  }

  function Score(expected: Calls, actual: Calls): TrajectoryScore {
    if |expected| == 0 then TrajectoryScore(1.0, 1.0, 0)
    else
      assert expected[0] in Distinct(expected);
      TrajectoryScore(
        Fraction(Lcs(expected, actual), |expected|),
        Fraction(|Distinct(expected) * Distinct(actual)|, |Distinct(expected)|),
        CountIf(actual, (call: string) => call !in Distinct(expected)))
  }

  function Composite(s: TrajectoryScore): real {
    var penalty := if s.extraCalls == 0 then 1.0 else 1.0 / (1.0 + s.extraCalls as real);
    0.6 * s.sequenceAccuracy + 0.3 * s.toolCoverage + 0.1 * penalty
  }

  lemma FractionOrder(part: nat, part': nat, whole: nat)
    requires whole > 0
    ensures Fraction(part, whole) <= Fraction(part', whole) <==> part <= part'
    ensures Fraction(part, whole) == 1.0 <==> part == whole
    ensures Fraction(part, whole) >= 0.0
  {
    QuotientOrder(part as real, part' as real, whole as real);
    QuotientOrder(part as real, whole as real, whole as real);
    QuotientOrder(0.0, part as real, whole as real);
  }

  lemma {:induction false} FullLengthIsSubseq(expected: Calls, actual: Calls)
    ensures Lcs(expected, actual) <= |expected|
    ensures Lcs(expected, actual) == |expected| <==> Subseq(expected, actual)
  {
    var c := LcsReached(expected, actual);
    SubseqShorter(c, expected);
    if Subseq(expected, actual) {
      SubseqReflexive(expected);
      LcsNotExceeded(expected, expected, actual);
    }
  }

  /** Sequence accuracy is in [0,1] and is 1 exactly when the expected calls were made in order. */
  lemma {:induction false} PerfectAccuracy(expected: Calls, actual: Calls)
    ensures 0.0 <= Score(expected, actual).sequenceAccuracy <= 1.0
    ensures Score(expected, actual).sequenceAccuracy == 1.0 <==> Subseq(expected, actual)
  {
    if |expected| > 0 {
      FullLengthIsSubseq(expected, actual);
      FractionOrder(Lcs(expected, actual), |expected|, |expected|);
      FractionOrder(|expected|, |expected|, |expected|);
    }
  }

  /** Making additional calls anywhere never lowers sequence accuracy. */
  lemma {:induction false} AccuracyMonotone(expected: Calls, actual: Calls, longer: Calls)
    requires Subseq(actual, longer)
    ensures Score(expected, actual).sequenceAccuracy <= Score(expected, longer).sequenceAccuracy
  {
    if |expected| > 0 {
      var c := LcsReached(expected, actual);
      SubseqTransitive(c, actual, longer);
      LcsNotExceeded(c, expected, longer);
      FractionOrder(Lcs(expected, actual), Lcs(expected, longer), |expected|);
    }
  }

  lemma SubsetCardinality<T>(small: set<T>, large: set<T>)
    requires small <= large
    ensures |small| <= |large|
    ensures |small| == |large| <==> small == large
  {
    assert large == small + (large - small);
    assert |large| == |small| + |large - small|;
  }

  lemma {:induction false} CoverageRange(expected: Calls, actual: Calls)
    ensures 0.0 <= Score(expected, actual).toolCoverage <= 1.0
    ensures Subseq(expected, actual) ==> Score(expected, actual).toolCoverage == 1.0
  {
    if |expected| > 0 {
      var wanted, made := Distinct(expected), Distinct(actual);
      assert expected[0] in wanted;
      SubsetCardinality(wanted * made, wanted);
      FractionOrder(|wanted * made|, |wanted|, |wanted|);
      FractionOrder(|wanted|, |wanted|, |wanted|);
      if Subseq(expected, actual) {
        forall x | x in wanted ensures x in made {
          SubseqMembers(expected, actual, x);
        }
        assert wanted * made == wanted;
      }
    }
  }

  lemma {:induction false} CountZero<T>(s: seq<T>, p: T -> bool)
    ensures CountIf(s, p) == 0 <==> forall x :: x in s ==> !p(x)
  {
    if |s| > 0 {
      CountZero(s[..|s| - 1], p);
      assert s == s[..|s| - 1] + [s[|s| - 1]];
    }
  }

  lemma PenaltyRange(n: nat)
    requires n > 0
    ensures 0.0 < 1.0 / (1.0 + n as real) < 1.0
  {
    var d := 1.0 + n as real;
    QuotientOrder(1.0, 0.0, d);
    QuotientOrder(d, 1.0, d);
  }

  /** The composite is a score in (0,1], and 1 exactly for trajectories that make the expected calls
      in order and call no unexpected tool, or when nothing was expected. */
  lemma {:induction false} PerfectComposite(expected: Calls, actual: Calls)
    ensures 0.0 < Composite(Score(expected, actual)) <= 1.0
    ensures Composite(Score(expected, actual)) == 1.0
       <==> |expected| == 0 || (Subseq(expected, actual) && forall call :: call in actual ==> call in expected)
  {
    if |expected| > 0 {
      var s := Score(expected, actual);
      PerfectAccuracy(expected, actual);
      CoverageRange(expected, actual);
      CountZero(actual, (call: string) => call !in Distinct(expected));
      if s.extraCalls > 0 {
        PenaltyRange(s.extraCalls);
      }
    }
  }

  lemma {:induction false} NoneCommon(expected: Calls, actual: Calls)
    requires forall x :: x in expected ==> x !in actual
    ensures Lcs(expected, actual) == 0
  {
    var c := LcsReached(expected, actual);
    if |c| > 0 {
      SubseqMembers(c, expected, c[0]);
      SubseqMembers(c, actual, c[0]);
    }
  }

  /** Coverage is 1 exactly when every expected tool was called, in whatever order, and 0 exactly when none was. */
  lemma {:induction false} CoverageExtremes(expected: Calls, actual: Calls)
    requires |expected| > 0
    ensures Score(expected, actual).toolCoverage == 1.0 <==> forall x :: x in expected ==> x in actual
    ensures Score(expected, actual).toolCoverage == 0.0 <==> forall x :: x in expected ==> x !in actual
  {
    var wanted, made := Distinct(expected), Distinct(actual);
    assert expected[0] in wanted;
    SubsetCardinality(wanted * made, wanted);
    FractionOrder(|wanted * made|, |wanted|, |wanted|);
    QuotientOrder(|wanted * made| as real, 0.0, |wanted| as real);
    if wanted * made == wanted {
      forall x | x in expected ensures x in actual {
        assert x in wanted;
      }
    }
    if |wanted * made| == 0 {
      forall x | x in expected ensures x !in actual {
        assert x in wanted && (x in made ==> x in wanted * made);
      }
    }
    if forall x :: x in expected ==> x !in actual {
      assert wanted * made == {};
    }
    if forall x :: x in expected ==> x in actual {
      assert wanted * made == wanted;
    }
  }

  /** With every expected tool called and no other, only the order is open: it is worth six tenths. */
  lemma {:induction false} OrderIsSixTenths(expected: Calls, actual: Calls)
    requires |expected| > 0 && forall x :: x in expected <==> x in actual
    ensures Composite(Score(expected, actual)) == 0.4 + 0.6 * Score(expected, actual).sequenceAccuracy
  {
    CoverageExtremes(expected, actual);
    CountZero(actual, (call: string) => call !in Distinct(expected));
  }

  lemma PenaltyIsQuotient(n: nat)
    ensures 0.1 * (if n == 0 then 1.0 else 1.0 / (1.0 + n as real)) == 0.1 / (1.0 + n as real)
  {
  }

  /** In order and complete, only unexpected calls are open: keeping free of them is worth a tenth, shared out over one
      more than their number. */
  lemma {:induction false} ExtrasShareATenth(expected: Calls, actual: Calls)
    requires |expected| > 0 && Subseq(expected, actual)
    ensures Composite(Score(expected, actual))
         == 0.9 + 0.1 / (1.0 + CountIf(actual, (call: string) => call !in Distinct(expected)) as real)
  {
    PerfectAccuracy(expected, actual);
    CoverageRange(expected, actual);
    PenaltyIsQuotient(Score(expected, actual).extraCalls);
  }

  /** When nothing expected was called, that tenth is all there is. */
  lemma {:induction false} NothingElseCounts(expected: Calls, actual: Calls)
    requires |expected| > 0 && forall x :: x in expected ==> x !in actual
    ensures Composite(Score(expected, actual)) == 0.1 / (1.0 + |actual| as real)
  {
    CoverageExtremes(expected, actual);
    NoneCommon(expected, actual);
    QuotientOrder(0.0, 0.0, |expected| as real);
    AllUnexpected(expected, actual);
    PenaltyIsQuotient(|actual|);
  }

  lemma {:induction false} AllUnexpected(expected: Calls, actual: Calls)
    requires forall x :: x in actual ==> x !in expected
    ensures CountIf(actual, (call: string) => call !in Distinct(expected)) == |actual|
  {
    if |actual| > 0 {
      AllUnexpected(expected, actual[..|actual| - 1]);
    }
  }
}
