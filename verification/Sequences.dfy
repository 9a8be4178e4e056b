/** Vocabulary shared by the models: options, counting, summing, windows and a stable sort. */
module Sequences {

  datatype Option<+T> = None | Some(value: T)

  // ---- Counting and summing; both peel from the end, the way a loop accumulates ----

  function CountIf<T>(s: seq<T>, p: T -> bool): (n: nat)
    ensures n <= |s|
  {
    if |s| == 0 then 0
    else CountIf(s[..|s| - 1], p) + (if p(s[|s| - 1]) then 1 else 0)
  }

  function Sum(s: seq<real>): real {
    if |s| == 0 then 0.0 else Sum(s[..|s| - 1]) + s[|s| - 1]
  }

  function SumBy<T>(s: seq<T>, f: T -> nat): nat {
    if |s| == 0 then 0 else SumBy(s[..|s| - 1], f) + f(s[|s| - 1])
  }

  function RealSumBy<T>(s: seq<T>, f: T -> real): real {
    if |s| == 0 then 0.0 else RealSumBy(s[..|s| - 1], f) + f(s[|s| - 1])
  }

  function Filter<T>(s: seq<T>, p: T -> bool): (r: seq<T>)
    ensures |r| <= |s|
    ensures forall x :: x in r ==> x in s && p(x)
    ensures forall x :: x in s && p(x) ==> x in r
  {
    if |s| == 0 then []
    else Filter(s[..|s| - 1], p) + (if p(s[|s| - 1]) then [s[|s| - 1]] else [])
  }

  lemma TakeNext<T>(s: seq<T>, i: nat)
    requires i < |s|
    ensures s[..i + 1] == s[..i] + [s[i]]
    ensures s[..i + 1][..i] == s[..i]
  {
  }

  lemma {:induction false} CountIfConcat<T>(a: seq<T>, b: seq<T>, p: T -> bool)
    ensures CountIf(a + b, p) == CountIf(a, p) + CountIf(b, p)
  {
    if |b| == 0 {
      assert a + b == a;
    } else {
      assert (a + b)[..|a + b| - 1] == a + b[..|b| - 1];
      CountIfConcat(a, b[..|b| - 1], p);
    }
  }

  lemma FilterNext<T>(s: seq<T>, x: T, p: T -> bool)
    ensures Filter(s + [x], p) == Filter(s, p) + (if p(x) then [x] else [])
  {
    assert (s + [x])[..|s|] == s;
  }

  lemma LastSplit<T>(a: seq<T>, b: seq<T>)
    requires |b| > 0
    ensures var n := |b| - 1;
            b[..n] + [b[n]] == b && a + b[..n] + [b[n]] == a + b
  {
  }

  lemma FilterExtends<T>(a: seq<T>, b: seq<T>, x: T, p: T -> bool)
    requires Filter(a + b, p) == Filter(a, p) + Filter(b, p)
    ensures Filter(a + b + [x], p) == Filter(a, p) + Filter(b + [x], p)
  {
    FilterNext(a + b, x, p);
    FilterNext(b, x, p);
  }

  lemma {:induction false} FilterConcat<T>(a: seq<T>, b: seq<T>, p: T -> bool)
    ensures Filter(a + b, p) == Filter(a, p) + Filter(b, p)
  {
    if |b| == 0 {
      assert a + b == a;
    } else {
      var n := |b| - 1;
      FilterConcat(a, b[..n], p);
      FilterExtends(a, b[..n], b[n], p);
      LastSplit(a, b);
    }
  }

  // ---- Windows ----

  /** The last `n` entries, or everything when there are fewer. */
  function LastN<T>(s: seq<T>, n: nat): seq<T> {
    if |s| <= n then s else s[|s| - n..]
  }

  /** Pushing at the back and popping one entry at the front when over capacity. */
  lemma PushKeepsLastN<T>(history: seq<T>, n: nat, x: T)
    ensures var pushed := LastN(history, n) + [x];
            LastN(history + [x], n) == if |pushed| > n then pushed[1..] else pushed
  {
  }

  // ---- A stable insertion sort standing for the library sorts the source calls ----

  function InsertAfterEquals<T>(sorted: seq<T>, x: T, leq: (T, T) -> bool): (r: seq<T>)
    ensures |r| == |sorted| + 1
    ensures multiset(r) == multiset(sorted) + multiset{x}
  {
    if |sorted| == 0 then [x]
    else
      var last := sorted[|sorted| - 1];
      assert sorted == sorted[..|sorted| - 1] + [last];
      if leq(last, x) then sorted + [x]
      else InsertAfterEquals(sorted[..|sorted| - 1], x, leq) + [last]
  }

  function StableSort<T>(s: seq<T>, leq: (T, T) -> bool): (r: seq<T>)
    ensures multiset(r) == multiset(s) && |r| == |s|
  {
    if |s| == 0 then []
    else
      assert s == s[..|s| - 1] + [s[|s| - 1]];
      InsertAfterEquals(StableSort(s[..|s| - 1], leq), s[|s| - 1], leq)
  }

  ghost predicate Sorted<T>(s: seq<T>, leq: (T, T) -> bool) {
    forall i, j :: 0 <= i < j < |s| ==> leq(s[i], s[j])
  }

  ghost predicate TotalPreorder<T(!new)>(leq: (T, T) -> bool) {
    && (forall x, y :: leq(x, y) || leq(y, x))
    && (forall x, y, z :: leq(x, y) && leq(y, z) ==> leq(x, z))
  }

  lemma {:induction false} InsertKeepsSorted<T(!new)>(sorted: seq<T>, x: T, leq: (T, T) -> bool)
    requires TotalPreorder(leq) && Sorted(sorted, leq)
    ensures Sorted(InsertAfterEquals(sorted, x, leq), leq)
  {
    if |sorted| > 0 {
      var n := |sorted| - 1;
      var last := sorted[n];
      if leq(last, x) {
        assert forall i :: 0 <= i < n ==> leq(sorted[i], last);
      } else {
        InsertKeepsSorted(sorted[..n], x, leq);
        var front := InsertAfterEquals(sorted[..n], x, leq);
        forall i | 0 <= i < |front| ensures leq(front[i], last) {
          assert front[i] in multiset(front);
          assert front[i] in multiset(sorted[..n]) || front[i] == x;
        }
      }
    }
  }

  lemma {:induction false} StableSortSorts<T(!new)>(s: seq<T>, leq: (T, T) -> bool)
    requires TotalPreorder(leq)
    ensures Sorted(StableSort(s, leq), leq)
  {
    if |s| > 0 {
      StableSortSorts(s[..|s| - 1], leq);
      InsertKeepsSorted(StableSort(s[..|s| - 1], leq), s[|s| - 1], leq);
    }
  }

  lemma SortKeepsMembers<T>(s: seq<T>, leq: (T, T) -> bool)
    ensures forall x :: x in StableSort(s, leq) <==> x in s
  {
    forall x ensures x in StableSort(s, leq) <==> x in s {
      assert x in multiset(StableSort(s, leq)) <==> x in multiset(s);
    }
  }

  // ---- Sequences without repeats ----

  ghost predicate NoRepeats<T>(s: seq<T>) {
    forall i, j :: 0 <= i < j < |s| ==> s[i] != s[j]
  }

  lemma {:induction false} DistinctOnce<T>(s: seq<T>, x: T)
    requires NoRepeats(s)
    ensures multiset(s)[x] <= 1
  {
    if |s| > 0 {
      var n := |s| - 1;
      assert s == s[..n] + [s[n]];
      DistinctOnce(s[..n], x);
      if x == s[n] {
        assert x !in s[..n];
      }
    }
  }

  lemma TwiceInMultiset<T>(s: seq<T>, i: nat, j: nat)
    requires i < j < |s| && s[i] == s[j]
    ensures multiset(s)[s[i]] >= 2
  {
    assert s == s[..i + 1] + s[i + 1..];
    assert s[i] in multiset(s[..i + 1]) && s[i + 1..][j - i - 1] in multiset(s[i + 1..]);
  }

  /** A permutation of a sequence without repeats has none. */
  lemma {:induction false} PermutationDistinct<T>(s: seq<T>, permuted: seq<T>)
    requires NoRepeats(s) && multiset(s) == multiset(permuted)
    ensures NoRepeats(permuted)
  {
    forall i, j | 0 <= i < j < |permuted| && permuted[i] == permuted[j] ensures false {
      TwiceInMultiset(permuted, i, j);
      DistinctOnce(s, permuted[i]);
    }
  }

  // ---- Iteration ----

  function Iterate<T>(f: T -> T, x: T, n: nat): T {
    if n == 0 then x else f(Iterate(f, x, n - 1))
  }

  lemma {:induction false} IterateFirst<T>(f: T -> T, x: T, n: nat)
    ensures Iterate(f, x, n + 1) == Iterate(f, f(x), n)
  {
    if n > 0 {
      IterateFirst(f, x, n - 1);
    }
  }

  /** Two iterations that agree step by step agree throughout. */
  lemma {:induction false} IterateAgree<T(!new), U>(f: T -> T, g: U -> U, view: T -> U, x: T, n: nat)
    requires forall y :: view(f(y)) == g(view(y))
    ensures view(Iterate(f, x, n)) == Iterate(g, view(x), n)
  {
    if n > 0 {
      IterateAgree(f, g, view, x, n - 1);
    }
  }

  lemma {:induction false} IterateKeeps<T(!new)>(f: T -> T, keeps: T -> bool, x: T, n: nat)
    requires keeps(x) && forall y :: keeps(y) ==> keeps(f(y))
    ensures keeps(Iterate(f, x, n))
  {
    if n > 0 {
      IterateKeeps(f, keeps, x, n - 1);
    }
  }

  lemma {:induction false} IterateFollows<T>(f: T -> T, w: nat -> T, n: nat)
    requires forall k: nat {:trigger f(w(k))} :: f(w(k)) == w(k + 1)
    ensures Iterate(f, w(0), n) == w(n)
  {
    if n > 0 {
      IterateFollows(f, w, n - 1);
      assert f(w(n - 1)) == w(n);
    }
  }
}
