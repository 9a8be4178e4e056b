/** Laws of the exact signed-rank test: the enumeration visits every sign pattern once, complementing
    a mask mirrors its rank sum, and the p-value takes its extremes exactly at one-sided data. */
module WilcoxonLaws {
  import opened Sequences
  import opened Reals
  import opened Wilcoxon

  function Negated(s: seq<real>): (r: seq<real>)
    ensures |r| == |s|
  {
    seq(|s|, i requires 0 <= i < |s| => -s[i])
  }

  function Flipped(s: seq<bool>): (r: seq<bool>)
    ensures |r| == |s|
  {
    seq(|s|, i requires 0 <= i < |s| => !s[i])
  }

  ghost predicate AllNonZero(nz: seq<real>) {
    forall i :: 0 <= i < |nz| ==> nz[i] != 0.0
  }

  lemma NonZeroIsNonZero(deltas: seq<real>)
    ensures AllNonZero(NonZero(deltas))
  {
    var nz := NonZero(deltas);
    forall i | 0 <= i < |nz| ensures nz[i] != 0.0 {
      assert nz[i] in nz;
    }
  }

  // ---- Masks and sign patterns correspond one to one ----

  function MaskOf(signs: seq<bool>): nat {
    if |signs| == 0 then 0
    else
      var n := |signs| - 1;
      MaskOf(signs[..n]) + (if signs[n] then Pow2(n) else 0)
  }

  lemma {:induction false} BitAbove(mask: nat, n: nat)
    requires mask < Pow2(n)
    ensures !Bit(mask, n)
  {
    if n > 0 {
      BitAbove(mask / 2, n - 1);
    }
  }

  lemma {:induction false} BitTop(mask: nat, n: nat, i: nat)
    requires mask < Pow2(n) && i <= n
    ensures Bit(Pow2(n) + mask, i) == (i == n || Bit(mask, i))
  {
    if n > 0 && i > 0 {
      assert (Pow2(n) + mask) / 2 == Pow2(n - 1) + mask / 2;
      BitTop(mask / 2, n - 1, i - 1);
    }
  }

  /** Every sign pattern is some mask of the enumeration ... */
  lemma {:induction false} MaskOfBits(signs: seq<bool>)
    ensures MaskOf(signs) < Pow2(|signs|)
    ensures Bits(MaskOf(signs), |signs|) == signs
  {
    if |signs| > 0 {
      var n := |signs| - 1;
      var front := signs[..n];
      MaskOfBits(front);
      forall i | 0 <= i <= n ensures Bit(MaskOf(signs), i) == signs[i] {
        if i < n {
          assert Bits(MaskOf(front), n)[i] == front[i];
        }
        BitTop(MaskOf(front), n, i);
        BitAbove(MaskOf(front), n);
      }
    }
  }

  /** ... and of only one. */
  lemma {:induction false} BitsDetermineMask(m1: nat, m2: nat, n: nat)
    requires m1 < Pow2(n) && m2 < Pow2(n)
    requires Bits(m1, n) == Bits(m2, n)
    ensures m1 == m2
  {
    if n > 0 {
      forall i | 0 <= i < n - 1 ensures Bit(m1 / 2, i) == Bit(m2 / 2, i) {
        assert Bits(m1, n)[i + 1] == Bits(m2, n)[i + 1];
      }
      BitsDetermineMask(m1 / 2, m2 / 2, n - 1);
      assert Bits(m1, n)[0] == Bits(m2, n)[0];
    }
  }

  lemma {:induction false} BitComplement(mask: nat, n: nat, i: nat)
    requires mask < Pow2(n) && i < n
    ensures Bit(Pow2(n) - 1 - mask, i) == !Bit(mask, i)
  {
    HalfComplement(Pow2(n - 1), mask);
    if i > 0 {
      BitComplement(mask / 2, n - 1, i - 1);
    }
  }

  lemma HalfComplement(half: nat, mask: nat)
    requires mask < 2 * half
    ensures (2 * half - 1 - mask) / 2 == half - 1 - mask / 2
    ensures (2 * half - 1 - mask) % 2 == 1 - mask % 2
    ensures mask / 2 < half
  {
  }

  lemma {:induction false} SelectedFlipped(ranks: seq<real>, chosen: seq<bool>)
    requires |ranks| == |chosen|
    ensures Selected(ranks, chosen) + Selected(ranks, Flipped(chosen)) == Sum(ranks)
  {
    if |ranks| > 0 {
      var n := |ranks| - 1;
      SelectedFlipped(ranks[..n], chosen[..n]);
      assert Flipped(chosen)[..n] == Flipped(chosen[..n]);
    }
  }

  /** Complementing a mask mirrors its rank sum about the total. */
  lemma {:induction false} ComplementMirrorsSum(ranks: seq<real>, mask: nat)
    requires mask < Pow2(|ranks|)
    ensures MaskSum(ranks, Pow2(|ranks|) - 1 - mask) == Sum(ranks) - MaskSum(ranks, mask)
  {
    var n := |ranks|;
    forall i | 0 <= i < n ensures Bit(Pow2(n) - 1 - mask, i) == !Bit(mask, i) {
      BitComplement(mask, n, i);
    }
    assert Bits(Pow2(n) - 1 - mask, n) == Flipped(Bits(mask, n));
    SelectedFlipped(ranks, Bits(mask, n));
  }

  // ---- Negating the data ----

  lemma {:induction false} NegatedCounts(nz: seq<real>, v: real)
    ensures CountIf(Negated(nz), BelowAbs(v)) == CountIf(nz, BelowAbs(v))
    ensures CountIf(Negated(nz), EqualAbs(v)) == CountIf(nz, EqualAbs(v))
  {
    if |nz| > 0 {
      assert Negated(nz)[..|nz| - 1] == Negated(nz[..|nz| - 1]);
      NegatedCounts(nz[..|nz| - 1], v);
    }
  }

  lemma {:induction false} NegatedRanks(nz: seq<real>)
    requires AllNonZero(nz)
    ensures Ranks(Negated(nz)) == Ranks(nz)
    ensures Signs(Negated(nz)) == Flipped(Signs(nz))
  {
    forall i | 0 <= i < |nz| ensures Ranks(Negated(nz))[i] == Ranks(nz)[i] {
      NegatedCounts(nz, Abs(nz[i]));
    }
  }

  lemma NegatedAppend(s: seq<real>, x: real)
    ensures Negated(s + [x]) == Negated(s) + [-x]
  {
  }

  lemma {:induction false} NonZeroNegated(deltas: seq<real>)
    ensures NonZero(Negated(deltas)) == Negated(NonZero(deltas))
  {
    if |deltas| > 0 {
      var n := |deltas| - 1;
      NonZeroNegated(deltas[..n]);
      assert Negated(deltas)[..n] == Negated(deltas[..n]);
      var kept := NonZero(deltas[..n]);
      assert Negated(deltas)[n] == -deltas[n];
      if deltas[n] == 0.0 {
        assert NonZero(deltas) == kept + [] == kept;
        assert Negated(kept) + [] == Negated(kept);
      } else {
        NegatedAppend(kept, deltas[n]);
      }
    }
  }

  /** The positive and negative rank sums share out n(n+1)/2, ties and zeros or not. */
  lemma {:induction false} WPlusConserved(deltas: seq<real>)
    ensures var n := |NonZero(deltas)|;
            WPlus(NonZero(deltas)) + WPlus(NonZero(Negated(deltas))) == (n * (n + 1)) as real / 2.0
  {
    var nz := NonZero(deltas);
    NonZeroIsNonZero(deltas);
    NonZeroNegated(deltas);
    NegatedRanks(nz);
    SelectedFlipped(Ranks(nz), Signs(nz));
    RanksSum(nz);
  }

  // ---- Counting over the enumeration ----

  lemma {:induction false} CountAt<T>(s: seq<T>, p: T -> bool, i: nat)
    requires i < |s|
    ensures CountIf(s, p) == CountIf(s[..i], p) + (if p(s[i]) then 1 else 0) + CountIf(s[i + 1..], p)
  {
    CountIfConcat(s[..i], s[i..], p);
    CountIfConcat([s[i]], s[i + 1..], p);
    assert s[..i] + s[i..] == s && [s[i]] + s[i + 1..] == s[i..];
    assert CountIf([s[i]][..0], p) == 0;
  }

  lemma {:induction false} CountMonotone<T>(s: seq<T>, p: T -> bool, q: T -> bool)
    requires forall i :: 0 <= i < |s| ==> p(s[i]) ==> q(s[i])
    ensures CountIf(s, p) <= CountIf(s, q)
  {
    if |s| > 0 {
      CountMonotone(s[..|s| - 1], p, q);
    }
  }

  lemma CountStrict<T>(s: seq<T>, p: T -> bool, q: T -> bool, i: nat)
    requires forall k :: 0 <= k < |s| ==> p(s[k]) ==> q(s[k])
    requires i < |s| && q(s[i]) && !p(s[i])
    ensures CountIf(s, p) < CountIf(s, q)
  {
    CountAt(s, p, i);
    CountAt(s, q, i);
    CountMonotone(s[..i], p, q);
    CountMonotone(s[i + 1..], p, q);
  }

  lemma CountTwo<T>(s: seq<T>, p: T -> bool, i: nat, j: nat)
    requires i < j < |s| && p(s[i]) && p(s[j])
    ensures CountIf(s, p) >= 2
  {
    CountAt(s, p, j);
    CountAt(s[..j], p, i);
  }

  lemma CountOnly<T>(s: seq<T>, p: T -> bool, i: nat)
    requires i < |s| && forall k :: 0 <= k < |s| ==> (p(s[k]) <==> k == i)
    ensures CountIf(s, p) == 1
  {
    CountAt(s, p, i);
    CountNone(s[..i], p);
    CountNone(s[i + 1..], p);
  }

  lemma {:induction false} CountMirrored<T>(s: seq<T>, t: seq<T>, p: T -> bool, q: T -> bool)
    requires |s| == |t| && forall i :: 0 <= i < |s| ==> p(s[i]) == q(t[|t| - 1 - i])
    ensures CountIf(s, p) == CountIf(t, q)
  {
    if |s| > 0 {
      var n := |s| - 1;
      CountMirrored(s[..n], t[1..], p, q);
      CountAt(t, q, 0);
      assert p(s[n]) == q(t[0]);
    }
  }

  lemma {:induction false} CountAround(s: seq<real>, w: real)
    ensures CountIf(s, AtLeast(w)) + CountIf(s, AtMost(w)) == |s| + CountIf(s, Exactly(w))
  {
    if |s| > 0 {
      CountAround(s[..|s| - 1], w);
    }
  }

  // ---- The observed pattern among the masks ----

  lemma {:induction false} ObservedMask(nz: seq<real>)
    ensures MaskOf(Signs(nz)) < Pow2(|nz|)
    ensures AllSums(Ranks(nz))[MaskOf(Signs(nz))] == WPlus(nz)
  {
    MaskOfBits(Signs(nz));
  }

  lemma {:induction false} RanksAtLeastOne(nz: seq<real>, i: nat)
    requires i < |nz|
    ensures Ranks(nz)[i] >= 1.0
  {
    CountAt(nz, EqualAbs(Abs(nz[i])), i);
  }

  /** Selecting more positive ranks gives a strictly larger sum. */
  lemma {:induction false} SelectedMonotone(ranks: seq<real>, fewer: seq<bool>, more: seq<bool>)
    requires |ranks| == |fewer| == |more|
    requires forall i :: 0 <= i < |ranks| ==> ranks[i] > 0.0
    requires forall i :: 0 <= i < |fewer| ==> fewer[i] ==> more[i]
    ensures Selected(ranks, fewer) <= Selected(ranks, more)
    ensures fewer != more ==> Selected(ranks, fewer) < Selected(ranks, more)
  {
    if |ranks| > 0 {
      var n := |ranks| - 1;
      SelectedMonotone(ranks[..n], fewer[..n], more[..n]);
      assert fewer == fewer[..n] + [fewer[n]] && more == more[..n] + [more[n]];
    }
  }

  // ---- The p-value ----

  function AtMost(w: real): real -> bool {
    x => x <= w
  }

  /** Sums at least as large as a mirrored bound mirror sums at most as large as the bound. */
  lemma {:induction false} CountsMirror(ranks: seq<real>, w: real)
    ensures CountIf(AllSums(ranks), AtLeast(Sum(ranks) - w)) == CountIf(AllSums(ranks), AtMost(w))
  {
    var sums := AllSums(ranks);
    forall m | 0 <= m < |sums| ensures AtLeast(Sum(ranks) - w)(sums[m]) == AtMost(w)(sums[|sums| - 1 - m]) {
      ComplementMirrorsSum(ranks, m);
    }
    CountMirrored(sums, sums, AtLeast(Sum(ranks) - w), AtMost(w));
  }

  lemma {:induction false} FavourableNegated(nz: seq<real>)
    requires AllNonZero(nz)
    ensures Favourable(Negated(nz)) == CountIf(AllSums(Ranks(nz)), AtMost(WPlus(nz)))
  {
    NegatedRanks(nz);
    SelectedFlipped(Ranks(nz), Signs(nz));
    CountsMirror(Ranks(nz), WPlus(nz));
  }

  lemma {:induction false} TiedAtLeastOnce(nz: seq<real>)
    ensures Tied(nz) >= 1
  {
    ObservedMask(nz);
    CountAt(AllSums(Ranks(nz)), Exactly(WPlus(nz)), MaskOf(Signs(nz)));
  }

  /** p of the data and p of its negation add up to one plus the probability of a tie with the observed sum. */
  lemma {:induction false} PairedP(deltas: seq<real>, approx: (real, nat) -> real)
    requires 1 <= |NonZero(deltas)| <= EXACT_LIMIT
    ensures var nz := NonZero(deltas);
            PValue(deltas, approx) + PValue(Negated(deltas), approx) == 1.0 + Tied(nz) as real / Pow2(|nz|) as real
    ensures PValue(deltas, approx) + PValue(Negated(deltas), approx) > 1.0
  {
    var nz := NonZero(deltas);
    NonZeroIsNonZero(deltas);
    NonZeroNegated(deltas);
    FavourableNegated(nz);
    CountAround(AllSums(Ranks(nz)), WPlus(nz));
    TiedAtLeastOnce(nz);
    AddFractions(Favourable(nz), Favourable(Negated(nz)), Pow2(|nz|), Tied(nz));
  }

  lemma AddFractions(a: nat, b: nat, d: nat, t: nat)
    requires d > 0 && t > 0 && a + b == d + t
    ensures a as real / d as real + b as real / d as real == 1.0 + t as real / d as real
    ensures t as real / d as real > 0.0
  {
    var dr := d as real;
    QuotientSum(a as real, b as real, dr);
    QuotientSum(dr, t as real, dr);
    QuotientOrder(0.0, t as real, dr);
  }

  lemma {:induction false} AllWinsAreUnique(nz: seq<real>)
    requires forall i :: 0 <= i < |nz| ==> nz[i] > 0.0
    ensures Favourable(nz) == 1
  {
    var n, r := |nz|, Ranks(nz);
    var sums, p, seen := AllSums(r), AtLeast(WPlus(nz)), MaskOf(Signs(nz));
    var full := seq(n, i => true);
    forall i | 0 <= i < n ensures r[i] > 0.0 {
      RanksAtLeastOne(nz, i);
    }
    ObservedMask(nz);
    MaskOfBits(full);
    assert Signs(nz) == full;
    forall m | 0 <= m < |sums| ensures p(sums[m]) <==> m == seen {
      SelectedMonotone(r, Bits(m, n), full);
      if Bits(m, n) == full {
        BitsDetermineMask(m, seen, n);
      }
    }
    CountOnly(sums, p, seen);
  }

  lemma {:induction false} ALossIsBeaten(nz: seq<real>, i: nat)
    requires i < |nz| && nz[i] <= 0.0
    ensures Favourable(nz) >= 2
  {
    var n, r := |nz|, Ranks(nz);
    var sums, p, seen := AllSums(r), AtLeast(WPlus(nz)), MaskOf(Signs(nz));
    var full := seq(n, k => true);
    var top := MaskOf(full);
    forall k | 0 <= k < n ensures r[k] > 0.0 {
      RanksAtLeastOne(nz, k);
    }
    ObservedMask(nz);
    MaskOfBits(full);
    MaskOfBits(Signs(nz));
    assert !Signs(nz)[i] && full[i];
    SelectedMonotone(r, Signs(nz), full);
    assert sums[top] == Selected(r, full);
    assert seen != top;
    CountTwo(sums, p, if seen < top then seen else top, if seen < top then top else seen);
  }

  /** At least one mask reaches the observed sum, and it is the only one exactly when every delta is positive. */
  lemma {:induction false} FewestFavourable(nz: seq<real>)
    requires AllNonZero(nz)
    ensures Favourable(nz) >= 1
    ensures Favourable(nz) == 1 <==> forall i :: 0 <= i < |nz| ==> nz[i] > 0.0
  {
    if i :| 0 <= i < |nz| && nz[i] <= 0.0 {
      ALossIsBeaten(nz, i);
    } else {
      AllWinsAreUnique(nz);
    }
  }

  /** The p-value is never below 2^-n and equals it exactly when every non-zero delta is positive. */
  lemma {:induction false} SmallestP(deltas: seq<real>, approx: (real, nat) -> real)
    requires 1 <= |NonZero(deltas)| <= EXACT_LIMIT
    ensures PValue(deltas, approx) >= 1.0 / Pow2(|NonZero(deltas)|) as real
    ensures PValue(deltas, approx) == 1.0 / Pow2(|NonZero(deltas)|) as real
       <==> forall d :: d in deltas ==> d >= 0.0
  {
    var nz := NonZero(deltas);
    NonZeroIsNonZero(deltas);
    FewestFavourable(nz);
    QuotientOrder(1.0, Favourable(nz) as real, Pow2(|nz|) as real);
    if forall d :: d in deltas ==> d >= 0.0 {
      forall i | 0 <= i < |nz| ensures nz[i] > 0.0 {
        assert nz[i] in nz;
      }
    } else {
      var d :| d in deltas && d < 0.0;
      assert d in nz;
    }
  }

  /** Every mask reaches the observed sum exactly when no delta is positive. */
  lemma {:induction false} MostFavourable(nz: seq<real>)
    ensures Favourable(nz) == Pow2(|nz|) <==> forall i :: 0 <= i < |nz| ==> nz[i] <= 0.0
  {
    var n, r, w := |nz|, Ranks(nz), WPlus(nz);
    var sums, p, empty := AllSums(r), AtLeast(w), seq(n, i => false);
    forall i | 0 <= i < n ensures r[i] > 0.0 {
      RanksAtLeastOne(nz, i);
    }
    SelectedNone(r);
    if forall i :: 0 <= i < n ==> nz[i] <= 0.0 {
      assert Signs(nz) == empty;
      forall x | x in sums ensures p(x) {
        var m :| 0 <= m < |sums| && sums[m] == x;
        SelectedMonotone(r, empty, Bits(m, n));
      }
      CountAll(sums, p);
    } else {
      var i :| 0 <= i < n && nz[i] > 0.0;
      assert Signs(nz)[i] && !empty[i];
      SelectedMonotone(r, empty, Signs(nz));
      MaskOfBits(empty);
      assert sums[MaskOf(empty)] == 0.0;
      CountAt(sums, p, MaskOf(empty));
    }
  }

  /** The p-value is 1 exactly when no delta is positive. */
  lemma {:induction false} LargestP(deltas: seq<real>, approx: (real, nat) -> real)
    requires 1 <= |NonZero(deltas)| <= EXACT_LIMIT
    ensures PValue(deltas, approx) == 1.0 <==> forall d :: d in deltas ==> d <= 0.0
  {
    var nz := NonZero(deltas);
    MostFavourable(nz);
    QuotientOrder(Favourable(nz) as real, Pow2(|nz|) as real, Pow2(|nz|) as real);
    if forall i :: 0 <= i < |nz| ==> nz[i] <= 0.0 {
      forall d | d in deltas ensures d <= 0.0 {
        if d != 0.0 {
          assert d in nz;
        }
      }
    } else {
      var i :| 0 <= i < |nz| && nz[i] > 0.0;
      assert nz[i] in nz;
    }
  }

  lemma {:induction false} SelectedNone(ranks: seq<real>)
    ensures Selected(ranks, seq(|ranks|, i => false)) == 0.0
  {
    if |ranks| > 0 {
      var n := |ranks| - 1;
      SelectedNone(ranks[..n]);
      assert seq(|ranks|, i => false)[..n] == seq(n, i => false);
    }
  }

  lemma {:induction false} SameMagnitudesSameCounts(a: seq<real>, b: seq<real>, v: real)
    requires |a| == |b| && forall i :: 0 <= i < |a| ==> Abs(a[i]) == Abs(b[i])
    ensures CountIf(a, BelowAbs(v)) == CountIf(b, BelowAbs(v))
    ensures CountIf(a, EqualAbs(v)) == CountIf(b, EqualAbs(v))
  {
    if |a| > 0 {
      SameMagnitudesSameCounts(a[..|a| - 1], b[..|b| - 1], v);
    }
  }

  /** Turning losses of the same size into wins makes the p-value strictly smaller. */
  lemma {:induction false} MoreWinsSmallerP(a: seq<real>, b: seq<real>)
    requires |a| == |b| && AllNonZero(a)
    requires forall i :: 0 <= i < |a| ==> b[i] == a[i] || (a[i] < 0.0 && b[i] == -a[i])
    requires a != b
    ensures ExactP(b) < ExactP(a)
  {
    var n := |a|;
    forall i | 0 <= i < n ensures Ranks(a)[i] == Ranks(b)[i] {
      SameMagnitudesSameCounts(a, b, Abs(a[i]));
    }
    assert Ranks(a) == Ranks(b);
    var r := Ranks(a);
    forall i | 0 <= i < n ensures r[i] > 0.0 {
      RanksAtLeastOne(a, i);
    }
    assert Signs(a) != Signs(b) by {
      var i :| 0 <= i < n && a[i] != b[i];
      assert !Signs(a)[i] && Signs(b)[i];
    }
    SelectedMonotone(r, Signs(a), Signs(b));
    ObservedMask(a);
    CountStrict(AllSums(r), AtLeast(WPlus(b)), AtLeast(WPlus(a)), MaskOf(Signs(a)));
    QuotientOrder(Favourable(a) as real, Favourable(b) as real, Pow2(n) as real);
  }
}
