/** The four-way token budget: normalisation test, allocation with the remainder to the buffer, and relevance
    adjustment. */
module Budget {
  import opened Reals

  datatype Ratios = Ratios(buffer: real, summary: real, entities: real, kg: real) {
    function Total(): real {
      buffer + summary + entities + kg
    }

    predicate NonNegative() {
      buffer >= 0.0 && summary >= 0.0 && entities >= 0.0 && kg >= 0.0
    }

    predicate IsNormalized() {
      NonNegative() && -0.001 < Total() - 1.0 < 0.001
    }
  }

  datatype Allocation = Allocation(total: nat, buffer: nat, summary: nat, entities: nat, kg: nat) {
    function HandedOut(): nat {
      buffer + summary + entities + kg
    }
  }

  /** A cast from a float to an unsigned integer truncates, and saturates at zero. */
  function Truncate(x: real): nat {
    if x < 0.0 then 0 else x.Floor
  }

  function Share(t: nat, ratio: real): (r: nat)
    ensures ratio >= 0.0 ==> r as real <= Times(t as real, ratio) < r as real + 1.0
    ensures ratio <= 0.0 ==> r == 0
  {
    if ratio >= 0.0 then
      TimesOrder(t as real, 0.0, ratio);
      assert Times(t as real, 0.0) == 0.0;
      Truncate(Times(t as real, ratio))
    else
      TimesOrder(t as real, ratio, 0.0);
      assert Times(t as real, 0.0) == 0.0;
      Truncate(Times(t as real, ratio))
  }

  function FloorSum(r: Ratios, total: nat): nat {
    Share(total, r.buffer) + Share(total, r.summary) + Share(total, r.entities) + Share(total, r.kg)
  }

  /** Each axis gets its truncated share; what truncation leaves over, if anything, goes to the buffer. */
  function Allocate(r: Ratios, total: nat): Allocation {
    var sum := FloorSum(r, total);
    var remainder := if total >= sum then total - sum else 0;
    Allocation(total, Share(total, r.buffer) + remainder, Share(total, r.summary), Share(total, r.entities),
               Share(total, r.kg))
  }

  lemma SharesAddUp(r: Ratios, total: nat)
    requires r.NonNegative()
    ensures FloorSum(r, total) as real <= Times(total as real, r.Total()) < FloorSum(r, total) as real + 4.0
  {
    var t := total as real;
    TimesSum(t, r.buffer, r.summary);
    TimesSum(t, r.buffer + r.summary, r.entities);
    TimesSum(t, r.buffer + r.summary + r.entities, r.kg);
  }

  /** A whole number of tokens is an axis's share when it is its ratio of the total rounded down, or nothing for a
      ratio that is not positive. */
  ghost predicate IsShare(tokens: nat, ratio: real, total: nat) {
    if ratio <= 0.0 then tokens == 0 else tokens as real <= Times(total as real, ratio) < tokens as real + 1.0
  }

  /** Every axis gets its own share, and only the buffer may get more, up to the total. */
  lemma AxisShares(r: Ratios, total: nat)
    ensures var a := Allocate(r, total);
            && a.total == total
            && IsShare(a.summary, r.summary, total)
            && IsShare(a.entities, r.entities, total)
            && IsShare(a.kg, r.kg, total)
            && (IsShare(a.buffer, r.buffer, total)
                || exists less: nat :: less < a.buffer && IsShare(less, r.buffer, total) && a.HandedOut() == total)
  {
    var a, own := Allocate(r, total), Share(total, r.buffer);
    assert IsShare(own, r.buffer, total);
    if own < a.buffer {
      assert a.HandedOut() == total;
    }
  }

  /** Normalised ratios never hand out less than the total and overshoot it by less than a thousandth;
      the total is met exactly whenever the ratios sum to at most one. */
  lemma AllocationBounds(r: Ratios, total: nat)
    requires r.IsNormalized()
    ensures Allocate(r, total).HandedOut() >= total
    ensures total > 0 ==> Allocate(r, total).HandedOut() as real < total as real * 1.001
    ensures r.Total() <= 1.0 ==> Allocate(r, total).HandedOut() == total
  {
    var t := total as real;
    SharesAddUp(r, total);
    TimesOrder(t, r.Total(), 1.001);
    assert Times(t, 1.001) == t * 1.001 && Times(t, 1.0) == t;
    if r.Total() <= 1.0 {
      TimesOrder(t, r.Total(), 1.0);
    }
  }

  lemma LargeEnoughTotal(excess: real) returns (total: nat)
    requires excess > 0.0
    ensures Times(total as real, excess) >= 4.0
  {
    QuotientTimes(4.0, excess);
    TimesOrder(excess, 0.0, 4.0 / excess + 1.0);
    QuotientOrder(0.0, 4.0, excess);
    total := (4.0 / excess).Floor + 1;
    TimesOrder(excess, 4.0 / excess, total as real);
    assert Times(excess, total as real) == Times(total as real, excess);
  }

  /** Non-negative ratios conserve every total if and only if they sum to at most one: past one, some total is
      exceeded by the truncated shares alone. */
  lemma ConservesExactly(r: Ratios)
    requires r.NonNegative()
    ensures r.Total() <= 1.0 <==> forall total: nat :: Allocate(r, total).HandedOut() == total
  {
    if r.Total() <= 1.0 {
      forall total: nat ensures Allocate(r, total).HandedOut() == total {
        SharesAddUp(r, total);
        TimesOrder(total as real, r.Total(), 1.0);
        assert Times(total as real, 1.0) == total as real;
      }
    } else {
      var total := LargeEnoughTotal(r.Total() - 1.0);
      SharesAddUp(r, total);
      TimesSum(total as real, r.Total() - 1.0, 1.0);
      assert Times(total as real, 1.0) == total as real;
      assert Allocate(r, total).HandedOut() > total;
    }
  }

  lemma OvershootHappens()
    ensures var r := Ratios(0.2505, 0.25, 0.25, 0.25);
            r.IsNormalized() && Allocate(r, 10000).HandedOut() == 10005
  {
    var r := Ratios(0.2505, 0.25, 0.25, 0.25);
    assert Share(10000, r.buffer) == 2505;
    assert Share(10000, r.summary) == 2500;
  }

  /** With ratios summing to one the buffer absorbs at most three tokens of rounding. */
  lemma RoundingIsSmall(r: Ratios, total: nat)
    requires r.NonNegative() && r.Total() == 1.0
    ensures Share(total, r.buffer) <= Allocate(r, total).buffer <= Share(total, r.buffer) + 3
  {
    SharesAddUp(r, total);
  }

  // ---- Relevance adjustment ----

  function Adjust(base: real, relevance: real, alpha: real): real {
    base * (1.0 + (relevance - 0.5) * alpha)
  }

  predicate UnitInterval(x: real) {
    0.0 <= x <= 1.0
  }

  /** Relevance per axis. */
  datatype Relevance = Relevance(buffer: real, summary: real, entities: real, kg: real) {
    predicate InUnit() {
      UnitInterval(buffer) && UnitInterval(summary) && UnitInterval(entities) && UnitInterval(kg)
    }
  }

  function Weighted(r: Ratios, rel: Relevance, alpha: real): Ratios {
    Ratios(Adjust(r.buffer, rel.buffer, alpha), Adjust(r.summary, rel.summary, alpha),
           Adjust(r.entities, rel.entities, alpha), Adjust(r.kg, rel.kg, alpha))
  }

  /** Tilt the ratios by relevance and renormalise; unchanged when nothing is left to divide by. */
  function Adjusted(r: Ratios, rel: Relevance, alpha: real): Ratios {
    var w := Weighted(r, rel, alpha);
    var sum := w.Total();
    if sum <= 0.0 then r else Ratios(w.buffer / sum, w.summary / sum, w.entities / sum, w.kg / sum)
  }

  /** A relevance in [0,1] at strength alpha in [0,1] scales by between a half and one and a half. */
  lemma FactorRange(relevance: real, alpha: real)
    requires UnitInterval(relevance) && UnitInterval(alpha)
    ensures -0.5 <= Times(alpha, relevance - 0.5) <= 0.5
  {
    TimesOrder(alpha, relevance - 0.5, 0.5);
    TimesOrder(alpha, -0.5, relevance - 0.5);
    assert Times(alpha, 0.5) == 0.5 * alpha && Times(alpha, -0.5) == -0.5 * alpha;
  }

  lemma AdjustRange(base: real, relevance: real, alpha: real)
    requires base >= 0.0 && UnitInterval(relevance) && UnitInterval(alpha)
    ensures 0.5 * base <= Adjust(base, relevance, alpha) <= 1.5 * base
  {
    var tilt := Times(alpha, relevance - 0.5);
    FactorRange(relevance, alpha);
    assert Adjust(base, relevance, alpha) == base + Times(base, tilt);
    TimesOrder(base, tilt, 0.5);
    TimesOrder(base, -0.5, tilt);
    assert Times(base, 0.5) == 0.5 * base && Times(base, -0.5) == -0.5 * base;
  }

  lemma QuotientsOfSum(a: real, b: real, c: real, d: real, s: real)
    requires s > 0.0 && a + b + c + d == s && a >= 0.0 && b >= 0.0 && c >= 0.0 && d >= 0.0
    ensures a / s + b / s + c / s + d / s == 1.0
    ensures a / s >= 0.0 && b / s >= 0.0 && c / s >= 0.0 && d / s >= 0.0
  {
    QuotientSum(a, b, s);
    QuotientSum(a + b, c, s);
    QuotientSum(a + b + c, d, s);
    QuotientOrder(0.0, a, s);
    QuotientOrder(0.0, b, s);
    QuotientOrder(0.0, c, s);
    QuotientOrder(0.0, d, s);
  }

  /** Adjusting normalised ratios keeps every axis non-negative and makes them sum to exactly one. */
  lemma AdjustedSumsToOne(r: Ratios, rel: Relevance, alpha: real)
    requires r.IsNormalized() && rel.InUnit() && UnitInterval(alpha)
    ensures Adjusted(r, rel, alpha).NonNegative() && Adjusted(r, rel, alpha).Total() == 1.0
  {
    AdjustRange(r.buffer, rel.buffer, alpha);
    AdjustRange(r.summary, rel.summary, alpha);
    AdjustRange(r.entities, rel.entities, alpha);
    AdjustRange(r.kg, rel.kg, alpha);
    var w := Weighted(r, rel, alpha);
    QuotientsOfSum(w.buffer, w.summary, w.entities, w.kg, w.Total());
  }

  /** A base tilted by a relevance: unchanged at one half, up to half more or less at the ends. */
  function Tilted(base: real, relevance: real, alpha: real): real {
    Times(base, 1.0 + Times(relevance - 0.5, alpha))
  }

  lemma TiltIsAdjust(base: real, relevance: real, alpha: real)
    ensures Adjust(base, relevance, alpha) == Tilted(base, relevance, alpha)
  {
  }

  lemma {:induction false} WeightsPositive(r: Ratios, rel: Relevance, alpha: real)
    requires r.IsNormalized() && rel.InUnit() && UnitInterval(alpha)
    ensures Weighted(r, rel, alpha).Total() > 0.0
  {
    AdjustRange(r.buffer, rel.buffer, alpha);
    AdjustRange(r.summary, rel.summary, alpha);
    AdjustRange(r.entities, rel.entities, alpha);
    AdjustRange(r.kg, rel.kg, alpha);
  }

  /** Each axis is tilted by its own relevance, and the axes keep the proportions this gives them. */
  lemma {:induction false} AdjustedProportions(r: Ratios, rel: Relevance, alpha: real) returns (scale: real)
    requires r.IsNormalized() && rel.InUnit() && UnitInterval(alpha)
    ensures var a := Adjusted(r, rel, alpha);
            && scale > 0.0
            && Times(scale, a.buffer) == Tilted(r.buffer, rel.buffer, alpha)
            && Times(scale, a.summary) == Tilted(r.summary, rel.summary, alpha)
            && Times(scale, a.entities) == Tilted(r.entities, rel.entities, alpha)
            && Times(scale, a.kg) == Tilted(r.kg, rel.kg, alpha)
  {
    var w := Weighted(r, rel, alpha);
    scale := w.Total();
    WeightsPositive(r, rel, alpha);
    TiltIsAdjust(r.buffer, rel.buffer, alpha);
    TiltIsAdjust(r.summary, rel.summary, alpha);
    TiltIsAdjust(r.entities, rel.entities, alpha);
    TiltIsAdjust(r.kg, rel.kg, alpha);
    QuotientTimes(w.buffer, scale);
    QuotientTimes(w.summary, scale);
    QuotientTimes(w.entities, scale);
    QuotientTimes(w.kg, scale);
  }

  /** So adjusting and then allocating hands out the budget exactly. */
  lemma AdjustThenAllocateConserves(r: Ratios, rel: Relevance, alpha: real, total: nat)
    requires r.IsNormalized() && rel.InUnit() && UnitInterval(alpha)
    ensures Adjusted(r, rel, alpha).IsNormalized()
    ensures Allocate(Adjusted(r, rel, alpha), total).HandedOut() == total
  {
    AdjustedSumsToOne(r, rel, alpha);
    AllocationBounds(Adjusted(r, rel, alpha), total);
  }
}
