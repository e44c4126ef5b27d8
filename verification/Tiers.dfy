/** Tiered rates: the graduated loop, the volume rule, and what graduated prices look like. */
module Tiers {
  import opened Decimals

  /** A rate up to and including a bound; the open-ended tier has none. */
  datatype Tier = Tier(upTo: Option<Amount>, rate: Amount)

  /** Bounds strictly increase above `floor` and exactly the last tier is open-ended. */
  predicate Increasing(tiers: seq<Tier>, floor: Option<Amount>) {
    tiers != [] &&
    if |tiers| == 1 then tiers[0].upTo.None?
    else tiers[0].upTo.Some? && (floor.Some? ==> floor.value < tiers[0].upTo.value)
         && Increasing(tiers[1..], tiers[0].upTo)
  }

  /** The tier lists that configuration parsing accepts. */
  predicate WellFormed(tiers: seq<Tier>) {
    Increasing(tiers, None)
  }

  // ----- The graduated loop -----

  /** Units the loop bills in a tier; a width that is not positive bills none. */
  function UnitsIn(tier: Tier, previous: Amount, remaining: Amount): Amount {
    if tier.upTo.None? then remaining
    else
      var width := tier.upTo.value - previous;
      if remaining < width then remaining else width
  }

  function After(tier: Tier, previous: Amount): Amount {
    if tier.upTo.Some? then tier.upTo.value else previous
  }

  /** What the loop adds to the total from a tier onwards. */
  function Graduated(tiers: seq<Tier>, previous: Amount, remaining: Amount): Amount {
    if tiers == [] then 0.0
    else
      var units := UnitsIn(tiers[0], previous, remaining);
      var billed := if units > 0.0 then Times(units, tiers[0].rate) else 0.0;
      var left := if units > 0.0 then remaining - units else remaining;
      if left <= 0.0 then billed
      else billed + Graduated(tiers[1..], After(tiers[0], previous), left)
  }

  /** The units each tier bills, in order. */
  function BilledUnits(tiers: seq<Tier>, previous: Amount, remaining: Amount): seq<Amount> {
    if tiers == [] then []
    else
      var units := UnitsIn(tiers[0], previous, remaining);
      var left := if units > 0.0 then remaining - units else remaining;
      [if units > 0.0 then units else 0.0] +
      if left <= 0.0 then [] else BilledUnits(tiers[1..], After(tiers[0], previous), left)
  }

  function Sum(xs: seq<Amount>): Amount {
    if xs == [] then 0.0 else xs[0] + Sum(xs[1..])
  }

  method GraduatedPrice(tiers: seq<Tier>, measure: Amount) returns (total: Amount)
    ensures total == Graduated(tiers, 0.0, measure)
  {
    hide Times;
    var remaining := measure;
    var previous := 0.0;
    total := 0.0;
    for i := 0 to |tiers|
      invariant Graduated(tiers, 0.0, measure) == total + Graduated(tiers[i..], previous, remaining)
    {
      var tier := tiers[i];
      assert tiers[i..][0] == tier && tiers[i..][1..] == tiers[i + 1..];
      var units := remaining;
      if tier.upTo.Some? {
        var width := tier.upTo.value - previous;
        units := if remaining < width then remaining else width;
      }
      if units > 0.0 {
        total := total + Times(units, tier.rate);
        remaining := remaining - units;
      }
      if !(remaining > 0.0) { return; }
      if tier.upTo.Some? { previous := tier.upTo.value; }
    }
  }

  /** The volume rule: the first tier whose bound reaches the measure, else the last. */
  function VolumeTier(tiers: seq<Tier>, measure: Amount): (t: Tier)
    requires tiers != []
    ensures t in tiers
  {
    if |tiers| == 1 || tiers[0].upTo.None? || measure <= tiers[0].upTo.value then tiers[0]
    else VolumeTier(tiers[1..], measure)
  }

  method SelectVolumeTier(tiers: seq<Tier>, measure: Amount) returns (selected: Tier)
    requires tiers != []
    ensures selected == VolumeTier(tiers, measure)
  {
    selected := tiers[|tiers| - 1];
    for i := 0 to |tiers|
      invariant i < |tiers| ==> VolumeTier(tiers, measure) == VolumeTier(tiers[i..], measure)
      invariant i == |tiers| ==> VolumeTier(tiers, measure) == selected
      invariant selected == tiers[|tiers| - 1]
    {
      if tiers[i].upTo.None? || measure <= tiers[i].upTo.value {
        selected := tiers[i];
        return;
      }
      assert i + 1 < |tiers| ==> tiers[i..][1..] == tiers[i + 1..];
    }
  }

  /** The tier the volume rule selects is the only one whose interval holds the measure. */
  lemma {:induction false} VolumeTierHolds(tiers: seq<Tier>, floor: Option<Amount>, measure: Amount, k: nat)
    requires Increasing(tiers, floor) && k < |tiers|
    requires k > 0 ==> tiers[k - 1].upTo.Some? && tiers[k - 1].upTo.value < measure
    requires tiers[k].upTo.Some? ==> measure <= tiers[k].upTo.value
    ensures VolumeTier(tiers, measure) == tiers[k]
  {
    if k > 0 {
      BoundsIncrease(tiers, floor, 0, k - 1);
      VolumeTierHolds(tiers[1..], tiers[0].upTo, measure, k - 1);
    }
  }

  lemma {:induction false} BoundsIncrease(tiers: seq<Tier>, floor: Option<Amount>, i: nat, j: nat)
    requires Increasing(tiers, floor) && i <= j < |tiers| - 1
    ensures tiers[i].upTo.Some? && tiers[j].upTo.Some? && tiers[i].upTo.value <= tiers[j].upTo.value
    ensures floor.Some? ==> floor.value < tiers[i].upTo.value
  {
    if i > 0 {
      BoundsIncrease(tiers[1..], tiers[0].upTo, i - 1, j - 1);
    } else if j > 0 {
      BoundsIncrease(tiers[1..], tiers[0].upTo, j - 1, j - 1);
    }
  }

  lemma {:induction false} BoundsStrict(tiers: seq<Tier>, floor: Option<Amount>, i: nat)
    requires Increasing(tiers, floor) && 1 <= i < |tiers| - 1
    ensures tiers[i - 1].upTo.Some? && tiers[i].upTo.Some? && tiers[i - 1].upTo.value < tiers[i].upTo.value
  {
    if i == 1 {
      BoundsIncrease(tiers[1..], tiers[0].upTo, 0, 0);
    } else {
      BoundsStrict(tiers[1..], tiers[0].upTo, i - 1);
    }
  }

  // ----- Conservation -----

  /** The units billed over all tiers are exactly the measure. */
  lemma {:induction false} UnitsConserved(tiers: seq<Tier>, floor: Option<Amount>, previous: Amount, remaining: Amount)
    requires Increasing(tiers, floor) && remaining >= 0.0
    ensures Sum(BilledUnits(tiers, previous, remaining)) == remaining
  {
    var units := UnitsIn(tiers[0], previous, remaining);
    var left := if units > 0.0 then remaining - units else remaining;
    var head := [if units > 0.0 then units else 0.0];
    var rest := if left <= 0.0 then [] else BilledUnits(tiers[1..], After(tiers[0], previous), left);
    assert (head + rest)[1..] == rest;
    if left > 0.0 {
      UnitsConserved(tiers[1..], tiers[0].upTo, After(tiers[0], previous), left);
    }
  }

  // ----- Closed form -----

  /** The remaining tiers start above `previous`, as they do after any tier the loop passed. */
  predicate Above(tiers: seq<Tier>, previous: Amount) {
    Increasing(tiers, Some(previous))
  }

  /** With tiers above `previous`, the first tier bills its whole width before the next starts. */
  lemma GraduatedUnfold(tiers: seq<Tier>, previous: Amount, x: Amount)
    requires Above(tiers, previous) && x >= 0.0
    ensures |tiers| == 1 ==> Graduated(tiers, previous, x) == Times(x, tiers[0].rate)
    ensures |tiers| > 1 ==>
      var width := tiers[0].upTo.value - previous;
      && width > 0.0 && Above(tiers[1..], tiers[0].upTo.value)
      && Graduated(tiers, previous, x)
         == if x <= width then Times(x, tiers[0].rate)
            else Times(width, tiers[0].rate) + Graduated(tiers[1..], tiers[0].upTo.value, x - width)
  {
    TimesNothing(tiers[0].rate);
    hide Times;
    if |tiers| > 1 && x > tiers[0].upTo.value - previous {
      assert UnitsIn(tiers[0], previous, x) == tiers[0].upTo.value - previous;
    } else if x > 0.0 {
      assert UnitsIn(tiers[0], previous, x) == x;
    }
  }

  lemma TimesNothing(rate: Amount)
    ensures Times(0.0, rate) == 0.0
  {
  }

  /** A first bound at or below zero only moves the starting point of the tiers after it. */
  lemma GraduatedStart(tiers: seq<Tier>, measure: Amount)
    requires WellFormed(tiers) && measure > 0.0
    ensures |tiers| == 1 || tiers[0].upTo.value > 0.0 ==> Above(tiers, 0.0)
    ensures |tiers| > 1 && tiers[0].upTo.value <= 0.0 ==>
      && Above(tiers[1..], tiers[0].upTo.value)
      && Graduated(tiers, 0.0, measure) == Graduated(tiers[1..], tiers[0].upTo.value, measure)
  {
  }

  // ----- Share by share -----

  /** How much of the measure lies above `low` and up to `high`. */
  function Share(low: Amount, high: Option<Amount>, measure: Amount): Amount {
    var top := if high.Some? && high.value < measure then high.value else measure;
    if low < top then top - low else 0.0
  }

  /** Each tier's share of the measure at its own rate, the tiers starting at `low`. */
  function Shares(tiers: seq<Tier>, low: Amount, measure: Amount): Amount {
    if tiers == [] then 0.0
    else
      Times(Share(low, tiers[0].upTo, measure), tiers[0].rate)
      + if tiers[0].upTo.None? then 0.0 else Shares(tiers[1..], tiers[0].upTo.value, measure)
  }

  lemma {:induction false} NoShares(tiers: seq<Tier>, low: Amount, measure: Amount)
    requires Above(tiers, low) && measure <= low
    ensures Shares(tiers, low, measure) == 0.0
  {
    TimesNothing(tiers[0].rate);
    hide Times;
    if |tiers| > 1 { NoShares(tiers[1..], tiers[0].upTo.value, measure); }
  }

  lemma {:induction false} SharesAbove(tiers: seq<Tier>, previous: Amount, x: Amount)
    requires Above(tiers, previous) && x >= 0.0
    ensures Graduated(tiers, previous, x) == Shares(tiers, previous, previous + x)
  {
    GraduatedUnfold(tiers, previous, x);
    TimesNothing(tiers[0].rate);
    hide Times, Graduated;
    if |tiers| > 1 {
      var bound := tiers[0].upTo.value;
      var width := bound - previous;
      if x <= width {
        NoShares(tiers[1..], bound, previous + x);
      } else {
        SharesAbove(tiers[1..], bound, x - width);
        assert bound + (x - width) == previous + x;
      }
    }
  }

  /** With a first bound above zero, or one tier, every measure, fractions included, is split at the
      bounds and each tier's share billed at its rate. */
  lemma GraduatedByShares(tiers: seq<Tier>, measure: Amount)
    requires WellFormed(tiers) && measure >= 0.0
    requires tiers[0].upTo.Some? ==> tiers[0].upTo.value > 0.0
    ensures Graduated(tiers, 0.0, measure) == Shares(tiers, 0.0, measure)
  {
    SharesAbove(tiers, 0.0, measure);
  }

  // ----- Unit by unit -----

  predicate IsInteger(x: Amount) {
    x == Floor(x) as real
  }

  predicate IntegerBounds(tiers: seq<Tier>) {
    forall t | t in tiers && t.upTo.Some? :: IsInteger(t.upTo.value)
  }

  /** The price of units start+1 .. start+count, each at the rate the volume rule gives it. */
  function UnitPrices(tiers: seq<Tier>, start: int, count: nat): Amount
    requires tiers != []
  {
    if count == 0 then 0.0
    else UnitPrices(tiers, start, count - 1) + VolumeTier(tiers, (start + count) as real).rate
  }

  lemma {:induction false} UnitsWithinFirst(tiers: seq<Tier>, start: int, count: nat)
    requires tiers != []
    requires |tiers| == 1 || (tiers[0].upTo.Some? && (start + count) as real <= tiers[0].upTo.value)
    ensures UnitPrices(tiers, start, count) == Times(count as real, tiers[0].rate)
  {
    if count > 0 {
      UnitsWithinFirst(tiers, start, count - 1);
      assert count as real * tiers[0].rate == (count - 1) as real * tiers[0].rate + tiers[0].rate;
    }
  }

  lemma {:induction false} UnitsBeyondFirst(tiers: seq<Tier>, start: int, width: nat, count: nat)
    requires |tiers| > 1 && tiers[0].upTo == Some((start + width) as real)
    ensures UnitPrices(tiers, start, width + count)
         == UnitPrices(tiers, start, width) + UnitPrices(tiers[1..], start + width, count)
  {
    if count > 0 {
      UnitsBeyondFirst(tiers, start, width, count - 1);
      assert width + count - 1 == width + (count - 1);
      assert (start + (width + count)) as real > tiers[0].upTo.value;
    }
  }

  lemma {:induction false} GraduatedIsUnitByUnit(tiers: seq<Tier>, start: int, count: nat)
    requires Above(tiers, start as real) && IntegerBounds(tiers)
    ensures Graduated(tiers, start as real, count as real) == UnitPrices(tiers, start, count)
  {
    hide Graduated, UnitPrices;
    GraduatedUnfold(tiers, start as real, count as real);
    if |tiers| == 1 {
      UnitsWithinFirst(tiers, start, count);
    } else {
      assert tiers[0] in tiers;
      var bound := Floor(tiers[0].upTo.value);
      if count <= bound - start {
        UnitsWithinFirst(tiers, start, count);
      } else {
        UnitsAcross(tiers, start, bound - start, count - (bound - start));
        GraduatedIsUnitByUnit(tiers[1..], bound, count - (bound - start));
      }
    }
  }

  lemma UnitsAcross(tiers: seq<Tier>, start: int, width: nat, more: nat)
    requires |tiers| > 1 && tiers[0].upTo == Some((start + width) as real)
    ensures UnitPrices(tiers, start, width + more)
         == Times(width as real, tiers[0].rate) + UnitPrices(tiers[1..], start + width, more)
  {
    UnitsWithinFirst(tiers, start, width);
    UnitsBeyondFirst(tiers, start, width, more);
  }

  /** Where the loop starts counting: below zero only when the first bound is. */
  function Origin(tiers: seq<Tier>): int
    requires tiers != []
  {
    if tiers[0].upTo.Some? && tiers[0].upTo.value < 0.0 then Floor(tiers[0].upTo.value) else 0
  }

  /** For every accepted tier list with integer bounds, the graduated price of an integer measure
      is the sum over its units of the volume rate of each, counted from the origin. */
  lemma GraduatedRefinesUnits(tiers: seq<Tier>, measure: nat)
    requires WellFormed(tiers) && IntegerBounds(tiers)
    ensures Graduated(tiers, 0.0, measure as real) == UnitPrices(tiers, Origin(tiers), measure)
  {
    if measure > 0 {
      GraduatedStart(tiers, measure as real);
      if |tiers| == 1 || tiers[0].upTo.value > 0.0 {
        GraduatedIsUnitByUnit(tiers, 0, measure);
      } else {
        assert tiers[0] in tiers;
        var bound := Floor(tiers[0].upTo.value);
        assert IntegerBounds(tiers[1..]);
        GraduatedIsUnitByUnit(tiers[1..], bound, measure);
        UnitsBeyondFirst(tiers, bound, 0, measure);
      }
    }
  }

  /** With a first bound that is not negative the units are 1 .. measure themselves. */
  lemma GraduatedUnitByUnit(tiers: seq<Tier>, measure: nat)
    requires WellFormed(tiers) && IntegerBounds(tiers)
    requires tiers[0].upTo.Some? ==> tiers[0].upTo.value >= 0.0
    ensures Graduated(tiers, 0.0, measure as real) == UnitPrices(tiers, 0, measure)
  {
    GraduatedRefinesUnits(tiers, measure);
  }

  ghost predicate BilledByUnit(tiers: seq<Tier>, measure: nat)
    requires tiers != []
  {
    Graduated(tiers, 0.0, measure as real) == UnitPrices(tiers, 0, measure)
  }

  /** Counting from the origin or from zero puts the k-th unit at the same rate. */
  ghost predicate SameRate(tiers: seq<Tier>, k: nat)
    requires tiers != []
  {
    VolumeTier(tiers, (Origin(tiers) + k) as real).rate == VolumeTier(tiers, k as real).rate
  }

  lemma {:induction false} SameRatesSamePrices(tiers: seq<Tier>, count: nat)
    requires tiers != [] && forall k: nat | k >= 1 :: SameRate(tiers, k)
    ensures UnitPrices(tiers, Origin(tiers), count) == UnitPrices(tiers, 0, count)
  {
    if count > 0 {
      assert SameRate(tiers, count);
      SameRatesSamePrices(tiers, count - 1);
    }
  }

  lemma SameRatesIff(tiers: seq<Tier>)
    requires WellFormed(tiers) && IntegerBounds(tiers)
    ensures (forall measure: nat :: BilledByUnit(tiers, measure)) <==> (forall k: nat | k >= 1 :: SameRate(tiers, k))
  {
    assert tiers != [];
    hide Graduated, WellFormed, IntegerBounds, VolumeTier, Origin;
    if forall k: nat | k >= 1 :: SameRate(tiers, k) {
      forall measure: nat ensures BilledByUnit(tiers, measure) {
        GraduatedRefinesUnits(tiers, measure);
        SameRatesSamePrices(tiers, measure);
      }
    }
    if forall measure: nat :: BilledByUnit(tiers, measure) {
      forall k: nat | k >= 1 ensures SameRate(tiers, k) {
        GraduatedRefinesUnits(tiers, k);
        GraduatedRefinesUnits(tiers, k - 1);
        assert BilledByUnit(tiers, k) && BilledByUnit(tiers, k - 1);
      }
    }
  }

  /** The first bound is not negative, or every tier after the first has the rate of the last. */
  predicate ShiftHarmless(tiers: seq<Tier>)
    requires WellFormed(tiers)
  {
    |tiers| > 1 && tiers[0].upTo.value < 0.0 ==>
      forall i | 1 <= i < |tiers| :: tiers[i].rate == tiers[|tiers| - 1].rate
  }

  /** A unit above every bound belongs to the open tier. */
  lemma {:induction false} AboveAllBounds(tiers: seq<Tier>, floor: Option<Amount>, unit: Amount)
    requires Increasing(tiers, floor) && forall t | t in tiers && t.upTo.Some? :: t.upTo.value < unit
    ensures VolumeTier(tiers, unit) == tiers[|tiers| - 1]
  {
    if |tiers| > 1 {
      assert tiers[0] in tiers;
      AboveAllBounds(tiers[1..], tiers[0].upTo, unit);
    }
  }

  /** A unit above the first bound belongs to a later tier. */
  lemma {:induction false} AboveFirstBound(tiers: seq<Tier>, floor: Option<Amount>, unit: Amount) returns (i: nat)
    requires Increasing(tiers, floor) && |tiers| > 1 && tiers[0].upTo.value < unit
    ensures 1 <= i < |tiers| && VolumeTier(tiers, unit) == tiers[i]
  {
    var rest := tiers[1..];
    i := 1;
    if |rest| > 1 && rest[0].upTo.value < unit {
      var j := AboveFirstBound(rest, tiers[0].upTo, unit);
      i := j + 1;
    }
  }

  function BoundsCeiling(tiers: seq<Tier>): int {
    if tiers == [] then 0
    else
      var rest := BoundsCeiling(tiers[1..]);
      if tiers[0].upTo.Some? && Floor(tiers[0].upTo.value) >= rest then Floor(tiers[0].upTo.value) + 1 else rest
  }

  lemma {:induction false} CeilingIsAbove(tiers: seq<Tier>, t: Tier)
    requires t in tiers && t.upTo.Some?
    ensures t.upTo.value < BoundsCeiling(tiers) as real
  {
    if t != tiers[0] { CeilingIsAbove(tiers[1..], t); }
  }

  /** If shifting never changes a rate, shifting on to the open tier does not. */
  lemma {:induction false} RateIsLast(tiers: seq<Tier>, unit: int)
    requires WellFormed(tiers) && Origin(tiers) < 0 && unit > Origin(tiers)
    requires forall k: nat | k >= 1 :: SameRate(tiers, k)
    ensures VolumeTier(tiers, unit as real).rate == tiers[|tiers| - 1].rate
    decreases BoundsCeiling(tiers) - unit
  {
    if unit >= BoundsCeiling(tiers) {
      forall t | t in tiers && t.upTo.Some? ensures t.upTo.value < unit as real { CeilingIsAbove(tiers, t); }
      AboveAllBounds(tiers, None, unit as real);
    } else {
      var k: nat := unit - Origin(tiers);
      assert SameRate(tiers, k);
      RateIsLast(tiers, k);
    }
  }

  lemma ShiftHarmlessKeepsRates(tiers: seq<Tier>, k: nat)
    requires WellFormed(tiers) && IntegerBounds(tiers) && ShiftHarmless(tiers) && k >= 1
    ensures SameRate(tiers, k)
  {
    if Origin(tiers) < 0 {
      assert tiers[0] in tiers;
      var i := AboveFirstBound(tiers, None, (Origin(tiers) + k) as real);
      var j := AboveFirstBound(tiers, None, k as real);
    }
  }

  lemma BoundIsItsUnit(tiers: seq<Tier>, i: nat) returns (unit: int)
    requires WellFormed(tiers) && IntegerBounds(tiers) && Origin(tiers) < 0 && 1 <= i < |tiers| - 1
    ensures unit > Origin(tiers) && VolumeTier(tiers, unit as real) == tiers[i]
  {
    assert tiers[0] in tiers && tiers[i] in tiers;
    BoundsStrict(tiers, None, i);
    BoundsIncrease(tiers, None, 0, i - 1);
    unit := Floor(tiers[i].upTo.value);
    VolumeTierHolds(tiers, None, unit as real, i);
  }

  /** Exactly when every integer measure is billed unit by unit: when the first bound is not
      negative, or the tiers it shifts all have one rate. */
  lemma UnitByUnitIff(tiers: seq<Tier>)
    requires WellFormed(tiers) && IntegerBounds(tiers)
    ensures (forall measure: nat :: BilledByUnit(tiers, measure)) <==> ShiftHarmless(tiers)
  {
    SameRatesIff(tiers);
    if ShiftHarmless(tiers) {
      forall k: nat | k >= 1 ensures SameRate(tiers, k) { ShiftHarmlessKeepsRates(tiers, k); }
    }
    if (forall k: nat | k >= 1 :: SameRate(tiers, k)) && |tiers| > 1 && tiers[0].upTo.value < 0.0 {
      hide SameRate, BilledByUnit;
      forall i | 1 <= i < |tiers| ensures tiers[i].rate == tiers[|tiers| - 1].rate {
        if i < |tiers| - 1 {
          var unit := BoundIsItsUnit(tiers, i);
          RateIsLast(tiers, unit);
        }
      }
    }
  }

  /** A negative first bound stretches the next tier: fifteen units at 1 although unit 11 costs 2. */
  lemma NegativeFirstBoundMisbills()
    ensures var tiers := [Tier(Some(-5.0), 7.0), Tier(Some(10.0), 1.0), Tier(None, 2.0)];
            WellFormed(tiers) && Graduated(tiers, 0.0, 15.0) == 15.0 && VolumeTier(tiers, 11.0).rate == 2.0
  {
    var tiers := [Tier(Some(-5.0), 7.0), Tier(Some(10.0), 1.0), Tier(None, 2.0)];
    var rest := [Tier(Some(10.0), 1.0), Tier(None, 2.0)];
    assert tiers[1..] == rest && rest[1..] == [Tier(None, 2.0)];
    assert Increasing(rest[1..], Some(10.0));
    assert Increasing(rest, Some(-5.0));
    GraduatedStart(tiers, 15.0);
    GraduatedUnfold(rest, -5.0, 15.0);
    assert VolumeTier(rest[1..], 11.0).rate == 2.0;
    assert VolumeTier(rest, 11.0).rate == 2.0;
  }

  // ----- Shape of the price -----

  predicate RatesWithin(tiers: seq<Tier>, low: Amount, high: Amount) {
    forall t | t in tiers :: low <= t.rate <= high
  }

  lemma TimesWithin(d: Amount, rate: Amount, low: Amount, high: Amount)
    requires d >= 0.0 && low <= rate <= high
    ensures Times(d, low) <= Times(d, rate) <= Times(d, high)
  {
    MulMonotone(low, rate, d);
    MulMonotone(rate, high, d);
    assert d * low == low * d && d * rate == rate * d && d * high == high * d;
  }

  lemma TimesAdds(a: Amount, b: Amount, rate: Amount)
    ensures Times(a + b, rate) == Times(a, rate) + Times(b, rate)
  {
  }

  /** Within the first tier the price is linear. */
  lemma WithinFirst(tiers: seq<Tier>, previous: Amount, x: Amount)
    requires Above(tiers, previous) && x >= 0.0
    requires |tiers| == 1 || x <= tiers[0].upTo.value - previous
    ensures Graduated(tiers, previous, x) == Times(x, tiers[0].rate)
  {
    GraduatedUnfold(tiers, previous, x);
    hide Graduated;
  }

  lemma GraduatedNothing(tiers: seq<Tier>, previous: Amount)
    requires Above(tiers, previous)
    ensures Graduated(tiers, previous, 0.0) == 0.0
  {
    GraduatedUnfold(tiers, previous, 0.0);
    hide Graduated;
  }

  lemma PastFirst(tiers: seq<Tier>, previous: Amount, x: Amount)
    requires Above(tiers, previous) && |tiers| > 1 && x >= tiers[0].upTo.value - previous
    ensures Above(tiers[1..], tiers[0].upTo.value) && tiers[0].upTo.value > previous
    ensures Graduated(tiers, previous, x)
         == Times(tiers[0].upTo.value - previous, tiers[0].rate)
            + Graduated(tiers[1..], tiers[0].upTo.value, x - (tiers[0].upTo.value - previous))
  {
    GraduatedUnfold(tiers, previous, x);
    hide Graduated;
    if x == tiers[0].upTo.value - previous { GraduatedNothing(tiers[1..], tiers[0].upTo.value); }
  }

  /** The price difference between a point inside the first tier and a point beyond it. */
  lemma AcrossBounds(inside: Amount, beyond: Amount, rate: Amount, x: Amount, rest: Amount, low: Amount, high: Amount)
    requires inside >= 0.0 && beyond >= 0.0 && low <= rate <= high
    requires Times(beyond, low) <= rest <= Times(beyond, high)
    ensures Times(inside + beyond, low) <= Times(x + inside, rate) + rest - Times(x, rate) <= Times(inside + beyond, high)
  {
    TimesAdds(x, inside, rate);
    TimesAdds(inside, beyond, low);
    TimesAdds(inside, beyond, high);
    TimesWithin(inside, rate, low, high);
    hide Times;
  }

  lemma {:induction false} SlopeAbove(tiers: seq<Tier>, previous: Amount, x: Amount, d: Amount, low: Amount, high: Amount)
    requires Above(tiers, previous) && x >= 0.0 && d >= 0.0 && RatesWithin(tiers, low, high)
    ensures Times(d, low) <= Graduated(tiers, previous, x + d) - Graduated(tiers, previous, x) <= Times(d, high)
    decreases tiers, 1
  {
    hide Graduated, Times;
    var rate := tiers[0].rate;
    assert tiers[0] in tiers;
    if |tiers| == 1 || x + d <= tiers[0].upTo.value - previous {
      WithinFirst(tiers, previous, x);
      WithinFirst(tiers, previous, x + d);
      TimesWithin(d, rate, low, high);
      TimesAdds(x, d, rate);
    } else {
      SlopePastFirst(tiers, previous, x, d, low, high);
    }
  }

  lemma {:induction false} SlopePastFirst(tiers: seq<Tier>, previous: Amount, x: Amount, d: Amount, low: Amount, high: Amount)
    requires Above(tiers, previous) && x >= 0.0 && d >= 0.0 && RatesWithin(tiers, low, high)
    requires |tiers| > 1 && x + d > tiers[0].upTo.value - previous
    ensures Times(d, low) <= Graduated(tiers, previous, x + d) - Graduated(tiers, previous, x) <= Times(d, high)
    decreases tiers, 0
  {
    hide Graduated, Times;
    var width := tiers[0].upTo.value - previous;
    var rest, next := tiers[1..], tiers[0].upTo.value;
    assert tiers[0] in tiers;
    PastFirst(tiers, previous, x + d);
    if x > width {
      PastFirst(tiers, previous, x);
      SlopeAbove(rest, next, x - width, d, low, high);
      assert x - width + d == x + d - width;
    } else {
      var inside, beyond := width - x, x + d - width;
      WithinFirst(tiers, previous, x);
      SlopeAbove(rest, next, 0.0, beyond, low, high);
      GraduatedNothing(rest, next);
      assert 0.0 + beyond == beyond && x + inside == width && inside + beyond == d;
      AcrossBounds(inside, beyond, tiers[0].rate, x, Graduated(rest, next, beyond), low, high);
    }
  }

  /** Adding d units changes the price by at least d times the lowest rate and at most d times the
      highest, for every accepted tier list. */
  lemma GraduatedSlope(tiers: seq<Tier>, x: Amount, d: Amount, low: Amount, high: Amount)
    requires WellFormed(tiers) && x >= 0.0 && d >= 0.0 && RatesWithin(tiers, low, high)
    ensures d * low <= Graduated(tiers, 0.0, x + d) - Graduated(tiers, 0.0, x) <= d * high
  {
    SlopeFromZero(tiers, x, d, low, high);
    hide Graduated;
  }

  lemma SlopeFromZero(tiers: seq<Tier>, x: Amount, d: Amount, low: Amount, high: Amount)
    requires WellFormed(tiers) && x >= 0.0 && d >= 0.0 && RatesWithin(tiers, low, high)
    ensures Times(d, low) <= Graduated(tiers, 0.0, x + d) - Graduated(tiers, 0.0, x) <= Times(d, high)
  {
    hide Graduated, Times;
    if x + d > 0.0 {
      GraduatedStart(tiers, x + d);
      if |tiers| == 1 || tiers[0].upTo.value > 0.0 {
        SlopeAbove(tiers, 0.0, x, d, low, high);
      } else {
        if x > 0.0 {
          GraduatedStart(tiers, x);
        } else {
          GraduatedNothing(tiers[1..], tiers[0].upTo.value);
          NothingIsFree(tiers);
        }
        SlopeAbove(tiers[1..], tiers[0].upTo.value, x, d, low, high);
      }
    } else {
      TimesNothing(low);
      TimesNothing(high);
    }
  }

  predicate RatesNonIncreasing(tiers: seq<Tier>) {
    forall i, j | 0 <= i <= j < |tiers| :: tiers[j].rate <= tiers[i].rate
  }

  function LowestRate(tiers: seq<Tier>): Amount
    requires tiers != []
  {
    tiers[|tiers| - 1].rate
  }

  lemma GrowthAtMost(tiers: seq<Tier>, previous: Amount, x: Amount, d: Amount, high: Amount)
    requires Above(tiers, previous) && x >= 0.0 && d >= 0.0 && RatesNonIncreasing(tiers)
    requires tiers[0].rate <= high
    ensures Graduated(tiers, previous, x + d) <= Graduated(tiers, previous, x) + Times(d, high)
  {
    hide Graduated, Times;
    SlopeAbove(tiers, previous, x, d, LowestRate(tiers), high);
  }

  lemma {:induction false} SubadditiveAbove(tiers: seq<Tier>, previous: Amount, a: Amount, b: Amount)
    requires Above(tiers, previous) && a >= 0.0 && b >= a && RatesNonIncreasing(tiers)
    ensures Graduated(tiers, previous, a + b) <= Graduated(tiers, previous, a) + Graduated(tiers, previous, b)
  {
    hide Graduated, Times;
    assert b + a == a + b;
    if |tiers| == 1 || a <= tiers[0].upTo.value - previous {
      WithinFirst(tiers, previous, a);
      GrowthAtMost(tiers, previous, b, a, tiers[0].rate);
    } else {
      var width := tiers[0].upTo.value - previous;
      var rest, next := tiers[1..], tiers[0].upTo.value;
      PastFirst(tiers, previous, a);
      PastFirst(tiers, previous, b);
      PastFirst(tiers, previous, a + b);
      SubadditiveAbove(rest, next, a - width, b - width);
      var together := (a - width) + (b - width);
      GrowthAtMost(rest, next, together, width, tiers[0].rate);
      assert together + width == a + b - width;
    }
  }

  /** Under rates that never rise, one purchase of a + b units costs no more than two. */
  lemma GraduatedSubadditive(tiers: seq<Tier>, a: Amount, b: Amount)
    requires WellFormed(tiers) && a >= 0.0 && b >= 0.0 && RatesNonIncreasing(tiers)
    ensures Graduated(tiers, 0.0, a + b) <= Graduated(tiers, 0.0, a) + Graduated(tiers, 0.0, b)
  {
    var small, large := if a <= b then a else b, if a <= b then b else a;
    assert a + b == small + large;
    if small == 0.0 {
      NothingIsFree(tiers);
    } else {
      GraduatedStart(tiers, small);
      GraduatedStart(tiers, large);
      GraduatedStart(tiers, small + large);
      if |tiers| == 1 || tiers[0].upTo.value > 0.0 {
        SubadditiveAbove(tiers, 0.0, small, large);
      } else {
        SubadditiveAbove(tiers[1..], tiers[0].upTo.value, small, large);
      }
    }
  }

  lemma NothingIsFree(tiers: seq<Tier>)
    ensures Graduated(tiers, 0.0, 0.0) == 0.0
  {
    if tiers != [] {
      assert 0.0 * tiers[0].rate == 0.0;
    }
  }
}
