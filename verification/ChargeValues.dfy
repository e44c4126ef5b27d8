/** What a charge costs, kind by kind. */
module ChargeValues {
  import opened Decimals
  import opened Tiers
  import opened Evaluator
  import opened Expressions
  import opened Charges
  import opened FormulaValues
  import PackageCounts

  lemma FlatPrice(lib: Library, charge: Charge, measures: Variables)
    requires charge.kind.Flat?
    ensures Price(lib, charge, measures) == Success(charge.amount)
  {
  }

  /** Per unit: the rate for every unit of the given size, the number of units being the measure over
      the size to 32 places. */
  lemma PerUnitPrice(lib: Library, charge: Charge, measures: Variables) returns (units: Amount)
    requires charge.kind.PerUnit? && charge.measure in measures && charge.unitSize != 0.0
    ensures Price(lib, charge, measures) == Success(Times(units, charge.rate))
    ensures -0.5 <= ScaleUp(units, LAST_PLACE) - ScaleUp(measures[charge.measure] / charge.unitSize, LAST_PLACE) <= 0.5
    ensures IsScaled(measures[charge.measure] / charge.unitSize, LAST_PLACE) ==>
              units == measures[charge.measure] / charge.unitSize
  {
    units := DivRound(measures[charge.measure], charge.unitSize);
    QuotientBound(measures[charge.measure], charge.unitSize);
    hide DivRound, ScaleUp, IsScaled, Times;
  }

  lemma QuotientBound(x: Amount, y: Amount)
    requires y != 0.0
    ensures -0.5 <= ScaleUp(DivRound(x, y), LAST_PLACE) - ScaleUp(x / y, LAST_PLACE) <= 0.5
    ensures IsScaled(x / y, LAST_PLACE) ==> DivRound(x, y) == x / y
  {
    LastPlaceIs();
    DivRoundError(x, y);
    if IsScaled(x / y, LAST_PLACE) { RoundScaledExact(x / y, DIVISION_SCALE); }
    hide RoundScaled, IsScaled, ScaleUp, Pow10;
  }

  /** Volume: the measure times the rate of the tier whose interval holds it. */
  lemma VolumePrice(lib: Library, charge: Charge, measures: Variables, k: nat)
    requires charge.kind.VolumeTiers? && charge.measure in measures && WellFormed(charge.tiers) && k < |charge.tiers|
    requires k > 0 ==> charge.tiers[k - 1].upTo.Some? && charge.tiers[k - 1].upTo.value < measures[charge.measure]
    requires charge.tiers[k].upTo.Some? ==> measures[charge.measure] <= charge.tiers[k].upTo.value
    ensures Price(lib, charge, measures) == Success(Times(measures[charge.measure], charge.tiers[k].rate))
  {
    VolumeTierHolds(charge.tiers, None, measures[charge.measure], k);
    hide VolumeTier, Times;
  }

  /** Graduated, for any measure: each tier's share of it at the tier's rate. */
  lemma GraduatedPriceByShares(lib: Library, charge: Charge, measures: Variables)
    requires charge.kind.GraduatedTiers? && charge.measure in measures && WellFormed(charge.tiers)
    requires measures[charge.measure] >= 0.0 && (charge.tiers[0].upTo.Some? ==> charge.tiers[0].upTo.value > 0.0)
    ensures Price(lib, charge, measures) == Success(Shares(charge.tiers, 0.0, measures[charge.measure]))
  {
    GraduatedByShares(charge.tiers, measures[charge.measure]);
    hide Graduated;
  }

  /** Graduated, for whole units and bounds: unit by unit at the rate of the tier that holds it. */
  lemma GraduatedPriceByUnits(lib: Library, charge: Charge, measures: Variables, units: nat)
    requires charge.kind.GraduatedTiers? && charge.measure in measures && measures[charge.measure] == units as real
    requires WellFormed(charge.tiers) && IntegerBounds(charge.tiers)
    ensures Price(lib, charge, measures) == Success(UnitPrices(charge.tiers, Origin(charge.tiers), units))
  {
    GraduatedRefinesUnits(charge.tiers, units);
    hide Graduated;
  }

  /** Package: whole packages at the amount, the count being what the rounding makes of the measure
      over the package size to 32 places. */
  lemma PackagePrice(lib: Library, charge: Charge, measures: Variables) returns (count: int, quotient: Amount)
    requires charge.kind.Package? && charge.measure in measures && charge.units != 0.0 && RoundingOf(charge.rounding).Some?
    ensures Price(lib, charge, measures) == Success(Times(count as real, charge.amount))
    ensures -0.5 <= ScaleUp(quotient, LAST_PLACE) - ScaleUp(measures[charge.measure] / charge.units, LAST_PLACE) <= 0.5
    ensures charge.rounding == "ceil" ==> count as real - 1.0 < quotient <= count as real
    ensures charge.rounding == "floor" ==> count as real <= quotient < count as real + 1.0
    ensures charge.rounding == "nearest" ==> count as real - 0.5 <= quotient <= count as real + 0.5
  {
    quotient := DivRound(measures[charge.measure], charge.units);
    QuotientBound(measures[charge.measure], charge.units);
    hide DivRound, ScaleUp, IsScaled, Times;
    count := PackageCounts.RoundToInteger(quotient, RoundingOf(charge.rounding).value);
    CountIs(quotient, charge.rounding, count);
    hide PackageCounts.RoundToInteger;
  }

  lemma CountIs(quotient: Amount, rounding: string, count: int)
    requires RoundingOf(rounding).Some? && count == PackageCounts.RoundToInteger(quotient, RoundingOf(rounding).value)
    ensures rounding == "ceil" ==> count as real - 1.0 < quotient <= count as real
    ensures rounding == "floor" ==> count as real <= quotient < count as real + 1.0
    ensures rounding == "nearest" ==> count as real - 0.5 <= quotient <= count as real + 0.5
  {
    hide Ceil, Floor, HalfAway;
  }

  /** A formula costs what it is worth. */
  lemma ExpressionPrice(lib: Library, charge: Charge, measures: Variables)
    requires charge.kind.Expression?
    ensures var worth := EvaluateExpression(lib, charge.formula, measures);
            Price(lib, charge, measures) == if worth.Success? then Success(worth.value) else Failure(BadFormula(worth.error))
  {
  }
}
