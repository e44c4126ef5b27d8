/** Charges: what a price rule makes of the measured usage. */
module Charges {
  import opened Decimals
  import opened Tiers
  import opened Evaluator
  import opened Expressions
  import PackageCounts

  datatype ChargeKind =
    | Flat | PerUnit | Package | GraduatedTiers | VolumeTiers | Expression | Sum
    | OtherKind(name: string)

  /** One record for every kind of charge; the fields a kind does not use keep their zero value. */
  datatype Charge = Charge(
    kind: ChargeKind,
    amount: Amount,
    measure: string,
    rate: Amount,
    unitSize: Amount,
    units: Amount,
    rounding: string,
    tiers: seq<Tier>,
    formula: string,
    components: seq<Charge>)

  datatype ChargeError =
    | MissingMeasure(name: string) | ZeroSize | UnsupportedRounding(rounding: string)
    | NoTiers | BadFormula(cause: ExpressionError) | UnsupportedKind(name: string)

  type Priced = Result<Amount, ChargeError>

  function RoundingOf(name: string): Option<PackageCounts.Rounding> {
    if name == "ceil" then Some(PackageCounts.RoundCeil)
    else if name == "floor" then Some(PackageCounts.RoundFloor)
    else if name == "nearest" then Some(PackageCounts.RoundNearest)
    else None
  }

  /** The price of a charge over measured usage; a sum stops at its first failing component. */
  function Price(lib: Library, charge: Charge, measures: Variables): Priced
    decreases charge, 0
  {
    match charge.kind
    case Flat => Success(charge.amount)
    case PerUnit =>
      if charge.measure !in measures then Failure(MissingMeasure(charge.measure))
      else if charge.unitSize == 0.0 then Failure(ZeroSize)
      else Success(Times(DivRound(measures[charge.measure], charge.unitSize), charge.rate))
    case Package =>
      if charge.measure !in measures then Failure(MissingMeasure(charge.measure))
      else if charge.units == 0.0 then Failure(ZeroSize)
      else if RoundingOf(charge.rounding).None? then Failure(UnsupportedRounding(charge.rounding))
      else
        var packages := PackageCounts.RoundToInteger(
          DivRound(measures[charge.measure], charge.units), RoundingOf(charge.rounding).value);
        Success(Times(packages as real, charge.amount))
    case GraduatedTiers =>
      if charge.measure !in measures then Failure(MissingMeasure(charge.measure))
      else Success(Graduated(charge.tiers, 0.0, measures[charge.measure]))
    case VolumeTiers =>
      if charge.measure !in measures then Failure(MissingMeasure(charge.measure))
      else if charge.tiers == [] then Failure(NoTiers)
      else Success(Times(measures[charge.measure], VolumeTier(charge.tiers, measures[charge.measure]).rate))
    case Expression =>
      var v := EvaluateExpression(lib, charge.formula, measures);
      if v.Success? then Success(v.value) else Failure(BadFormula(v.error))
    case Sum => PriceAll(lib, charge.components, measures, 0.0)
    case OtherKind(name) => Failure(UnsupportedKind(name))
  }

  function PriceAll(lib: Library, components: seq<Charge>, measures: Variables, total: Amount): Priced
    decreases components
  {
    if components == [] then Success(total)
    else
      var v := Price(lib, components[0], measures);
      if v.Failure? then v else PriceAll(lib, components[1..], measures, total + v.value)
  }

  method EvaluateCharge(lib: Library, charge: Charge, measures: Variables) returns (r: Priced)
    ensures r == Price(lib, charge, measures)
    decreases charge
  {
    hide VolumeTier, Graduated, DivRound, EvaluateExpression, Times;
    match charge.kind {
      case Flat =>
        return Success(charge.amount);
      case PerUnit =>
        if charge.measure !in measures { return Failure(MissingMeasure(charge.measure)); }
        if charge.unitSize == 0.0 { return Failure(ZeroSize); }
        var units := DivRound(measures[charge.measure], charge.unitSize);
        return Success(Times(units, charge.rate));
      case Package =>
        if charge.measure !in measures { return Failure(MissingMeasure(charge.measure)); }
        if charge.units == 0.0 { return Failure(ZeroSize); }
        var packages := DivRound(measures[charge.measure], charge.units);
        if charge.rounding == "ceil" { packages := Ceil(packages) as real; }
        else if charge.rounding == "floor" { packages := Floor(packages) as real; }
        else if charge.rounding == "nearest" { packages := HalfAway(packages) as real; }
        else { return Failure(UnsupportedRounding(charge.rounding)); }
        return Success(Times(packages, charge.amount));
      case GraduatedTiers =>
        if charge.measure !in measures { return Failure(MissingMeasure(charge.measure)); }
        var total := GraduatedPrice(charge.tiers, measures[charge.measure]);
        return Success(total);
      case VolumeTiers =>
        if charge.measure !in measures { return Failure(MissingMeasure(charge.measure)); }
        if |charge.tiers| == 0 { return Failure(NoTiers); }
        var selected := SelectVolumeTier(charge.tiers, measures[charge.measure]);
        return Success(Times(measures[charge.measure], selected.rate));
      case Expression =>
        var v := EvaluateExpression(lib, charge.formula, measures);
        return if v.Success? then Success(v.value) else Failure(BadFormula(v.error));
      case Sum =>
        var total := 0.0;
        for i := 0 to |charge.components|
          invariant PriceAll(lib, charge.components, measures, 0.0)
                 == PriceAll(lib, charge.components[i..], measures, total)
        {
          var value := EvaluateCharge(lib, charge.components[i], measures);
          if value.Failure? { return value; }
          assert charge.components[i..][1..] == charge.components[i + 1..];
          total := total + value.value;
        }
        return Success(total);
      case OtherKind(name) =>
        return Failure(UnsupportedKind(name));
    }
  }

  // ----- A sum is the sum of its parts -----

  ghost predicate PartsPriced(lib: Library, components: seq<Charge>, measures: Variables, parts: seq<Amount>) {
    && |parts| == |components|
    && forall i | 0 <= i < |components| :: Price(lib, components[i], measures) == Success(parts[i])
  }

  /** Total of a list of amounts. */
  function Total(parts: seq<Amount>): Amount {
    if parts == [] then 0.0 else parts[0] + Total(parts[1..])
  }

  lemma {:induction false} PriceAllIsTotal(lib: Library, components: seq<Charge>, measures: Variables, total: Amount, parts: seq<Amount>)
    requires PartsPriced(lib, components, measures, parts)
    ensures PriceAll(lib, components, measures, total) == Success(total + Total(parts))
    decreases components
  {
    if components != [] {
      assert Price(lib, components[0], measures) == Success(parts[0]);
      PriceAllIsTotal(lib, components[1..], measures, total + parts[0], parts[1..]);
    }
  }

  /** A sum charge costs what its components cost together. */
  lemma SumChargeAdds(lib: Library, charge: Charge, measures: Variables, parts: seq<Amount>)
    requires charge.kind.Sum? && PartsPriced(lib, charge.components, measures, parts)
    ensures Price(lib, charge, measures) == Success(Total(parts))
  {
    PriceAllIsTotal(lib, charge.components, measures, 0.0, parts);
  }

  // ----- Package charges count exact packages -----

  /** A package charge bills the exact count of the true quotient whenever the measure and the
      package size have at most six places and the size is at most 10^32 millionths. */
  lemma PackageChargeExact(lib: Library, charge: Charge, measures: Variables, measure: nat, size: nat, rounding: PackageCounts.Rounding)
    requires charge.kind.Package? && charge.measure in measures
    requires RoundingOf(charge.rounding) == Some(rounding)
    requires ScaleUp(measures[charge.measure], MONEY_SCALE) == measure as real
    requires ScaleUp(charge.units, MONEY_SCALE) == size as real && 1 <= size <= DIVISION_SCALE
    ensures charge.units != 0.0
    ensures Price(lib, charge, measures)
         == Success(Times(PackageCounts.TruePackages(measure, size, rounding) as real, charge.amount))
  {
    hide Times, PackageCounts.TruePackages, PackageCounts.RoundToInteger, RoundScaled, Pow10;
    SameQuotient(measures[charge.measure], charge.units, measure as real, size as real, MONEY_SCALE);
    PackageCounts.EnginePackagesExact(measure, size, rounding);
    var quotient := DivRound(measures[charge.measure], charge.units);
    assert quotient == DivRound(measure as real, size as real);
    var count := PackageCounts.RoundToInteger(quotient, rounding);
    assert Price(lib, charge, measures) == Success(Times(count as real, charge.amount));
  }

  lemma SameQuotient(x: real, y: real, scaledX: real, scaledY: real, scale: int)
    requires scale >= 1 && ScaleUp(x, scale) == scaledX && ScaleUp(y, scale) == scaledY && scaledY > 0.0
    ensures y != 0.0 && x / y == scaledX / scaledY
  {
    var s := scale as real;
    assert 0.0 * s == 0.0;
    DivMul(x, y);
    assert (x / y) * scaledY == scaledX by {
      assert (x / y) * (y * s) == ((x / y) * y) * s;
    }
    MulDiv(x / y, scaledY);
  }

  // ----- Acceptance -----

  /** The measures a charge names, at every depth; a blank name is not collected. */
  function NamedMeasures(charge: Charge): set<string>
    decreases charge
  {
    (if charge.measure != "" then {charge.measure} else {})
    + set c, m | c in charge.components && m in NamedMeasures(c) :: m
  }

  predicate FormulasAccepted(lib: Library, charge: Charge, declared: set<string>)
    decreases charge
  {
    && (charge.kind.Expression? ==> ValidateExpression(lib, charge.formula, declared).None?)
    && forall c | c in charge.components :: FormulasAccepted(lib, c, declared)
  }

  /** The static check of a charge against the measures its operation declares. */
  predicate Validated(lib: Library, charge: Charge, declared: set<string>) {
    NamedMeasures(charge) <= declared && FormulasAccepted(lib, charge, declared)
  }

  /** What parsing guarantees of a charge, at every depth. */
  predicate WellParsed(charge: Charge)
    decreases charge
  {
    && !charge.kind.OtherKind?
    && (charge.kind.PerUnit? ==> charge.unitSize > 0.0)
    && (charge.kind.Package? ==> charge.units > 0.0)
    && (charge.kind.GraduatedTiers? || charge.kind.VolumeTiers? ==> WellFormed(charge.tiers))
    && forall c | c in charge.components :: WellParsed(c)
  }

  /** A formula met a zero divisor or left the percentile range. */
  predicate OnValues(e: ChargeError) {
    e.BadFormula? && e.cause.Evaluation? && ValueError(e.cause.cause)
  }

  /** The only ways an accepted charge can fail: a value the formula cannot take, or a name the
      static check does not look at: a blank measure, which no check excludes, or a rounding outside
      ceil, floor and nearest, which the configuration schema does exclude. */
  predicate Excused(e: ChargeError) {
    || OnValues(e)
    || e == MissingMeasure("")
    || (e.UnsupportedRounding? && RoundingOf(e.rounding).None?)
  }

  lemma {:induction false} AcceptedNeverStuck(lib: Library, charge: Charge, declared: set<string>, measures: Variables)
    requires ReadsBits(lib) && WellParsed(charge) && Validated(lib, charge, declared)
    requires declared <= measures.Keys
    ensures Price(lib, charge, measures).Failure? ==> Excused(Price(lib, charge, measures).error)
    decreases charge, 0
  {
    if charge.measure != "" { assert charge.measure in NamedMeasures(charge); }
    match charge.kind {
      case Flat =>
      case PerUnit =>
      case Package =>
      case GraduatedTiers =>
      case VolumeTiers =>
      case Expression => ValidatedNeverStuck(lib, charge.formula, declared, measures);
      case Sum =>
        forall c | c in charge.components ensures NamedMeasures(c) <= declared {
          forall m | m in NamedMeasures(c) ensures m in declared {
            assert m in NamedMeasures(charge);
          }
        }
        ComponentsNeverStuck(lib, charge.components, declared, measures, 0.0);
    }
  }

  lemma {:induction false} ComponentsNeverStuck(lib: Library, components: seq<Charge>, declared: set<string>, measures: Variables, total: Amount)
    requires ReadsBits(lib) && declared <= measures.Keys
    requires forall c | c in components :: WellParsed(c) && Validated(lib, c, declared)
    ensures var r := PriceAll(lib, components, measures, total);
            r.Failure? ==> Excused(r.error)
    decreases components
  {
    if components != [] {
      AcceptedNeverStuck(lib, components[0], declared, measures);
      var v := Price(lib, components[0], measures);
      if v.Success? {
        ComponentsNeverStuck(lib, components[1..], declared, measures, total + v.value);
      }
    }
  }

  // ----- Exactly when an accepted charge is priced -----

  predicate UsesMeasure(kind: ChargeKind) {
    kind.PerUnit? || kind.Package? || kind.GraduatedTiers? || kind.VolumeTiers?
  }

  /** No charge on a measure leaves its measure blank, at any depth. Neither the parser, the static
      check nor the configuration schema demands this. */
  predicate MeasuresNamed(charge: Charge)
    decreases charge
  {
    && (UsesMeasure(charge.kind) ==> charge.measure != "")
    && (charge.kind.Sum? ==> forall c | c in charge.components :: MeasuresNamed(c))
  }

  /** Every package is rounded by ceil, floor or nearest, as the configuration schema demands. */
  predicate RoundingsKnown(charge: Charge)
    decreases charge
  {
    && (charge.kind.Package? ==> RoundingOf(charge.rounding).Some?)
    && (charge.kind.Sum? ==> forall c | c in charge.components :: RoundingsKnown(c))
  }

  predicate Named(charge: Charge) {
    MeasuresNamed(charge) && RoundingsKnown(charge)
  }

  /** Every formula of the charge has a value on the measured usage. */
  predicate FormulasTake(lib: Library, charge: Charge, measures: Variables)
    decreases charge
  {
    && (charge.kind.Expression? ==> EvaluateExpression(lib, charge.formula, measures).Success?)
    && (charge.kind.Sum? ==> forall c | c in charge.components :: FormulasTake(lib, c, measures))
  }

  predicate Priceable(lib: Library, charge: Charge, measures: Variables) {
    Named(charge) && FormulasTake(lib, charge, measures)
  }

  /** A charge whose named measures are all measured is priced exactly if no measure is blank, every
      rounding is known and every formula takes the values, at every depth. */
  lemma {:induction false} PricedIff(lib: Library, charge: Charge, measures: Variables)
    requires WellParsed(charge) && NamedMeasures(charge) <= measures.Keys && "" !in measures
    ensures Price(lib, charge, measures).Success? <==> Priceable(lib, charge, measures)
    decreases charge, 0
  {
    if UsesMeasure(charge.kind) && charge.measure != "" { assert charge.measure in NamedMeasures(charge); }
    hide EvaluateExpression, Graduated, VolumeTier, DivRound;
    if charge.kind.Sum? {
      ComponentsMeasured(charge, measures);
      hide NamedMeasures;
      ComponentsPricedIff(lib, charge.components, measures, 0.0);
    }
  }

  lemma ComponentsMeasured(charge: Charge, measures: Variables)
    requires NamedMeasures(charge) <= measures.Keys
    ensures forall c | c in charge.components :: NamedMeasures(c) <= measures.Keys
  {
    forall c, m | c in charge.components && m in NamedMeasures(c) ensures m in measures {
      assert m in NamedMeasures(charge);
    }
  }

  lemma {:induction false} ComponentsPricedIff(lib: Library, components: seq<Charge>, measures: Variables, total: Amount)
    requires forall c | c in components :: WellParsed(c) && NamedMeasures(c) <= measures.Keys
    requires "" !in measures
    ensures PriceAll(lib, components, measures, total).Success? <==> forall c | c in components :: Priceable(lib, c, measures)
    decreases components
  {
    if components != [] {
      hide WellParsed, NamedMeasures, Price, Priceable;
      PricedIff(lib, components[0], measures);
      assert components == [components[0]] + components[1..];
      var v := Price(lib, components[0], measures);
      if v.Success? { ComponentsPricedIff(lib, components[1..], measures, total + v.value); }
    }
  }

  /** Without blank measures and unknown roundings, an accepted charge fails only on the values
      measured. */
  lemma {:induction false} AcceptedFailsOnlyOnValues(lib: Library, charge: Charge, declared: set<string>, measures: Variables)
    requires ReadsBits(lib) && WellParsed(charge) && Validated(lib, charge, declared)
    requires Named(charge) && declared <= measures.Keys
    ensures var r := Price(lib, charge, measures);
            r.Failure? ==> OnValues(r.error)
  {
    AcceptedNeverStuck(lib, charge, declared, measures);
    NamesNotBlamed(lib, charge, measures);
  }

  /** What a failure cannot be blamed on. */
  predicate BlamesNoName(r: Priced) {
    r.Failure? ==> r.error != MissingMeasure("") && (r.error.UnsupportedRounding? ==> RoundingOf(r.error.rounding).Some?)
  }

  lemma {:induction false} NamesNotBlamed(lib: Library, charge: Charge, measures: Variables)
    requires Named(charge)
    ensures BlamesNoName(Price(lib, charge, measures))
    decreases charge, 0
  {
    if charge.kind.Sum? {
      ComponentsNotBlamed(lib, charge.components, measures, 0.0);
    }
  }

  lemma {:induction false} ComponentsNotBlamed(lib: Library, components: seq<Charge>, measures: Variables, total: Amount)
    requires forall c | c in components :: Named(c)
    ensures BlamesNoName(PriceAll(lib, components, measures, total))
    decreases components
  {
    if components != [] {
      NamesNotBlamed(lib, components[0], measures);
      var v := Price(lib, components[0], measures);
      if v.Success? {
        ComponentsNotBlamed(lib, components[1..], measures, total + v.value);
      }
    }
  }
}
