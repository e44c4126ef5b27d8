/** Charges as configuration documents: parsing, the canonical form, and how they undo each other. */
module ChargeDocuments {
  import opened Decimals
  import opened Tiers
  import opened Charges
  import opened Evaluator
  import Expressions
  import opened DecimalText

  /** A decoded configuration value. */
  datatype Json =
    | JNull | JBool(flag: bool) | JInt(number: int) | JNumber(numeral: string) | JString(text: string)
    | JArray(items: seq<Json>) | JObject(fields: map<string, Json>)

  datatype ConfigError =
    | TooDeep | NotAnObject | NotAnArray | NotAString | NotABoolean | NotAnInteger | OutsideSafeRange
    | BadDecimal | NotPositive | TiersNotClosed | TiersNotIncreasing | UnsupportedCharge
    | WrongDimension | NoBound | TwoLowerBounds | TwoUpperBounds | EmptyRange | UnknownOperator
    | BadTimezone | UnknownWindow

  type Config<T> = Result<T, ConfigError>

  const MAX_DEPTH: nat := 64

  /** A field read the way a missing key reads: as null. */
  function Get(fields: map<string, Json>, key: string): Json {
    if key in fields then fields[key] else JNull
  }

  function ReadString(j: Json): Config<string> {
    if j.JString? then Success(j.text) else Failure(NotAString)
  }

  /** Financial amounts come as strict decimal strings only. */
  function ReadAmount(j: Json): Config<Amount> {
    if !j.JString? || ParseDecimal(j.text).None? then Failure(BadDecimal)
    else Success(ParseDecimal(j.text).value)
  }

  function KindOf(name: string): ChargeKind {
    if name == "flat" then Flat
    else if name == "per_unit" then PerUnit
    else if name == "package" then Package
    else if name == "graduated" then GraduatedTiers
    else if name == "volume" then VolumeTiers
    else if name == "expression" then Expression
    else if name == "sum" then Sum
    else OtherKind(name)
  }

  function KindName(kind: ChargeKind): string {
    match kind
    case Flat => "flat" case PerUnit => "per_unit" case Package => "package"
    case GraduatedTiers => "graduated" case VolumeTiers => "volume"
    case Expression => "expression" case Sum => "sum" case OtherKind(name) => name
  }

  function Blank(kind: ChargeKind): Charge {
    Charge(kind, 0.0, "", 0.0, 0.0, 0.0, "", [], "", [])
  }

  // ----- Tiers -----

  function ParseTier(j: Json): Config<Tier> {
    if !j.JObject? then Failure(NotAnObject)
    else
      var rate := ReadAmount(Get(j.fields, "rate"));
      if rate.Failure? then Failure(rate.error)
      else if Get(j.fields, "up_to").JNull? then Success(Tier(None, rate.value))
      else
        var bound := ReadAmount(Get(j.fields, "up_to"));
        if bound.Failure? then Failure(bound.error) else Success(Tier(Some(bound.value), rate.value))
  }

  function ParseTierList(items: seq<Json>): (r: Config<seq<Tier>>)
    ensures r.Success? ==> |r.value| == |items|
  {
    if items == [] then Success([])
    else
      var t := ParseTier(items[0]);
      if t.Failure? then Failure(t.error)
      else
        var rest := ParseTierList(items[1..]);
        if rest.Failure? then rest else Success([t.value] + rest.value)
  }

  /** First fault of a tier list, in the order the bounds are walked. */
  function TierFault(tiers: seq<Tier>, previous: Option<Amount>): (fault: Option<ConfigError>)
    requires tiers != [] && tiers[|tiers| - 1].upTo.None?
    ensures fault.None? <==> Increasing(tiers, previous)
  {
    if |tiers| == 1 then None
    else if tiers[0].upTo.None? then Some(TiersNotClosed)
    else if previous.Some? && previous.value >= tiers[0].upTo.value then Some(TiersNotIncreasing)
    else TierFault(tiers[1..], tiers[0].upTo)
  }

  /** A list whose bounds increase up to the i-th is refused there: as not closed if that tier has no bound
      although it is not the last, as not increasing if its bound is not above the one before. */
  lemma {:induction false} FirstTierFault(tiers: seq<Tier>, previous: Option<Amount>, i: nat)
    requires i < |tiers| - 1 && tiers[|tiers| - 1].upTo.None?
    requires forall k | 0 <= k < i :: AboveBound(tiers[k], BoundBefore(tiers, previous, k))
    requires !AboveBound(tiers[i], BoundBefore(tiers, previous, i))
    ensures TierFault(tiers, previous) == Some(if tiers[i].upTo.None? then TiersNotClosed else TiersNotIncreasing)
  {
    if i > 0 {
      assert BoundBefore(tiers, previous, 0) == previous && AboveBound(tiers[0], previous);
      forall k | 0 <= k < i - 1 ensures AboveBound(tiers[1..][k], BoundBefore(tiers[1..], tiers[0].upTo, k)) {
        assert AboveBound(tiers[k + 1], BoundBefore(tiers, previous, k + 1));
      }
      FirstTierFault(tiers[1..], tiers[0].upTo, i - 1);
    }
  }

  function BoundBefore(tiers: seq<Tier>, previous: Option<Amount>, k: nat): Option<Amount>
    requires k < |tiers|
  {
    if k == 0 then previous else tiers[k - 1].upTo
  }

  predicate AboveBound(tier: Tier, bound: Option<Amount>) {
    tier.upTo.Some? && (bound.Some? ==> bound.value < tier.upTo.value)
  }

  /** A parsed list closes with its only open-ended tier and increases strictly before it. */
  function ParseTiers(j: Json): (r: Config<seq<Tier>>)
    ensures r.Success? ==> WellFormed(r.value)
  {
    if !j.JArray? then Failure(NotAnArray)
    else
      var tiers := ParseTierList(j.items);
      if tiers.Failure? then tiers
      else if tiers.value == [] || tiers.value[|tiers.value| - 1].upTo.Some? then Failure(TiersNotClosed)
      else
        var fault := TierFault(tiers.value, None);
        if fault.Some? then Failure(fault.value) else tiers
  }

  function Onto(tiers: seq<Tier>, rest: Config<seq<Tier>>): Config<seq<Tier>> {
    if rest.Failure? then rest else Success(tiers + rest.value)
  }

  lemma OntoNothing(rest: Config<seq<Tier>>)
    ensures Onto([], rest) == rest
  {
    if rest.Success? { assert [] + rest.value == rest.value; }
  }

  lemma OntoMoves(tiers: seq<Tier>, t: Tier, rest: Config<seq<Tier>>)
    ensures Onto(tiers, Onto([t], rest)) == Onto(tiers + [t], rest)
  {
    if rest.Success? { assert tiers + ([t] + rest.value) == tiers + [t] + rest.value; }
  }

  method ReadTierList(items: seq<Json>) returns (r: Config<seq<Tier>>)
    ensures r == ParseTierList(items)
  {
    hide ParseTier;
    var tiers: seq<Tier> := [];
    assert items[0..] == items;
    OntoNothing(ParseTierList(items));
    for i := 0 to |items|
      invariant ParseTierList(items) == Onto(tiers, ParseTierList(items[i..]))
    {
      assert items[i..][1..] == items[i + 1..];
      var tier := ParseTier(items[i]);
      if tier.Failure? { return Failure(tier.error); }
      OntoMoves(tiers, tier.value, ParseTierList(items[i + 1..]));
      tiers := tiers + [tier.value];
    }
    assert tiers + [] == tiers;
    return Success(tiers);
  }

  method ReadTiers(items: seq<Json>) returns (r: Config<seq<Tier>>)
    ensures r == ParseTiers(JArray(items))
  {
    hide ParseTierList;
    r := ReadTierList(items);
    if r.Failure? { return; }
    var tiers := r.value;
    if |tiers| == 0 || tiers[|tiers| - 1].upTo.Some? { return Failure(TiersNotClosed); }
    var previous: Option<Amount> := None;
    for i := 0 to |tiers| - 1
      invariant tiers[i..][|tiers| - i - 1].upTo.None?
      invariant TierFault(tiers, None) == TierFault(tiers[i..], previous)
    {
      assert tiers[i..][1..] == tiers[i + 1..];
      if tiers[i].upTo.None? { return Failure(TiersNotClosed); }
      if previous.Some? && !(previous.value < tiers[i].upTo.value) { return Failure(TiersNotIncreasing); }
      previous := tiers[i].upTo;
    }
    return Success(tiers);
  }

  // ----- Charges -----

  function ParseCharge(j: Json, depth: nat): (r: Config<Charge>)
    decreases 70 - depth, 0
  {
    if depth > MAX_DEPTH then Failure(TooDeep)
    else if !j.JObject? then Failure(NotAnObject)
    else
      var name := ReadString(Get(j.fields, "type"));
      if name.Failure? then Failure(name.error)
      else
        match KindOf(name.value)
        case Flat => ParseFlat(j.fields)
        case PerUnit => ParsePerUnit(j.fields)
        case Package => ParsePackage(j.fields)
        case GraduatedTiers => ParseTiered(j.fields, GraduatedTiers)
        case VolumeTiers => ParseTiered(j.fields, VolumeTiers)
        case Expression =>
          var formula := ReadString(Get(j.fields, "formula"));
          if formula.Failure? then Failure(formula.error)
          else Success(Blank(Expression).(formula := formula.value))
        case Sum =>
          if !Get(j.fields, "components").JArray? then Failure(NotAnArray)
          else
            var parts := ParseComponents(Get(j.fields, "components").items, depth + 1);
            if parts.Failure? then Failure(parts.error) else Success(Blank(Sum).(components := parts.value))
        case OtherKind(_) => Failure(UnsupportedCharge)
  }

  /** The fields its kind uses, legal ones, and zero values elsewhere. */
  predicate OwnShape(c: Charge) {
    match c.kind
    case Flat => c == Blank(Flat).(amount := c.amount)
    case PerUnit =>
      c == Blank(PerUnit).(measure := c.measure, rate := c.rate, unitSize := c.unitSize) && c.unitSize > 0.0
    case Package =>
      && c == Blank(Package).(measure := c.measure, units := c.units, amount := c.amount, rounding := c.rounding)
      && c.units > 0.0
    case GraduatedTiers => c == Blank(GraduatedTiers).(measure := c.measure, tiers := c.tiers) && WellFormed(c.tiers)
    case VolumeTiers => c == Blank(VolumeTiers).(measure := c.measure, tiers := c.tiers) && WellFormed(c.tiers)
    case Expression => c == Blank(Expression).(formula := c.formula)
    case Sum => c == Blank(Sum).(components := c.components)
    case OtherKind(_) => false
  }

  function ParseFlat(fields: map<string, Json>): (r: Config<Charge>)
    ensures r.Success? ==> r.value.kind.Flat? && OwnShape(r.value)
  {
    var amount := ReadAmount(Get(fields, "amount"));
    if amount.Failure? then Failure(amount.error) else Success(Blank(Flat).(amount := amount.value))
  }

  function ParsePerUnit(fields: map<string, Json>): (r: Config<Charge>)
    ensures r.Success? ==> r.value.kind.PerUnit? && OwnShape(r.value)
  {
    var measure := ReadString(Get(fields, "measure"));
    if measure.Failure? then Failure(measure.error)
    else
      var rate := ReadAmount(Get(fields, "rate"));
      if rate.Failure? then Failure(rate.error)
      else
        var size := if Get(fields, "unit_size").JNull? then Success(1.0) else ReadAmount(Get(fields, "unit_size"));
        if size.Failure? then Failure(size.error)
        else if size.value <= 0.0 then Failure(NotPositive)
        else Success(Blank(PerUnit).(measure := measure.value, rate := rate.value, unitSize := size.value))
  }

  function ParsePackage(fields: map<string, Json>): (r: Config<Charge>)
    ensures r.Success? ==> r.value.kind.Package? && OwnShape(r.value)
  {
    var measure := ReadString(Get(fields, "measure"));
    if measure.Failure? then Failure(measure.error)
    else
      var units := ReadAmount(Get(fields, "units"));
      if units.Failure? then Failure(units.error)
      else
        var amount := ReadAmount(Get(fields, "amount"));
        if amount.Failure? then Failure(amount.error)
        else
          var rounding := if Get(fields, "rounding").JNull? then Success("ceil") else ReadString(Get(fields, "rounding"));
          if rounding.Failure? then Failure(rounding.error)
          else if units.value <= 0.0 then Failure(NotPositive)
          else Success(Blank(Package).(measure := measure.value, units := units.value, amount := amount.value,
                                       rounding := rounding.value))
  }

  function ParseTiered(fields: map<string, Json>, kind: ChargeKind): (r: Config<Charge>)
    requires kind.GraduatedTiers? || kind.VolumeTiers?
    ensures r.Success? ==> r.value.kind == kind && OwnShape(r.value)
  {
    var measure := ReadString(Get(fields, "measure"));
    if measure.Failure? then Failure(measure.error)
    else
      var tiers := ParseTiers(Get(fields, "tiers"));
      if tiers.Failure? then Failure(tiers.error)
      else Success(Blank(kind).(measure := measure.value, tiers := tiers.value))
  }

  function ParseComponents(items: seq<Json>, depth: nat): (r: Config<seq<Charge>>)
    requires depth <= MAX_DEPTH + 1
    decreases 70 - depth, |items| + 1
  {
    if items == [] then Success([])
    else
      var c := ParseCharge(items[0], depth);
      if c.Failure? then Failure(c.error)
      else
        var rest := ParseComponents(items[1..], depth);
        if rest.Failure? then rest else Success([c.value] + rest.value)
  }

  // ----- The canonical form -----

  function AmountJson(v: Amount): Json {
    JString(AmountText(v))
  }

  function CanonicalTier(t: Tier): Json {
    JObject(if t.upTo.None? then map["rate" := AmountJson(t.rate)]
            else map["rate" := AmountJson(t.rate), "up_to" := AmountJson(t.upTo.value)])
  }

  function CanonicalTiers(tiers: seq<Tier>): (r: seq<Json>)
    ensures |r| == |tiers|
  {
    if tiers == [] then [] else [CanonicalTier(tiers[0])] + CanonicalTiers(tiers[1..])
  }

  function CanonicalCharge(c: Charge): Json
    decreases c, 0
  {
    var name := JString(KindName(c.kind));
    JObject(
      match c.kind
      case Flat => map["type" := name, "amount" := AmountJson(c.amount)]
      case PerUnit =>
        map["type" := name, "measure" := JString(c.measure), "rate" := AmountJson(c.rate),
            "unit_size" := AmountJson(c.unitSize)]
      case Package =>
        map["type" := name, "measure" := JString(c.measure), "units" := AmountJson(c.units),
            "amount" := AmountJson(c.amount), "rounding" := JString(c.rounding)]
      case GraduatedTiers =>
        map["type" := name, "measure" := JString(c.measure), "tiers" := JArray(CanonicalTiers(c.tiers))]
      case VolumeTiers =>
        map["type" := name, "measure" := JString(c.measure), "tiers" := JArray(CanonicalTiers(c.tiers))]
      case Expression => map["type" := name, "formula" := JString(c.formula)]
      case Sum => map["type" := name, "components" := JArray(CanonicalCharges(c.components))]
      case OtherKind(_) => map["type" := name])
  }

  function CanonicalCharges(components: seq<Charge>): (r: seq<Json>)
    ensures |r| == |components|
    decreases components
  {
    if components == [] then [] else [CanonicalCharge(components[0])] + CanonicalCharges(components[1..])
  }

  // ----- What the round trip returns -----

  function QuantizeTier(t: Tier): Tier {
    Tier(if t.upTo.None? then None else Some(QuantizeMoney(t.upTo.value)), QuantizeMoney(t.rate))
  }

  function QuantizeTiers(tiers: seq<Tier>): (r: seq<Tier>)
    ensures |r| == |tiers|
    ensures forall i | 0 <= i < |tiers| :: r[i] == QuantizeTier(tiers[i])
  {
    if tiers == [] then [] else [QuantizeTier(tiers[0])] + QuantizeTiers(tiers[1..])
  }

  /** The charge with every amount rounded to six places. */
  function Quantized(c: Charge): Charge
    decreases c, 0
  {
    c.(amount := QuantizeMoney(c.amount), rate := QuantizeMoney(c.rate), unitSize := QuantizeMoney(c.unitSize),
       units := QuantizeMoney(c.units), tiers := QuantizeTiers(c.tiers), components := QuantizedAll(c.components))
  }

  function QuantizedAll(cs: seq<Charge>): (r: seq<Charge>)
    ensures |r| == |cs|
    decreases cs
  {
    if cs == [] then [] else [Quantized(cs[0])] + QuantizedAll(cs[1..])
  }

  /** Rounding to six places must not flatten a size to zero nor merge two tier bounds. */
  predicate SurvivesRounding(c: Charge)
    decreases c
  {
    && (c.kind.PerUnit? ==> QuantizeMoney(c.unitSize) > 0.0)
    && (c.kind.Package? ==> QuantizeMoney(c.units) > 0.0)
    && (c.kind.GraduatedTiers? || c.kind.VolumeTiers? ==> WellFormed(QuantizeTiers(c.tiers)))
    && forall p | p in c.components :: SurvivesRounding(p)
  }

  /** The shape of a charge that came out of parsing at this nesting depth. */
  predicate Shaped(c: Charge, depth: nat)
    decreases c, 0
  {
    depth <= MAX_DEPTH && OwnShape(c) && forall p | p in c.components :: Shaped(p, depth + 1)
  }

  lemma {:induction false} ParsedIsShaped(j: Json, depth: nat)
    requires ParseCharge(j, depth).Success?
    ensures Shaped(ParseCharge(j, depth).value, depth) && WellParsed(ParseCharge(j, depth).value)
    decreases 70 - depth, 0
  {
    hide ParseFlat, ParsePerUnit, ParsePackage, ParseTiered, ReadAmount;
    if KindOf(Get(j.fields, "type").text).Sum? {
      ComponentsAreShaped(Get(j.fields, "components").items, depth + 1);
    }
  }

  lemma {:induction false} ComponentsAreShaped(items: seq<Json>, depth: nat)
    requires depth <= MAX_DEPTH + 1 && ParseComponents(items, depth).Success?
    ensures forall p | p in ParseComponents(items, depth).value :: Shaped(p, depth) && WellParsed(p)
    decreases 70 - depth, |items| + 1
  {
    if items != [] {
      ParsedIsShaped(items[0], depth);
      ComponentsAreShaped(items[1..], depth);
    }
  }

  /** From the document to the price: a charge that parses and passes the static check of an
      operation fails, over all the measures that operation declares, only on the values measured,
      on a blank measure, or on a rounding the configuration schema excludes. */
  lemma AcceptedDocumentNeverStuck(lib: Library, j: Json, declared: set<string>, measures: Variables)
    requires Expressions.ReadsBits(lib) && declared <= measures.Keys
    requires ParseCharge(j, 0).Success? && Validated(lib, ParseCharge(j, 0).value, declared)
    ensures var r := Price(lib, ParseCharge(j, 0).value, measures);
            r.Failure? ==> Excused(r.error)
  {
    ParsedIsShaped(j, 0);
    hide ParseCharge, Price, Validated, WellParsed, Excused, Shaped;
    AcceptedNeverStuck(lib, ParseCharge(j, 0).value, declared, measures);
  }

  /** Exactly when such a charge is priced. */
  lemma AcceptedDocumentPricedIff(lib: Library, j: Json, declared: set<string>, measures: Variables)
    requires declared <= measures.Keys && "" !in measures
    requires ParseCharge(j, 0).Success? && Validated(lib, ParseCharge(j, 0).value, declared)
    ensures Price(lib, ParseCharge(j, 0).value, measures).Success? <==> Priceable(lib, ParseCharge(j, 0).value, measures)
  {
    ParsedIsShaped(j, 0);
    hide ParseCharge, Price, WellParsed, NamedMeasures, FormulasAccepted, Priceable, Shaped;
    PricedIff(lib, ParseCharge(j, 0).value, measures);
  }

  /** A charge of 1 per unit of a measure without a name. */
  function BlankMeasure(): Json {
    JObject(map["type" := JString("per_unit"), "measure" := JString(""), "rate" := JString("1")])
  }

  /** It parses and passes the static check of every operation, and no usage can be priced with it. */
  lemma BlankMeasureIsNeverPriced(lib: Library, declared: set<string>, measures: Variables)
    requires "" !in measures
    ensures ParseCharge(BlankMeasure(), 0).Success?
    ensures Validated(lib, ParseCharge(BlankMeasure(), 0).value, declared)
    ensures Price(lib, ParseCharge(BlankMeasure(), 0).value, measures) == Failure(MissingMeasure(""))
  {
    var fields := BlankMeasure().fields;
    assert Get(fields, "measure") == JString("") && Get(fields, "unit_size") == JNull;
    assert PointAt("1") == 1 && "1"[..1] == "1";
    assert ReadAmount(Get(fields, "rate")).Success?;
    hide ReadAmount, DivRound;
    var c := ParsePerUnit(fields);
    assert ParseCharge(BlankMeasure(), 0) == c;
    assert c.Success? && c.value.kind.PerUnit? && c.value.measure == "" && c.value.components == [];
  }

  // ----- What the fields of a document mean -----

  /** A flat amount, at up to 64 levels. */
  lemma FlatDocument(amount: Json, x: Amount, depth: nat)
    requires ReadAmount(amount) == Success(x)
    ensures var r := ParseCharge(JObject(map["type" := JString("flat"), "amount" := amount]), depth);
            if depth <= 64 then r.Success? && r.value.kind == Flat && r.value.amount == x else r == Failure(TooDeep)
  {
    hide ReadAmount;
  }

  /** Without a unit size, units are counted one by one. */
  lemma PerUnitDocument(measure: string, rate: Json, x: Amount)
    requires ReadAmount(rate) == Success(x)
    ensures var r := ParseCharge(JObject(map["type" := JString("per_unit"), "measure" := JString(measure), "rate" := rate]), 0);
            r.Success? && r.value.kind == PerUnit && r.value.measure == measure && r.value.rate == x && r.value.unitSize == 1.0
  {
    hide ReadAmount;
    assert ParseCharge(JObject(map["type" := JString("per_unit"), "measure" := JString(measure), "rate" := rate]), 0)
        == ParsePerUnit(map["type" := JString("per_unit"), "measure" := JString(measure), "rate" := rate]);
  }

  /** Without a rounding, begun packages are charged whole. */
  lemma PackageDocument(measure: string, units: Json, amount: Json, size: Amount, x: Amount)
    requires ReadAmount(units) == Success(size) && size > 0.0 && ReadAmount(amount) == Success(x)
    ensures var fields := map["type" := JString("package"), "measure" := JString(measure), "units" := units, "amount" := amount];
            var r := ParseCharge(JObject(fields), 0);
            && r.Success? && r.value.kind == Package && r.value.measure == measure
            && r.value.units == size && r.value.amount == x && r.value.rounding == "ceil"
  {
    hide ReadAmount;
    var fields := map["type" := JString("package"), "measure" := JString(measure), "units" := units, "amount" := amount];
    assert ParseCharge(JObject(fields), 0) == ParsePackage(fields);
  }

  lemma ExpressionDocument(formula: string)
    ensures var r := ParseCharge(JObject(map["type" := JString("expression"), "formula" := JString(formula)]), 0);
            r.Success? && r.value.kind == Expression && r.value.formula == formula
  {
  }

  /** A tier bounded by `up_to`, and an open one. */
  lemma TierDocument(rate: Json, bound: Json, x: Amount, y: Amount)
    requires ReadAmount(rate) == Success(x) && ReadAmount(bound) == Success(y)
    ensures ParseTier(JObject(map["rate" := rate, "up_to" := bound])) == Success(Tier(Some(y), x))
    ensures ParseTier(JObject(map["rate" := rate])) == Success(Tier(None, x))
  {
    hide ReadAmount;
    assert bound.JString? && !bound.JNull? by { ReadsStrings(bound); }
  }

  lemma ReadsStrings(j: Json)
    requires ReadAmount(j).Success?
    ensures j.JString?
  {
  }

  lemma AmountReadsBack(v: Amount)
    ensures ReadAmount(AmountJson(v)) == Success(QuantizeMoney(v))
  {
    AmountTextReadsBack(v);
  }

  lemma TierReadsBack(t: Tier)
    ensures ParseTier(CanonicalTier(t)) == Success(QuantizeTier(t))
  {
    AmountReadsBack(t.rate);
    if t.upTo.Some? { AmountReadsBack(t.upTo.value); }
    assert !AmountJson(t.rate).JNull? && (t.upTo.Some? ==> !AmountJson(t.upTo.value).JNull?);
    hide ReadAmount, AmountJson, QuantizeMoney;
  }

  lemma {:induction false} TierListReadsBack(tiers: seq<Tier>)
    ensures ParseTierList(CanonicalTiers(tiers)) == Success(QuantizeTiers(tiers))
  {
    if tiers != [] {
      hide CanonicalTier, ParseTier;
      TierReadsBack(tiers[0]);
      TierListReadsBack(tiers[1..]);
    }
  }

  lemma {:induction false} LastIsOpen(tiers: seq<Tier>, floor: Option<Amount>)
    requires Increasing(tiers, floor)
    ensures tiers[|tiers| - 1].upTo.None?
  {
    if |tiers| > 1 { LastIsOpen(tiers[1..], tiers[0].upTo); }
  }

  lemma TiersReadBack(tiers: seq<Tier>)
    requires WellFormed(tiers)
    ensures var r := ParseTiers(JArray(CanonicalTiers(tiers)));
            && (r.Success? <==> WellFormed(QuantizeTiers(tiers)))
            && (r.Success? ==> r.value == QuantizeTiers(tiers))
  {
    TierListReadsBack(tiers);
    LastIsOpen(tiers, None);
  }

  /** Re-parsing the canonical form of a parsed charge succeeds exactly when rounding to six places
      keeps it legal, and then returns the charge with its amounts so rounded. */
  lemma {:induction false} CanonicalReadsBack(c: Charge, depth: nat)
    requires Shaped(c, depth)
    ensures ParseCharge(CanonicalCharge(c), depth).Success? <==> SurvivesRounding(c)
    ensures SurvivesRounding(c) ==> ParseCharge(CanonicalCharge(c), depth) == Success(Quantized(c))
    decreases c, 0
  {
    hide QuantizeMoney, AmountJson, ReadAmount, WellFormed, ParsePerUnit, ParsePackage, ParseTiered, ParseComponents;
    QuantizeZero();
    match c.kind {
      case Flat => AmountReadsBack(c.amount);
      case PerUnit =>
        PerUnitReadsBack(c);
      case Package =>
        PackageReadsBack(c);
      case GraduatedTiers => TieredReadsBack(c);
      case VolumeTiers => TieredReadsBack(c);
      case Expression =>
      case Sum => ComponentsReadBack(c.components, depth + 1);
    }
  }

  lemma TieredReadsBack(c: Charge)
    requires c.kind.GraduatedTiers? || c.kind.VolumeTiers?
    requires WellFormed(c.tiers)
    ensures var r := ParseTiered(CanonicalCharge(c).fields, c.kind);
            if !WellFormed(QuantizeTiers(c.tiers)) then r.Failure?
            else r == Success(Blank(c.kind).(measure := c.measure, tiers := QuantizeTiers(c.tiers)))
  {
    hide ParseTiers, CanonicalTiers, WellFormed;
    TiersReadBack(c.tiers);
  }

  lemma PerUnitReadsBack(c: Charge)
    requires c.kind.PerUnit?
    ensures var r := ParsePerUnit(CanonicalCharge(c).fields);
            if QuantizeMoney(c.unitSize) <= 0.0 then r.Failure?
            else r == Success(Blank(PerUnit).(measure := c.measure, rate := QuantizeMoney(c.rate),
                                              unitSize := QuantizeMoney(c.unitSize)))
  {
    hide QuantizeMoney, AmountText, ParseDecimal;
    AmountTextReadsBack(c.rate);
    AmountTextReadsBack(c.unitSize);
  }

  lemma PackageReadsBack(c: Charge)
    requires c.kind.Package?
    ensures var r := ParsePackage(CanonicalCharge(c).fields);
            if QuantizeMoney(c.units) <= 0.0 then r.Failure?
            else r == Success(Blank(Package).(measure := c.measure, units := QuantizeMoney(c.units),
                                              amount := QuantizeMoney(c.amount), rounding := c.rounding))
  {
    hide QuantizeMoney, AmountText, ParseDecimal;
    AmountTextReadsBack(c.units);
    AmountTextReadsBack(c.amount);
  }

  lemma FirstAndRestSurvive(cs: seq<Charge>)
    requires cs != []
    ensures (forall c | c in cs :: SurvivesRounding(c))
       <==> SurvivesRounding(cs[0]) && forall c | c in cs[1..] :: SurvivesRounding(c)
  {
    hide SurvivesRounding;
    assert cs == [cs[0]] + cs[1..];
  }

  lemma {:induction false} ComponentsReadBack(cs: seq<Charge>, depth: nat)
    requires depth <= MAX_DEPTH + 1 && forall c | c in cs :: Shaped(c, depth)
    ensures var r := ParseComponents(CanonicalCharges(cs), depth);
            && (r.Success? <==> forall c | c in cs :: SurvivesRounding(c))
            && (r.Success? ==> r.value == QuantizedAll(cs))
    decreases cs
  {
    if cs != [] {
      hide CanonicalCharge, Quantized, SurvivesRounding, ParseCharge, Shaped;
      var items, rest := CanonicalCharges(cs), cs[1..];
      assert items[0] == CanonicalCharge(cs[0]) && items[1..] == CanonicalCharges(rest);
      CanonicalReadsBack(cs[0], depth);
      ComponentsReadBack(rest, depth);
      FirstAndRestSurvive(cs);
    }
  }

  /** Parsing, writing canonically and parsing again: the one statement for every document. */
  lemma CanonicalRoundTrip(j: Json)
    requires ParseCharge(j, 0).Success?
    ensures var c := ParseCharge(j, 0).value;
            && (ParseCharge(CanonicalCharge(c), 0).Success? <==> SurvivesRounding(c))
            && (SurvivesRounding(c) ==> ParseCharge(CanonicalCharge(c), 0) == Success(Quantized(c)))
  {
    ParsedIsShaped(j, 0);
    CanonicalReadsBack(ParseCharge(j, 0).value, 0);
  }

  ghost predicate SixPlaces(c: Charge)
    decreases c
  {
    && IsScaled(c.amount, MONEY_SCALE) && IsScaled(c.rate, MONEY_SCALE)
    && IsScaled(c.unitSize, MONEY_SCALE) && IsScaled(c.units, MONEY_SCALE)
    && (forall t | t in c.tiers :: IsScaled(t.rate, MONEY_SCALE) && (t.upTo.Some? ==> IsScaled(t.upTo.value, MONEY_SCALE)))
    && forall p | p in c.components :: SixPlaces(p)
  }

  lemma {:induction false} SixPlacesUnchanged(c: Charge)
    requires SixPlaces(c)
    ensures Quantized(c) == c
    decreases c, 0
  {
    hide IsScaled, RoundScaled;
    RoundScaledExact(c.amount, MONEY_SCALE);
    RoundScaledExact(c.rate, MONEY_SCALE);
    RoundScaledExact(c.unitSize, MONEY_SCALE);
    RoundScaledExact(c.units, MONEY_SCALE);
    forall i | 0 <= i < |c.tiers| ensures QuantizeTier(c.tiers[i]) == c.tiers[i] {
      var t := c.tiers[i];
      RoundScaledExact(t.rate, MONEY_SCALE);
      if t.upTo.Some? { RoundScaledExact(t.upTo.value, MONEY_SCALE); }
    }
    assert QuantizeTiers(c.tiers) == c.tiers;
    AllSixPlacesUnchanged(c.components);
  }

  lemma {:induction false} AllSixPlacesUnchanged(cs: seq<Charge>)
    requires forall c | c in cs :: SixPlaces(c)
    ensures QuantizedAll(cs) == cs
    decreases cs
  {
    if cs != [] {
      SixPlacesUnchanged(cs[0]);
      AllSixPlacesUnchanged(cs[1..]);
    }
  }

  lemma {:induction false} UnchangedSurvives(c: Charge, depth: nat)
    requires Shaped(c, depth) && SixPlaces(c)
    ensures SurvivesRounding(c)
    decreases c
  {
    SixPlacesUnchanged(c);
    forall p | p in c.components ensures SurvivesRounding(p) {
      UnchangedSurvives(p, depth + 1);
    }
  }

  /** A document whose amounts have at most six places comes back unchanged, at any nesting. */
  lemma SixPlaceRoundTrip(j: Json)
    requires ParseCharge(j, 0).Success? && SixPlaces(ParseCharge(j, 0).value)
    ensures ParseCharge(CanonicalCharge(ParseCharge(j, 0).value), 0) == ParseCharge(j, 0)
  {
    var c := ParseCharge(j, 0).value;
    ParsedIsShaped(j, 0);
    UnchangedSurvives(c, 0);
    SixPlacesUnchanged(c);
    CanonicalRoundTrip(j);
  }

  /** "graduated" and "volume" charges have a measure and tiers. */
  lemma TieredDocuments(kind: string, measure: string, items: Json, tiers: seq<Tier>)
    requires (kind == "graduated" || kind == "volume") && ParseTiers(items) == Success(tiers)
    ensures var r := ParseCharge(JObject(map["type" := JString(kind), "measure" := JString(measure), "tiers" := items]), 0);
            && r.Success? && r.value.measure == measure && r.value.tiers == tiers
            && (r.value.kind == GraduatedTiers <==> kind == "graduated") && (r.value.kind == VolumeTiers <==> kind == "volume")
  {
    hide ParseTiers, WellFormed;
    var fields := map["type" := JString(kind), "measure" := JString(measure), "tiers" := items];
    assert ParseCharge(JObject(fields), 0) == ParseTiered(fields, if kind == "graduated" then GraduatedTiers else VolumeTiers);
  }

  /** A sum of two charges, one level deeper. */
  lemma SumDocument(first: Json, second: Json, depth: nat)
    ensures depth < 64 ==>
              var a, b := ParseCharge(first, depth + 1), ParseCharge(second, depth + 1);
              var r := ParseCharge(JObject(map["type" := JString("sum"), "components" := JArray([first, second])]), depth);
              && (r.Success? <==> a.Success? && b.Success?)
              && (r.Success? ==> r.value.kind == Sum && r.value.components == [a.value, b.value])
  {
    if depth < 64 {
      var items := [first, second];
      assert items[1..] == [second] && items[1..][1..] == [];
      assert ParseComponents([second], depth + 1) ==
        var b := ParseCharge(second, depth + 1); if b.Failure? then Failure(b.error) else Success([b.value] + []);
    }
  }
}
