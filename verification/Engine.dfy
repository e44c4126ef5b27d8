/** The pricing engine: one usage event priced against an accepted catalog. */
module Engine {
  import opened Blanks
  import opened Decimals
  import opened Evaluator
  import opened Expressions
  import opened Charges
  import opened ChargeValues
  import opened FormulaValues
  import opened MatcherDocuments
  import opened RateCards

  datatype DimensionDefinition = DimensionDefinition(kind: DimensionType, required: bool)

  /** The unit of every measure, and the dimensions. */
  datatype Operation = Operation(units: map<string, string>, dimensions: map<string, DimensionDefinition>)

  datatype Rule = Rule(when: map<string, Matcher>, charge: Charge)

  /** The ordered rules of an operation, and what to do with usage no rule matches: the action
      "charge" charges it. */
  datatype OperationPrices = OperationPrices(rules: seq<Rule>, action: string, unmatched: Option<Charge>)

  datatype Pricing = Pricing(operations: map<string, Operation>, cards: Cards<OperationPrices>)

  type Dimensions = map<string, Scalar>

  datatype Usage = Usage(operation: string, measures: Variables, dimensions: Dimensions)

  datatype UsageError =
    | InvalidUsage | UnknownOperation | UndeclaredMeasure | UndeclaredDimension | BadDimension
    | UnknownRateCard | RateCardRequired | Inheritance(cause: WalkError)
    | NoRuleMatched | ChargeFailed(reason: ChargeError) | NegativeCost

  // ----- The request -----

  predicate UsageIsValid(usage: Usage) {
    && !IsBlank(usage.operation)
    && (forall m | m in usage.measures :: !IsBlank(m) && usage.measures[m] >= 0.0)
    && forall d | d in usage.dimensions :: !IsBlank(d)
  }

  predicate HasType(v: Scalar, kind: DimensionType) {
    match kind
    case StringDimension => v.Text?
    case BooleanDimension => v.Flag?
    case NumberDimension => v.Quantity?
    case OtherDimension(_) => false
  }

  predicate DimensionFits(definition: DimensionDefinition, given: Dimensions, d: string) {
    if d in given then HasType(given[d], definition.kind) else !definition.required
  }

  /** Every required dimension is supplied, and every one supplied has its declared type. */
  predicate DimensionsFit(operation: Operation, given: Dimensions) {
    forall d | d in operation.dimensions :: DimensionFits(operation.dimensions[d], given, d)
  }

  /** Every declared measure, zero when the event does not report it. */
  function Measured(declared: set<string>, given: Variables): Variables {
    map m | m in declared :: if m in given then given[m] else 0.0
  }

  function ResolveRateCard(cards: Cards<OperationPrices>, requested: string): Result<string, UsageError> {
    if requested != "" then
      if requested in cards then Success(requested) else Failure(UnknownRateCard)
    else if |cards| == 1 then
      OnlyKey(cards);
      var key :| key in cards; Success(key)
    else Failure(RateCardRequired)
  }

  lemma OnlyKey(cards: Cards<OperationPrices>)
    requires |cards| == 1
    ensures exists key :: key in cards
    ensures forall a, b | a in cards && b in cards :: a == b
  {
    var key :| key in cards.Keys;
    assert |cards.Keys - {key}| == 0;
    assert forall other | other in cards :: other in cards.Keys - {key} || other == key;
  }

  predicate RuleMatches(rule: Rule, given: Dimensions) {
    forall d | d in rule.when :: d in given && Matches(rule.when[d], given[d])
  }

  /** The charge of the first rule that matches, or else the one for unmatched usage. */
  function Select(prices: OperationPrices, given: Dimensions): Option<Charge>
    decreases |prices.rules|
  {
    if prices.rules == [] then if prices.action == "charge" then prices.unmatched else None
    else if RuleMatches(prices.rules[0], given) then Some(prices.rules[0].charge)
    else Select(prices.(rules := prices.rules[1..]), given)
  }

  /** What pricing an event comes to, check by check. */
  ghost function Calculated(lib: Library, pricing: Pricing, usage: Usage, requested: string): Result<Amount, UsageError> {
    if !UsageIsValid(usage) then Failure(InvalidUsage)
    else if usage.operation !in pricing.operations then Failure(UnknownOperation)
    else
      var operation := pricing.operations[usage.operation];
      if !(usage.measures.Keys <= operation.units.Keys) then Failure(UndeclaredMeasure)
      else if !(usage.dimensions.Keys <= operation.dimensions.Keys) then Failure(UndeclaredDimension)
      else if !DimensionsFit(operation, usage.dimensions) then Failure(BadDimension)
      else
        var card := ResolveRateCard(pricing.cards, requested);
        if card.Failure? then Failure(card.error)
        else CalculatedOn(lib, pricing.cards, card.value, operation.units.Keys, usage)
  }

  ghost function CalculatedOn(lib: Library, cards: Cards<OperationPrices>, card: string, declared: set<string>, usage: Usage): Result<Amount, UsageError> {
    var prices := Walk(cards, card, usage.operation, {});
    if prices.Failure? then Failure(Inheritance(prices.error))
    else
      var charge := Select(prices.value, usage.dimensions);
      if charge.None? then Failure(NoRuleMatched)
      else Charged(Price(lib, charge.value, Measured(declared, usage.measures)))
  }

  function Charged(price: Priced): Result<Amount, UsageError> {
    if price.Failure? then Failure(ChargeFailed(price.error))
    else if price.value < 0.0 then Failure(NegativeCost)
    else Success(QuantizeMoney(price.value))
  }

  // ----- The engine -----

  method RuleApplies(rule: Rule, given: Dimensions) returns (ok: bool)
    ensures ok <==> RuleMatches(rule, given)
    ensures ok ==> rule.when.Keys <= given.Keys
    ensures rule.when == map[] ==> ok
  {
    hide Matches;
    var names := rule.when.Keys;
    while names != {}
      invariant names <= rule.when.Keys
      invariant forall d | d in rule.when && d !in names :: d in given && Matches(rule.when[d], given[d])
      decreases |names|
    {
      var name :| name in names;
      if name !in given || !Matches(rule.when[name], given[name]) { return false; }
      names := names - {name};
    }
    return true;
  }

  method SelectCharge(prices: OperationPrices, given: Dimensions) returns (selected: Option<Charge>)
    ensures selected == Select(prices, given)
  {
    hide RuleMatches;
    for i := 0 to |prices.rules|
      invariant Select(prices, given) == Select(prices.(rules := prices.rules[i..]), given)
    {
      var applies := RuleApplies(prices.rules[i], given);
      if applies { return Some(prices.rules[i].charge); }
      assert prices.rules[i..][1..] == prices.rules[i + 1..];
    }
    return if prices.action == "charge" then prices.unmatched else None;
  }

  function Restrict(given: Dimensions, names: set<string>): Dimensions {
    map d | d in given && d in names :: given[d]
  }

  lemma RestrictMore(given: Dimensions, names: set<string>, name: string)
    ensures Restrict(given, names + {name})
         == if name in given then Restrict(given, names)[name := given[name]] else Restrict(given, names)
  {
  }

  lemma RestrictNothing(given: Dimensions)
    ensures Restrict(given, {}) == map[]
  {
  }

  lemma RestrictAll(given: Dimensions, names: set<string>)
    requires given.Keys <= names
    ensures Restrict(given, names) == given
  {
  }

  method ReadDimensions(operation: Operation, given: Dimensions) returns (dimensions: Option<Dimensions>)
    requires given.Keys <= operation.dimensions.Keys
    ensures dimensions == if DimensionsFit(operation, given) then Some(given) else None
  {
    hide HasType, Restrict;
    var definitions := operation.dimensions;
    var read: Dimensions := map[];
    var names := definitions.Keys;
    ghost var done: set<string> := {};
    RestrictNothing(given);
    while names != {}
      invariant names + done == definitions.Keys && names !! done
      invariant read == Restrict(given, done)
      invariant forall d | d in done :: DimensionFits(definitions[d], given, d)
      decreases |names|
    {
      var name :| name in names;
      RestrictMore(given, done, name);
      if name !in given {
        if definitions[name].required { return None; }
      } else {
        if !HasType(given[name], definitions[name].kind) { return None; }
        read := read[name := given[name]];
      }
      names := names - {name};
      done := done + {name};
    }
    RestrictAll(given, definitions.Keys);
    return Some(read);
  }

  method ReadMeasures(declared: set<string>, given: Variables) returns (measures: Variables)
    ensures measures == Measured(declared, given)
    ensures measures.Keys == declared
    ensures forall m | m in declared :: measures[m] == if m in given then given[m] else 0.0
  {
    measures := map[];
    var names := declared;
    while names != {}
      invariant names <= declared && measures == Measured(declared - names, given)
      decreases |names|
    {
      var name :| name in names;
      var value := 0.0;
      if name in given { value := given[name]; }
      measures := measures[name := value];
      names := names - {name};
    }
    assert declared - names == declared;
  }

  /** The total of a breakdown whose only part is the operation's credits. */
  method BreakdownTotal(operationCredits: Amount) returns (total: Amount)
    requires operationCredits >= 0.0
    ensures total == QuantizeMoney(operationCredits)
  {
    hide RoundScaled;
    QuantizeMoneyIdempotent(operationCredits);
    QuantizeMoneyMonotone(0.0, operationCredits);
    QuantizeZero();
    total := QuantizeMoney(operationCredits);
    if total < 0.0 { total := 0.0; }
    total := QuantizeMoney(total);
  }

  method Calculate(lib: Library, pricing: Pricing, usage: Usage, requested: string) returns (r: Result<Amount, UsageError>)
    ensures r == Calculated(lib, pricing, usage, requested)
  {
    hide Price, Select, Walk, ResolveRateCard, DimensionsFit, Measured, UsageIsValid, RoundScaled;
    if !UsageIsValid(usage) { return Failure(InvalidUsage); }
    if usage.operation !in pricing.operations { return Failure(UnknownOperation); }
    var operation := pricing.operations[usage.operation];
    if !(usage.measures.Keys <= operation.units.Keys) { return Failure(UndeclaredMeasure); }
    if !(usage.dimensions.Keys <= operation.dimensions.Keys) { return Failure(UndeclaredDimension); }
    var dimensions := ReadDimensions(operation, usage.dimensions);
    if dimensions.None? { return Failure(BadDimension); }
    var measures := ReadMeasures(operation.units.Keys, usage.measures);
    var card := ResolveRateCard(pricing.cards, requested);
    if card.Failure? { return Failure(card.error); }
    var prices := OperationPricing(pricing.cards, card.value, usage.operation);
    if prices.Failure? { return Failure(Inheritance(prices.error)); }
    var charge := SelectCharge(prices.value, dimensions.value);
    if charge.None? { return Failure(NoRuleMatched); }
    var price := EvaluateCharge(lib, charge.value, measures);
    if price.Failure? { return Failure(ChargeFailed(price.error)); }
    if price.value < 0.0 { return Failure(NegativeCost); }
    QuantizeMoneyIdempotent(price.value);
    QuantizeMoneyMonotone(0.0, price.value);
    QuantizeZero();
    var total := BreakdownTotal(QuantizeMoney(price.value));
    return Success(total);
  }

  // ----- Accepted catalogs -----

  predicate ChargeAccepted(lib: Library, charge: Charge, declared: set<string>) {
    WellParsed(charge) && Validated(lib, charge, declared)
  }

  /** What parsing a catalog guarantees of the prices of one operation. */
  predicate PricesAccepted(lib: Library, prices: OperationPrices, operation: Operation) {
    && (forall rule | rule in prices.rules ::
          && ChargeAccepted(lib, rule.charge, operation.units.Keys)
          && forall d | d in rule.when :: d in operation.dimensions && MatcherShape(rule.when[d], operation.dimensions[d].kind))
    && (prices.unmatched.Some? ==> ChargeAccepted(lib, prices.unmatched.value, operation.units.Keys))
  }

  ghost predicate Accepted(lib: Library, pricing: Pricing) {
    && "" !in pricing.cards && pricing.cards != map[]
    && Acyclic(pricing.cards)
    && forall card, operation | card in pricing.cards && operation in pricing.cards[card].operations ::
         && operation in pricing.operations
         && PricesAccepted(lib, pricing.cards[card].operations[operation], pricing.operations[operation])
  }

  lemma {:induction false} SelectedIsAccepted(lib: Library, prices: OperationPrices, operation: Operation, given: Dimensions)
    requires PricesAccepted(lib, prices, operation)
    ensures var c := Select(prices, given);
            c.Some? ==> ChargeAccepted(lib, c.value, operation.units.Keys)
    decreases |prices.rules|
  {
    hide ChargeAccepted, RuleMatches, MatcherShape;
    if prices.rules != [] { SelectedIsAccepted(lib, prices.(rules := prices.rules[1..]), operation, given); }
  }

  /** Whatever the walk finds is what some card of the catalog says of the operation. */
  lemma {:induction false} WalkFindsACard<P>(cards: Cards<P>, key: string, operation: string, seen: set<string>) returns (card: string)
    requires Walk(cards, key, operation, seen).Success?
    ensures card in cards && operation in cards[card].operations
    ensures Walk(cards, key, operation, seen).value == cards[card].operations[operation]
    decreases cards.Keys - seen
  {
    if operation in cards[key].operations { return key; }
    card := WalkFindsACard(cards, cards[key].parent.value, operation, seen + {key});
  }

  /** The charge the chain and the rules select for a request, if any. */
  ghost function Chosen(cards: Cards<OperationPrices>, card: string, usage: Usage): Option<Charge> {
    var prices := Walk(cards, card, usage.operation, {});
    if prices.Failure? then None else Select(prices.value, usage.dimensions)
  }

  /** The ways a request against an accepted catalog can fail once it names an operation, measures,
      dimensions and a card that exist: no card on the chain prices the operation, no rule takes
      the dimensions, a formula divides by zero or leaves a percentile range, or the price is
      negative; and, for a charge with a blank measure or an unknown rounding, that name. */
  predicate Explained(e: UsageError, chosen: Option<Charge>) {
    || e == Inheritance(NoPrice) || e.NoRuleMatched? || e.NegativeCost?
    || (e.ChargeFailed? && chosen.Some? && if Named(chosen.value) then OnValues(e.reason) else Excused(e.reason))
  }

  lemma AcceptedCardPrices(lib: Library, pricing: Pricing, card: string, usage: Usage)
    requires ReadsBits(lib) && Accepted(lib, pricing) && card in pricing.cards && usage.operation in pricing.operations
    ensures var r := CalculatedOn(lib, pricing.cards, card, pricing.operations[usage.operation].units.Keys, usage);
            r.Failure? ==> Explained(r.error, Chosen(pricing.cards, card, usage))
  {
    hide PricesAccepted, Select, Price, Walk, Acyclic, Nearest, EndsAfter, Measured, QuantizeMoney, OnValues, Excused, Named,
         ReadsBits;
    var operation := pricing.operations[usage.operation];
    var n := AcceptedWalk(pricing.cards, card, usage.operation);
    var prices := Walk(pricing.cards, card, usage.operation, {});
    if prices.Success? {
      var found := WalkFindsACard(pricing.cards, card, usage.operation, {});
      SelectedIsAccepted(lib, prices.value, operation, usage.dimensions);
      var charge := Select(prices.value, usage.dimensions);
      if charge.Some? {
        var measures := Measured(operation.units.Keys, usage.measures);
        assert measures.Keys == operation.units.Keys by { MeasuredKeys(operation.units.Keys, usage.measures); }
        AcceptedNeverStuck(lib, charge.value, operation.units.Keys, measures);
        if Named(charge.value) { AcceptedFailsOnlyOnValues(lib, charge.value, operation.units.Keys, measures); }
      }
    }
  }

  lemma MeasuredKeys(declared: set<string>, given: Variables)
    ensures Measured(declared, given).Keys == declared
  {
  }

  /** A request that is in order. */
  predicate InOrder(pricing: Pricing, usage: Usage, requested: string) {
    && UsageIsValid(usage) && usage.operation in pricing.operations
    && usage.measures.Keys <= pricing.operations[usage.operation].units.Keys
    && usage.dimensions.Keys <= pricing.operations[usage.operation].dimensions.Keys
    && DimensionsFit(pricing.operations[usage.operation], usage.dimensions)
    && ResolveRateCard(pricing.cards, requested).Success?
  }

  /** On an accepted catalog, every request in order is priced or fails for one of the explained
      reasons: never a cycle, an unknown card, a formula that does not fit, or a measure missing that
      has a name. */
  lemma AcceptedNeverSurprises(lib: Library, pricing: Pricing, usage: Usage, requested: string)
    requires ReadsBits(lib) && Accepted(lib, pricing) && InOrder(pricing, usage, requested)
    ensures var r := Calculated(lib, pricing, usage, requested);
            r.Failure? ==> Explained(r.error, Chosen(pricing.cards, ResolveRateCard(pricing.cards, requested).value, usage))
  {
    hide CalculatedOn, UsageIsValid, DimensionsFit, Accepted, Explained, Chosen;
    AcceptedCardPrices(lib, pricing, ResolveRateCard(pricing.cards, requested).value, usage);
  }

  /** The request selects a charge without blank measures and unknown roundings, whose formulas take
      the measured usage, and that does not cost less than nothing. */
  ghost predicate Served(lib: Library, pricing: Pricing, card: string, usage: Usage)
    requires usage.operation in pricing.operations
  {
    var chosen := Chosen(pricing.cards, card, usage);
    var measures := Measured(pricing.operations[usage.operation].units.Keys, usage.measures);
    && chosen.Some? && Priceable(lib, chosen.value, measures)
    && var price := Price(lib, chosen.value, measures);
       price.Success? ==> price.value >= 0.0
  }

  lemma ChosenIsAccepted(lib: Library, pricing: Pricing, card: string, usage: Usage)
    requires Accepted(lib, pricing) && card in pricing.cards && usage.operation in pricing.operations
    requires Chosen(pricing.cards, card, usage).Some?
    ensures ChargeAccepted(lib, Chosen(pricing.cards, card, usage).value, pricing.operations[usage.operation].units.Keys)
  {
    hide Walk, Select, Acyclic, ChargeAccepted, PricesAccepted;
    var prices := Walk(pricing.cards, card, usage.operation, {});
    var found := WalkFindsACard(pricing.cards, card, usage.operation, {});
    SelectedIsAccepted(lib, prices.value, pricing.operations[usage.operation], usage.dimensions);
  }

  /** Exactly when a request in order is priced on an accepted catalog. */
  lemma ServedIff(lib: Library, pricing: Pricing, usage: Usage, requested: string)
    requires Accepted(lib, pricing) && InOrder(pricing, usage, requested)
    requires "" !in pricing.operations[usage.operation].units.Keys
    ensures Calculated(lib, pricing, usage, requested).Success?
       <==> Served(lib, pricing, ResolveRateCard(pricing.cards, requested).value, usage)
  {
    hide UsageIsValid, DimensionsFit, Accepted, Walk, Select, Price, Priceable, Measured, QuantizeMoney;
    var card := ResolveRateCard(pricing.cards, requested).value;
    var declared := pricing.operations[usage.operation].units.Keys;
    var chosen := Chosen(pricing.cards, card, usage);
    if chosen.Some? {
      ChosenIsAccepted(lib, pricing, card, usage);
      var measures := Measured(declared, usage.measures);
      assert measures.Keys == declared by { MeasuredKeys(declared, usage.measures); }
      PricedIff(lib, chosen.value, measures);
    }
  }

  // ----- Which requests are refused -----

  /** The dimension is missing although required, or is not of its declared type. */
  predicate Misfit(definition: DimensionDefinition, given: Dimensions, d: string) {
    if d !in given then definition.required
    else
      match given[d]
      case Text(_) => !definition.kind.StringDimension?
      case Flag(_) => !definition.kind.BooleanDimension?
      case Quantity(_) => !definition.kind.NumberDimension?
  }

  ghost predicate RequestFault(e: UsageError) {
    e in {InvalidUsage, UnknownOperation, UndeclaredMeasure, UndeclaredDimension, BadDimension, UnknownRateCard, RateCardRequired}
  }

  /** The first fault of a request, looked for in this order. */
  ghost function FirstFault(pricing: Pricing, usage: Usage, requested: string): Option<UsageError> {
    if IsBlank(usage.operation) || (exists d | d in usage.dimensions :: IsBlank(d))
       || (exists m | m in usage.measures :: IsBlank(m) || usage.measures[m] < 0.0)
    then Some(InvalidUsage)
    else if usage.operation !in pricing.operations then Some(UnknownOperation)
    else
      var operation := pricing.operations[usage.operation];
      if exists m | m in usage.measures :: m !in operation.units.Keys then Some(UndeclaredMeasure)
      else if exists d | d in usage.dimensions :: d !in operation.dimensions then Some(UndeclaredDimension)
      else if exists d | d in operation.dimensions :: Misfit(operation.dimensions[d], usage.dimensions, d) then Some(BadDimension)
      else if requested != "" && requested !in pricing.cards then Some(UnknownRateCard)
      else if requested == "" && |pricing.cards| != 1 then Some(RateCardRequired)
      else None
  }

  lemma DimensionsFitIff(operation: Operation, given: Dimensions)
    ensures DimensionsFit(operation, given)
       <==> forall d | d in operation.dimensions :: !Misfit(operation.dimensions[d], given, d)
  {
    forall d | d in operation.dimensions
      ensures DimensionFits(operation.dimensions[d], given, d) <==> !Misfit(operation.dimensions[d], given, d)
    {
    }
    hide DimensionFits, Misfit;
  }

  lemma PricingFindsNoFault(lib: Library, cards: Cards<OperationPrices>, card: string, declared: set<string>, usage: Usage)
    ensures var r := CalculatedOn(lib, cards, card, declared, usage);
            r.Failure? ==> !RequestFault(r.error)
  {
    hide Walk, Select, Price, Measured;
  }

  /** A request is refused before it is priced exactly if it has a fault, and for the first one. */
  lemma RefusedIff(lib: Library, pricing: Pricing, usage: Usage, requested: string)
    ensures var r, fault := Calculated(lib, pricing, usage, requested), FirstFault(pricing, usage, requested);
            if fault.Some? then r == Failure(fault.value) else r.Failure? ==> !RequestFault(r.error)
  {
    hide CalculatedOn, Walk, IsBlank, DimensionsFit, Misfit;
    if usage.operation in pricing.operations { DimensionsFitIff(pricing.operations[usage.operation], usage.dimensions); }
    assert UsageIsValid(usage) <==> FirstFault(pricing, usage, requested) != Some(InvalidUsage);
    if FirstFault(pricing, usage, requested).None? {
      PricingFindsNoFault(lib, pricing.cards, ResolveRateCard(pricing.cards, requested).value,
                          pricing.operations[usage.operation].units.Keys, usage);
    }
  }

  /** The card a request is priced on: the one it names, or the only one there is. */
  lemma ResolvedCard(pricing: Pricing, requested: string)
    requires ResolveRateCard(pricing.cards, requested).Success?
    ensures var card := ResolveRateCard(pricing.cards, requested).value;
            && card in pricing.cards
            && (if requested != "" then card == requested else pricing.cards.Keys == {card})
  {
    if requested == "" { OnlyKey(pricing.cards); }
  }

  // ----- Which rule is charged, and how much -----

  /** The rule at `index` is the first that matches, or `index` is past the end and none does. */
  predicate FirstMatch(prices: OperationPrices, given: Dimensions, index: nat) {
    && index <= |prices.rules|
    && (forall i | 0 <= i < index :: !RuleMatches(prices.rules[i], given))
    && (index < |prices.rules| ==> RuleMatches(prices.rules[index], given))
  }

  lemma {:induction false} SelectIsFirstMatch(prices: OperationPrices, given: Dimensions, index: nat)
    requires FirstMatch(prices, given, index)
    ensures Select(prices, given) == if index < |prices.rules| then Some(prices.rules[index].charge)
                                 else if prices.action == "charge" then prices.unmatched else None
    decreases |prices.rules|
  {
    hide RuleMatches;
    if prices.rules != [] && index > 0 {
      assert !RuleMatches(prices.rules[0], given);
      var rest := prices.(rules := prices.rules[1..]);
      assert forall i | 0 <= i < index - 1 :: rest.rules[i] == prices.rules[i + 1];
      SelectIsFirstMatch(rest, given, index - 1);
    }
  }

  /** What a successful calculation costs: the first matching rule's price, to six places, never
      negative and off by at most half a millionth. */
  lemma CostOfFirstMatch(lib: Library, pricing: Pricing, usage: Usage, requested: string, prices: OperationPrices, index: nat)
    requires InOrder(pricing, usage, requested)
    requires Walk(pricing.cards, ResolveRateCard(pricing.cards, requested).value, usage.operation, {}) == Success(prices)
    requires FirstMatch(prices, usage.dimensions, index)
    requires Calculated(lib, pricing, usage, requested).Success?
    ensures var cost := Calculated(lib, pricing, usage, requested).value;
            var charge := if index < |prices.rules| then Some(prices.rules[index].charge)
                                 else if prices.action == "charge" then prices.unmatched else None;
            && charge.Some?
            && var price := Price(lib, charge.value, Measured(pricing.operations[usage.operation].units.Keys, usage.measures));
               && price.Success?
               && 0.0 <= price.value && 0.0 <= cost
               && IsScaled(cost, MONEY_SCALE)
               && Abs(cost - price.value) <= 0.0000005
  {
    hide Walk, Price, Select, RuleMatches, UsageIsValid, DimensionsFit, ResolveRateCard, Measured, IsScaled, RoundScaled, Abs;
    SelectIsFirstMatch(prices, usage.dimensions, index);
    var charge := Select(prices, usage.dimensions);
    var price := Price(lib, charge.value, Measured(pricing.operations[usage.operation].units.Keys, usage.measures));
    QuantizeZero();
    ZeroIsScaled();
    QuantizeMoneyNearest(price.value, 0.0);
    QuantizeMoneyMonotone(0.0, price.value);
  }

  // ----- What the reported usage costs -----

  /** The usage reported for a measure; what is not reported is nothing. */
  function Reported(usage: Usage, measure: string): Amount {
    if measure in usage.measures then usage.measures[measure] else 0.0
  }

  /** A successful cost is the price of the selected charge over the reported measures, to six places. */
  lemma CostIsThePriceOfReports(lib: Library, pricing: Pricing, usage: Usage, requested: string, charge: Charge, reports: Variables)
    requires InOrder(pricing, usage, requested) && Calculated(lib, pricing, usage, requested).Success?
    requires Chosen(pricing.cards, ResolveRateCard(pricing.cards, requested).value, usage) == Some(charge)
    requires reports.Keys == pricing.operations[usage.operation].units.Keys
    requires forall m | m in reports :: reports[m] == Reported(usage, m)
    ensures var price := Price(lib, charge, reports);
            && price.Success? && price.value >= 0.0
            && Calculated(lib, pricing, usage, requested) == Success(QuantizeMoney(price.value))
  {
    hide Walk, Price, Select, UsageIsValid, DimensionsFit, ResolveRateCard, QuantizeMoney;
    assert Measured(pricing.operations[usage.operation].units.Keys, usage.measures) == reports;
  }

  /** A charge per unit of a declared measure costs, to half a millionth, its rate times the reported
      number of units of its size. */
  lemma CostOfPerUnit(lib: Library, pricing: Pricing, usage: Usage, requested: string, charge: Charge) returns (units: Amount)
    requires InOrder(pricing, usage, requested) && Calculated(lib, pricing, usage, requested).Success?
    requires Chosen(pricing.cards, ResolveRateCard(pricing.cards, requested).value, usage) == Some(charge)
    requires charge.kind.PerUnit? && charge.unitSize != 0.0
    requires charge.measure in pricing.operations[usage.operation].units.Keys
    ensures var u := Reported(usage, charge.measure);
            && -0.5 <= ScaleUp(units, LAST_PLACE) - ScaleUp(u / charge.unitSize, LAST_PLACE) <= 0.5
            && (IsScaled(u / charge.unitSize, LAST_PLACE) ==> units == u / charge.unitSize)
    ensures Abs(Calculated(lib, pricing, usage, requested).value - Times(units, charge.rate)) <= 0.0000005
  {
    hide Walk, Price, Select, UsageIsValid, DimensionsFit, ResolveRateCard, RoundScaled, IsScaled, ScaleUp, Times, Calculated, Abs, Chosen;
    var reports := map m | m in pricing.operations[usage.operation].units.Keys :: Reported(usage, m);
    CostIsThePriceOfReports(lib, pricing, usage, requested, charge, reports);
    units := PerUnitPrice(lib, charge, reports);
    ZeroIsScaled();
    QuantizeMoneyNearest(Times(units, charge.rate), 0.0);
  }

  lemma ZeroIsScaled()
    ensures IsScaled(0.0, MONEY_SCALE)
  {
  }

  /** Reporting a declared measure as zero is the same as not reporting it. */
  lemma ZeroIsNothing(lib: Library, pricing: Pricing, usage: Usage, requested: string, measure: string)
    requires measure !in usage.measures && !IsBlank(measure)
    requires usage.operation in pricing.operations ==> measure in pricing.operations[usage.operation].units.Keys
    ensures Calculated(lib, pricing, usage, requested)
         == Calculated(lib, pricing, usage.(measures := usage.measures[measure := 0.0]), requested)
  {
    hide Walk, Price, Select, DimensionsFit, ResolveRateCard;
    var more := usage.(measures := usage.measures[measure := 0.0]);
    assert UsageIsValid(more) <==> UsageIsValid(usage) by {
      assert forall m | m in usage.measures :: m in more.measures && more.measures[m] == usage.measures[m];
    }
    if usage.operation in pricing.operations {
      var declared := pricing.operations[usage.operation].units.Keys;
      assert Measured(declared, usage.measures) == Measured(declared, more.measures);
    }
  }

  /** A card that leaves an operation to its parent prices it exactly as the parent does. */
  lemma InheritedPrice(lib: Library, pricing: Pricing, usage: Usage, child: string)
    requires Accepted(lib, pricing) && child in pricing.cards
    requires usage.operation !in pricing.cards[child].operations && pricing.cards[child].parent.Some?
    ensures Calculated(lib, pricing, usage, child) == Calculated(lib, pricing, usage, pricing.cards[child].parent.value)
  {
    hide Price, Select, DimensionsFit, UsageIsValid, Measured, PricesAccepted, RoundScaled, Walk;
    var parent := pricing.cards[child].parent.value;
    var n := AcceptedWalk(pricing.cards, child, usage.operation);
    assert EndsAfter(pricing.cards, parent, n - 1);
    var m := AcceptedWalk(pricing.cards, parent, usage.operation);
    LengthUnique(pricing.cards, parent, n - 1, m);
    assert Walk(pricing.cards, child, usage.operation, {}) == Walk(pricing.cards, parent, usage.operation, {});
  }
}
