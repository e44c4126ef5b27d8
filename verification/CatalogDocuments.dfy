/** The canonical form of a whole catalog, and what reading it back gives. */
module CatalogDocuments {
  import opened Decimals
  import opened Evaluator
  import opened Expressions
  import opened Charges
  import opened ChargeDocuments
  import opened MatcherDocuments
  import opened RateCards
  import opened Engine
  import opened PricingDocuments

  // ----- Writing -----

  function TypeName(kind: DimensionType): string {
    match kind
    case StringDimension => "string"
    case NumberDimension => "number"
    case BooleanDimension => "boolean"
    case OtherDimension(name) => name
  }

  function CanonicalDimension(d: DimensionDefinition): Json {
    JObject(map["type" := JString(TypeName(d.kind)), "required" := JBool(d.required)])
  }

  function CanonicalUnit(unit: string): Json {
    JObject(map["unit" := JString(unit)])
  }

  function CanonicalOperation(o: Operation): Json {
    JObject(map["measures" := JObject(map m | m in o.units :: CanonicalUnit(o.units[m])),
                "dimensions" := JObject(map d | d in o.dimensions :: CanonicalDimension(o.dimensions[d]))])
  }

  function CanonicalRule(r: Rule): Json {
    JObject(map["when" := JObject(map d | d in r.when :: CanonicalMatcher(r.when[d])), "charge" := CanonicalCharge(r.charge)])
  }

  function CanonicalRules(rules: seq<Rule>): (r: seq<Json>)
    ensures |r| == |rules|
  {
    if rules == [] then [] else [CanonicalRule(rules[0])] + CanonicalRules(rules[1..])
  }

  function CanonicalUnmatched(action: string, charge: Option<Charge>): Json {
    var fields := map["action" := JString(action)];
    JObject(if charge.Some? then fields["charge" := CanonicalCharge(charge.value)] else fields)
  }

  function CanonicalPrices(p: OperationPrices): Json {
    JObject(map["rules" := JArray(CanonicalRules(p.rules)), "unmatched" := CanonicalUnmatched(p.action, p.unmatched)])
  }

  function CanonicalCard(c: Card<OperationPrices>): Json {
    var fields := map["operations" := JObject(map name | name in c.operations :: CanonicalPrices(c.operations[name]))];
    JObject(if c.parent.Some? then fields["extends" := JString(c.parent.value)] else fields)
  }

  function CanonicalPricing(p: Pricing): Json {
    JObject(map["operations" := JObject(map k | k in p.operations :: CanonicalOperation(p.operations[k])),
                "rate_cards" := JObject(map k | k in p.cards :: CanonicalCard(p.cards[k]))])
  }

  // ----- Operations -----

  /** What reading guarantees of an operation. */
  predicate OperationShape(o: Operation) {
    && o.units != map[]
    && (forall m | m in o.units :: IsIdentifier(m) && IsIdentifier(o.units[m]))
    && (forall d | d in o.dimensions :: IsIdentifier(d) && d !in o.units && TypeOf(TypeName(o.dimensions[d].kind)) == o.dimensions[d].kind)
  }

  lemma TypesNameThemselves(name: string)
    ensures TypeOf(TypeName(TypeOf(name))) == TypeOf(name)
  {
  }

  lemma OperationIsShaped(j: Json)
    requires ParseOperation(j).Some?
    ensures OperationShape(ParseOperation(j).value)
  {
    hide IsIdentifier;
    var o := ParseOperation(j).value;
    var measures, dimensions := Section(j.fields, "measures").value, Section(j.fields, "dimensions").value;
    hide Section;
    assert o.units.Keys == measures.Keys && o.dimensions.Keys == dimensions.Keys;
    forall m | m in o.units ensures IsIdentifier(m) && IsIdentifier(o.units[m]) { assert IsMeasure(measures[m]); }
    forall d | d in o.dimensions
      ensures IsIdentifier(d) && d !in o.units && TypeOf(TypeName(o.dimensions[d].kind)) == o.dimensions[d].kind
    {
      assert ParseDimension(dimensions[d]).Some?;
      TypesNameThemselves(Get(dimensions[d].fields, "type").text);
    }
    assert o.units != map[] by { var m :| m in measures; assert m in o.units; }
  }

  lemma DimensionReadsBack(d: DimensionDefinition)
    requires TypeOf(TypeName(d.kind)) == d.kind
    ensures ParseDimension(CanonicalDimension(d)) == Some(d)
  {
  }

  lemma UnitsReadBack(units: map<string, string>)
    requires forall m | m in units :: IsIdentifier(units[m])
    ensures var raw := map m | m in units :: CanonicalUnit(units[m]);
            && (forall m | m in raw :: IsMeasure(raw[m]))
            && (map m | m in raw :: UnitOf(raw[m])) == units
            && raw.Keys == units.Keys
  {
    hide IsIdentifier;
    var raw := map m | m in units :: CanonicalUnit(units[m]);
    forall m | m in raw ensures IsMeasure(raw[m]) && UnitOf(raw[m]) == units[m] { }
    hide IsMeasure, UnitOf, CanonicalUnit;
    assert (map m | m in raw :: UnitOf(raw[m])) == units;
  }

  lemma DimensionsReadBack(dimensions: map<string, DimensionDefinition>)
    requires forall d | d in dimensions :: TypeOf(TypeName(dimensions[d].kind)) == dimensions[d].kind
    ensures var raw := map d | d in dimensions :: CanonicalDimension(dimensions[d]);
            && (forall d | d in raw :: ParseDimension(raw[d]).Some?)
            && (map d | d in raw :: ParseDimension(raw[d]).value) == dimensions
            && raw.Keys == dimensions.Keys
  {
    hide ParseDimension, CanonicalDimension, TypeOf, TypeName;
    var raw := map d | d in dimensions :: CanonicalDimension(dimensions[d]);
    forall d | d in raw ensures ParseDimension(raw[d]) == Some(dimensions[d]) { DimensionReadsBack(dimensions[d]); }
    assert (map d | d in raw :: ParseDimension(raw[d]).value) == dimensions;
  }

  lemma OperationReadsBack(o: Operation)
    requires OperationShape(o)
    ensures ParseOperation(CanonicalOperation(o)) == Some(o)
  {
    hide IsIdentifier, ParseDimension, CanonicalDimension, TypeOf, TypeName, IsMeasure, UnitOf, CanonicalUnit;
    var measures := map m | m in o.units :: CanonicalUnit(o.units[m]);
    var dimensions := map d | d in o.dimensions :: CanonicalDimension(o.dimensions[d]);
    UnitsReadBack(o.units);
    DimensionsReadBack(o.dimensions);
    assert AllIdentifiers(measures) && AllIdentifiers(dimensions) && measures != map[];
    SectionsRead(measures, dimensions);
    hide Section, AllIdentifiers;
  }

  lemma SectionsRead(measures: Fields, dimensions: Fields)
    ensures var fields := map["measures" := JObject(measures), "dimensions" := JObject(dimensions)];
            Section(fields, "measures") == Some(measures) && Section(fields, "dimensions") == Some(dimensions)
  {
  }

  lemma OperationsReadBack(operations: map<string, Operation>)
    requires forall k | k in operations :: OperationShape(operations[k])
    ensures AllOperations(map k | k in operations :: CanonicalOperation(operations[k])) == Some(operations)
  {
    hide ParseOperation, CanonicalOperation, OperationShape;
    var raw := map k | k in operations :: CanonicalOperation(operations[k]);
    forall k | k in raw ensures ParseOperation(raw[k]) == Some(operations[k]) { OperationReadsBack(operations[k]); }
    assert (map k | k in raw :: ParseOperation(raw[k]).value) == operations;
  }

  // ----- Charges -----

  /** The measures of a list of charges. */
  function NamesOf(cs: seq<Charge>): set<string> {
    set c, m | c in cs && m in NamedMeasures(c) :: m
  }

  lemma SameNames(cs: seq<Charge>, ds: seq<Charge>)
    requires |cs| == |ds| && forall i | 0 <= i < |cs| :: NamedMeasures(cs[i]) <= NamedMeasures(ds[i])
    ensures NamesOf(cs) <= NamesOf(ds)
  {
    hide NamedMeasures;
    forall m | m in NamesOf(cs) ensures m in NamesOf(ds) {
      var c :| c in cs && m in NamedMeasures(c);
      var i :| 0 <= i < |cs| && cs[i] == c;
      assert ds[i] in ds && m in NamedMeasures(ds[i]);
    }
  }

  /** Rounding its amounts does not change the measures a charge names. */
  lemma {:induction false} QuantizedNames(c: Charge)
    ensures NamedMeasures(Quantized(c)) == NamedMeasures(c)
    decreases c, 0
  {
    QuantizedNamesAll(c.components);
    var parts, rounded := c.components, QuantizedAll(c.components);
    SameNames(parts, rounded);
    SameNames(rounded, parts);
    assert NamedMeasures(c) == (if c.measure != "" then {c.measure} else {}) + NamesOf(parts);
    hide QuantizeMoney, QuantizeTiers, QuantizedAll;
    assert NamedMeasures(Quantized(c)) == (if c.measure != "" then {c.measure} else {}) + NamesOf(rounded);
  }

  lemma {:induction false} QuantizedNamesAll(cs: seq<Charge>)
    ensures forall i | 0 <= i < |cs| :: NamedMeasures(QuantizedAll(cs)[i]) == NamedMeasures(cs[i])
    decreases cs
  {
    if cs != [] {
      hide NamedMeasures, Quantized;
      QuantizedNames(cs[0]);
      QuantizedNamesAll(cs[1..]);
    }
  }

  /** Nor the formulas the static check accepts. */
  lemma {:induction false} QuantizedFormulas(lib: Library, c: Charge, declared: set<string>)
    requires FormulasAccepted(lib, c, declared)
    ensures FormulasAccepted(lib, Quantized(c), declared)
    decreases c, 0
  {
    hide QuantizeMoney, QuantizeTiers, ValidateExpression;
    QuantizedFormulasAll(lib, c.components, declared);
  }

  lemma {:induction false} QuantizedFormulasAll(lib: Library, cs: seq<Charge>, declared: set<string>)
    requires forall c | c in cs :: FormulasAccepted(lib, c, declared)
    ensures forall c | c in QuantizedAll(cs) :: FormulasAccepted(lib, c, declared)
    decreases cs
  {
    if cs != [] {
      hide FormulasAccepted, Quantized;
      QuantizedFormulas(lib, cs[0], declared);
      QuantizedFormulasAll(lib, cs[1..], declared);
    }
  }

  lemma ChargeReadsBack(libs: Libraries, c: Charge, operation: Operation)
    requires Shaped(c, 0) && Validated(libs.evaluator, c, operation.units.Keys)
    ensures var r := ReadCharge(libs, CanonicalCharge(c), operation);
            && (r.Some? <==> SurvivesRounding(c))
            && (r.Some? ==> r.value == Quantized(c))
  {
    hide ParseCharge, CanonicalCharge, Quantized, SurvivesRounding, Shaped, NamedMeasures, FormulasAccepted;
    CanonicalReadsBack(c, 0);
    QuantizedNames(c);
    QuantizedFormulas(libs.evaluator, c, operation.units.Keys);
  }

  // ----- Rules -----

  predicate MatcherSurvives(m: Matcher) {
    m.op.Range? ==> RangeFault(QuantizeMatcher(m)).None?
  }

  predicate WhenShape(when: map<string, Matcher>, operation: Operation) {
    forall d | d in when :: d in operation.dimensions && MatcherShape(when[d], operation.dimensions[d].kind)
  }

  lemma MatchersReadBack(libs: Libraries, when: map<string, Matcher>, operation: Operation)
    requires ReadsStrict(libs.config) && WhenShape(when, operation)
    ensures var raw := map d | d in when :: CanonicalMatcher(when[d]);
            && raw.Keys == when.Keys
            && forall d | d in raw ::
                 && (ReadMatcher(libs, raw, d, operation).Some? <==> MatcherSurvives(when[d]))
                 && (MatcherSurvives(when[d]) ==> ReadMatcher(libs, raw, d, operation) == Some(QuantizeMatcher(when[d])))
  {
    hide ReadsStrict, ParseMatcher, CanonicalMatcher, QuantizeMatcher, MatcherSurvives, MatcherShape;
    var raw := map d | d in when :: CanonicalMatcher(when[d]);
    forall d | d in raw
      ensures ReadMatcher(libs, raw, d, operation).Some? <==> MatcherSurvives(when[d])
      ensures MatcherSurvives(when[d]) ==> ReadMatcher(libs, raw, d, operation) == Some(QuantizeMatcher(when[d]))
    {
      MatcherReadsBack(libs.config, when[d], operation.dimensions[d].kind);
      MatcherSurvivalIs(when[d]);
    }
  }

  lemma MatcherSurvivalIs(m: Matcher)
    ensures MatcherSurvives(m) <==> (m.op.Range? ==> RangeFault(QuantizeMatcher(m)).None?)
  {
  }

  /** What reading guarantees of a rule. */
  predicate RuleShape(libs: Libraries, r: Rule, operation: Operation) {
    Shaped(r.charge, 0) && Validated(libs.evaluator, r.charge, operation.units.Keys) && WhenShape(r.when, operation)
  }

  predicate RuleSurvives(r: Rule) {
    SurvivesRounding(r.charge) && forall d | d in r.when :: MatcherSurvives(r.when[d])
  }

  function QuantizedRule(r: Rule): Rule {
    Rule(map d | d in r.when :: QuantizeMatcher(r.when[d]), Quantized(r.charge))
  }

  lemma RuleReadsBack(libs: Libraries, r: Rule, operation: Operation)
    requires ReadsStrict(libs.config) && RuleShape(libs, r, operation)
    ensures var x := ParseRule(libs, CanonicalRule(r), operation);
            && (x.Some? <==> RuleSurvives(r))
            && (x.Some? ==> x.value == QuantizedRule(r))
  {
    hide ReadsStrict, ReadCharge, ReadMatcher, CanonicalMatcher, CanonicalCharge, QuantizeMatcher, Quantized, MatcherSurvives,
         SurvivesRounding, WhenShape, Shaped, Validated;
    ChargeReadsBack(libs, r.charge, operation);
    MatchersReadBack(libs, r.when, operation);
    var raw := map d | d in r.when :: CanonicalMatcher(r.when[d]);
    var j := CanonicalRule(r);
    assert j.JObject? && Get(j.fields, "when") == JObject(raw) && Get(j.fields, "charge") == CanonicalCharge(r.charge);
    hide CanonicalRule;
    if RuleSurvives(r) {
      assert (map d | d in raw :: ReadMatcher(libs, raw, d, operation).value) == map d | d in r.when :: QuantizeMatcher(r.when[d]);
    }
  }

  predicate RulesShape(libs: Libraries, rules: seq<Rule>, operation: Operation) {
    forall rule | rule in rules :: RuleShape(libs, rule, operation)
  }

  predicate RulesSurvive(rules: seq<Rule>) {
    rules == [] || (RuleSurvives(rules[0]) && RulesSurvive(rules[1..]))
  }

  /** Every rule rounded, in the same order. */
  function QuantizedRules(rules: seq<Rule>): (r: seq<Rule>)
    ensures |r| == |rules| && forall i | 0 <= i < |rules| :: r[i] == QuantizedRule(rules[i])
  {
    if rules == [] then [] else [QuantizedRule(rules[0])] + QuantizedRules(rules[1..])
  }

  lemma {:induction false} RulesReadBack(libs: Libraries, rules: seq<Rule>, operation: Operation)
    requires ReadsStrict(libs.config) && RulesShape(libs, rules, operation)
    ensures var x := ParseRules(libs, CanonicalRules(rules), operation);
            && (x.Some? <==> RulesSurvive(rules))
            && (x.Some? ==> x.value == QuantizedRules(rules))
    decreases rules
  {
    if rules != [] {
      hide ReadsStrict, ParseRule, CanonicalRule, RuleShape, RuleSurvives, QuantizedRule;
      assert rules[0] in rules;
      RuleReadsBack(libs, rules[0], operation);
      RulesReadBack(libs, rules[1..], operation);
      var texts := CanonicalRules(rules);
      assert texts[0] == CanonicalRule(rules[0]) && texts[1..] == CanonicalRules(rules[1..]);
    }
  }

  // ----- Prices and cards -----

  /** What reading guarantees of the prices of an operation: with the action "charge", a charge. */
  predicate PricesShape(libs: Libraries, p: OperationPrices, operation: Operation) {
    && RulesShape(libs, p.rules, operation)
    && (p.action == "charge" <==> p.unmatched.Some?)
    && (p.unmatched.Some? ==> Shaped(p.unmatched.value, 0) && Validated(libs.evaluator, p.unmatched.value, operation.units.Keys))
  }

  predicate PricesSurvive(p: OperationPrices) {
    RulesSurvive(p.rules) && (p.unmatched.Some? ==> SurvivesRounding(p.unmatched.value))
  }

  function QuantizedPrices(p: OperationPrices): OperationPrices {
    OperationPrices(QuantizedRules(p.rules), p.action, if p.unmatched.Some? then Some(Quantized(p.unmatched.value)) else None)
  }

  lemma UnmatchedReadsBack(libs: Libraries, action: string, charge: Option<Charge>, operation: Operation)
    requires action == "charge" <==> charge.Some?
    requires charge.Some? ==> Shaped(charge.value, 0) && Validated(libs.evaluator, charge.value, operation.units.Keys)
    ensures var x := ParseUnmatched(libs, CanonicalUnmatched(action, charge), operation);
            && (x.Some? <==> (charge.Some? ==> SurvivesRounding(charge.value)))
            && (x.Some? ==> x.value == (action, if charge.Some? then Some(Quantized(charge.value)) else None))
  {
    hide ReadCharge, CanonicalCharge, Quantized, SurvivesRounding, Shaped, Validated;
    if charge.Some? { ChargeReadsBack(libs, charge.value, operation); }
  }

  lemma PricesReadBack(libs: Libraries, p: OperationPrices, operation: Operation)
    requires ReadsStrict(libs.config) && PricesShape(libs, p, operation)
    ensures var x := ParsePrices(libs, CanonicalPrices(p), operation);
            && (x.Some? <==> PricesSurvive(p))
            && (x.Some? ==> x.value == QuantizedPrices(p))
  {
    hide ReadsStrict, ParseRules, CanonicalRules, ParseUnmatched, CanonicalUnmatched, RulesShape, RulesSurvive, QuantizedRules,
         Quantized, SurvivesRounding, Shaped, Validated;
    RulesReadBack(libs, p.rules, operation);
    UnmatchedReadsBack(libs, p.action, p.unmatched, operation);
  }

  predicate CardShape(libs: Libraries, c: Card<OperationPrices>, operations: map<string, Operation>) {
    forall name | name in c.operations :: name in operations && PricesShape(libs, c.operations[name], operations[name])
  }

  predicate CardSurvives(c: Card<OperationPrices>) {
    forall name | name in c.operations :: PricesSurvive(c.operations[name])
  }

  function QuantizedCard(c: Card<OperationPrices>): Card<OperationPrices> {
    Card(c.parent, map name | name in c.operations :: QuantizedPrices(c.operations[name]))
  }

  lemma CardFields(c: Card<OperationPrices>)
    ensures var fields := CanonicalCard(c).fields;
            && Get(fields, "extends") == (if c.parent.Some? then JString(c.parent.value) else JNull)
            && Section(fields, "operations") == Some(map name | name in c.operations :: CanonicalPrices(c.operations[name]))
  {
    hide CanonicalPrices;
  }

  lemma CardReadsBack(libs: Libraries, c: Card<OperationPrices>, operations: map<string, Operation>)
    requires ReadsStrict(libs.config) && CardShape(libs, c, operations)
    ensures var x := ParseCard(libs, CanonicalCard(c), operations);
            && (x.Some? <==> CardSurvives(c))
            && (x.Some? ==> x.value == QuantizedCard(c))
  {
    hide ReadsStrict, ParsePrices, CanonicalPrices, PricesShape, PricesSurvive, QuantizedPrices, Section;
    CardFields(c);
    var priced := map name | name in c.operations :: CanonicalPrices(c.operations[name]);
    forall name | name in priced
      ensures ReadPrices(libs, priced, name, operations).Some? <==> PricesSurvive(c.operations[name])
      ensures PricesSurvive(c.operations[name]) ==>
                ReadPrices(libs, priced, name, operations) == Some(QuantizedPrices(c.operations[name]))
    {
      PricesReadBack(libs, c.operations[name], operations[name]);
    }
    if CardSurvives(c) {
      assert (map name | name in priced :: ReadPrices(libs, priced, name, operations).value) == QuantizedCard(c).operations;
    }
    assert CanonicalCard(c).JObject?;
    hide CanonicalCard;
  }

  function QuantizedCards(cards: Cards<OperationPrices>): Cards<OperationPrices> {
    map k | k in cards :: QuantizedCard(cards[k])
  }

  lemma CardsReadBack(libs: Libraries, cards: Cards<OperationPrices>, operations: map<string, Operation>)
    requires ReadsStrict(libs.config) && forall k | k in cards :: CardShape(libs, cards[k], operations)
    ensures var x := AllCards(libs, map k | k in cards :: CanonicalCard(cards[k]), operations);
            && (x.Some? <==> forall k | k in cards :: CardSurvives(cards[k]))
            && (x.Some? ==> x.value == QuantizedCards(cards))
  {
    hide ReadsStrict, ParseCard, CanonicalCard, CardShape, CardSurvives, QuantizedCard;
    var raw := map k | k in cards :: CanonicalCard(cards[k]);
    forall k | k in raw
      ensures ParseCard(libs, raw[k], operations).Some? <==> CardSurvives(cards[k])
      ensures CardSurvives(cards[k]) ==> ParseCard(libs, raw[k], operations) == Some(QuantizedCard(cards[k]))
    {
      CardReadsBack(libs, cards[k], operations);
    }
    if forall k | k in cards :: CardSurvives(cards[k]) {
      assert (map k | k in raw :: ParseCard(libs, raw[k], operations).value) == QuantizedCards(cards);
    }
  }

  // ----- The whole catalog -----

  lemma {:induction false} SameChains(cards: Cards<OperationPrices>, key: string, n: nat)
    ensures EndsAfter(QuantizedCards(cards), key, n) <==> EndsAfter(cards, key, n)
    decreases n
  {
    hide QuantizedPrices;
    if key in cards && cards[key].parent.Some? && n > 0 { SameChains(cards, cards[key].parent.value, n - 1); }
  }

  lemma SameAcyclic(cards: Cards<OperationPrices>)
    ensures Acyclic(QuantizedCards(cards)) <==> Acyclic(cards)
  {
    hide QuantizedCard;
    forall key | key in cards ensures Grounded(QuantizedCards(cards), key) <==> Grounded(cards, key) {
      forall n: nat ensures EndsAfter(QuantizedCards(cards), key, n) <==> EndsAfter(cards, key, n) { SameChains(cards, key, n); }
    }
    assert QuantizedCards(cards).Keys == cards.Keys;
    hide Grounded;
  }

  /** What reading guarantees of a catalog. */
  ghost predicate PricingShape(libs: Libraries, p: Pricing) {
    && p.operations != map[] && p.cards != map[] && Acyclic(p.cards)
    && (forall k | k in p.operations :: IsIdentifier(k) && OperationShape(p.operations[k]))
    && (forall k | k in p.cards :: IsIdentifier(k) && CardShape(libs, p.cards[k], p.operations))
  }

  predicate PricingSurvives(p: Pricing) {
    forall k | k in p.cards :: CardSurvives(p.cards[k])
  }

  function QuantizedPricing(p: Pricing): Pricing {
    Pricing(p.operations, QuantizedCards(p.cards))
  }

  lemma PricingFields(p: Pricing)
    ensures var fields := CanonicalPricing(p).fields;
            && Section(fields, "operations") == Some(map k | k in p.operations :: CanonicalOperation(p.operations[k]))
            && Section(fields, "rate_cards") == Some(map k | k in p.cards :: CanonicalCard(p.cards[k]))
  {
    hide CanonicalOperation, CanonicalCard;
  }

  lemma PricingReadsBack(libs: Libraries, p: Pricing)
    requires ReadsStrict(libs.config) && PricingShape(libs, p)
    ensures var x := ParsePricing(libs, CanonicalPricing(p));
            && (x.Some? <==> PricingSurvives(p))
            && (x.Some? ==> x.value == QuantizedPricing(p))
  {
    PricingFields(p);
    hide ReadsStrict, AllOperations, AllCards, Section, CanonicalOperation, CanonicalCard, OperationShape, CardShape, CardSurvives,
         QuantizedCards, Acyclic, IsIdentifier;
    var operations := map k | k in p.operations :: CanonicalOperation(p.operations[k]);
    var cards := map k | k in p.cards :: CanonicalCard(p.cards[k]);
    OperationsReadBack(p.operations);
    CardsReadBack(libs, p.cards, p.operations);
    SameAcyclic(p.cards);
    assert AllIdentifiers(operations) && AllIdentifiers(cards);
    assert operations.Keys == p.operations.Keys && cards.Keys == p.cards.Keys;
    assert operations != map[] && cards != map[];
    assert CanonicalPricing(p).JObject?;
    hide CanonicalPricing, AllIdentifiers;
  }

  // ----- What is read has this shape -----

  lemma ChargeIsShaped(libs: Libraries, j: Json, operation: Operation)
    requires ReadCharge(libs, j, operation).Some?
    ensures var c := ReadCharge(libs, j, operation).value;
            Shaped(c, 0) && Validated(libs.evaluator, c, operation.units.Keys)
  {
    hide Validated, WellParsed, ParseCharge, Shaped;
    ParsedIsShaped(j, 0);
  }

  lemma RuleIsShaped(libs: Libraries, j: Json, operation: Operation)
    requires ParseRule(libs, j, operation).Some?
    ensures RuleShape(libs, ParseRule(libs, j, operation).value, operation)
  {
    hide MatcherShape, ParseMatcher, Shaped, Validated;
    ChargeIsShaped(libs, Get(j.fields, "charge"), operation);
    hide ReadCharge;
  }

  lemma {:induction false} RulesAreShaped(libs: Libraries, items: seq<Json>, operation: Operation)
    requires ParseRules(libs, items, operation).Some?
    ensures RulesShape(libs, ParseRules(libs, items, operation).value, operation)
    decreases items
  {
    hide ParseRule, RuleShape;
    if items != [] {
      RuleIsShaped(libs, items[0], operation);
      RulesAreShaped(libs, items[1..], operation);
    }
  }

  lemma PricesAreShaped(libs: Libraries, j: Json, operation: Operation)
    requires ParsePrices(libs, j, operation).Some?
    ensures PricesShape(libs, ParsePrices(libs, j, operation).value, operation)
  {
    hide ParseRules, RulesShape, ReadCharge, Shaped, Validated;
    var list, unmatched := Get(j.fields, "rules"), Get(j.fields, "unmatched");
    RulesAreShaped(libs, if list.JArray? then list.items else [], operation);
    if Get(unmatched.fields, "action").text == "charge" { ChargeIsShaped(libs, Get(unmatched.fields, "charge"), operation); }
  }

  lemma CardIsShaped(libs: Libraries, j: Json, operations: map<string, Operation>)
    requires ParseCard(libs, j, operations).Some?
    ensures CardShape(libs, ParseCard(libs, j, operations).value, operations)
  {
    hide ParsePrices, PricesShape;
    var c, priced := ParseCard(libs, j, operations).value, Section(j.fields, "operations").value;
    forall name | name in c.operations ensures name in operations && PricesShape(libs, c.operations[name], operations[name]) {
      assert ReadPrices(libs, priced, name, operations).Some?;
      PricesAreShaped(libs, priced[name], operations[name]);
    }
  }

  lemma OperationsAreShaped(raw: Fields)
    requires AllOperations(raw).Some?
    ensures AllOperations(raw).value.Keys == raw.Keys
    ensures forall k | k in raw :: OperationShape(AllOperations(raw).value[k])
  {
    hide ParseOperation, OperationShape;
    forall k | k in raw ensures OperationShape(AllOperations(raw).value[k]) { OperationIsShaped(raw[k]); }
  }

  lemma CardsAreShaped(libs: Libraries, raw: Fields, operations: map<string, Operation>)
    requires AllCards(libs, raw, operations).Some?
    ensures AllCards(libs, raw, operations).value.Keys == raw.Keys
    ensures forall k | k in raw :: CardShape(libs, AllCards(libs, raw, operations).value[k], operations)
  {
    hide ParseCard, CardShape, AllCards;
    CardIsRead(libs, raw, operations);
    forall k | k in raw ensures CardShape(libs, AllCards(libs, raw, operations).value[k], operations) {
      CardIsShaped(libs, raw[k], operations);
    }
  }

  lemma OperationsAreRead(libs: Libraries, j: Json)
    requires ParsePricing(libs, j).Some?
    ensures j.JObject? && Section(j.fields, "operations").Some?
    ensures var raw := Section(j.fields, "operations").value;
            AllOperations(raw) == Some(ParsePricing(libs, j).value.operations) && raw != map[]
  {
    hide Acyclic, AllCards, AllOperations, Section, AllIdentifiers;
  }

  lemma SomeKey(raw: Fields, keys: set<string>)
    requires raw != map[] && keys == raw.Keys
    ensures keys != {}
  {
    var k :| k in raw;
    assert k in keys;
  }

  lemma PricingIsShaped(libs: Libraries, j: Json)
    requires ParsePricing(libs, j).Some?
    ensures PricingShape(libs, ParsePricing(libs, j).value)
  {
    hide ParsePricing, Section, AllOperations, AllCards, IsIdentifier, Acyclic, OperationShape, CardShape;
    CyclesAreRefused(libs, j);
    CardsAreRead(libs, j);
    OperationsAreRead(libs, j);
    var p := ParsePricing(libs, j).value;
    var rawOperations, rawCards := Section(j.fields, "operations").value, Section(j.fields, "rate_cards").value;
    OperationsAreShaped(rawOperations);
    CardsAreShaped(libs, rawCards, p.operations);
    SomeKey(rawOperations, p.operations.Keys);
    SomeKey(rawCards, p.cards.Keys);
  }

  /** Reading, writing canonically and reading again: it succeeds exactly if rounding to six places
      keeps every charge and matcher legal, and gives the same operations, cards, parents, rules in the
      same order and actions, with the amounts rounded. */
  lemma CatalogRoundTrip(libs: Libraries, j: Json)
    requires ReadsStrict(libs.config) && ParsePricing(libs, j).Some?
    ensures var p := ParsePricing(libs, j).value;
            var again := ParsePricing(libs, CanonicalPricing(p));
            && (again.Some? <==> PricingSurvives(p))
            && (again.Some? ==> again.value == QuantizedPricing(p))
  {
    hide ParsePricing, CanonicalPricing, PricingShape, PricingSurvives, QuantizedPricing, ReadsStrict;
    PricingIsShaped(libs, j);
    PricingReadsBack(libs, ParsePricing(libs, j).value);
  }
}
