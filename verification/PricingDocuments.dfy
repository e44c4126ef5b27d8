/** Catalog documents: from the pricing section of a configuration to the catalog the engine uses. */
module PricingDocuments {
  import opened Decimals
  import opened Charges
  import opened ChargeDocuments
  import opened MatcherDocuments
  import opened RateCards
  import opened Engine
  import Evaluator
  import Expressions

  // ----- Pieces of a document -----

  type Fields = map<string, Json>

  predicate IsLower(c: char) {
    'a' <= c <= 'z'
  }

  /** A snake_case identifier. */
  predicate IsIdentifier(s: string) {
    s != "" && IsLower(s[0]) && forall c | c in s :: IsLower(c) || '0' <= c <= '9' || c == '_'
  }

  predicate AllIdentifiers(fields: Fields) {
    forall k | k in fields :: IsIdentifier(k)
  }

  /** An object field; a missing or null one is empty. */
  function Section(fields: Fields, key: string): Option<Fields> {
    match Get(fields, key)
    case JNull => Some(map[])
    case JObject(section) => Some(section)
    case _ => None
  }

  function TypeOf(name: string): DimensionType {
    if name == "string" then StringDimension
    else if name == "number" then NumberDimension
    else if name == "boolean" then BooleanDimension
    else OtherDimension(name)
  }

  predicate IsMeasure(j: Json) {
    j.JObject? && Get(j.fields, "unit").JString? && IsIdentifier(Get(j.fields, "unit").text)
  }

  function UnitOf(j: Json): string {
    if IsMeasure(j) then Get(j.fields, "unit").text else ""
  }

  /** A dimension is required unless the document says otherwise. */
  function ParseDimension(j: Json): Option<DimensionDefinition> {
    if !j.JObject? || !Get(j.fields, "type").JString? then None
    else
      var kind := TypeOf(Get(j.fields, "type").text);
      match Get(j.fields, "required")
      case JNull => Some(DimensionDefinition(kind, true))
      case JBool(required) => Some(DimensionDefinition(kind, required))
      case _ => None
  }

  function ParseOperation(j: Json): Option<Operation> {
    if !j.JObject? then None
    else
      var measures, dimensions := Section(j.fields, "measures"), Section(j.fields, "dimensions");
      if measures.None? || dimensions.None? then None
      else if !AllIdentifiers(measures.value) || !AllIdentifiers(dimensions.value) || measures.value == map[] then None
      else if exists m | m in measures.value :: !IsMeasure(measures.value[m]) then None
      else if exists d | d in dimensions.value :: d in measures.value || ParseDimension(dimensions.value[d]).None? then None
      else Some(Operation(map m | m in measures.value :: UnitOf(measures.value[m]), map d | d in dimensions.value :: ParseDimension(dimensions.value[d]).value))
  }

  /** The two libraries a catalog is read with. */
  datatype Libraries = Libraries(evaluator: Evaluator.Library, config: ConfigLibrary)

  /** A charge that parses and passes the static check of its operation. */
  function ReadCharge(libs: Libraries, j: Json, operation: Operation): Option<Charge> {
    var c := ParseCharge(j, 0);
    if c.Failure? || !Validated(libs.evaluator, c.value, operation.units.Keys) then None else Some(c.value)
  }

  function ReadMatcher(libs: Libraries, when: Fields, d: string, operation: Operation): Option<Matcher>
    requires d in when
  {
    if d !in operation.dimensions then None
    else
      var m := ParseMatcher(libs.config, when[d], operation.dimensions[d].kind);
      if m.Failure? then None else Some(m.value)
  }

  function ParseRule(libs: Libraries, j: Json, operation: Operation): Option<Rule> {
    if !j.JObject? || !Get(j.fields, "when").JObject? then None
    else
      var when := Get(j.fields, "when").fields;
      if exists d | d in when :: ReadMatcher(libs, when, d, operation).None? then None
      else
        var charge := ReadCharge(libs, Get(j.fields, "charge"), operation);
        if charge.None? then None
        else Some(Rule(map d | d in when :: ReadMatcher(libs, when, d, operation).value, charge.value))
  }

  function ParseRules(libs: Libraries, items: seq<Json>, operation: Operation): Option<seq<Rule>> {
    if items == [] then Some([])
    else
      var first := ParseRule(libs, items[0], operation);
      if first.None? then None
      else
        var rest := ParseRules(libs, items[1..], operation);
        if rest.None? then None else Some([first.value] + rest.value)
  }

  /** Only the action "charge" prices what no rule matches. */
  function ParseUnmatched(libs: Libraries, j: Json, operation: Operation): Option<(string, Option<Charge>)> {
    if !j.JObject? || !Get(j.fields, "action").JString? then None
    else
      var action := Get(j.fields, "action").text;
      if action != "charge" then Some((action, None))
      else
        var charge := ReadCharge(libs, Get(j.fields, "charge"), operation);
        if charge.None? then None else Some((action, charge))
  }

  function ParsePrices(libs: Libraries, j: Json, operation: Operation): Option<OperationPrices> {
    if !j.JObject? then None
    else
      var list := Get(j.fields, "rules");
      if !list.JNull? && !list.JArray? then None
      else
        var rules := ParseRules(libs, if list.JArray? then list.items else [], operation);
        var unmatched := ParseUnmatched(libs, Get(j.fields, "unmatched"), operation);
        if rules.None? || unmatched.None? then None
        else Some(OperationPrices(rules.value, unmatched.value.0, unmatched.value.1))
  }

  function ReadPrices(libs: Libraries, priced: Fields, name: string, operations: map<string, Operation>): Option<OperationPrices>
    requires name in priced
  {
    if name !in operations then None else ParsePrices(libs, priced[name], operations[name])
  }

  function ParseCard(libs: Libraries, j: Json, operations: map<string, Operation>): Option<Card<OperationPrices>> {
    if !j.JObject? then None
    else
      var parent, priced := Get(j.fields, "extends"), Section(j.fields, "operations");
      if (!parent.JNull? && !parent.JString?) || priced.None? then None
      else if exists name | name in priced.value :: ReadPrices(libs, priced.value, name, operations).None? then None
      else
        Some(Card(if parent.JString? then Some(parent.text) else None,
                  map name | name in priced.value :: ReadPrices(libs, priced.value, name, operations).value))
  }

  // ----- The whole section -----

  function AllOperations(raw: Fields): Option<map<string, Operation>> {
    if exists k | k in raw :: ParseOperation(raw[k]).None? then None
    else Some(map k | k in raw :: ParseOperation(raw[k]).value)
  }

  function AllCards(libs: Libraries, raw: Fields, operations: map<string, Operation>): Option<Cards<OperationPrices>> {
    if exists k | k in raw :: ParseCard(libs, raw[k], operations).None? then None
    else Some(map k | k in raw :: ParseCard(libs, raw[k], operations).value)
  }

  /** The catalog a document denotes, if it is accepted. */
  ghost function ParsePricing(libs: Libraries, j: Json): Option<Pricing> {
    if !j.JObject? then None
    else
      var rawOperations, rawCards := Section(j.fields, "operations"), Section(j.fields, "rate_cards");
      if rawOperations.None? || rawCards.None? then None
      else if !AllIdentifiers(rawOperations.value) || !AllIdentifiers(rawCards.value) then None
      else if rawOperations.value == map[] || rawCards.value == map[] then None
      else
        var operations := AllOperations(rawOperations.value);
        if operations.None? then None
        else
          var cards := AllCards(libs, rawCards.value, operations.value);
          if cards.None? || !Acyclic(cards.value) then None else Some(Pricing(operations.value, cards.value))
  }

  lemma OneMoreOperation(done: Fields, key: string, j: Json)
    requires key !in done && AllOperations(done).Some? && ParseOperation(j).Some?
    ensures AllOperations(done[key := j]) == Some(AllOperations(done).value[key := ParseOperation(j).value])
  {
    hide ParseOperation;
    var more := done[key := j];
    assert forall k | k in more :: more[k] == if k == key then j else done[k];
    assert forall k | k in done :: ParseOperation(done[k]).Some?;
    assert AllOperations(more).Some?;
    assert AllOperations(more).value == AllOperations(done).value[key := ParseOperation(j).value];
  }

  lemma OneMoreCard(libs: Libraries, done: Fields, operations: map<string, Operation>, key: string, j: Json)
    requires key !in done && AllCards(libs, done, operations).Some? && ParseCard(libs, j, operations).Some?
    ensures AllCards(libs, done[key := j], operations)
         == Some(AllCards(libs, done, operations).value[key := ParseCard(libs, j, operations).value])
  {
    hide ParseCard;
    var more := done[key := j];
    assert forall k | k in more :: more[k] == if k == key then j else done[k];
    assert forall k | k in done :: ParseCard(libs, done[k], operations).Some?;
    assert AllCards(libs, more, operations).Some?;
    assert AllCards(libs, more, operations).value == AllCards(libs, done, operations).value[key := ParseCard(libs, j, operations).value];
  }

  method ReadOperations(raw: Fields) returns (operations: Option<map<string, Operation>>)
    ensures operations == AllOperations(raw)
  {
    hide ParseOperation;
    var read: map<string, Operation> := map[];
    var keys := raw.Keys;
    ghost var done: Fields := map[];
    while keys != {}
      invariant keys <= raw.Keys && done == raw - keys && AllOperations(done) == Some(read)
      decreases |keys|
    {
      var key :| key in keys;
      var operation := ParseOperation(raw[key]);
      if operation.None? { return None; }
      OneMoreOperation(done, key, raw[key]);
      keys := keys - {key};
      done := done[key := raw[key]];
      read := read[key := operation.value];
      assert done == raw - keys;
    }
    assert done == raw;
    return Some(read);
  }

  method ReadCards(libs: Libraries, raw: Fields, operations: map<string, Operation>) returns (cards: Option<Cards<OperationPrices>>)
    ensures cards == AllCards(libs, raw, operations)
  {
    hide ParseCard;
    var read: Cards<OperationPrices> := map[];
    var keys := raw.Keys;
    ghost var done: Fields := map[];
    while keys != {}
      invariant keys <= raw.Keys && done == raw - keys && AllCards(libs, done, operations) == Some(read)
      decreases |keys|
    {
      var key :| key in keys;
      var card := ParseCard(libs, raw[key], operations);
      if card.None? { return None; }
      OneMoreCard(libs, done, operations, key, raw[key]);
      keys := keys - {key};
      done := done[key := raw[key]];
      read := read[key := card.value];
      assert done == raw - keys;
    }
    assert done == raw;
    return Some(read);
  }

  /** Reads operations, then cards, then checks inheritance, in any order of keys. */
  method ReadPricing(libs: Libraries, j: Json) returns (pricing: Option<Pricing>)
    ensures pricing == ParsePricing(libs, j)
  {
    hide AllOperations, AllCards, Acyclic, AllIdentifiers;
    if !j.JObject? { return None; }
    var rawOperations, rawCards := Section(j.fields, "operations"), Section(j.fields, "rate_cards");
    if rawOperations.None? || rawCards.None? { return None; }
    if !AllIdentifiers(rawOperations.value) { return None; }
    if !AllIdentifiers(rawCards.value) { return None; }
    if |rawOperations.value| == 0 || |rawCards.value| == 0 { return None; }
    var operations := ReadOperations(rawOperations.value);
    if operations.None? { return None; }
    var cards := ReadCards(libs, rawCards.value, operations.value);
    if cards.None? { return None; }
    var acyclic := ValidateInheritance(cards.value);
    if !acyclic { return None; }
    return Some(Pricing(operations.value, cards.value));
  }

  // ----- Accepted documents give accepted catalogs -----

  lemma ReadChargeAccepted(libs: Libraries, j: Json, operation: Operation)
    requires ReadCharge(libs, j, operation).Some?
    ensures ChargeAccepted(libs.evaluator, ReadCharge(libs, j, operation).value, operation.units.Keys)
  {
    hide Validated, WellParsed, ParseCharge, Shaped;
    ParsedIsShaped(j, 0);
  }

  lemma RuleAccepted(libs: Libraries, j: Json, operation: Operation)
    requires ParseRule(libs, j, operation).Some?
    ensures var rule := ParseRule(libs, j, operation).value;
            && ChargeAccepted(libs.evaluator, rule.charge, operation.units.Keys)
            && forall d | d in rule.when :: d in operation.dimensions && MatcherShape(rule.when[d], operation.dimensions[d].kind)
  {
    hide ChargeAccepted, MatcherShape, ParseMatcher;
    ReadChargeAccepted(libs, Get(j.fields, "charge"), operation);
    hide ReadCharge;
  }

  lemma {:induction false} RulesAccepted(libs: Libraries, items: seq<Json>, operation: Operation, rule: Rule)
    requires ParseRules(libs, items, operation).Some? && rule in ParseRules(libs, items, operation).value
    ensures ChargeAccepted(libs.evaluator, rule.charge, operation.units.Keys)
    ensures forall d | d in rule.when :: d in operation.dimensions && MatcherShape(rule.when[d], operation.dimensions[d].kind)
    decreases items
  {
    hide ChargeAccepted, MatcherShape, ParseRule;
    var first := ParseRule(libs, items[0], operation).value;
    if rule == first {
      RuleAccepted(libs, items[0], operation);
    } else {
      RulesAccepted(libs, items[1..], operation, rule);
    }
  }

  lemma PricesAreAccepted(libs: Libraries, j: Json, operation: Operation)
    requires ParsePrices(libs, j, operation).Some?
    ensures PricesAccepted(libs.evaluator, ParsePrices(libs, j, operation).value, operation)
  {
    hide ChargeAccepted, MatcherShape, ParseRules, ReadCharge;
    var prices := ParsePrices(libs, j, operation).value;
    var list := Get(j.fields, "rules");
    forall rule | rule in prices.rules
      ensures ChargeAccepted(libs.evaluator, rule.charge, operation.units.Keys)
      ensures forall d | d in rule.when :: d in operation.dimensions && MatcherShape(rule.when[d], operation.dimensions[d].kind)
    {
      RulesAccepted(libs, if list.JArray? then list.items else [], operation, rule);
    }
    if prices.unmatched.Some? { ReadChargeAccepted(libs, Get(Get(j.fields, "unmatched").fields, "charge"), operation); }
  }

  lemma CardPrices(libs: Libraries, j: Json, operations: map<string, Operation>, name: string)
    requires ParseCard(libs, j, operations).Some? && name in ParseCard(libs, j, operations).value.operations
    ensures name in operations
    ensures var prices := ParseCard(libs, j, operations).value.operations[name];
            PricesAccepted(libs.evaluator, prices, operations[name])
  {
    hide PricesAccepted, ParsePrices;
    var priced := Section(j.fields, "operations").value;
    assert ReadPrices(libs, priced, name, operations).Some?;
    PricesAreAccepted(libs, priced[name], operations[name]);
  }

  /** The cards of a catalog that was read come one by one from the document. */
  lemma CardsAreRead(libs: Libraries, j: Json)
    requires ParsePricing(libs, j).Some?
    ensures j.JObject? && Section(j.fields, "rate_cards").Some?
    ensures var raw, pricing := Section(j.fields, "rate_cards").value, ParsePricing(libs, j).value;
            && AllCards(libs, raw, pricing.operations) == Some(pricing.cards)
            && raw != map[] && "" !in raw && Acyclic(pricing.cards)
  {
    hide Acyclic, AllCards, AllOperations, Section;
  }

  lemma CardIsRead(libs: Libraries, raw: Fields, operations: map<string, Operation>)
    requires AllCards(libs, raw, operations).Some?
    ensures var cards := AllCards(libs, raw, operations).value;
            && cards.Keys == raw.Keys
            && forall k | k in raw :: ParseCard(libs, raw[k], operations).Some?
                                    && cards[k] == ParseCard(libs, raw[k], operations).value
  {
    hide ParseCard;
  }

  /** A document that is read gives a catalog the engine's guarantees hold for. */
  lemma ReadIsAccepted(libs: Libraries, j: Json)
    requires ParsePricing(libs, j).Some?
    ensures Accepted(libs.evaluator, ParsePricing(libs, j).value)
  {
    hide ParsePricing, ParseCard, PricesAccepted, Acyclic, AllCards, Section;
    CardsAreRead(libs, j);
    var pricing, raw := ParsePricing(libs, j).value, Section(j.fields, "rate_cards").value;
    CardIsRead(libs, raw, pricing.operations);
    forall card, name | card in pricing.cards && name in pricing.cards[card].operations
      ensures name in pricing.operations
      ensures PricesAccepted(libs.evaluator, pricing.cards[card].operations[name], pricing.operations[name])
    {
      CardPrices(libs, raw[card], pricing.operations, name);
    }
  }

  predicate AllNamed(names: set<string>) {
    forall name | name in names :: IsIdentifier(name)
  }

  /** What reading refuses: a catalog read always has cards and operations named by identifiers, and
      chains that end inside it; a card whose chain does not end makes its document refused. */
  lemma CyclesAreRefused(libs: Libraries, j: Json)
    requires ParsePricing(libs, j).Some?
    ensures var pricing := ParsePricing(libs, j).value;
            && Acyclic(pricing.cards)
            && (forall k | k in pricing.cards :: IsIdentifier(k))
            && (forall k | k in pricing.operations :: IsIdentifier(k) && pricing.operations[k].units.Keys != {} && AllNamed(pricing.operations[k].units.Keys))
  {
    hide Acyclic, IsIdentifier, ParseCard;
    var pricing := ParsePricing(libs, j).value;
    var raw := Section(j.fields, "operations").value;
    forall k | k in pricing.operations
      ensures IsIdentifier(k) && pricing.operations[k].units.Keys != {} && AllNamed(pricing.operations[k].units.Keys)
    {
      assert ParseOperation(raw[k]).Some?;
      var measures := Section(raw[k].fields, "measures").value;
      assert measures != map[] && pricing.operations[k].units.Keys == measures.Keys;
    }
  }

  /** From document to price: against a catalog that was read, every request in order is priced, or
      fails because no card prices the operation, no rule takes the dimensions, a formula meets a
      value it cannot take, the price is negative, or the charge has a blank measure or an unknown
      rounding. */
  lemma ReadCatalogNeverSurprises(libs: Libraries, j: Json, usage: Usage, requested: string)
    requires Expressions.ReadsBits(libs.evaluator)
    requires ParsePricing(libs, j).Some? && InOrder(ParsePricing(libs, j).value, usage, requested)
    ensures var pricing := ParsePricing(libs, j).value;
            var r := Calculated(libs.evaluator, pricing, usage, requested);
            r.Failure? ==> Explained(r.error, Chosen(pricing.cards, ResolveRateCard(pricing.cards, requested).value, usage))
  {
    hide ParsePricing, InOrder, Calculated, Accepted, Explained, Chosen;
    ReadIsAccepted(libs, j);
    AcceptedNeverSurprises(libs.evaluator, ParsePricing(libs, j).value, usage, requested);
  }

  /** Exactly when: the request selects a charge without such names, whose formulas take the usage,
      and that does not cost less than nothing. */
  lemma ReadCatalogServesIff(libs: Libraries, j: Json, usage: Usage, requested: string)
    requires ParsePricing(libs, j).Some? && InOrder(ParsePricing(libs, j).value, usage, requested)
    ensures var pricing := ParsePricing(libs, j).value;
            Calculated(libs.evaluator, pricing, usage, requested).Success?
            <==> Served(libs.evaluator, pricing, ResolveRateCard(pricing.cards, requested).value, usage)
  {
    hide ParsePricing, Calculated, Accepted, Served, UsageIsValid, DimensionsFit, Acyclic;
    ReadIsAccepted(libs, j);
    CyclesAreRefused(libs, j);
    ServedIff(libs.evaluator, ParsePricing(libs, j).value, usage, requested);
  }

  // ----- What the fields of a document mean -----

  /** A declared dimension is required unless the document says otherwise, and of the type it names. */
  lemma DimensionDocument(name: string, required: bool)
    ensures var d := ParseDimension(JObject(map["type" := JString(name)]));
            && d.Some? && d.value.required
            && (d.value.kind.StringDimension? <==> name == "string")
            && (d.value.kind.NumberDimension? <==> name == "number")
            && (d.value.kind.BooleanDimension? <==> name == "boolean")
    ensures ParseDimension(JObject(map["type" := JString(name), "required" := JBool(required)]))
         == Some(ParseDimension(JObject(map["type" := JString(name)])).value.(required := required))
  {
  }

  /** Rules are read one by one and keep their order. */
  lemma {:induction false} RulesInOrder(libs: Libraries, items: seq<Json>, operation: Operation)
    ensures ParseRules(libs, items, operation).Some? <==> forall i | 0 <= i < |items| :: ParseRule(libs, items[i], operation).Some?
    ensures var r := ParseRules(libs, items, operation);
            r.Some? ==> |r.value| == |items| && forall i | 0 <= i < |items| :: Some(r.value[i]) == ParseRule(libs, items[i], operation)
    decreases items
  {
    hide ParseRule;
    if items != [] {
      RulesInOrder(libs, items[1..], operation);
      assert forall i | 1 <= i < |items| :: items[i] == items[1..][i - 1];
    }
  }

  /** The action "charge" needs a charge, which is then used; any other action has none. */
  lemma UnmatchedDocument(libs: Libraries, action: string, charge: Json, operation: Operation)
    ensures var r := ParseUnmatched(libs, JObject(map["action" := JString(action), "charge" := charge]), operation);
            if action == "charge" then
              (r.Some? <==> ReadCharge(libs, charge, operation).Some?) && (r.Some? ==> r.value == (action, ReadCharge(libs, charge, operation)))
            else r == Some((action, None))
  {
    hide ReadCharge;
  }

  /** snake_case: a lower-case letter, then lower-case letters, digits and underscores. */
  lemma IdentifierIs(s: string)
    ensures IsIdentifier(s) <==>
              && s != "" && 97 <= s[0] as int <= 122
              && forall c | c in s :: 97 <= c as int <= 122 || 48 <= c as int <= 57 || c as int == 95
  {
  }

  /** A section that is missing or null is empty; one that is no object refuses the document. */
  lemma SectionDocument(fields: Fields, key: string, section: Fields, j: Json)
    ensures key !in fields ==> Section(fields, key) == Some(map[])
    ensures Section(fields[key := JNull], key) == Some(map[])
    ensures Section(fields[key := JObject(section)], key) == Some(section)
    ensures !j.JNull? && !j.JObject? ==> Section(fields[key := j], key) == None
  {
  }

  /** A card with no prices of its own: its parent is the card it extends, if it extends one, and what
      it extends is named by a text. */
  lemma CardDocument(libs: Libraries, parent: string, other: Json, operations: map<string, Operation>)
    requires !other.JNull? && !other.JString?
    ensures ParseCard(libs, JObject(map["extends" := JString(parent)]), operations) == Some(Card(Some(parent), map[]))
    ensures ParseCard(libs, JObject(map[]), operations) == Some(Card(None, map[]))
    ensures ParseCard(libs, JObject(map["extends" := other]), operations) == None
  {
    var extending, plain := map["extends" := JString(parent)], map[];
    assert Section(extending, "operations") == Some(map[]) && Section(plain, "operations") == Some(map[]);
    hide ReadPrices;
  }
}
