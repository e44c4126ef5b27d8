/** Dimension matchers and time windows as configuration documents, and what a matcher accepts. */
module MatcherDocuments {
  import opened Decimals
  import opened DecimalText
  import opened ChargeDocuments

  /** What the decimal and time libraries decide: numerals read leniently (exponents included),
      JSON numerals read as integers, and the zone names that exist. */
  datatype ConfigLibrary = ConfigLibrary(
    number: string -> Option<Amount>,
    integer: string -> Option<int>,
    zone: string -> bool)

  /** On strict decimals the lenient reader agrees with the strict one. */
  ghost predicate ReadsStrict(lib: ConfigLibrary) {
    forall s: string :: IsStrictDecimal(s) ==> lib.number(s) == ParseDecimal(s)
  }

  // ----- Matchers -----

  datatype Scalar = Text(text: string) | Flag(flag: bool) | Quantity(amount: Amount)

  datatype DimensionType = StringDimension | NumberDimension | BooleanDimension | OtherDimension(name: string)

  datatype Operator = EqualTo | OneOf | NoneOf | Prefix | Range | OtherOperator(name: string)

  datatype Matcher = Matcher(
    op: Operator,
    value: Option<Scalar>,
    values: seq<Scalar>,
    gt: Option<Amount>,
    gte: Option<Amount>,
    lt: Option<Amount>,
    lte: Option<Amount>)

  function BlankMatcher(op: Operator): Matcher {
    Matcher(op, None, [], None, None, None, None)
  }

  function OperatorOf(name: string): Operator {
    if name == "eq" then EqualTo
    else if name == "in" then OneOf
    else if name == "not_in" then NoneOf
    else if name == "prefix" then Prefix
    else if name == "range" then Range
    else OtherOperator(name)
  }

  function OperatorName(op: Operator): string {
    match op
    case EqualTo => "eq" case OneOf => "in" case NoneOf => "not_in" case Prefix => "prefix"
    case Range => "range" case OtherOperator(name) => name
  }

  predicate IsPrefix(prefix: string, s: string) {
    |prefix| <= |s| && s[..|prefix|] == prefix
  }

  /** Whether a dimension value passes a matcher. */
  predicate Matches(m: Matcher, v: Scalar) {
    match m.op
    case EqualTo => m.value == Some(v)
    case OneOf => v in m.values
    case NoneOf => v !in m.values
    case Prefix => v.Text? && m.value.Some? && m.value.value.Text? && IsPrefix(m.value.value.text, v.text)
    case Range =>
      && v.Quantity?
      && (m.gt.Some? ==> v.amount > m.gt.value)
      && (m.gte.Some? ==> v.amount >= m.gte.value)
      && (m.lt.Some? ==> v.amount < m.lt.value)
      && (m.lte.Some? ==> v.amount <= m.lte.value)
    case OtherOperator(_) => false
  }

  function ParseScalar(lib: ConfigLibrary, j: Json, dimension: DimensionType): Config<Scalar> {
    match dimension
    case BooleanDimension => if j.JBool? then Success(Flag(j.flag)) else Failure(NotABoolean)
    case StringDimension => if j.JString? then Success(Text(j.text)) else Failure(NotAString)
    case NumberDimension =>
      if j.JInt? then Success(Quantity(j.number as real))
      else
        var v := if j.JString? then lib.number(j.text) else if j.JNumber? then lib.number(j.numeral) else None;
        if v.None? then Failure(BadDecimal) else Success(Quantity(v.value))
    case OtherDimension(_) => Failure(WrongDimension)
  }

  function ParseScalars(lib: ConfigLibrary, items: seq<Json>, dimension: DimensionType): (r: Config<seq<Scalar>>)
    ensures r.Success? ==> |r.value| == |items|
  {
    if items == [] then Success([])
    else
      var v := ParseScalar(lib, items[0], dimension);
      if v.Failure? then Failure(v.error)
      else
        var rest := ParseScalars(lib, items[1..], dimension);
        if rest.Failure? then rest else Success([v.value] + rest.value)
  }

  function ParseBound(fields: map<string, Json>, key: string): Config<Option<Amount>> {
    if Get(fields, key).JNull? then Success(None)
    else
      var v := ReadAmount(Get(fields, key));
      if v.Failure? then Failure(v.error) else Success(Some(v.value))
  }

  function First(a: Option<Amount>, b: Option<Amount>): Option<Amount> {
    if a.Some? then a else b
  }

  /** The consistency checks of a range, in the order they are made. */
  function RangeFault(m: Matcher): Option<ConfigError> {
    var lower := First(m.gt, m.gte);
    var upper := First(m.lt, m.lte);
    if lower.None? && upper.None? then Some(NoBound)
    else if m.gt.Some? && m.gte.Some? then Some(TwoLowerBounds)
    else if m.lt.Some? && m.lte.Some? then Some(TwoUpperBounds)
    else if lower.Some? && upper.Some? && lower.value >= upper.value then Some(EmptyRange)
    else None
  }

  function ParseRange(fields: map<string, Json>): (r: Config<Matcher>)
    ensures r.Success? ==> RangeShape(r.value)
  {
    var gt, gte, lt, lte := ParseBound(fields, "gt"), ParseBound(fields, "gte"), ParseBound(fields, "lt"), ParseBound(fields, "lte");
    if gt.Failure? || gte.Failure? || lt.Failure? || lte.Failure? then Failure(BadDecimal)
    else
      var m := Matcher(Range, None, [], gt.value, gte.value, lt.value, lte.value);
      var fault := RangeFault(m);
      if fault.Some? then Failure(fault.value) else Success(m)
  }

  predicate RangeShape(m: Matcher) {
    m.op.Range? && m.value.None? && m.values == [] && RangeFault(m).None?
  }

  function ParseMatcher(lib: ConfigLibrary, j: Json, dimension: DimensionType): (r: Config<Matcher>)
    ensures r.Success? ==> MatcherShape(r.value, dimension)
  {
    if !j.JObject? then Failure(NotAnObject)
    else
      var op := ReadString(Get(j.fields, "op"));
      if op.Failure? then Failure(op.error)
      else
        match OperatorOf(op.value)
        case EqualTo =>
          var v := ParseScalar(lib, Get(j.fields, "value"), dimension);
          if v.Failure? then Failure(v.error) else Success(BlankMatcher(EqualTo).(value := Some(v.value)))
        case OneOf => ParseMembers(lib, j.fields, OneOf, dimension)
        case NoneOf => ParseMembers(lib, j.fields, NoneOf, dimension)
        case Prefix =>
          if !dimension.StringDimension? then Failure(WrongDimension)
          else
            var v := ReadString(Get(j.fields, "value"));
            if v.Failure? then Failure(v.error) else Success(BlankMatcher(Prefix).(value := Some(Text(v.value))))
        case Range => if !dimension.NumberDimension? then Failure(WrongDimension) else ParseRange(j.fields)
        case OtherOperator(_) => Failure(UnknownOperator)
  }

  function ParseMembers(lib: ConfigLibrary, fields: map<string, Json>, op: Operator, dimension: DimensionType): (r: Config<Matcher>)
    requires op.OneOf? || op.NoneOf?
    ensures r.Success? ==> r.value.op == op && MatcherShape(r.value, dimension)
  {
    if !Get(fields, "values").JArray? then Failure(NotAnArray)
    else
      var vs := ParseScalars(lib, Get(fields, "values").items, dimension);
      if vs.Failure? then Failure(vs.error)
      else
        assert forall v | v in vs.value :: ScalarFits(v, dimension) by {
          ScalarsFit(lib, Get(fields, "values").items, dimension);
        }
        Success(BlankMatcher(op).(values := vs.value))
  }

  predicate ScalarFits(v: Scalar, dimension: DimensionType) {
    match dimension
    case StringDimension => v.Text?
    case NumberDimension => v.Quantity?
    case BooleanDimension => v.Flag?
    case OtherDimension(_) => false
  }

  lemma {:induction false} ScalarsFit(lib: ConfigLibrary, items: seq<Json>, dimension: DimensionType)
    requires ParseScalars(lib, items, dimension).Success?
    ensures forall v | v in ParseScalars(lib, items, dimension).value :: ScalarFits(v, dimension)
  {
    if items != [] { ScalarsFit(lib, items[1..], dimension); }
  }

  /** The shape of a matcher that came out of parsing for a dimension. */
  predicate MatcherShape(m: Matcher, dimension: DimensionType) {
    match m.op
    case EqualTo => m.value.Some? && ScalarFits(m.value.value, dimension) && m == BlankMatcher(EqualTo).(value := m.value)
    case Prefix =>
      && dimension.StringDimension? && m.value.Some? && m.value.value.Text?
      && m == BlankMatcher(Prefix).(value := m.value)
    case OneOf => (forall v | v in m.values :: ScalarFits(v, dimension)) && m == BlankMatcher(OneOf).(values := m.values)
    case NoneOf => (forall v | v in m.values :: ScalarFits(v, dimension)) && m == BlankMatcher(NoneOf).(values := m.values)
    case Range => dimension.NumberDimension? && RangeShape(m)
    case OtherOperator(_) => false
  }

  function CanonicalScalar(v: Scalar): Json {
    match v
    case Text(t) => JString(t)
    case Flag(b) => JBool(b)
    case Quantity(a) => AmountJson(a)
  }

  function CanonicalScalars(vs: seq<Scalar>): (r: seq<Json>)
    ensures |r| == |vs|
  {
    if vs == [] then [] else [CanonicalScalar(vs[0])] + CanonicalScalars(vs[1..])
  }

  function WithBound(fields: map<string, Json>, key: string, bound: Option<Amount>): map<string, Json> {
    if bound.None? then fields else fields[key := AmountJson(bound.value)]
  }

  function CanonicalMatcher(m: Matcher): Json {
    var op := JString(OperatorName(m.op));
    JObject(
      match m.op
      case EqualTo => map["op" := op, "value" := if m.value.Some? then CanonicalScalar(m.value.value) else JNull]
      case Prefix => map["op" := op, "value" := if m.value.Some? then CanonicalScalar(m.value.value) else JNull]
      case OneOf => map["op" := op, "values" := JArray(CanonicalScalars(m.values))]
      case NoneOf => map["op" := op, "values" := JArray(CanonicalScalars(m.values))]
      case Range =>
        WithBound(WithBound(WithBound(WithBound(map["op" := op], "gt", m.gt), "gte", m.gte), "lt", m.lt), "lte", m.lte)
      case OtherOperator(_) => map["op" := op])
  }

  function QuantizeScalar(v: Scalar): Scalar {
    if v.Quantity? then Quantity(QuantizeMoney(v.amount)) else v
  }

  function QuantizeScalars(vs: seq<Scalar>): (r: seq<Scalar>)
    ensures |r| == |vs| && forall i | 0 <= i < |vs| :: r[i] == QuantizeScalar(vs[i])
  {
    if vs == [] then [] else [QuantizeScalar(vs[0])] + QuantizeScalars(vs[1..])
  }

  function QuantizeBound(b: Option<Amount>): Option<Amount> {
    if b.None? then None else Some(QuantizeMoney(b.value))
  }

  function QuantizeMatcher(m: Matcher): Matcher {
    m.(value := if m.value.None? then None else Some(QuantizeScalar(m.value.value)),
       values := QuantizeScalars(m.values),
       gt := QuantizeBound(m.gt), gte := QuantizeBound(m.gte), lt := QuantizeBound(m.lt), lte := QuantizeBound(m.lte))
  }

  lemma ScalarReadsBack(lib: ConfigLibrary, v: Scalar, dimension: DimensionType)
    requires ReadsStrict(lib) && ScalarFits(v, dimension)
    ensures ParseScalar(lib, CanonicalScalar(v), dimension) == Success(QuantizeScalar(v))
  {
    hide QuantizeMoney, AmountText, DecimalValue;
    if v.Quantity? {
      AmountTextReadsBack(v.amount);
      assert lib.number(AmountText(v.amount)) == ParseDecimal(AmountText(v.amount));
    }
  }

  lemma {:induction false} ScalarsReadBack(lib: ConfigLibrary, vs: seq<Scalar>, dimension: DimensionType)
    requires ReadsStrict(lib) && forall v | v in vs :: ScalarFits(v, dimension)
    ensures ParseScalars(lib, CanonicalScalars(vs), dimension) == Success(QuantizeScalars(vs))
  {
    if vs != [] {
      hide CanonicalScalar, QuantizeScalar, ParseScalar, ReadsStrict;
      ScalarReadsBack(lib, vs[0], dimension);
      ScalarsReadBack(lib, vs[1..], dimension);
    }
  }

  lemma RangeReadsBack(m: Matcher)
    requires RangeShape(m)
    ensures var r := ParseRange(CanonicalMatcher(m).fields);
            && (r.Success? <==> RangeFault(QuantizeMatcher(m)).None?)
            && (r.Success? ==> r.value == QuantizeMatcher(m))
  {
    hide QuantizeMoney, AmountJson, ReadAmount;
    var fields := CanonicalMatcher(m).fields;
    BoundReadsBack(fields, "gt", m.gt);
    BoundReadsBack(fields, "gte", m.gte);
    BoundReadsBack(fields, "lt", m.lt);
    BoundReadsBack(fields, "lte", m.lte);
  }

  lemma BoundReadsBack(fields: map<string, Json>, key: string, bound: Option<Amount>)
    requires Get(fields, key) == if bound.None? then JNull else AmountJson(bound.value)
    ensures ParseBound(fields, key) == Success(QuantizeBound(bound))
  {
    if bound.Some? { AmountReadsBack(bound.value); }
  }

  /** Re-parsing the canonical form of a parsed matcher succeeds exactly when rounding to six places
      leaves its range non-empty, and then returns the matcher with its amounts so rounded. */
  lemma MatcherRoundTrip(lib: ConfigLibrary, j: Json, dimension: DimensionType)
    requires ReadsStrict(lib) && ParseMatcher(lib, j, dimension).Success?
    ensures var m := ParseMatcher(lib, j, dimension).value;
            var r := ParseMatcher(lib, CanonicalMatcher(m), dimension);
            && (r.Success? <==> (m.op.Range? ==> RangeFault(QuantizeMatcher(m)).None?))
            && (r.Success? ==> r.value == QuantizeMatcher(m))
  {
    MatcherReadsBack(lib, ParseMatcher(lib, j, dimension).value, dimension);
  }

  lemma MatcherReadsBack(lib: ConfigLibrary, m: Matcher, dimension: DimensionType)
    requires ReadsStrict(lib) && MatcherShape(m, dimension)
    ensures var r := ParseMatcher(lib, CanonicalMatcher(m), dimension);
            && (r.Success? <==> (m.op.Range? ==> RangeFault(QuantizeMatcher(m)).None?))
            && (r.Success? ==> r.value == QuantizeMatcher(m))
  {
    hide ReadsStrict, ParseScalar, CanonicalScalar, QuantizeScalar, ParseRange, RangeFault;
    match m.op {
      case EqualTo => ScalarReadsBack(lib, m.value.value, dimension);
      case OneOf => ScalarsReadBack(lib, m.values, dimension);
      case NoneOf => ScalarsReadBack(lib, m.values, dimension);
      case Prefix => TextUnchanged(m.value.value);
      case Range => RangeReadsBack(m);
    }
  }

  lemma TextUnchanged(v: Scalar)
    requires v.Text?
    ensures CanonicalScalar(v) == JString(v.text) && QuantizeScalar(v) == v
  {
  }

  ghost predicate SixPlaceMatcher(m: Matcher) {
    && (m.value.Some? ==> SixPlaceScalar(m.value.value))
    && (forall v | v in m.values :: SixPlaceScalar(v))
    && SixPlaceBound(m.gt) && SixPlaceBound(m.gte) && SixPlaceBound(m.lt) && SixPlaceBound(m.lte)
  }

  ghost predicate SixPlaceScalar(v: Scalar) {
    v.Quantity? ==> IsScaled(v.amount, MONEY_SCALE)
  }

  ghost predicate SixPlaceBound(b: Option<Amount>) {
    b.Some? ==> IsScaled(b.value, MONEY_SCALE)
  }

  lemma BoundUnchanged(b: Option<Amount>)
    requires SixPlaceBound(b)
    ensures QuantizeBound(b) == b
  {
    if b.Some? { RoundScaledExact(b.value, MONEY_SCALE); }
  }

  lemma ScalarUnchanged(v: Scalar)
    requires SixPlaceScalar(v)
    ensures QuantizeScalar(v) == v
  {
    if v.Quantity? { RoundScaledExact(v.amount, MONEY_SCALE); }
  }

  /** A matcher whose amounts have at most six places comes back unchanged, so it accepts the same values. */
  lemma SixPlaceMatcherRoundTrip(lib: ConfigLibrary, j: Json, dimension: DimensionType)
    requires ReadsStrict(lib) && ParseMatcher(lib, j, dimension).Success?
    requires SixPlaceMatcher(ParseMatcher(lib, j, dimension).value)
    ensures ParseMatcher(lib, CanonicalMatcher(ParseMatcher(lib, j, dimension).value), dimension)
         == ParseMatcher(lib, j, dimension)
  {
    hide IsScaled, QuantizeMoney, ParseScalar, ParseRange;
    var m := ParseMatcher(lib, j, dimension).value;
    if m.value.Some? { ScalarUnchanged(m.value.value); }
    forall i | 0 <= i < |m.values| ensures QuantizeScalar(m.values[i]) == m.values[i] {
      ScalarUnchanged(m.values[i]);
    }
    assert QuantizeScalars(m.values) == m.values;
    BoundUnchanged(m.gt); BoundUnchanged(m.gte); BoundUnchanged(m.lt); BoundUnchanged(m.lte);
    assert QuantizeMatcher(m) == m;
    MatcherRoundTrip(lib, j, dimension);
  }

  // ----- Windows -----

  datatype Span = Span(unit: string, count: int)

  datatype Window =
    | Rolling(duration: Span)
    | PlanAssignment(interval: Span, timezone: string)
    | Calendar(unit: string, count: int, timezone: string)

  const SAFE_INTEGER_MAX: int := 0x1F_FFFF_FFFF_FFFF

  function ReadInteger(lib: ConfigLibrary, j: Json): (r: Config<int>)
    ensures r.Success? ==> -SAFE_INTEGER_MAX <= r.value <= SAFE_INTEGER_MAX
  {
    var n := if j.JInt? then Some(j.number) else if j.JNumber? then lib.integer(j.numeral) else None;
    if n.None? then Failure(NotAnInteger)
    else if n.value > SAFE_INTEGER_MAX || n.value < -SAFE_INTEGER_MAX then Failure(OutsideSafeRange)
    else Success(n.value)
  }

  function ParseDuration(lib: ConfigLibrary, j: Json): Config<Span> {
    if !j.JObject? then Failure(NotAnObject)
    else
      var unit := ReadString(Get(j.fields, "unit"));
      if unit.Failure? then Failure(unit.error)
      else
        var count := ReadInteger(lib, Get(j.fields, "count"));
        if count.Failure? then Failure(count.error) else Success(Span(unit.value, count.value))
  }

  /** As a duration, with the count defaulting to one. */
  function ParseInterval(lib: ConfigLibrary, j: Json): Config<Span> {
    if j.JObject? && Get(j.fields, "count").JNull? then ParseDuration(lib, JObject(j.fields["count" := JInt(1)]))
    else ParseDuration(lib, j)
  }

  /** A missing zone is UTC, which always loads. */
  function ParseTimezone(lib: ConfigLibrary, j: Json): Config<string> {
    if j.JNull? then Success("UTC")
    else if !j.JString? || j.text == "" || j.text == "Local" || !lib.zone(j.text) then Failure(BadTimezone)
    else Success(j.text)
  }

  function ParseWindow(lib: ConfigLibrary, j: Json): Config<Window> {
    if !j.JObject? then Failure(NotAnObject)
    else
      var kind := ReadString(Get(j.fields, "type"));
      if kind.Failure? then Failure(kind.error)
      else if kind.value == "rolling" then
        var d := ParseDuration(lib, Get(j.fields, "duration"));
        if d.Failure? then Failure(d.error) else Success(Rolling(d.value))
      else if kind.value == "plan_assignment" then
        var i := ParseInterval(lib, Get(j.fields, "interval"));
        if i.Failure? then Failure(i.error)
        else
          var zone := ParseTimezone(lib, Get(j.fields, "timezone"));
          if zone.Failure? then Failure(zone.error) else Success(PlanAssignment(i.value, zone.value))
      else if kind.value == "calendar" then
        var unit := ReadString(Get(j.fields, "unit"));
        if unit.Failure? then Failure(unit.error)
        else
          var count := if Get(j.fields, "count").JNull? then Success(1) else ReadInteger(lib, Get(j.fields, "count"));
          if count.Failure? then Failure(count.error)
          else
            var zone := ParseTimezone(lib, Get(j.fields, "timezone"));
            if zone.Failure? then Failure(zone.error) else Success(Calendar(unit.value, count.value, zone.value))
      else Failure(UnknownWindow)
  }

  function CanonicalSpan(s: Span): Json {
    JObject(map["unit" := JString(s.unit), "count" := JInt(s.count)])
  }

  function CanonicalWindow(w: Window): Json {
    JObject(
      match w
      case Rolling(d) => map["type" := JString("rolling"), "duration" := CanonicalSpan(d)]
      case PlanAssignment(i, zone) =>
        map["type" := JString("plan_assignment"), "timezone" := JString(zone), "interval" := CanonicalSpan(i)]
      case Calendar(unit, count, zone) =>
        map["type" := JString("calendar"), "unit" := JString(unit), "count" := JInt(count), "timezone" := JString(zone)])
  }

  lemma ParsedZone(lib: ConfigLibrary, j: Json)
    requires lib.zone("UTC") && ParseTimezone(lib, j).Success?
    ensures ParseTimezone(lib, JString(ParseTimezone(lib, j).value)) == ParseTimezone(lib, j)
  {
  }

  /** Every parsed window is recovered from its canonical form, defaults written out. */
  lemma WindowRoundTrip(lib: ConfigLibrary, j: Json)
    requires lib.zone("UTC") && ParseWindow(lib, j).Success?
    ensures ParseWindow(lib, CanonicalWindow(ParseWindow(lib, j).value)) == ParseWindow(lib, j)
  {
    var w := ParseWindow(lib, j).value;
    if w.Rolling? { SpanReadsBack(lib, w.duration); }
    if w.PlanAssignment? {
      SpanReadsBack(lib, w.interval);
      ParsedZone(lib, Get(j.fields, "timezone"));
    }
    if w.Calendar? { ParsedZone(lib, Get(j.fields, "timezone")); }
  }

  lemma SpanReadsBack(lib: ConfigLibrary, s: Span)
    requires -SAFE_INTEGER_MAX <= s.count <= SAFE_INTEGER_MAX
    ensures ParseDuration(lib, CanonicalSpan(s)) == Success(s)
    ensures ParseInterval(lib, CanonicalSpan(s)) == Success(s)
  {
  }

  // ----- What the matchers of a document accept -----

  /** "eq" accepts one value. */
  lemma EqualAccepts(lib: ConfigLibrary, value: Json, dimension: DimensionType, v: Scalar)
    ensures var m := ParseMatcher(lib, JObject(map["op" := JString("eq"), "value" := value]), dimension);
            m.Success? ==> (Matches(m.value, v) <==> ParseScalar(lib, value, dimension) == Success(v))
  {
    hide ParseScalar;
  }

  lemma {:induction false} ScalarsAre(lib: ConfigLibrary, items: seq<Json>, dimension: DimensionType, v: Scalar)
    requires ParseScalars(lib, items, dimension).Success?
    ensures v in ParseScalars(lib, items, dimension).value <==> exists i :: 0 <= i < |items| && ParseScalar(lib, items[i], dimension) == Success(v)
    decreases items
  {
    hide ParseScalar;
    if items != [] {
      ScalarsAre(lib, items[1..], dimension, v);
      assert forall i | 1 <= i < |items| :: items[i] == items[1..][i - 1];
      if i :| 0 <= i < |items[1..]| && ParseScalar(lib, items[1..][i], dimension) == Success(v) {
        assert ParseScalar(lib, items[i + 1], dimension) == Success(v);
      }
    }
  }

  /** "in" accepts the listed values and "not_in" all others. */
  lemma ListedAccepts(lib: ConfigLibrary, op: string, items: seq<Json>, dimension: DimensionType, v: Scalar)
    requires op == "in" || op == "not_in"
    ensures var m := ParseMatcher(lib, JObject(map["op" := JString(op), "values" := JArray(items)]), dimension);
            m.Success? ==>
              (Matches(m.value, v) <==>
                 (op == "in" <==> exists i :: 0 <= i < |items| && ParseScalar(lib, items[i], dimension) == Success(v)))
  {
    hide ParseScalar, ParseScalars;
    var fields := map["op" := JString(op), "values" := JArray(items)];
    if ParseScalars(lib, items, dimension).Success? { ScalarsAre(lib, items, dimension, v); }
    assert Get(fields, "values") == JArray(items);
  }

  /** "prefix" accepts the texts that start with its value. */
  lemma PrefixAccepts(lib: ConfigLibrary, prefix: string, v: Scalar)
    ensures var m := ParseMatcher(lib, JObject(map["op" := JString("prefix"), "value" := JString(prefix)]), StringDimension);
            m.Success? && (Matches(m.value, v) <==> exists rest: string :: v == Text(prefix + rest))
  {
    if v.Text? && IsPrefix(prefix, v.text) { assert v.text == prefix + v.text[|prefix|..]; }
  }

  /** A missing bound does not bind. */
  predicate Bounded(j: Json, holds: Amount -> bool) {
    j.JNull? || (ReadAmount(j).Success? && holds(ReadAmount(j).value))
  }

  /** "range" accepts the amounts within its bounds. */
  lemma RangeAccepts(lib: ConfigLibrary, fields: map<string, Json>, x: Amount)
    requires Get(fields, "op") == JString("range") && ParseMatcher(lib, JObject(fields), NumberDimension).Success?
    ensures Matches(ParseMatcher(lib, JObject(fields), NumberDimension).value, Quantity(x)) <==>
              && Bounded(Get(fields, "gt"), bound => bound < x)
              && Bounded(Get(fields, "gte"), bound => bound <= x)
              && Bounded(Get(fields, "lt"), bound => x < bound)
              && Bounded(Get(fields, "lte"), bound => x <= bound)
  {
    hide ReadAmount;
    assert ParseMatcher(lib, JObject(fields), NumberDimension) == ParseRange(fields);
    hide RangeFault, RangeShape;
  }

  /** Calendar windows are one unit long and in UTC unless they say otherwise; intervals count one. */
  lemma WindowDocuments(lib: ConfigLibrary, unit: string, count: int, zone: string)
    requires -9_007_199_254_740_991 <= count <= 9_007_199_254_740_991
    requires lib.zone(zone) && zone != "" && zone != "Local"
    ensures ParseWindow(lib, JObject(map["type" := JString("calendar"), "unit" := JString(unit)])) == Success(Calendar(unit, 1, "UTC"))
    ensures ParseWindow(lib, JObject(map["type" := JString("calendar"), "unit" := JString(unit), "count" := JInt(count),
                                         "timezone" := JString(zone)]))
         == Success(Calendar(unit, count, zone))
    ensures ParseInterval(lib, JObject(map["unit" := JString(unit)])) == Success(Span(unit, 1))
    ensures ParseDuration(lib, JObject(map["unit" := JString(unit), "count" := JInt(count)])) == Success(Span(unit, count))
  {
  }

  /** Whole numbers beyond 53 bits are not read. */
  lemma LargeCounts(lib: ConfigLibrary, n: int)
    ensures ReadInteger(lib, JInt(n)).Success? <==> -9_007_199_254_740_991 <= n <= 9_007_199_254_740_991
  {
  }

  /** A bound is missing or can be read. */
  predicate Readable(j: Json) {
    j.JNull? || ReadAmount(j).Success?
  }

  /** A range is read exactly if its bounds can be read, there are one or two of them, not two on one
      side, and the lower one is below the upper one. */
  lemma RangeReadIff(fields: map<string, Json>)
    ensures var gt, gte, lt, lte := Get(fields, "gt"), Get(fields, "gte"), Get(fields, "lt"), Get(fields, "lte");
            ParseRange(fields).Success? <==>
              && Readable(gt) && Readable(gte) && Readable(lt) && Readable(lte)
              && (gt.JNull? || gte.JNull?) && (lt.JNull? || lte.JNull?)
              && !(gt.JNull? && gte.JNull? && lt.JNull? && lte.JNull?)
              && ((!gt.JNull? || !gte.JNull?) && (!lt.JNull? || !lte.JNull?) ==>
                    ReadAmount(if gt.JNull? then gte else gt).value < ReadAmount(if lt.JNull? then lte else lt).value)
  {
    hide ReadAmount;
  }

  /** Which values of a document are of a dimension's type: texts for strings, truth values for
      booleans, whole numbers and decimal texts the library reads for numbers. */
  lemma ScalarDocuments(lib: ConfigLibrary, text: string, flag: bool, n: int)
    ensures ParseScalar(lib, JString(text), StringDimension) == Success(Text(text))
    ensures ParseScalar(lib, JBool(flag), BooleanDimension) == Success(Flag(flag))
    ensures ParseScalar(lib, JInt(n), NumberDimension) == Success(Quantity(n as real))
    ensures lib.number(text).Some? ==> ParseScalar(lib, JString(text), NumberDimension) == Success(Quantity(lib.number(text).value))
    ensures lib.number(text).None? ==> ParseScalar(lib, JString(text), NumberDimension).Failure?
    ensures ParseScalar(lib, JBool(flag), StringDimension).Failure? && ParseScalar(lib, JBool(flag), NumberDimension).Failure?
    ensures ParseScalar(lib, JString(text), BooleanDimension).Failure? && ParseScalar(lib, JInt(n), BooleanDimension).Failure?
    ensures ParseScalar(lib, JInt(n), StringDimension).Failure?
  {
  }
}
