/** Documents that are legal until their amounts are rounded to six places. */
module RoundedAway {
  import opened Decimals
  import opened DecimalText
  import opened Tiers
  import opened Charges
  import opened ChargeDocuments
  import opened MatcherDocuments

  // ----- Reading the texts -----

  lemma {:induction false} ZerosAreNothing(s: string)
    requires forall i | 0 <= i < |s| :: s[i] == '0'
    ensures AllDigits(s) && NatOf(s) == 0
  {
    if s != [] { ZerosAreNothing(s[..|s| - 1]); }
  }

  lemma LastDigit(s: string, c: char)
    requires AllDigits(s) && IsDigit(c)
    ensures AllDigits(s + [c]) && NatOf(s + [c]) == 10 * NatOf(s) + DigitValue(c)
  {
    var t := s + [c];
    assert AllDigits(t);
    assert t[..|t| - 1] == s && t[|t| - 1] == c;
  }

  lemma OneDigit(c: char)
    requires IsDigit(c)
    ensures ParseDecimal([c]) == Some(DigitValue(c) as real)
  {
    assert Unsigned([c]) == [c] && PointAt([c]) == 1 && [c][..1] == [c] && [c] + [] == [c];
    LastDigit("", c);
    assert [] + [c] == [c];
  }

  /** A digit, a point, six zeros and a digit. */
  function SevenPlaces(whole: char, last: char): string {
    [whole] + "." + ("000000" + [last])
  }

  lemma SevenPlacesRead(whole: char, last: char)
    requires IsDigit(whole) && IsDigit(last)
    ensures ParseDecimal(SevenPlaces(whole, last))
         == Some((10_000_000 * DigitValue(whole) + DigitValue(last)) as real / 10_000_000.0)
  {
    var s := SevenPlaces(whole, last);
    var fraction := "000000" + [last];
    Shape(whole, last);
    SevenDigits(whole, last);
    assert s[..1] == [whole] && s[2..] == fraction && |fraction| == 7;
    TenMillion();
    hide NatOf, Pow10, PointAt;
    assert IsStrictDecimal(s) && FractionOf(s) == fraction;
    assert DecimalValue(s) == NatOf([whole] + fraction) as real / Pow10(7) as real;
  }

  lemma Shape(whole: char, last: char)
    requires IsDigit(whole) && IsDigit(last)
    ensures var s := SevenPlaces(whole, last);
            Unsigned(s) == s && PointAt(s) == 1 && |s| == 9 && AllDigits([whole]) && AllDigits("000000" + [last])
  {
    var s := SevenPlaces(whole, last);
    assert s[0] == whole && s[1..][0] == '.' && PointAt(s[1..]) == 0;
  }

  lemma SevenDigits(whole: char, last: char)
    requires IsDigit(whole) && IsDigit(last)
    ensures AllDigits([whole] + ("000000" + [last]))
    ensures NatOf([whole] + ("000000" + [last])) == 10_000_000 * DigitValue(whole) + DigitValue(last)
  {
    ZerosAreNothing("000000");
    LastDigit("000000", last);
    LastDigit("", whole);
    assert "" + [whole] == [whole];
    assert AllDigits([whole]) && AllDigits("000000" + [last]);
    NatOfAppend([whole], "000000" + [last]);
    TenMillion();
    hide NatOf, Pow10;
  }

  lemma TenMillion()
    ensures Pow10(7) == 10_000_000
  {
    assert Pow10(3) == 1000 && Pow10(6) == 1_000_000;
  }

  /** Up to four ten-millionths are rounded away. */
  lemma RoundedDown(whole: nat, last: nat)
    requires last <= 4
    ensures QuantizeMoney((10_000_000 * whole + last) as real / 10_000_000.0) == whole as real
  {
    var v := (10_000_000 * whole + last) as real / 10_000_000.0;
    assert MONEY_SCALE == 1_000_000 by { TenMillion(); }
    hide Pow10;
    assert ScaleUp(v, MONEY_SCALE) == (1_000_000 * whole) as real + last as real / 10.0;
    HalfAwayUnique(ScaleUp(v, MONEY_SCALE), 1_000_000 * whole);
  }

  // ----- The documents -----

  const TINY := "0.0000001"
  const LOW := "1.0000001"
  const HIGH := "1.0000002"

  lemma TinyReads()
    ensures ReadAmount(JString(TINY)) == Success(0.0000001) && QuantizeMoney(0.0000001) == 0.0
  {
    assert TINY == SevenPlaces('0', '1');
    SevenPlacesRead('0', '1');
    RoundedDown(0, 1);
    hide ParseDecimal, QuantizeMoney, SevenPlaces;
  }

  lemma LowReads()
    ensures ReadAmount(JString(LOW)) == Success(1.0000001) && QuantizeMoney(1.0000001) == 1.0
  {
    assert LOW == SevenPlaces('1', '1');
    SevenPlacesRead('1', '1');
    RoundedDown(1, 1);
    hide ParseDecimal, QuantizeMoney, SevenPlaces;
  }

  lemma HighReads()
    ensures ReadAmount(JString(HIGH)) == Success(1.0000002) && QuantizeMoney(1.0000002) == 1.0
  {
    assert HIGH == SevenPlaces('1', '2');
    SevenPlacesRead('1', '2');
    RoundedDown(1, 2);
    hide ParseDecimal, QuantizeMoney, SevenPlaces;
  }

  lemma TextsRead()
    ensures ReadAmount(JString(TINY)) == Success(0.0000001) && QuantizeMoney(0.0000001) == 0.0
    ensures ReadAmount(JString(LOW)) == Success(1.0000001) && QuantizeMoney(1.0000001) == 1.0
    ensures ReadAmount(JString(HIGH)) == Success(1.0000002) && QuantizeMoney(1.0000002) == 1.0
    ensures ReadAmount(JString("1")) == Success(1.0)
  {
    TinyReads();
    LowReads();
    HighReads();
    OneDigit('1');
    hide ParseDecimal, QuantizeMoney;
  }

  /** A price per ten-millionth of a unit. */
  function TinySize(): Json {
    JObject(map["type" := JString("per_unit"), "measure" := JString("tokens"), "rate" := JString("1"),
                "unit_size" := JString(TINY)])
  }

  /** The size becomes zero in the canonical form, which is refused. */
  lemma TinySizeIsLost()
    ensures ParseCharge(TinySize(), 0).Success?
    ensures ParseCharge(CanonicalCharge(ParseCharge(TinySize(), 0).value), 0).Failure?
  {
    TextsRead();
    hide ReadAmount, QuantizeMoney;
    var c := ParsePerUnit(TinySize().fields);
    assert ParseCharge(TinySize(), 0) == c;
    assert c.Success? && c.value.kind.PerUnit? && c.value.unitSize == 0.0000001;
    CanonicalRoundTrip(TinySize());
  }

  function CloseTier(upTo: string): Json {
    JObject(map["up_to" := JString(upTo), "rate" := JString("1")])
  }

  /** Two bounds a ten-millionth apart, and an open tier. */
  function CloseTiers(): Json {
    JObject(map["type" := JString("graduated"), "measure" := JString("tokens"),
                "tiers" := JArray([CloseTier(LOW), CloseTier(HIGH), JObject(map["rate" := JString("1")])])])
  }

  lemma ParseTierListStep(items: seq<Json>, item: Json, tier: Tier, tiers: seq<Tier>)
    requires ParseTier(item) == Success(tier) && ParseTierList(items) == Success(tiers)
    ensures ParseTierList([item] + items) == Success([tier] + tiers)
  {
    assert ([item] + items)[1..] == items;
  }

  lemma CloseTiersParse()
    ensures var tiers := [Tier(Some(1.0000001), 1.0), Tier(Some(1.0000002), 1.0), Tier(None, 1.0)];
            && ParseTiers(Get(CloseTiers().fields, "tiers")) == Success(tiers)
            && !WellFormed(QuantizeTiers(tiers))
  {
    TextsRead();
    hide ReadAmount, QuantizeMoney;
    var tiers := [Tier(Some(1.0000001), 1.0), Tier(Some(1.0000002), 1.0), Tier(None, 1.0)];
    var items := Get(CloseTiers().fields, "tiers").items;
    assert ParseTier(items[0]) == Success(tiers[0]);
    assert ParseTier(items[1]) == Success(tiers[1]);
    assert ParseTier(items[2]) == Success(tiers[2]);
    assert ParseTierList([]) == Success([]);
    hide ParseTier, ParseTierList;
    assert [items[2]] + [] == [items[2]] && [items[1]] + [items[2]] == [items[1], items[2]];
    assert [items[0]] + [items[1], items[2]] == items;
    assert [tiers[2]] + [] == [tiers[2]] && [tiers[1]] + [tiers[2]] == [tiers[1], tiers[2]];
    assert [tiers[0]] + [tiers[1], tiers[2]] == tiers;
    ParseTierListStep([], items[2], tiers[2], []);
    ParseTierListStep([items[2]], items[1], tiers[1], [tiers[2]]);
    ParseTierListStep([items[1], items[2]], items[0], tiers[0], [tiers[1], tiers[2]]);
    assert tiers[1..][1..] == [tiers[2]];
    assert Increasing(tiers[1..], Some(1.0000001)) && Increasing(tiers, None);
    var rounded := QuantizeTiers(tiers);
    assert rounded[0].upTo == Some(1.0) && rounded[1].upTo == Some(1.0);
    assert !Increasing(rounded[1..], rounded[0].upTo);
  }

  /** The bounds become equal in the canonical form, which is refused. */
  lemma CloseTiersAreLost()
    ensures ParseCharge(CloseTiers(), 0).Success?
    ensures ParseCharge(CanonicalCharge(ParseCharge(CloseTiers(), 0).value), 0).Failure?
  {
    CloseTiersParse();
    hide ParseTiers, WellFormed, QuantizeTiers;
    var c := ParseTiered(CloseTiers().fields, GraduatedTiers);
    assert ParseCharge(CloseTiers(), 0) == c;
    CanonicalRoundTrip(CloseTiers());
  }

  /** A range between two bounds a ten-millionth apart. */
  function CloseRange(): Json {
    JObject(map["op" := JString("range"), "gt" := JString(LOW), "lt" := JString(HIGH)])
  }

  /** The range becomes empty in the canonical form, which is refused. */
  lemma CloseRangeIsLost(lib: ConfigLibrary)
    requires ReadsStrict(lib)
    ensures ParseMatcher(lib, CloseRange(), NumberDimension).Success?
    ensures ParseMatcher(lib, CanonicalMatcher(ParseMatcher(lib, CloseRange(), NumberDimension).value), NumberDimension).Failure?
  {
    TextsRead();
    hide ReadAmount, QuantizeMoney, ReadsStrict;
    var fields := CloseRange().fields;
    assert ParseBound(fields, "gt") == Success(Some(1.0000001)) && ParseBound(fields, "lt") == Success(Some(1.0000002));
    assert ParseBound(fields, "gte") == Success(None) && ParseBound(fields, "lte") == Success(None);
    assert ParseMatcher(lib, CloseRange(), NumberDimension) == ParseRange(fields);
    MatcherRoundTrip(lib, CloseRange(), NumberDimension);
  }
}
