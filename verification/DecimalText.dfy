/** Decimal strings: the strict configuration grammar, their values, and the six-place text. */
module DecimalText {
  import opened Decimals

  predicate IsDigit(c: char) {
    '0' <= c <= '9'
  }

  predicate AllDigits(s: string) {
    forall c | c in s :: IsDigit(c)
  }

  function DigitValue(c: char): (d: nat)
    requires IsDigit(c)
    ensures d <= 9
  {
    (c as int) - ('0' as int)
  }

  function DigitChar(d: nat): (c: char)
    requires d <= 9
    ensures IsDigit(c) && DigitValue(c) == d
  {
    ('0' as int + d) as char
  }

  /** The number a run of digits denotes. */
  function NatOf(s: string): nat
    requires AllDigits(s)
  {
    if s == [] then 0
    else
      assert s[|s| - 1] in s;
      10 * NatOf(s[..|s| - 1]) + DigitValue(s[|s| - 1])
  }

  // ----- Reading -----

  function Unsigned(s: string): string {
    if s != [] && s[0] == '-' then s[1..] else s
  }

  /** Position of the first point, or the length when there is none. */
  function PointAt(s: string): (n: nat)
    ensures n <= |s|
    ensures forall i | 0 <= i < n :: s[i] != '.'
    ensures n < |s| ==> s[n] == '.'
  {
    if s == [] || s[0] == '.' then 0 else 1 + PointAt(s[1..])
  }

  /** An optional minus, an integer without superfluous zeros, an optional non-empty fraction. */
  predicate IsStrictDecimal(s: string) {
    var u := Unsigned(s);
    var p := PointAt(u);
    && p > 0 && AllDigits(u[..p])
    && (u[0] == '0' ==> p == 1)
    && (p < |u| ==> p + 1 < |u| && AllDigits(u[p + 1..]))
  }

  function FractionOf(u: string): string {
    var p := PointAt(u);
    if p < |u| then u[p + 1..] else []
  }

  function DecimalValue(s: string): Amount
    requires IsStrictDecimal(s)
  {
    var u := Unsigned(s);
    var fraction := FractionOf(u);
    var magnitude := NatOf(u[..PointAt(u)] + fraction) as real / Pow10(|fraction|) as real;
    if u == s then magnitude else -magnitude
  }

  function ParseDecimal(s: string): Option<Amount> {
    if IsStrictDecimal(s) then Some(DecimalValue(s)) else None
  }

  // ----- Writing -----

  function Digits(n: nat): (s: string)
    ensures s != [] && AllDigits(s)
    ensures s[0] == '0' ==> |s| == 1
    ensures n > 0 ==> s[0] != '0'
  {
    if n < 10 then [DigitChar(n)] else Digits(n / 10) + [DigitChar(n % 10)]
  }

  /** Exactly k digits, zeros in front. */
  function Padded(n: nat, k: nat): (s: string)
    ensures |s| == k && AllDigits(s)
  {
    if k == 0 then [] else Padded(n / 10, k - 1) + [DigitChar(n % 10)]
  }

  /** A whole number of millionths written with six places. */
  function FixedSix(micros: int): string {
    var m := if micros < 0 then -micros else micros;
    (if micros < 0 then "-" else "") + Digits(m / MONEY_SCALE) + "." + Padded(m % MONEY_SCALE, MONEY_PLACES)
  }

  function Micros(v: Amount): int {
    HalfAway(ScaleUp(v, MONEY_SCALE))
  }

  /** The text configuration writes for an amount: quantised, six places. */
  function AmountText(v: Amount): string {
    FixedSix(Micros(v))
  }

  // ----- The two undo each other -----

  lemma {:induction false} NatOfDigits(n: nat)
    ensures NatOf(Digits(n)) == n
  {
    var s := Digits(n);
    if n >= 10 {
      NatOfDigits(n / 10);
      assert s[..|s| - 1] == Digits(n / 10);
    } else {
      assert s[..0] == [];
    }
  }

  lemma {:induction false} NatOfPadded(n: nat, k: nat)
    requires n < Pow10(k)
    ensures NatOf(Padded(n, k)) == n
  {
    if k > 0 {
      var s := Padded(n, k);
      NatOfPadded(n / 10, k - 1);
      assert s[..k - 1] == Padded(n / 10, k - 1);
    }
  }

  lemma TimesTen(a: int, b: int)
    ensures a * (10 * b) == 10 * (a * b)
  {
  }

  lemma {:induction false} NatOfAppend(a: string, b: string)
    requires AllDigits(a) && AllDigits(b)
    ensures NatOf(a + b) == NatOf(a) * Pow10(|b|) + NatOf(b)
  {
    if b == [] {
      assert a + b == a;
    } else {
      var last := |b| - 1;
      assert (a + b)[..|a + b| - 1] == a + b[..last];
      NatOfAppend(a, b[..last]);
      TimesTen(NatOf(a), Pow10(last));
      assert NatOf(a + b) == 10 * NatOf(a + b[..last]) + DigitValue(b[last]);
      assert NatOf(b) == 10 * NatOf(b[..last]) + DigitValue(b[last]);
      assert Pow10(|b|) == 10 * Pow10(last);
      hide NatOf, Pow10;
    }
  }

  lemma {:induction false} PointAfterDigits(a: string, b: string)
    requires AllDigits(a)
    ensures PointAt(a + "." + b) == |a|
  {
    var s := a + "." + b;
    if a != [] {
      assert s[0] == a[0] && a[0] in a;
      assert s[1..] == a[1..] + "." + b;
      PointAfterDigits(a[1..], b);
    } else {
      assert s[0] == '.';
    }
  }

  lemma FixedSixParts(micros: int) returns (u: string, whole: string, fraction: string, m: nat)
    ensures m == if micros < 0 then -micros else micros
    ensures u == Unsigned(FixedSix(micros)) && (u == FixedSix(micros) <==> micros >= 0)
    ensures u == whole + "." + fraction && whole != [] && whole == Digits(m / MONEY_SCALE)
    ensures fraction == Padded(m % MONEY_SCALE, MONEY_PLACES) && |fraction| == MONEY_PLACES
    ensures PointAt(u) == |whole| && u[..PointAt(u)] == whole && u[PointAt(u) + 1..] == fraction
  {
    m := if micros < 0 then -micros else micros;
    whole := Digits(m / MONEY_SCALE);
    fraction := Padded(m % MONEY_SCALE, MONEY_PLACES);
    u := whole + "." + fraction;
    var s := FixedSix(micros);
    assert whole[0] in whole;
    if micros < 0 {
      assert s == "-" + u;
      assert s[0] == '-' && s[1..] == u;
      assert |s| != |u|;
    } else {
      assert s == u && u[0] == whole[0];
    }
    PointAfterDigits(whole, fraction);
  }

  /** Six-place text matches the strict grammar and reads back exactly. */
  lemma FixedSixReadsBack(micros: int)
    ensures IsStrictDecimal(FixedSix(micros))
    ensures DecimalValue(FixedSix(micros)) == micros as real / MONEY_SCALE as real
  {
    hide FixedSix, Digits, Padded, PointAt, NatOf, Pow10;
    var u, whole, fraction, m := FixedSixParts(micros);
    assert u[0] == whole[0];
    assert FractionOf(u) == fraction;
    PartsDenote(m, whole, fraction);
  }

  lemma PartsDenote(m: nat, whole: string, fraction: string)
    requires whole == Digits(m / MONEY_SCALE) && fraction == Padded(m % MONEY_SCALE, MONEY_PLACES)
    ensures NatOf(whole + fraction) == m && Pow10(|fraction|) == MONEY_SCALE
  {
    hide Digits, Padded, NatOf;
    NatOfDigits(m / MONEY_SCALE);
    NatOfPadded(m % MONEY_SCALE, MONEY_PLACES);
    NatOfAppend(whole, fraction);
  }

  /** Parsing the text of an amount gives the amount quantised to six places. */
  lemma AmountTextReadsBack(v: Amount)
    ensures ParseDecimal(AmountText(v)) == Some(QuantizeMoney(v))
  {
    FixedSixReadsBack(Micros(v));
  }

  /** An amount survives the trip through its text exactly when it has at most six places. */
  lemma AmountRoundTripIff(v: Amount)
    ensures ParseDecimal(AmountText(v)) == Some(v) <==> IsScaled(v, MONEY_SCALE)
  {
    AmountTextReadsBack(v);
    RoundScaledBound(v, MONEY_SCALE);
    if IsScaled(v, MONEY_SCALE) { RoundScaledExact(v, MONEY_SCALE); }
  }

  // ----- The strict grammar -----

  /** A sign, a whole part and a fraction, written out; an empty fraction has no point. */
  function Spelled(negative: bool, whole: string, fraction: string): string {
    (if negative then "-" else "") + whole + (if fraction == "" then "" else "." + fraction)
  }

  /** Digits without superfluous zeros in front, and any digits behind the point. */
  predicate Plain(whole: string, fraction: string) {
    && whole != "" && AllDigits(whole) && AllDigits(fraction)
    && (whole[0] == '0' ==> whole == "0")
  }

  lemma PointAfter(whole: string, rest: string)
    requires AllDigits(whole) && (rest == "" || rest[0] == '.')
    ensures PointAt(whole + rest) == |whole|
  {
    var u := whole + rest;
    assert forall i | 0 <= i < |whole| :: u[i] == whole[i] && whole[i] in whole;
    if rest != "" { assert u[|whole|] == '.'; }
  }

  lemma PlainParts(whole: string, fraction: string)
    requires Plain(whole, fraction)
    ensures var u := Spelled(false, whole, fraction);
            && u != "" && u[0] != '-' && (u[0] == '0' ==> |whole| == 1)
            && PointAt(u) == |whole| && u[..|whole|] == whole && FractionOf(u) == fraction
            && (|whole| < |u| ==> |whole| + 1 < |u| && u[|whole| + 1..] == fraction)
  {
    var tail := if fraction == "" then "" else "." + fraction;
    var u := whole + tail;
    assert Spelled(false, whole, fraction) == u;
    PointAfter(whole, tail);
    assert whole[0] in whole && u[0] == whole[0];
    assert u[..|whole|] == whole;
    if fraction != "" { assert u[|whole| + 1..] == fraction; }
    hide PointAt;
  }

  /** A magnitude in digits. */
  function Magnitude(digits: string, places: nat): Amount
    requires AllDigits(digits)
  {
    NatOf(digits) as real / Pow10(places) as real
  }

  lemma SpelledIsStrict(negative: bool, whole: string, fraction: string)
    requires Plain(whole, fraction)
    ensures var s, u := Spelled(negative, whole, fraction), Spelled(false, whole, fraction);
            && Unsigned(s) == u && (s == u <==> !negative)
            && IsStrictDecimal(s) && u[..PointAt(u)] == whole && FractionOf(u) == fraction
  {
    PlainParts(whole, fraction);
    var u, s := Spelled(false, whole, fraction), Spelled(negative, whole, fraction);
    assert negative ==> s == "-" + u && s[1..] == u;
    hide PointAt, Spelled, FractionOf;
    assert AllDigits(u[..|whole|]);
  }

  lemma ValueIs(s: string, u: string, digits: string, places: nat)
    requires IsStrictDecimal(s) && Unsigned(s) == u && AllDigits(digits)
    requires u[..PointAt(u)] + FractionOf(u) == digits && |FractionOf(u)| == places
    ensures DecimalValue(s) == if s == u then Magnitude(digits, places) else -Magnitude(digits, places)
  {
    hide NatOf, Pow10, PointAt, Unsigned, FractionOf;
  }

  /** What is spelled so is read, and worth its digits. */
  lemma SpelledReads(negative: bool, whole: string, fraction: string)
    requires Plain(whole, fraction)
    ensures var magnitude := Magnitude(whole + fraction, |fraction|);
            ParseDecimal(Spelled(negative, whole, fraction)) == Some(if negative then -magnitude else magnitude)
  {
    SpelledIsStrict(negative, whole, fraction);
    ValueIs(Spelled(negative, whole, fraction), Spelled(false, whole, fraction), whole + fraction, |fraction|);
    hide DecimalValue, Magnitude, IsStrictDecimal, Spelled;
  }

  /** Exactly what is spelled so is read. */
  lemma StrictIff(s: string)
    ensures ParseDecimal(s).Some? <==> exists negative, whole, fraction :: Plain(whole, fraction) && s == Spelled(negative, whole, fraction)
  {
    if IsStrictDecimal(s) {
      var u := Unsigned(s);
      var p := PointAt(u);
      var whole, fraction := u[..p], FractionOf(u);
      assert u[0] == whole[0] && (whole[0] == '0' ==> whole == "0");
      assert u == whole + (if fraction == "" then "" else "." + fraction);
      assert Plain(whole, fraction) && s == Spelled(s != u, whole, fraction);
    }
    forall negative, whole, fraction | Plain(whole, fraction) && s == Spelled(negative, whole, fraction)
      ensures ParseDecimal(s).Some?
    {
      SpelledReads(negative, whole, fraction);
    }
  }

  /** Digits count by tens. */
  lemma DigitsCount(digits: string, d: char)
    requires AllDigits(digits) && IsDigit(d)
    ensures AllDigits(digits + [d])
    ensures NatOf("") == 0 && NatOf(digits + [d]) == 10 * NatOf(digits) + (d as int - 48)
  {
    var longer := digits + [d];
    assert AllDigits(longer) && longer[..|longer| - 1] == digits && longer[|longer| - 1] == d;
  }
}
