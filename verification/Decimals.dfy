/** Exact decimal amounts and the rounding operations the pricing core applies to them.
    An amount is a `real`; every rounding rule is spelled out and characterised. */
module Decimals {

  type Amount = real

  const MONEY_PLACES: nat := 6
  const MONEY_SCALE: int := Pow10(MONEY_PLACES)
  const DIVISION_PLACES: nat := 32
  const DIVISION_SCALE: int := Pow10(DIVISION_PLACES)

  datatype Option<+T> = None | Some(value: T)

  datatype Result<+T, +E> = Success(value: T) | Failure(error: E)

  function Pow10(n: nat): (r: int)
    ensures r >= 1
    ensures n >= 1 ==> r >= 10 && r % 2 == 0
  {
    if n == 0 then 1 else 10 * Pow10(n - 1)
  }

  lemma MulAssoc(a: int, b: int, c: int)
    ensures (a * b) * c == a * (b * c)
  {
  }

  lemma {:induction false} Pow10Add(a: nat, b: nat)
    ensures Pow10(a + b) == Pow10(a) * Pow10(b)
  {
    if a > 0 {
      Pow10Add(a - 1, b);
      MulAssoc(10, Pow10(a - 1), Pow10(b));
    }
  }

  lemma DivisionScaleIsEven()
    ensures DIVISION_SCALE >= 2 && DIVISION_SCALE % 2 == 0
  {
    hide Pow10;
  }

  /** Exact multiplication. */
  function Times(a: Amount, b: Amount): Amount {
    a * b
  }

  // ----- Rounding to integers -----

  function Floor(x: real): (r: int)
    ensures r as real <= x < r as real + 1.0
  {
    x.Floor
  }

  function Ceil(x: real): (r: int)
    ensures r as real - 1.0 < x <= r as real
  {
    -((-x).Floor)
  }

  function Truncate(x: real): (r: int)
    ensures x >= 0.0 ==> 0 <= r && r as real <= x < r as real + 1.0
    ensures x <= 0.0 ==> r <= 0 && r as real - 1.0 < x <= r as real
  {
    if x >= 0.0 then x.Floor else -((-x).Floor)
  }

  /** Nearest integer, a tie going to the integer further from zero. */
  function HalfAway(x: real): (r: int)
    ensures r as real - 0.5 <= x <= r as real + 0.5
    ensures x == r as real - 0.5 ==> r >= 1
    ensures x == r as real + 0.5 ==> r <= -1
  {
    if x >= 0.0 then (x + 0.5).Floor else -((-x + 0.5).Floor)
  }

  /** The three clauses of `HalfAway` leave exactly one integer. */
  lemma HalfAwayUnique(x: real, n: int)
    requires n as real - 0.5 <= x <= n as real + 0.5
    requires x == n as real - 0.5 ==> n >= 1
    requires x == n as real + 0.5 ==> n <= -1
    ensures HalfAway(x) == n
  {
    var r := HalfAway(x);
    assert r < n || r > n || r == n;
  }

  lemma HalfAwayOdd(x: real)
    ensures HalfAway(-x) == -HalfAway(x)
  {
    HalfAwayUnique(-x, -HalfAway(x));
  }

  lemma HalfAwayMonotone(x: real, y: real)
    requires x <= y
    ensures HalfAway(x) <= HalfAway(y)
  {
    var a, b := HalfAway(x), HalfAway(y);
    assert b < a || a <= b;
  }

  // ----- Rounding to decimal places -----

  function ScaleUp(x: real, scale: int): real {
    x * (scale as real)
  }

  ghost predicate IsScaled(x: real, scale: int)
    requires scale >= 1
  {
    ScaleUp(x, scale) == Floor(ScaleUp(x, scale)) as real
  }

  lemma FloorOfInt(n: int)
    ensures Floor(n as real) == n
  {
  }

  /** Nearest multiple of 1/scale, ties away from zero. */
  function RoundScaled(x: real, scale: int): (r: real)
    requires scale >= 1
  {
    (HalfAway(ScaleUp(x, scale)) as real) / (scale as real)
  }

  function QuantizeMoney(x: Amount): (r: Amount)
  {
    RoundScaled(x, MONEY_SCALE)
  }

  /** Quotient kept to 32 decimal places. */
  function DivRound(x: Amount, y: Amount): (r: Amount)
    requires y != 0.0
  {
    RoundScaled(x / y, DIVISION_SCALE)
  }

  lemma DivMul(a: real, b: real)
    requires b != 0.0
    ensures a / b * b == a
  {
  }

  lemma MulDiv(a: real, b: real)
    requires b != 0.0
    ensures a * b / b == a
  {
  }

  lemma DivMonotone(a: real, b: real, c: real)
    requires a <= b && c > 0.0
    ensures a / c <= b / c
  {
    DivMul(a, c);
    DivMul(b, c);
    MulStrict(a / c, b / c, c);
  }

  lemma MulMonotone(a: real, b: real, c: real)
    requires a <= b && c >= 0.0
    ensures a * c <= b * c
  {
    assert (b - a) * c >= 0.0;
  }

  lemma MulStrict(a: real, b: real, c: real)
    requires c > 0.0
    ensures a < b <==> a * c < b * c
    ensures a <= b <==> a * c <= b * c
  {
    if a < b { assert (b - a) * c > 0.0; }
    if b < a { assert (a - b) * c > 0.0; }
  }

  /** Rounding lands on a multiple of the step, at most half a step away. */
  lemma RoundScaledBound(x: real, scale: int)
    requires scale >= 1
    ensures var r := RoundScaled(x, scale);
            && ScaleUp(r, scale) == HalfAway(ScaleUp(x, scale)) as real
            && IsScaled(r, scale)
            && -0.5 <= ScaleUp(r, scale) - ScaleUp(x, scale) <= 0.5
  {
    var h := HalfAway(ScaleUp(x, scale));
    DivMul(h as real, scale as real);
    FloorOfInt(h);
  }

  lemma RoundScaledExact(x: real, scale: int)
    requires scale >= 1 && IsScaled(x, scale)
    ensures RoundScaled(x, scale) == x
  {
    var n := Floor(ScaleUp(x, scale));
    HalfAwayUnique(n as real, n);
    MulDiv(x, scale as real);
  }

  lemma RoundScaledMonotone(x: real, y: real, scale: int)
    requires scale >= 1 && x <= y
    ensures RoundScaled(x, scale) <= RoundScaled(y, scale)
  {
    MulMonotone(x, y, scale as real);
    HalfAwayMonotone(ScaleUp(x, scale), ScaleUp(y, scale));
    DivMonotone(HalfAway(ScaleUp(x, scale)) as real, HalfAway(ScaleUp(y, scale)) as real, scale as real);
  }

  function Abs(x: real): real {
    if x >= 0.0 then x else -x
  }

  /** No multiple of the step is closer than the rounded value, measured in steps. */
  lemma RoundScaledNearest(x: real, candidate: real, scale: int)
    requires scale >= 1 && IsScaled(candidate, scale)
    ensures Abs(ScaleUp(RoundScaled(x, scale), scale) - ScaleUp(x, scale)) <= 0.5
    ensures Abs(ScaleUp(RoundScaled(x, scale), scale) - ScaleUp(x, scale))
         <= Abs(ScaleUp(candidate, scale) - ScaleUp(x, scale))
  {
    hide ScaleUp, RoundScaled;
    RoundScaledBound(x, scale);
    var h, c := HalfAway(ScaleUp(x, scale)), Floor(ScaleUp(candidate, scale));
    assert c < h || c == h || c > h;
  }

  lemma ScaleUpDifference(a: real, b: real, scale: int)
    requires scale >= 1
    ensures Abs(ScaleUp(a, scale) - ScaleUp(b, scale)) == Abs(a - b) * scale as real
  {
    var s := scale as real;
    assert a * s - b * s == (a - b) * s;
    if a >= b { MulMonotone(0.0, a - b, s); } else { MulMonotone(0.0, b - a, s); }
  }

  /** Money quantisation picks a six-place value that no six-place value beats. */
  lemma QuantizeMoneyNearest(x: Amount, candidate: Amount)
    requires IsScaled(candidate, MONEY_SCALE)
    ensures IsScaled(QuantizeMoney(x), MONEY_SCALE)
    ensures Abs(QuantizeMoney(x) - x) <= 0.0000005
    ensures Abs(QuantizeMoney(x) - x) <= Abs(candidate - x)
  {
    hide ScaleUp, RoundScaled, Abs, IsScaled;
    RoundScaledBound(x, MONEY_SCALE);
    RoundScaledNearest(x, candidate, MONEY_SCALE);
    ScaleUpDifference(QuantizeMoney(x), x, MONEY_SCALE);
    ScaleUpDifference(candidate, x, MONEY_SCALE);
    assert MONEY_SCALE == 1000000;
  }

  lemma QuantizeMoneyIdempotent(x: Amount)
    ensures QuantizeMoney(QuantizeMoney(x)) == QuantizeMoney(x)
  {
    RoundScaledBound(x, MONEY_SCALE);
    RoundScaledExact(QuantizeMoney(x), MONEY_SCALE);
  }

  lemma QuantizeMoneyMonotone(x: Amount, y: Amount)
    requires x <= y
    ensures QuantizeMoney(x) <= QuantizeMoney(y)
  {
    RoundScaledMonotone(x, y, MONEY_SCALE);
  }

  lemma QuantizeZero()
    ensures QuantizeMoney(0.0) == 0.0
  {
    assert 0.0 * MONEY_SCALE as real == 0.0;
    FloorOfInt(0);
    RoundScaledExact(0.0, MONEY_SCALE);
  }

  /** The rounded quotient is off by at most half a unit in the 32nd place. */
  lemma DivRoundError(x: Amount, y: Amount)
    requires y != 0.0
    ensures -0.5 <= ScaleUp(DivRound(x, y), DIVISION_SCALE) - ScaleUp(x / y, DIVISION_SCALE) <= 0.5
  {
    RoundScaledBound(x / y, DIVISION_SCALE);
  }
}
