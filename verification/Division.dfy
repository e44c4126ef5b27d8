/** Integer division and remainder of pricing expressions: what each is, and when they fit. */
module Division {
  import opened Decimals
  import opened Grammar
  import opened Evaluator

  // ----- Laws of multiplication, one at a time -----

  lemma TimesStrict(a: real, b: real, c: real)
    requires c > 0.0
    ensures a < b <==> Times(a, c) < Times(b, c)
    ensures a <= b <==> Times(a, c) <= Times(b, c)
  {
    MulStrict(a, b, c);
  }

  lemma TimesMinus(a: real, b: real, c: real)
    ensures Times(a - b, c) == Times(a, c) - Times(b, c)
  {
  }

  lemma TimesNegative(a: real, c: real)
    ensures Times(a, -c) == -Times(a, c) && Times(-a, c) == -Times(a, c)
  {
  }

  lemma TimesOne(c: real)
    ensures Times(1.0, c) == c && Times(-1.0, c) == -c && Times(0.0, c) == 0.0
  {
  }

  lemma TimesSwap(a: real, c: real)
    ensures Times(a, c) == Times(c, a)
  {
  }

  lemma TimesQuotient(x: real, y: real)
    requires y != 0.0
    ensures Times(x / y, y) == x
  {
    DivMul(x, y);
  }

  lemma QuotientIs(x: real, y: real, z: real)
    requires y != 0.0 && Times(z, y) == x
    ensures x / y == z
  {
    MulDiv(z, y);
  }

  lemma TimesWhole(n: int, scale: int)
    ensures Times(n as real, scale as real) == (n * scale) as real
  {
  }

  lemma TimesSign(f: real, y: real)
    ensures f == 0.0 || y == 0.0 ==> Times(f, y) == 0.0
    ensures f > 0.0 ==> (y > 0.0 ==> Times(f, y) > 0.0) && (y < 0.0 ==> Times(f, y) < 0.0)
    ensures f < 0.0 ==> (y > 0.0 ==> Times(f, y) < 0.0) && (y < 0.0 ==> Times(f, y) > 0.0)
  {
  }

  lemma ScaleUpIs(x: real, scale: int)
    ensures ScaleUp(x, scale) == Times(x, scale as real)
  {
  }

  // ----- Truncating a rounded quotient -----

  /** What is left of a non-negative quotient below the next integer, in units of the 32nd place. */
  function GapToNext(quotient: real): real {
    ScaleUp((Floor(quotient) + 1) as real - quotient, DIVISION_SCALE)
  }

  /** A quotient, either way from zero, is not within half a unit of the 32nd place of the next
      integer away from zero. */
  predicate Clear(x: Amount, y: Amount)
    requires y != 0.0
  {
    GapToNext(Abs(x / y)) > 0.5
  }

  lemma NextScaled(z: real, scale: int)
    requires scale >= 1 && z >= 0.0
    ensures var next := (Floor(z) + 1) * scale;
            && next >= scale
            && (next - scale) as real <= ScaleUp(z, scale) < next as real
            && ScaleUp((Floor(z) + 1) as real - z, scale) == next as real - ScaleUp(z, scale)
  {
    var n, s := Floor(z) + 1, scale as real;
    assert n >= 1 && n * scale - scale == (n - 1) * scale && n * scale >= scale by { NextWhole(n, scale, z); }
    TimesWhole(n, scale);
    TimesWhole(n - 1, scale);
    TimesStrict((n - 1) as real, z, s);
    TimesStrict(z, n as real, s);
    TimesMinus(n as real, z, s);
    ScaleUpIs(z, scale);
    ScaleUpIs(n as real - z, scale);
    hide Times, ScaleUp;
  }

  lemma NextWhole(n: int, scale: int, z: real)
    requires scale >= 1 && z >= 0.0 && n == Floor(z) + 1
    ensures n >= 1 && n * scale - scale == (n - 1) * scale && n * scale >= scale
  {
    assert (n - 1) * scale >= 0;
  }

  /** Where rounding to the scale puts a non-negative number: on the next integer if it is within
      half a unit of it, and below it otherwise. */
  lemma RoundedBelowNext(z: real, scale: int)
    requires scale >= 1 && z >= 0.0
    ensures var next := (Floor(z) + 1) * scale;
            var w := HalfAway(ScaleUp(z, scale));
            && next - scale <= w <= next
            && (w < next <==> ScaleUp((Floor(z) + 1) as real - z, scale) > 0.5)
  {
    NextScaled(z, scale);
    NearNext((Floor(z) + 1) * scale, scale, ScaleUp(z, scale));
  }

  lemma NearNext(next: int, scale: int, v: real)
    requires scale >= 1 && next >= scale && (next - scale) as real <= v < next as real
    ensures next - scale <= HalfAway(v) <= next
    ensures HalfAway(v) < next <==> next as real - v > 0.5
  {
    HalfAwayMonotone((next - scale) as real, v);
    HalfAwayMonotone(v, next as real);
    HalfAwayUnique((next - scale) as real, next - scale);
    HalfAwayUnique(next as real, next);
    if next as real - v <= 0.5 { HalfAwayUnique(v, next); }
  }

  lemma FloorOfQuotient(w: int, n: int, scale: int)
    requires scale >= 1 && n * scale - scale <= w < n * scale
    ensures Floor(w as real / scale as real) == n - 1
  {
    var s := scale as real;
    var q := w as real / s;
    TimesQuotient(w as real, s);
    TimesWhole(n, scale);
    TimesStrict(q, n as real, s);
    TimesStrict((n - 1) as real, q, s);
    TimesMinus(n as real, 1.0, s);
    TimesOne(s);
    hide Times;
    assert n as real - 1.0 == (n - 1) as real;
  }

  /** Truncating a rounded non-negative number. */
  lemma TruncatedRounding(z: real, scale: int)
    requires scale >= 1 && z >= 0.0
    ensures Floor(RoundScaled(z, scale))
         == Floor(z) + if ScaleUp((Floor(z) + 1) as real - z, scale) > 0.5 then 0 else 1
    ensures RoundScaled(z, scale) >= 0.0
  {
    var n := Floor(z) + 1;
    var w := HalfAway(ScaleUp(z, scale));
    RoundedBelowNext(z, scale);
    NextWhole(n, scale, z);
    hide ScaleUp, HalfAway;
    DivMonotone(0.0, w as real, scale as real);
    FloorAround(w, n, scale);
  }

  lemma FloorAround(w: int, n: int, scale: int)
    requires scale >= 1 && n * scale - scale <= w <= n * scale
    ensures Floor(w as real / scale as real) == if w < n * scale then n - 1 else n
  {
    if w < n * scale {
      FloorOfQuotient(w, n, scale);
    } else {
      assert (n + 1) * scale == n * scale + scale;
      FloorOfQuotient(w, n + 1, scale);
    }
  }

  lemma TruncateOdd(z: real)
    ensures Truncate(-z) == -Truncate(z)
    ensures z >= 0.0 ==> Truncate(z) == Floor(z)
  {
  }

  lemma RoundScaledOdd(z: real, scale: int)
    requires scale >= 1
    ensures RoundScaled(-z, scale) == -RoundScaled(z, scale)
  {
    var s := scale as real;
    ScaleUpIs(z, scale);
    ScaleUpIs(-z, scale);
    TimesNegative(z, s);
    HalfAwayOdd(ScaleUp(z, scale));
    var w := HalfAway(ScaleUp(z, scale)) as real;
    TimesQuotient(w, s);
    TimesNegative(w / s, s);
    QuotientIs(-w, s, -(w / s));
    hide Times, ScaleUp, HalfAway;
  }

  /** Rounding to a scale and then truncating moves a number one further from zero if it is within
      half a unit of that integer, and otherwise nowhere. */
  lemma TruncatedBothWays(z: real, scale: int)
    requires scale >= 1
    ensures var a := Abs(z);
            Truncate(RoundScaled(z, scale)) == Truncate(z) +
              if ScaleUp((Floor(a) + 1) as real - a, scale) > 0.5 then 0 else if z >= 0.0 then 1 else -1
  {
    var a := Abs(z);
    TruncatedRounding(a, scale);
    TruncateOdd(a);
    TruncateOdd(z);
    TruncateOdd(RoundScaled(a, scale));
    TruncateOdd(RoundScaled(z, scale));
    RoundScaledOdd(z, scale);
    hide RoundScaled, ScaleUp, Floor, Truncate;
    assert a == z || a == -z;
  }

  /** `x // y` is the quotient cut off towards zero exactly when the quotient is clear of the next
      integer; otherwise division has already rounded it to that integer, one further from zero. */
  lemma IntegerDivisionIff(x: Amount, y: Amount)
    requires y != 0.0
    ensures Arithmetic(IntDiv, x, y) == Success(Truncate(x / y) as real) <==> Clear(x, y)
    ensures !Clear(x, y) ==>
              Arithmetic(IntDiv, x, y) == Success((Truncate(x / y) + if x / y >= 0.0 then 1 else -1) as real)
  {
    hide DIVISION_PLACES, Pow10;
    DivisionScaleIsEven();
    TruncatedBothWays(x / y, DIVISION_SCALE);
    hide RoundScaled, ScaleUp, Floor, Truncate, Abs;
  }

  // ----- Remainders -----

  lemma RemainderIs(x: Amount, y: Amount)
    requires y != 0.0
    ensures Arithmetic(Mod, x, y) == Success(x - Times(y, Truncate(x / y) as real))
  {
  }

  /** `x % y` is smaller than the divisor, has the sign of x or is zero, and differs from x by a
      whole number of divisors. */
  lemma RemainderFacts(x: Amount, y: Amount) returns (r: Amount, k: int)
    requires y != 0.0
    ensures Arithmetic(Mod, x, y) == Success(r)
    ensures x == Times(y, k as real) + r && k == Truncate(x / y)
    ensures Abs(r) < Abs(y) && (x >= 0.0 ==> r >= 0.0) && (x <= 0.0 ==> r <= 0.0)
  {
    var z := x / y;
    k := Truncate(z);
    var f := z - k as real;
    r := Times(f, y);
    RemainderIs(x, y);
    TimesQuotient(x, y);
    TimesMinus(z, k as real, y);
    TimesSwap(k as real, y);
    Fraction(z);
    Squeezed(f, y);
    TimesSign(z, y);
    TimesSign(f, y);
    hide Times, Truncate, Arithmetic;
  }

  lemma Fraction(z: real)
    ensures var f := z - Truncate(z) as real;
            -1.0 < f < 1.0 && (z >= 0.0 ==> f >= 0.0) && (z <= 0.0 ==> f <= 0.0)
  {
  }

  lemma Squeezed(f: real, y: real)
    requires -1.0 < f < 1.0 && y != 0.0
    ensures Abs(Times(f, y)) < Abs(y)
  {
    var m := Abs(y);
    TimesStrict(f, 1.0, m);
    TimesStrict(-1.0, f, m);
    TimesOne(m);
    TimesNegative(f, y);
    hide Times;
  }

  /** Quotient and remainder put the dividend together again exactly when the quotient is clear of
      the next integer. */
  lemma QuotientAndRemainderFitIff(x: Amount, y: Amount)
    requires y != 0.0
    ensures var q, r := Arithmetic(IntDiv, x, y), Arithmetic(Mod, x, y);
            q.Success? && r.Success? && (x == Times(y, q.value) + r.value <==> Clear(x, y))
  {
    IntegerDivisionIff(x, y);
    var r, k := RemainderFacts(x, y);
    hide Clear, Times, DivRound, Truncate;
    var q := Arithmetic(IntDiv, x, y);
    assert q.Success?;
    hide Arithmetic;
    Cancel(y, q.value, k as real);
  }

  lemma Cancel(y: real, a: real, b: real)
    requires y != 0.0
    ensures Times(y, a) == Times(y, b) <==> a == b
  {
    TimesSwap(y, a);
    TimesSwap(y, b);
    TimesMinus(a, b, y);
    TimesSign(a - b, y);
    hide Times;
  }

  // ----- Which dividends and divisors fit -----

  /** Whole numbers with a divisor of at most 10^32 always fit. */
  lemma WholeNumbersFit(x: int, y: int)
    requires y != 0 && -DIVISION_SCALE <= y <= DIVISION_SCALE
    ensures Clear(x as real, y as real)
  {
    DivisionScaleIsEven();
    hide Pow10;
    var b := if y > 0 then y else -y;
    var a := if x >= 0 then x else -x;
    Magnitudes(x as real, y as real);
    assert Abs(x as real) == a as real && Abs(y as real) == b as real;
    WholeGap(a, b, DIVISION_SCALE);
  }

  lemma Magnitudes(x: real, y: real)
    requires y != 0.0
    ensures Abs(x / y) == Abs(x) / Abs(y)
  {
    var z := x / y;
    TimesQuotient(x, y);
    TimesSign(z, y);
    TimesNegative(z, y);
    TimesNegative(z, Abs(y));
    QuotientIs(Abs(x), Abs(y), Abs(z)) by { hide Times; }
  }

  lemma WholeGap(a: nat, b: nat, scale: int)
    requires 1 <= b <= scale
    ensures ScaleUp((Floor(a as real / b as real) + 1) as real - a as real / b as real, scale) > 0.5
  {
    var z, divisor := a as real / b as real, b as real;
    var n := Floor(z) + 1;
    var gap := n as real - z;
    var count := GapCount(a, b, n);
    TimesSign(gap, divisor);
    TimesStrict(divisor, scale as real, gap);
    TimesSwap(divisor, gap);
    TimesSwap(scale as real, gap);
    ScaleUpIs(gap, scale);
    hide Times, ScaleUp;
    assert count >= 1;
  }

  /** The gap between a fraction and a whole number, in parts of the denominator, is whole. */
  lemma GapCount(a: int, b: int, n: int) returns (count: int)
    requires b >= 1
    ensures Times(n as real - a as real / b as real, b as real) == count as real
  {
    count := n * b - a;
    TimesQuotient(a as real, b as real);
    TimesMinus(n as real, a as real / b as real, b as real);
    TimesWhole(n, b);
    hide Times;
  }

  /** Beyond that they need not: (4*10^32 - 1) // (4*10^32) is 1 although its remainder is the
      whole dividend. */
  lemma HugeDivisorMisfits(scale: int)
    requires scale == DIVISION_SCALE
    ensures var x, y := (4 * scale - 1) as real, (4 * scale) as real;
            && y != 0.0 && !Clear(x, y)
            && Arithmetic(IntDiv, x, y) == Success(1.0)
            && Arithmetic(Mod, x, y) == Success(x)
  {
    DivisionScaleIsEven();
    hide Pow10;
    var x, y, s := (4 * scale - 1) as real, (4 * scale) as real, scale as real;
    var z := x / y;
    TimesQuotient(x, y);
    TimesMinus(1.0, z, y);
    TimesOne(y);
    TimesStrict(z, 1.0, y);
    TimesSign(z, y);
    var gap := 1.0 - z;
    Quarter(gap, s);
    ScaleUpIs(gap, scale);
    IntegerDivisionIff(x, y);
    RemainderIs(x, y);
    TimesOne(y);
    TimesSwap(0.0, y);
    hide Times, ScaleUp, Arithmetic;
    assert y == 4.0 * s;
    assert Floor(z) == 0 && Truncate(z) == 0;
    assert Abs(z) == z;
  }

  lemma Quarter(gap: real, s: real)
    ensures Times(gap, 4.0 * s) == 4.0 * Times(gap, s)
  {
  }
}
