/** Package charges count packages by rounding a quotient that was itself rounded to 32 places.
    With the measure and the package size written as integers over a common power of ten, this
    module says for exactly which inputs the double rounding still gives the count of the true
    quotient, and that every size below 10^32 units is among them. */
module PackageCounts {
  import opened Decimals

  datatype Rounding = RoundCeil | RoundFloor | RoundNearest

  function RoundToInteger(x: real, rounding: Rounding): int {
    match rounding
    case RoundCeil => Ceil(x)
    case RoundFloor => Floor(x)
    case RoundNearest => HalfAway(x)
  }

  /** The count the engine bills: round the quotient to 1/scale, then to a whole package. */
  function BilledPackages(measure: nat, size: nat, scale: int, rounding: Rounding): int
    requires size >= 1 && scale >= 1
  {
    RoundToInteger(RoundScaled(measure as real / size as real, scale), rounding)
  }

  /** The count of the exact quotient. */
  function TruePackages(measure: nat, size: nat, rounding: Rounding): int
    requires size >= 1
  {
    RoundToInteger(measure as real / size as real, rounding)
  }

  /** When double rounding is harmless, as a test on the remainder of the division. */
  predicate Harmless(measure: nat, size: nat, scale: int, rounding: Rounding)
    requires size >= 1 && scale >= 1
  {
    var r := measure % size;
    match rounding
    case RoundCeil => r == 0 || 2 * scale * r >= size
    case RoundFloor => 2 * scale * (size - r) > size
    case RoundNearest => 2 * r >= size || 2 * scale * r < (scale - 1) * size
  }

  lemma DivBounds(a: int, b: int)
    requires b >= 1
    ensures b * (a / b) <= a < b * (a / b) + b
  {
  }

  lemma MulLe(a: int, b: int, c: int)
    requires a <= b && c >= 0
    ensures a * c <= b * c
  {
  }

  /** Comparing a fraction with an integer is comparing numerators. */
  lemma FractionBounds(a: int, b: int, n: int)
    requires b >= 1
    ensures a <= b * n <==> a as real / b as real <= n as real
    ensures a >= b * n <==> a as real / b as real >= n as real
  {
    var x := a as real / b as real;
    DivMul(a as real, b as real);
    MulStrict(x, n as real, b as real);
    MulStrict(n as real, x, b as real);
    assert (n * b) as real == n as real * b as real;
  }

  /** `n` rounds the non-negative fraction a/b, stated without division. */
  ghost predicate Rounds(a: nat, b: nat, n: int, rounding: Rounding) {
    match rounding
    case RoundCeil => b * (n - 1) < a <= b * n
    case RoundFloor => b * n <= a < b * (n + 1)
    case RoundNearest => b * (2 * n - 1) <= 2 * a < b * (2 * n + 1) && n >= 0
  }

  lemma RoundsCorrect(a: nat, b: nat, n: int, rounding: Rounding)
    requires b >= 1 && Rounds(a, b, n, rounding)
    ensures RoundToInteger(a as real / b as real, rounding) == n
  {
    var x := a as real / b as real;
    match rounding {
      case RoundCeil =>
        FractionBounds(a, b, n - 1);
        FractionBounds(a, b, n);
      case RoundFloor =>
        FractionBounds(a, b, n);
        FractionBounds(a, b, n + 1);
      case RoundNearest =>
        DoubleFraction(a, b);
        FractionBounds(2 * a, b, 2 * n - 1);
        FractionBounds(2 * a, b, 2 * n + 1);
        FractionBounds(a, b, 0);
        HalfAwayUnique(x, n);
    }
  }

  lemma DoubleFraction(a: nat, b: nat)
    requires b >= 1
    ensures (2 * a) as real / b as real == 2.0 * (a as real / b as real)
  {
    var x := a as real / b as real;
    DivMul(a as real, b as real);
    MulDiv(2.0 * x, b as real);
  }

  lemma ScaleFraction(a: nat, b: nat, scale: nat)
    requires b >= 1
    ensures ScaleUp(a as real / b as real, scale) == (a * scale) as real / b as real
  {
    var x := a as real / b as real;
    var k := scale as real;
    DivMul(a as real, b as real);
    assert x * k * b as real == (x * b as real) * k;
    MulDiv(x * k, b as real);
  }

  /** Rounding the remainder of the division to 1/scale: at most one whole package. */
  lemma RemainderNumerator(r: nat, size: nat, scale: nat) returns (g: nat)
    requires r < size && scale >= 1
    ensures Rounds(r * scale, size, g, RoundNearest)
    ensures g <= scale
  {
    var p := r * scale;
    g := (2 * p + size) / (2 * size);
    DivBounds(2 * p + size, 2 * size);
    assert 2 * size * g == 2 * (size * g);
    OddMultiple(g, size);
    MulGap(r, size, 1, scale);
    if g > scale {
      MulGap(scale, g, 1, size);
      assert false;
    }
  }

  /** Adding whole packages shifts every rounding by as many. */
  lemma RoundsShift(a: nat, b: nat, p: nat, rest: nat, g: nat, rounding: Rounding)
    requires a == b * p + rest && Rounds(rest, b, g, rounding)
    ensures Rounds(a, b, p + g, rounding)
  {
    match rounding {
      case RoundCeil =>
        assert b * (p + g - 1) == b * p + b * (g - 1);
        assert b * (p + g) == b * p + b * g;
      case RoundFloor =>
        assert b * (p + g + 1) == b * p + b * (g + 1);
        assert b * (p + g) == b * p + b * g;
      case RoundNearest =>
        assert b * (2 * (p + g) - 1) == 2 * (b * p) + b * (2 * g - 1);
        assert b * (2 * (p + g) + 1) == 2 * (b * p) + b * (2 * g + 1);
    }
  }

  /** The first rounding keeps the whole packages and rounds only the remainder. */
  lemma FirstRounding(measure: nat, k: nat, r: nat, size: nat, scale: nat, g: nat, h: nat)
    requires r < size && scale >= 1 && measure == size * k + r && h == scale * k + g
    requires Rounds(r * scale, size, g, RoundNearest)
    ensures RoundScaled(measure as real / size as real, scale) == h as real / scale as real
  {
    ScaleFraction(measure, size, scale);
    assert measure * scale == size * (k * scale) + r * scale by {
      assert (size * k) * scale == size * (k * scale);
    }
    RoundsShift(measure * scale, size, k * scale, r * scale, g, RoundNearest);
    RoundsCorrect(measure * scale, size, k * scale + g, RoundNearest);
  }

  /** The package count of k whole packages and g/scale of another. */
  function Bump(g: nat, scale: nat, rounding: Rounding): nat {
    match rounding
    case RoundCeil => if g == 0 then 0 else 1
    case RoundFloor => if g == scale then 1 else 0
    case RoundNearest => if 2 * g >= scale then 1 else 0
  }

  lemma CountWithFraction(a: nat, k: nat, g: nat, scale: nat, rounding: Rounding)
    requires g <= scale && scale >= 1 && a == scale * k + g
    ensures RoundToInteger(a as real / scale as real, rounding) == k + Bump(g, scale, rounding)
  {
    RoundsShift(a, scale, k, g, Bump(g, scale, rounding), rounding);
    RoundsCorrect(a, scale, k + Bump(g, scale, rounding), rounding);
  }

  lemma CeilBumpsAgree(r: nat, size: nat, scale: nat, g: nat, p: nat)
    requires r < size && scale >= 2 && p == r * scale
    requires Rounds(p, size, g, RoundNearest)
    ensures (g == 0 <==> r == 0) <==> r == 0 || 2 * p >= size
  {
    if g >= 1 { MulLe(1, 2 * g - 1, size); }
  }

  lemma FloorBumpsAgree(r: nat, size: nat, scale: nat, g: nat, p: nat)
    requires r < size && scale >= 2 && g <= scale && p == r * scale
    requires Rounds(p, size, g, RoundNearest)
    ensures g != scale <==> 2 * (size * scale - p) > size
  {
    if g < scale {
      MulLe(2 * g + 1, 2 * scale - 1, size);
      assert (2 * scale - 1) * size == 2 * (size * scale) - size;
    } else {
      assert size * (2 * g - 1) == 2 * (size * scale) - size;
    }
  }

  lemma NearestBumpsAgree(r: nat, size: nat, half: nat, g: nat, p: nat)
    requires r < size && half >= 1 && p == r * (2 * half)
    requires Rounds(p, size, g, RoundNearest)
    ensures (g >= half <==> 2 * r >= size) <==> 2 * r >= size || 2 * p < 2 * (size * half) - size
  {
    hide Rounds;
    NearestThreshold(p, size, half, g);
    if 2 * r >= size { HalfOrMore(r, size, half); }
  }

  lemma HalfOrMore(r: nat, size: nat, half: nat)
    requires 2 * r >= size
    ensures r * (2 * half) >= size * half
  {
    MulLe(size, 2 * r, half);
  }

  lemma NearestThreshold(p: nat, size: nat, half: nat, g: nat)
    requires size >= 1 && Rounds(p, size, g, RoundNearest)
    ensures g >= half <==> 2 * p >= 2 * (size * half) - size
  {
    OddMultiple(g, size);
    if g >= half { MulLe(half, g, size); } else { MulLe(g + 1, half, size); }
  }

  lemma OddMultiple(n: nat, size: nat)
    ensures (2 * n - 1) * size == 2 * (size * n) - size
    ensures size * (2 * n + 1) == 2 * (size * n) + size
    ensures size * (2 * n - 1) == 2 * (size * n) - size
  {
  }

  /** The billed count is the whole packages plus a bump decided by the twice-rounded remainder. */
  lemma BilledCount(measure: nat, size: nat, scale: nat, rounding: Rounding) returns (g: nat)
    requires size >= 1 && scale >= 2
    ensures g <= scale && Rounds((measure % size) * scale, size, g, RoundNearest)
    ensures BilledPackages(measure, size, scale, rounding) == measure / size + Bump(g, scale, rounding)
    ensures TruePackages(measure, size, rounding) == measure / size + Bump(measure % size, size, rounding)
  {
    var k, r := measure / size, measure % size;
    hide RoundToInteger, RoundScaled, Bump;
    g := RemainderNumerator(r, size, scale);
    hide Rounds;
    var h := scale * k + g;
    FirstRounding(measure, k, r, size, scale, g, h);
    CountWithFraction(h, k, g, scale, rounding);
    CountWithFraction(measure, k, r, size, rounding);
  }

  /** Double rounding gives the true package count exactly when the remainder passes the test. */
  lemma PackagesExactIff(measure: nat, size: nat, scale: int, rounding: Rounding)
    requires size >= 1 && scale >= 2 && scale % 2 == 0
    ensures BilledPackages(measure, size, scale, rounding) == TruePackages(measure, size, rounding)
       <==> Harmless(measure, size, scale, rounding)
  {
    var g := BilledCount(measure, size, scale, rounding);
    HarmlessMeansAgree(measure % size, size, scale, g, rounding);
  }

  lemma HarmlessMeansAgree(r: nat, size: nat, scale: nat, g: nat, rounding: Rounding)
    requires r < size && scale >= 2 && scale % 2 == 0 && g <= scale
    requires Rounds(r * scale, size, g, RoundNearest)
    ensures Bump(g, scale, rounding) == Bump(r, size, rounding) <==>
      match rounding
      case RoundCeil => r == 0 || 2 * scale * r >= size
      case RoundFloor => 2 * scale * (size - r) > size
      case RoundNearest => 2 * r >= size || 2 * scale * r < (scale - 1) * size
  {
    match rounding {
      case RoundCeil => CeilHarmless(r, size, scale, g);
      case RoundFloor => FloorHarmless(r, size, scale, g);
      case RoundNearest => NearestHarmless(r, size, scale, g);
    }
  }

  lemma CeilHarmless(r: nat, size: nat, scale: nat, g: nat)
    requires r < size && scale >= 2 && g <= scale && Rounds(r * scale, size, g, RoundNearest)
    ensures Bump(g, scale, RoundCeil) == Bump(r, size, RoundCeil) <==> r == 0 || 2 * scale * r >= size
  {
    CeilBumpsAgree(r, size, scale, g, r * scale);
    assert 2 * scale * r == 2 * (r * scale);
    hide Bump, Rounds;
  }

  lemma FloorHarmless(r: nat, size: nat, scale: nat, g: nat)
    requires r < size && scale >= 2 && g <= scale && Rounds(r * scale, size, g, RoundNearest)
    ensures Bump(g, scale, RoundFloor) == Bump(r, size, RoundFloor) <==> 2 * scale * (size - r) > size
  {
    assert Bump(g, scale, RoundFloor) == Bump(r, size, RoundFloor) <==> 2 * (size * scale - r * scale) > size by {
      FloorBumpsAgree(r, size, scale, g, r * scale);
    }
    hide Bump, Rounds;
    assert 2 * scale * (size - r) == 2 * (size * scale - r * scale);
  }

  lemma NearestHarmless(r: nat, size: nat, scale: nat, g: nat)
    requires r < size && scale >= 2 && scale % 2 == 0 && g <= scale && Rounds(r * scale, size, g, RoundNearest)
    ensures Bump(g, scale, RoundNearest) == Bump(r, size, RoundNearest) <==>
            2 * r >= size || 2 * scale * r < (scale - 1) * size
  {
    NearestBumpsAgree(r, size, scale / 2, g, r * scale);
    assert 2 * scale * r == 2 * (r * scale);
    HalfScale(size, scale);
    hide Bump, Rounds;
  }

  lemma HalfScale(size: nat, scale: nat)
    requires scale % 2 == 0
    ensures scale == 2 * (scale / 2) && (scale - 1) * size == 2 * (size * (scale / 2)) - size
  {
    var half := scale / 2;
    assert (2 * half - 1) * size == 2 * (size * half) - size;
  }

  /** Every package size of at most `scale` units is billed exactly, under every rounding. */
  lemma SmallPackagesExact(measure: nat, size: nat, scale: int, rounding: Rounding)
    requires 1 <= size <= scale && scale >= 2 && scale % 2 == 0
    ensures BilledPackages(measure, size, scale, rounding) == TruePackages(measure, size, rounding)
  {
    hide BilledPackages, TruePackages;
    PackagesExactIff(measure, size, scale, rounding);
    SmallIsHarmless(measure % size, size, scale);
  }

  lemma MulGap(a: int, b: int, gap: int, c: int)
    requires a + gap <= b && c >= 0
    ensures a * c + gap * c <= b * c
  {
    MulLe(a + gap, b, c);
  }

  lemma SmallIsHarmless(r: nat, size: nat, scale: nat)
    requires r < size <= scale && scale >= 2 && scale % 2 == 0
    ensures r == 0 || 2 * scale * r >= size
    ensures 2 * scale * (size - r) > size
    ensures 2 * r >= size || 2 * scale * r < (scale - 1) * size
  {
    var p, s := r * scale, size * scale;
    Products(r, size, scale, p, s);
    if r >= 1 { MulGap(0, r, 1, scale); }
    MulGap(r, size, 1, scale);
    if 2 * r < size {
      var gap := if size == scale then 2 else 1;
      MulGap(r, size - r, gap, scale);
      DistributeInt(size, r, scale);
    }
  }

  lemma DistributeInt(a: int, b: int, c: int)
    ensures (a - b) * c == a * c - b * c
  {
  }

  lemma Products(r: nat, size: nat, scale: nat, p: int, s: int)
    requires p == r * scale && s == size * scale
    ensures 2 * scale * r == 2 * p
    ensures 2 * scale * (size - r) == 2 * (s - p)
    ensures (scale - 1) * size == s - size
  {
  }

  /** The engine's division by a package size, as a count over the 32-place scale. */
  lemma EngineCount(measure: nat, size: nat, rounding: Rounding)
    requires size >= 1
    ensures RoundToInteger(DivRound(measure as real, size as real), rounding)
         == BilledPackages(measure, size, DIVISION_SCALE, rounding)
  {
    hide Pow10, RoundToInteger, RoundScaled;
  }

  /** The engine's 32-place division, the measure and the size given in one decimal unit. */
  lemma EnginePackagesExact(measure: nat, size: nat, rounding: Rounding)
    requires 1 <= size <= DIVISION_SCALE
    ensures RoundToInteger(DivRound(measure as real, size as real), rounding)
         == TruePackages(measure, size, rounding)
  {
    hide Pow10, TruePackages, BilledPackages, DivRound, RoundToInteger;
    EngineCount(measure, size, rounding);
    DivisionScaleIsEven();
    SmallPackagesExact(measure, size, DIVISION_SCALE, rounding);
  }

  lemma OneOver(size: nat)
    requires size > 1
    ensures 1 / size == 0 && 1 % size == 1
  {
  }

  /** One unit of a package of three scales takes a package and rounds to none. */
  lemma TripleIsLost(size: nat, scale: nat)
    requires scale >= 2 && scale % 2 == 0 && size == 3 * scale
    ensures BilledPackages(1, size, scale, RoundCeil) == 0 && TruePackages(1, size, RoundCeil) == 1
  {
    OneOver(size);
    var g := BilledCount(1, size, scale, RoundCeil);
    PackagesExactIff(1, size, scale, RoundCeil);
    assert !Harmless(1, size, scale, RoundCeil);
    hide Harmless, BilledPackages, TruePackages, Rounds;
  }

  /** Above the bound a package can be lost: one unit of a package three times as large is billed
      none, although it takes one. */
  lemma HugePackageUndercharges(size: nat)
    requires size == 3 * DIVISION_SCALE
    ensures RoundToInteger(DivRound(1 as real, size as real), RoundCeil) == 0
    ensures TruePackages(1, size, RoundCeil) == 1
  {
    hide Pow10, TruePackages, BilledPackages, DivRound, RoundToInteger;
    EngineCount(1, size, RoundCeil);
    DivisionScaleIsEven();
    TripleIsLost(size, DIVISION_SCALE);
  }
}
