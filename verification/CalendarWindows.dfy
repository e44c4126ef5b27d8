/** Calendar windows: the aligned run of days, weeks, months or years that a date falls into. */
module CalendarWindows {
  import opened Decimals

  // ----- Division as the language does it -----

  /** Division truncating towards zero. */
  function TruncDiv(a: int, b: int): int
    requires b != 0
  {
    if a >= 0 then a / b else -((-a) / b)
  }

  function TruncMod(a: int, b: int): int
    requires b != 0
  {
    a - b * TruncDiv(a, b)
  }

  /** The remainder is smaller than the divisor and has the dividend's sign. */
  lemma TruncFacts(a: int, b: int)
    requires b != 0
    ensures a == b * TruncDiv(a, b) + TruncMod(a, b)
    ensures -Magnitude(b) < TruncMod(a, b) < Magnitude(b)
    ensures a >= 0 ==> TruncMod(a, b) >= 0
    ensures a <= 0 ==> TruncMod(a, b) <= 0
  {
    var n := if a >= 0 then a else -a;
    assert n == b * (n / b) + n % b;
  }

  function Magnitude(b: int): int {
    if b >= 0 then b else -b
  }

  /** Quotient rounded down, from truncating operations. */
  function FloorDivide(dividend: int, divisor: int): int
    requires divisor != 0
  {
    var remainder := TruncMod(dividend, divisor);
    if remainder != 0 && (remainder < 0) != (divisor < 0) then TruncDiv(dividend, divisor) - 1
    else TruncDiv(dividend, divisor)
  }

  /** A whole number of steps. */
  function Multiple(n: int, step: int): int {
    n * step
  }

  /** For every dividend and divisor of either sign, the quotient is the floor of the exact one. */
  lemma FloorDivideIsFloor(a: int, b: int)
    requires b != 0
    ensures FloorDivide(a, b) == (a as real / b as real).Floor
    ensures b > 0 ==> Multiple(FloorDivide(a, b), b) <= a < Multiple(FloorDivide(a, b), b) + b
  {
    var q := FloorDivide(a, b);
    var rest := a - Multiple(q, b);
    FloorRemainder(a, b);
    hide TruncDiv, TruncMod, FloorDivide;
    assert Multiple(q, b) == -Multiple(q, -b);
    if b > 0 {
      PositiveQuotient(a, b, q, rest);
    } else {
      PositiveQuotient(-a, -b, q, -rest);
      SignsCancel(a as real, b as real);
    }
  }

  lemma FloorRemainder(a: int, b: int)
    requires b != 0
    ensures var rest := a - Multiple(FloorDivide(a, b), b);
            if b > 0 then 0 <= rest < b else b < rest <= 0
  {
    TruncFacts(a, b);
    var t := TruncDiv(a, b);
    assert Multiple(t - 1, b) == b * t - b && Multiple(t, b) == b * t;
    hide TruncDiv, Multiple;
  }

  lemma PositiveQuotient(a: int, b: int, q: int, rest: int)
    requires b > 0 && a == Multiple(q, b) + rest && 0 <= rest < b
    ensures (a as real / b as real).Floor == q
  {
    var divisor := b as real;
    var y := a as real / divisor;
    DivMul(a as real, divisor);
    MulStrict(q as real, y, divisor);
    MulStrict(y, (q + 1) as real, divisor);
    assert q as real * divisor == Multiple(q, b) as real;
    assert (q + 1) as real * divisor == q as real * divisor + divisor;
    hide Multiple;
    FloorIs(y, q);
  }

  lemma FloorIs(y: real, q: int)
    requires q as real <= y < (q + 1) as real
    ensures y.Floor == q
  {
  }

  lemma SignsCancel(x: real, y: real)
    requires y != 0.0
    ensures (-x) / (-y) == x / y
  {
    DivMul(x, y);
    var z := x / y;
    assert z * (-y) == -x;
    MulDiv(z, -y);
  }

  // ----- Elapsed days -----

  const DAY_NANOSECONDS := 86_400_000_000_000
  const MAX_DURATION := 0x7FFF_FFFF_FFFF_FFFF
  const MIN_DURATION := -0x8000_0000_0000_0000

  /** A difference of instants, kept at the ends of its 64 bits when it does not fit. */
  function Saturated(nanoseconds: int): int {
    if nanoseconds > MAX_DURATION then MAX_DURATION
    else if nanoseconds < MIN_DURATION then MIN_DURATION
    else nanoseconds
  }

  /** The whole days between two midnights, by way of a saturating duration. */
  function ElapsedDays(days: int): int {
    TruncDiv(Saturated(days * DAY_NANOSECONDS), DAY_NANOSECONDS)
  }

  /** The most days a duration can hold: about 292 years. */
  const DAYS_REACH := 106_751

  lemma ElapsedIsClamped(days: int)
    ensures ElapsedDays(days)
         == if days > DAYS_REACH then DAYS_REACH else if days < -DAYS_REACH then -DAYS_REACH else days
  {
  }

  // ----- Windows -----

  datatype Unit = Days | Weeks | Months | Years

  /** A civil date: days since 1 January 2000, with its year and month. */
  datatype Date = Date(day: int, year: int, month: int)

  /** Where a window begins or ends. */
  datatype Boundary = AtDay(day: int) | AtMonth(year: int, month: int) | AtYear(year: int)

  /** The unit's own count of a date or boundary from the window anchor: days since Saturday
      1 January 2000 or Monday 3 January 2000, months or years since January 2000. */
  function Position(unit: Unit, date: Date): int {
    match unit
    case Days => date.day
    case Weeks => date.day - 2
    case Months => (date.year - 2000) * 12 + date.month - 1
    case Years => date.year - 2000
  }

  function BoundaryPosition(unit: Unit, b: Boundary): int {
    match b
    case AtDay(day) => if unit.Weeks? then day - 2 else day
    case AtMonth(year, month) => (year - 2000) * 12 + month - 1
    case AtYear(year) => year - 2000
  }

  /** Length of a window in the unit's positions. */
  function StepOf(unit: Unit, count: int): int {
    if unit.Weeks? then 7 * count else count
  }

  /** A year and a month out of range, brought back to January to December. */
  function NormalMonth(year: int, month: int): (r: (int, int))
    ensures 1 <= r.1 <= 12 && r.0 * 12 + r.1 == year * 12 + month
  {
    (year + (month - 1) / 12, (month - 1) % 12 + 1)
  }

  /** Months since the start of year 0, January being 1. */
  function CivilMonth(year: int, month: int): int {
    12 * year + month
  }

  /** In civil numbers: the window has the length asked for, starts a whole number of steps from the
      start of January 2000 (from its first Monday, for weeks), and holds the date; a date more than 106751
      days from there may be missed by days and weeks. */
  predicate Holds(unit: Unit, count: int, now: Date, start: Boundary, end: Boundary)
    requires count >= 1
  {
    match unit
    case Days =>
      && start.AtDay? && end.AtDay? && end.day == start.day + count && start.day % count == 0
      && (-106751 <= now.day <= 106751 ==> start.day <= now.day < end.day)
    case Weeks =>
      && start.AtDay? && end.AtDay? && end.day == start.day + 7 * count
      && (start.day - 2) % (7 * count) == 0 && (start.day - 2) % 7 == 0
      && (-106751 <= now.day - 2 <= 106751 ==> start.day <= now.day < end.day)
    case Months =>
      && start.AtMonth? && end.AtMonth? && 1 <= start.month <= 12 && 1 <= end.month <= 12
      && CivilMonth(end.year, end.month) == CivilMonth(start.year, start.month) + count
      && (CivilMonth(start.year, start.month) - CivilMonth(2000, 1)) % count == 0
      && CivilMonth(start.year, start.month) <= CivilMonth(now.year, now.month) < CivilMonth(end.year, end.month)
    case Years =>
      && start.AtYear? && end.AtYear? && end.year == start.year + count
      && (start.year - 2000) % count == 0
      && start.year <= now.year < end.year
  }

  lemma WholeSteps(n: int, step: int)
    requires step >= 1
    ensures Multiple(n, step) % step == 0
  {
    var m := Multiple(n, step);
    var q := m / step;
    assert m == Multiple(q, step) + m % step;
    hide Multiple;
    if q < n { MultiplesApart(q, n, step); }
    if n < q { MultiplesApart(n, q, step); }
  }

  lemma WholeWeeks(n: int, count: int)
    requires count >= 1
    ensures Multiple(n, 7 * count) % 7 == 0
  {
    assert n * (7 * count) == (n * count) * 7;
    WholeSteps(n * count, 7);
  }

  /** The aligned start is at or before the position, less than a step away. */
  lemma AlignedStart(position: int, step: int) returns (start: int)
    requires step >= 1
    ensures start == Multiple(FloorDivide(position, step), step)
    ensures start % step == 0 && start <= position < start + step
  {
    FloorDivideIsFloor(position, step);
    start := Multiple(FloorDivide(position, step), step);
    WholeSteps(FloorDivide(position, step), step);
    hide FloorDivide;
  }

  lemma DayWindowHolds(now: Date, unit: Unit, count: int, first: int)
    requires count >= 1 && (unit.Days? || unit.Weeks?)
    requires var anchor := if unit.Weeks? then 2 else 0;
             first == anchor + Multiple(FloorDivide(ElapsedDays(now.day - anchor), StepOf(unit, count)), StepOf(unit, count))
    ensures Holds(unit, count, now, AtDay(first), AtDay(first + StepOf(unit, count)))
  {
    var anchor := if unit.Weeks? then 2 else 0;
    var start := AlignedStart(ElapsedDays(now.day - anchor), StepOf(unit, count));
    ElapsedIsClamped(now.day - anchor);
    if unit.Weeks? { WholeWeeks(FloorDivide(ElapsedDays(now.day - anchor), 7 * count), count); }
    hide FloorDivide, Multiple, ElapsedDays;
  }

  lemma MonthWindowHolds(now: Date, count: int, start: Boundary, end: Boundary)
    requires count >= 1 && start.AtMonth? && end.AtMonth? && 1 <= start.month <= 12 && 1 <= end.month <= 12
    requires var months := CivilMonth(now.year, now.month) - CivilMonth(2000, 1);
             CivilMonth(start.year, start.month) == CivilMonth(2000, 1) + Multiple(FloorDivide(months, count), count)
    requires CivilMonth(end.year, end.month) == CivilMonth(start.year, start.month) + count
    ensures Holds(Months, count, now, start, end)
  {
    var aligned := AlignedStart(CivilMonth(now.year, now.month) - CivilMonth(2000, 1), count);
    hide FloorDivide, Multiple;
  }

  lemma YearWindowHolds(now: Date, count: int, startYear: int)
    requires count >= 1 && startYear == 2000 + Multiple(FloorDivide(now.year - 2000, count), count)
    ensures Holds(Years, count, now, AtYear(startYear), AtYear(startYear + count))
  {
    var aligned := AlignedStart(now.year - 2000, count);
    hide FloorDivide, Multiple;
  }

  /** The window a date resolves to. */
  method ResolveWindow(now: Date, unit: Unit, count: int) returns (start: Boundary, end: Boundary)
    requires count >= 1
    ensures BoundaryPosition(unit, start) == WindowStart(unit, Position(unit, now), count)
    ensures BoundaryPosition(unit, end) == BoundaryPosition(unit, start) + StepOf(unit, count)
    ensures Holds(unit, count, now, start, end)
  {
    hide FloorDivide, TruncDiv, Holds;
    match unit {
      case Days | Weeks =>
        var anchor := if unit.Weeks? then 2 else 0;
        var elapsed := ElapsedDays(now.day - anchor);
        var step := count;
        if unit.Weeks? { step := step * 7; }
        var first := anchor + FloorDivide(elapsed, step) * step;
        assert step == StepOf(unit, count);
        start, end := AtDay(first), AtDay(first + step);
        DayWindowHolds(now, unit, count, first);
      case Months =>
        var currentMonth := now.year * 12 + now.month - 1;
        var anchorMonth := 2000 * 12;
        var startMonth := anchorMonth + FloorDivide(currentMonth - anchorMonth, count) * count;
        MonthParts(startMonth);
        var (year, month) := NormalMonth(TruncDiv(startMonth, 12), TruncMod(startMonth, 12) + 1);
        start := AtMonth(year, month);
        var (endYear, endMonth) := NormalMonth(year, month + count);
        end := AtMonth(endYear, endMonth);
        MonthWindowHolds(now, count, start, end);
      case Years =>
        var startYear := 2000 + FloorDivide(now.year - 2000, count) * count;
        start, end := AtYear(startYear), AtYear(startYear + count);
        YearWindowHolds(now, count, startYear);
    }
  }

  /** Quotient and remainder by twelve name the same month, before year 0 as well. */
  lemma MonthParts(month: int)
    ensures TruncDiv(month, 12) * 12 + TruncMod(month, 12) == month
  {
  }

  /** What the date's position counts as: day and week positions go through a duration. */
  function Reached(unit: Unit, position: int): int {
    if unit.Days? || unit.Weeks? then ElapsedDays(position) else position
  }

  function WindowStart(unit: Unit, position: int, count: int): int
    requires count >= 1
  {
    Multiple(FloorDivide(Reached(unit, position), StepOf(unit, count)), StepOf(unit, count))
  }

  /** The position lies in the half-open window that starts at `start`. */
  predicate Contains(start: int, step: int, position: int) {
    start <= position < start + step
  }

  lemma NextMultiple(n: int, step: int)
    ensures Multiple(n + 1, step) == Multiple(n, step) + step
    ensures Multiple(n - 1, step) == Multiple(n, step) - step
  {
  }

  lemma {:induction false} MultiplesApart(p: int, q: int, step: int)
    requires p < q && step > 0
    ensures Multiple(p, step) + step <= Multiple(q, step)
    decreases q - p
  {
    hide Multiple;
    NextMultiple(q - 1, step);
    if p < q - 1 { MultiplesApart(p, q - 1, step); }
  }

  lemma QuotientUnique(a: int, b: int, q: int)
    requires b > 0 && Multiple(q, b) <= a < Multiple(q, b) + b
    ensures FloorDivide(a, b) == q
  {
    FloorDivideIsFloor(a, b);
    var f := FloorDivide(a, b);
    hide FloorDivide, Multiple;
    if f < q { MultiplesApart(f, q, b); }
    if q < f { MultiplesApart(q, f, b); }
  }

  /** The first position of the window that holds the earliest date within reach. */
  function FirstHeld(unit: Unit, count: int): int
    requires count >= 1
  {
    Multiple(FloorDivide(-DAYS_REACH, StepOf(unit, count)), StepOf(unit, count))
  }

  /** The position where the window that holds the latest date within reach ends. */
  function HeldUntil(unit: Unit, count: int): int
    requires count >= 1
  {
    Multiple(FloorDivide(DAYS_REACH, StepOf(unit, count)), StepOf(unit, count)) + StepOf(unit, count)
  }

  /** Exactly the dates whose window contains them: all, for months and years; for days and weeks,
      those from the start of the earliest window within reach to the end of the latest one. */
  lemma WindowContainsIff(unit: Unit, position: int, count: int)
    requires count >= 1
    ensures Contains(WindowStart(unit, position, count), StepOf(unit, count), position) <==>
            unit.Months? || unit.Years? || FirstHeld(unit, count) <= position < HeldUntil(unit, count)
  {
    var step := StepOf(unit, count);
    ElapsedIsClamped(position);
    FloorDivideIsFloor(Reached(unit, position), step);
    FloorDivideIsFloor(-DAYS_REACH, step);
    FloorDivideIsFloor(DAYS_REACH, step);
    hide FloorDivide, Multiple, ElapsedDays;
  }

  /** Dates a window can always be found for: any month or year, and any day within the reach of a
      duration, which spans 1707 to 2292. */
  predicate WithinReach(unit: Unit, position: int) {
    unit.Months? || unit.Years? || -DAYS_REACH <= position <= DAYS_REACH
  }

  lemma ReachedWithin(unit: Unit, position: int)
    requires WithinReach(unit, position)
    ensures Reached(unit, position) == position
  {
    ElapsedIsClamped(position);
    hide ElapsedDays;
  }

  /** Within reach, before as after the anchor, a date lies in its window, every date of the window
      gets that same window, and the date where it ends gets the next one. */
  lemma WindowsTile(unit: Unit, position: int, other: int, count: int)
    requires count >= 1 && WithinReach(unit, position) && WithinReach(unit, other)
    ensures var step := StepOf(unit, count);
            var start := WindowStart(unit, position, count);
            && Contains(start, step, position)
            && (Contains(start, step, other) ==> WindowStart(unit, other, count) == start)
            && (other == start + step ==> WindowStart(unit, other, count) == start + step)
            && (other == start - step ==> WindowStart(unit, other, count) == start - step)
  {
    var step := StepOf(unit, count);
    ReachedWithin(unit, position);
    ReachedWithin(unit, other);
    FloorDivideIsFloor(position, step);
    var q := FloorDivide(position, step);
    hide FloorDivide, Reached, StepOf, Multiple;
    NextMultiple(q, step);
    var start := Multiple(q, step);
    if Contains(start, step, other) { QuotientUnique(other, step, q); }
    if other == start + step { QuotientUnique(other, step, q + 1); }
    if other == start - step { QuotientUnique(other, step, q - 1); }
  }

  /** Any two dates, within reach or not, get the same window or disjoint ones. */
  lemma SameOrDisjoint(unit: Unit, a: int, b: int, count: int)
    requires count >= 1
    ensures var step := StepOf(unit, count);
            var s, t := WindowStart(unit, a, count), WindowStart(unit, b, count);
            s == t || s + step <= t || t + step <= s
  {
    var step := StepOf(unit, count);
    var p, q := FloorDivide(Reached(unit, a), step), FloorDivide(Reached(unit, b), step);
    hide FloorDivide, Reached, StepOf, Multiple;
    if p < q { MultiplesApart(p, q, step); }
    if q < p { MultiplesApart(q, p, step); }
  }

  /** Beyond reach a day window can miss its date: the day after the last reachable one, in April
      2292, resolves to the day before it. */
  lemma BeyondReachMissesItsDay()
    ensures WindowStart(Days, DAYS_REACH + 1, 1) == DAYS_REACH
    ensures !Contains(WindowStart(Days, DAYS_REACH + 1, 1), StepOf(Days, 1), DAYS_REACH + 1)
  {
    ElapsedIsClamped(DAYS_REACH + 1);
    QuotientUnique(DAYS_REACH, 1, DAYS_REACH);
  }

  /** One-day windows hold exactly the dates within reach. */
  lemma SingleDayContainsIff(position: int)
    ensures Contains(WindowStart(Days, position, 1), StepOf(Days, 1), position) <==> WithinReach(Days, position)
  {
    WindowContainsIff(Days, position, 1);
    QuotientUnique(-DAYS_REACH, 1, -DAYS_REACH);
    QuotientUnique(DAYS_REACH, 1, DAYS_REACH);
    hide FloorDivide, WindowStart;
  }

  /** Windows of a thousand days hold every date from 249 days before the reach to 248 after it. */
  lemma ThousandDaysContainIff(position: int)
    ensures Contains(WindowStart(Days, position, 1000), StepOf(Days, 1000), position) <==> -107_000 <= position < 107_000
  {
    WindowContainsIff(Days, position, 1000);
    QuotientUnique(-DAYS_REACH, 1000, -107);
    QuotientUnique(DAYS_REACH, 1000, 106);
    hide FloorDivide, WindowStart;
  }
}
