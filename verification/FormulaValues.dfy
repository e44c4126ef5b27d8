/** What a pricing formula is worth: by the values of its parts, and from its source text. */
module FormulaValues {
  import opened Decimals
  import opened Grammar
  import opened GrammarTheorems
  import opened Evaluator
  import opened Expressions
  import opened Division
  import Lexer
  import Percentile

  // ----- Operators -----

  lemma SumsAndProducts(lib: Library, l: Node, r: Node, vars: Variables, x: Amount, y: Amount)
    requires Eval(lib, l, vars) == Success(x) && Eval(lib, r, vars) == Success(y)
    ensures Eval(lib, Binary(Add, l, r), vars) == Success(x + y)
    ensures Eval(lib, Binary(Sub, l, r), vars) == Success(x - y)
    ensures Eval(lib, Binary(Mul, l, r), vars) == Success(x * y) && Times(x, y) == x * y
  {
  }

  /** 10^32. */
  const LAST_PLACE := 100_000_000_000_000_000_000_000_000_000_000

  lemma LastPlaceIs()
    ensures LAST_PLACE == DIVISION_SCALE
  {
    Pow10Add(16, 16);
    Pow10Add(8, 8);
    Pow10Add(4, 4);
    assert Pow10(4) == 10_000;
    hide Pow10;
    assert Pow10(8) == 100_000_000;
  }

  /** The quotient is within half a unit of the 32nd place, and exact if it has no more places. */
  lemma QuotientIsClose(lib: Library, l: Node, r: Node, vars: Variables, x: Amount, y: Amount)
    requires Eval(lib, l, vars) == Success(x) && Eval(lib, r, vars) == Success(y) && y != 0.0
    ensures var q := Eval(lib, Binary(Div, l, r), vars);
            && q.Success?
            && -0.5 <= ScaleUp(q.value, LAST_PLACE) - ScaleUp(x / y, LAST_PLACE) <= 0.5
            && (IsScaled(x / y, LAST_PLACE) ==> q.value == x / y)
  {
    LastPlaceIs();
    DivRoundError(x, y);
    if IsScaled(x / y, LAST_PLACE) { RoundScaledExact(x / y, DIVISION_SCALE); }
    hide RoundScaled, IsScaled, ScaleUp, Pow10;
  }

  lemma ZeroDivisorsFail(lib: Library, l: Node, r: Node, vars: Variables)
    requires Eval(lib, l, vars).Success? && Eval(lib, r, vars) == Success(0.0)
    ensures Eval(lib, Binary(Div, l, r), vars) == Failure(DivisionByZero)
    ensures Eval(lib, Binary(IntDiv, l, r), vars) == Failure(DivisionByZero)
    ensures Eval(lib, Binary(Mod, l, r), vars) == Failure(ModuloByZero)
  {
  }

  /** On whole numbers, for divisors up to 10^32: n // d is the number of times d goes into n, and
      n % d is what is left. */
  lemma WholeDivision(lib: Library, l: Node, r: Node, vars: Variables, n: nat, d: nat)
    requires Eval(lib, l, vars) == Success(n as real) && Eval(lib, r, vars) == Success(d as real)
    requires 1 <= d <= LAST_PLACE
    ensures Eval(lib, Binary(IntDiv, l, r), vars) == Success((n / d) as real)
    ensures Eval(lib, Binary(Mod, l, r), vars) == Success((n % d) as real)
  {
    LastPlaceIs();
    WholeNumbersFit(n, d);
    IntegerDivisionIff(n as real, d as real);
    WholeQuotient(n, d);
    hide Arithmetic, Truncate;
    assert Truncate(n as real / d as real) == n / d;
    ModIsRest(n, d);
  }

  lemma WholeQuotient(n: nat, d: nat)
    requires d >= 1
    ensures Truncate(n as real / d as real) == n / d
  {
    var z, divisor, q := n as real / d as real, d as real, n / d;
    TimesQuotient(n as real, divisor);
    TimesWhole(q, d);
    TimesWhole(q + 1, d);
    TimesStrict(q as real, z, divisor);
    TimesStrict(z, (q + 1) as real, divisor);
    assert q * d <= n < (q + 1) * d;
    hide Times;
    TruncateIs(z, q);
  }

  lemma TruncateIs(z: real, q: nat)
    requires q as real <= z < (q + 1) as real
    ensures Truncate(z) == q
  {
  }

  lemma ModIsRest(n: nat, d: nat)
    requires d >= 1
    ensures Arithmetic(Mod, n as real, d as real) == Success((n % d) as real)
  {
    WholeQuotient(n, d);
    TimesWhole(d, n / d);
    var r, k := RemainderFacts(n as real, d as real);
    hide Arithmetic, Times, Truncate;
    assert n == d * (n / d) + n % d;
  }

  /** A comparison is 1 exactly if it holds, and 0 otherwise. */
  lemma ComparisonsDecide(lib: Library, l: Node, r: Node, vars: Variables, x: Amount, y: Amount)
    requires Eval(lib, l, vars) == Success(x) && Eval(lib, r, vars) == Success(y)
    ensures Eval(lib, Compare(Eq, l, r), vars) == Success(if x == y then 1.0 else 0.0)
    ensures Eval(lib, Compare(Ne, l, r), vars) == Success(if x == y then 0.0 else 1.0)
    ensures Eval(lib, Compare(Lt, l, r), vars) == Success(if x < y then 1.0 else 0.0)
    ensures Eval(lib, Compare(Le, l, r), vars) == Success(if y < x then 0.0 else 1.0)
    ensures Eval(lib, Compare(Gt, l, r), vars) == Success(if y < x then 1.0 else 0.0)
    ensures Eval(lib, Compare(Ge, l, r), vars) == Success(if x < y then 0.0 else 1.0)
    ensures Eval(lib, Compare(In, l, r), vars) == Success(if lib.contains(x, y) then 1.0 else 0.0)
    ensures Eval(lib, Compare(NotIn, l, r), vars) == Success(if lib.contains(x, y) then 0.0 else 1.0)
  {
  }

  /** `and` is its first zero operand or the second one, `or` its first operand that is not zero or
      the second one; what decides early hides the other operand, even one that fails. */
  lemma ConnectivesDecide(lib: Library, l: Node, r: Node, vars: Variables, x: Amount)
    requires Eval(lib, l, vars) == Success(x)
    ensures Eval(lib, Logic(And, l, r), vars) == if x == 0.0 then Success(0.0) else Eval(lib, r, vars)
    ensures Eval(lib, Logic(Or, l, r), vars) == if x == 0.0 then Eval(lib, r, vars) else Success(x)
  {
  }

  lemma SignsAndNegation(lib: Library, e: Node, vars: Variables, x: Amount)
    requires Eval(lib, e, vars) == Success(x)
    ensures Eval(lib, Unary(Minus, e), vars) == Success(0.0 - x)
    ensures Eval(lib, Unary(Plus, e), vars) == Success(x)
    ensures Eval(lib, Unary(Not, e), vars) == Success(if x == 0.0 then 1.0 else 0.0)
  {
  }

  lemma TernaryChooses(lib: Library, c: Node, t: Node, e: Node, vars: Variables, x: Amount)
    requires Eval(lib, c, vars) == Success(x)
    ensures Eval(lib, Ternary(c, t, e), vars) == if x != 0.0 then Eval(lib, t, vars) else Eval(lib, e, vars)
  {
  }

  /** Leaves: a numeral is what the library reads, a variable what is measured, or nothing. */
  lemma LeavesAreWorth(lib: Library, text: string, name: string, vars: Variables)
    ensures lib.number(text).Some? ==> Eval(lib, Number(text), vars) == Success(lib.number(text).value)
    ensures lib.number(text).None? ==> Eval(lib, Number(text), vars) == Failure(InvalidNumber)
    ensures name in vars ==> Eval(lib, Variable(name), vars) == Success(vars[name])
    ensures name !in vars ==> Eval(lib, Variable(name), vars) == Success(0.0)
  {
  }

  // ----- Calls -----

  /** The arguments have these values. */
  ghost predicate ArgumentsAre(lib: Library, args: seq<Node>, vars: Variables, xs: seq<Amount>) {
    |args| == |xs| && forall i | 0 <= i < |args| :: Eval(lib, args[i], vars) == Success(xs[i])
  }

  lemma {:induction false} ArgumentsEvaluate(lib: Library, args: seq<Node>, vars: Variables, xs: seq<Amount>)
    requires ArgumentsAre(lib, args, vars, xs)
    ensures EvalArgs(lib, args, vars) == Success(xs)
    decreases args
  {
    if args != [] {
      assert Eval(lib, args[0], vars) == Success(xs[0]);
      ArgumentsEvaluate(lib, args[1..], vars, xs[1..]);
      assert xs == [xs[0]] + xs[1..];
    }
  }

  lemma CallIs(lib: Library, fn: string, args: seq<Node>, vars: Variables, xs: seq<Amount>)
    requires ArgumentsAre(lib, args, vars, xs)
    ensures Eval(lib, Call(fn, args), vars) == EvalCall(lib, fn, xs)
  {
    ArgumentsEvaluate(lib, args, vars, xs);
    hide EvalCall, EvalArgs;
  }

  lemma CeilIs(x: Amount, n: int)
    requires n as real - 1.0 < x <= n as real
    ensures Ceil(x) == n
  {
  }

  lemma FloorIs(x: Amount, n: int)
    requires n as real <= x < n as real + 1.0
    ensures Floor(x) == n
  {
  }

  /** ceil is the integer not below and less than one above. */
  lemma CeilIsAbove(lib: Library, e: Node, vars: Variables, x: Amount, n: int)
    requires Eval(lib, e, vars) == Success(x) && n as real - 1.0 < x <= n as real
    ensures Eval(lib, Call("ceil", [e]), vars) == Success(n as real)
  {
    CallIs(lib, "ceil", [e], vars, [x]);
    CeilIs(x, n);
    hide Eval, Ceil;
  }

  /** floor is the integer not above and less than one below. */
  lemma FloorIsBelow(lib: Library, e: Node, vars: Variables, x: Amount, n: int)
    requires Eval(lib, e, vars) == Success(x) && n as real <= x < n as real + 1.0
    ensures Eval(lib, Call("floor", [e]), vars) == Success(n as real)
  {
    CallIs(lib, "floor", [e], vars, [x]);
    FloorIs(x, n);
    hide Eval, Floor;
  }

  /** round is the nearest integer, a tie going away from zero. */
  lemma RoundIsNearest(lib: Library, e: Node, vars: Variables, x: Amount, n: int)
    requires Eval(lib, e, vars) == Success(x)
    requires n as real - 0.5 <= x <= n as real + 0.5
    requires (x == n as real - 0.5 ==> n >= 1) && (x == n as real + 0.5 ==> n <= -1)
    ensures Eval(lib, Call("round", [e]), vars) == Success(n as real)
  {
    CallIs(lib, "round", [e], vars, [x]);
    WholeRounding(x, n);
    hide Eval, RoundTo;
  }

  lemma WholeRounding(x: Amount, n: int)
    requires n as real - 0.5 <= x <= n as real + 0.5
    requires (x == n as real - 0.5 ==> n >= 1) && (x == n as real + 0.5 ==> n <= -1)
    ensures forall lib: Library :: RoundTo(lib, x, 0) == n as real
  {
    HalfAwayUnique(x, n);
    assert Pow10(0) == 1 && ScaleUp(x, 1) == x;
    hide HalfAway;
  }

  lemma PlacesRounding(lib: Library, x: Amount, k: nat, n: int)
    requires k <= 1000 && n as real - 0.5 < ScaleUp(x, Pow10(k)) < n as real + 0.5
    ensures RoundTo(lib, x, k) == n as real / Pow10(k) as real
  {
    HalfAwayUnique(ScaleUp(x, Pow10(k)), n);
    hide ScaleUp, Pow10, HalfAway;
  }

  lemma RoundCall(lib: Library, x: Amount, k: nat)
    requires k <= 1000
    ensures EvalCall(lib, "round", [x, k as real]) == Success(RoundTo(lib, x, k))
  {
    TruncateIs(k as real, k);
    hide RoundTo, Truncate;
  }

  /** round(x, k) for 0 to 1000 places: n units of the k-th place, if x is within half a unit of
      them and no tie. */
  lemma RoundsToPlaces(lib: Library, e: Node, places: Node, vars: Variables, x: Amount, k: nat, n: int)
    requires Eval(lib, e, vars) == Success(x) && Eval(lib, places, vars) == Success(k as real) && k <= 1000
    requires n as real - 0.5 < ScaleUp(x, Pow10(k)) < n as real + 0.5
    ensures Eval(lib, Call("round", [e, places]), vars) == Success(n as real / Pow10(k) as real)
  {
    CallIs(lib, "round", [e, places], vars, [x, k as real]);
    RoundCall(lib, x, k);
    PlacesRounding(lib, x, k, n);
    hide Eval, EvalCall, ScaleUp, Pow10, RoundTo;
  }

  /** The places of round(x, y) are the whole part of y, kept to 32 bits with a sign: 2^32 more make no
      difference. */
  lemma PlacesWrap(lib: Library, e: Node, places: Node, same: Node, vars: Variables, x: Amount, y: Amount, n: nat, k: int)
    requires Eval(lib, e, vars) == Success(x) && Eval(lib, places, vars) == Success(y) && n as real <= y < n as real + 1.0
    requires Eval(lib, same, vars) == Success(k as real) && -2_147_483_648 <= k < 2_147_483_648 && (n - k) % 4_294_967_296 == 0
    ensures Eval(lib, Call("round", [e, places]), vars) == Eval(lib, Call("round", [e, same]), vars)
    ensures Eval(lib, Call("round", [e, places]), vars) == Success(RoundTo(lib, x, k))
  {
    CallIs(lib, "round", [e, places], vars, [x, y]);
    CallIs(lib, "round", [e, same], vars, [x, k as real]);
    TruncateIs(y, n);
    TruncateWhole(k);
    WrapsTo(n, k);
    WrapsTo(k, k);
    hide Eval, Truncate, RoundTo, Wrap32;
  }

  lemma TruncateWhole(k: int)
    ensures Truncate(k as real) == k
  {
  }

  lemma WrapsTo(n: int, k: int)
    requires -2_147_483_648 <= k < 2_147_483_648 && (n - k) % 4_294_967_296 == 0
    ensures Wrap32(n) == k
  {
  }

  /** min and max are arguments that no other one undercuts or exceeds. */
  lemma ExtremesOfArguments(lib: Library, args: seq<Node>, vars: Variables, xs: seq<Amount>)
    requires ArgumentsAre(lib, args, vars, xs) && |xs| >= 1
    ensures var low, high := Eval(lib, Call("min", args), vars), Eval(lib, Call("max", args), vars);
            && low.Success? && low.value in xs && (forall x | x in xs :: low.value <= x)
            && high.Success? && high.value in xs && (forall x | x in xs :: x <= high.value)
  {
    CallIs(lib, "min", args, vars, xs);
    CallIs(lib, "max", args, vars, xs);
    hide Eval, Least, Greatest;
  }

  lemma ClampHolds(lib: Library, args: seq<Node>, vars: Variables, x: Amount, low: Amount, high: Amount)
    requires ArgumentsAre(lib, args, vars, [x, low, high]) && low <= high
    ensures Eval(lib, Call("clamp", args), vars) == Success(if x < low then low else if high < x then high else x)
  {
    CallIs(lib, "clamp", args, vars, [x, low, high]);
    hide Eval;
  }

  lemma IfChooses(lib: Library, args: seq<Node>, vars: Variables, x: Amount, yes: Amount, no: Amount)
    requires ArgumentsAre(lib, args, vars, [x, yes, no])
    ensures Eval(lib, Call("if", args), vars) == Success(if x != 0.0 then yes else no)
  {
    CallIs(lib, "if", args, vars, [x, yes, no]);
    hide Eval;
  }

  /** tier(x, bound, rate, ..., rest): the rate after the first bound above x, or the rest. */
  lemma TierChooses(lib: Library, args: seq<Node>, vars: Variables, xs: seq<Amount>, bounds: nat, j: nat)
    requires ArgumentsAre(lib, args, vars, xs) && |xs| == 2 * bounds + 2 && j <= bounds
    requires forall i | 0 <= i < j :: xs[2 * i + 1] <= xs[0]
    requires j < bounds ==> xs[0] < xs[2 * j + 1]
    ensures Eval(lib, Call("tier", args), vars) == Success(if j < bounds then xs[2 * j + 2] else xs[2 * bounds + 1])
  {
    CallIs(lib, "tier", args, vars, xs);
    hide Eval;
    TierIndexIs(xs, bounds, j, 0);
  }

  lemma {:induction false} TierIndexIs(xs: seq<Amount>, bounds: nat, j: nat, passed: nat)
    requires |xs| == 2 * bounds + 2 && passed <= j <= bounds
    requires forall i | passed <= i < j :: xs[2 * i + 1] <= xs[0]
    requires j < bounds ==> xs[0] < xs[2 * j + 1]
    ensures TierIndex(xs, 2 * passed + 1) == if j < bounds then 2 * j + 2 else 2 * bounds + 1
    decreases j - passed
  {
    if passed < j {
      assert xs[2 * passed + 1] <= xs[0];
      TierIndexIs(xs, bounds, j, passed + 1);
    }
  }

  /** percentile(p, v, ...) with the values in order: the mean of two neighbours, weighted by where
      p percent of the way falls between them. */
  lemma PercentileMixes(lib: Library, args: seq<Node>, vars: Variables, p: Amount, values: seq<Amount>, sorted: seq<Amount>,
                        rank: real, k: nat)
    requires ArgumentsAre(lib, args, vars, [p] + values) && 0.0 <= p <= 100.0 && |values| >= 2
    requires Percentile.Ordered(sorted) && multiset(sorted) == multiset(values)
    requires rank == Times(DivRound(p, 100.0), (|values| - 1) as real)
    requires k + 1 < |sorted| && k as real <= rank <= k as real + 1.0
    ensures Eval(lib, Call("percentile", args), vars)
         == Success(sorted[k] + Times(sorted[k + 1] - sorted[k], rank - k as real))
  {
    CallIs(lib, "percentile", args, vars, [p] + values);
    hide Eval;
    assert ([p] + values)[1..] == values;
    Percentile.PercentileMixes(p, values, sorted, rank, k);
    hide DivRound, Percentile.PercentileOf, Times, Percentile.Ordered;
  }

  lemma PercentileOfOne(lib: Library, args: seq<Node>, vars: Variables, p: Amount, value: Amount)
    requires ArgumentsAre(lib, args, vars, [p, value])
    ensures Eval(lib, Call("percentile", args), vars)
         == if 0.0 <= p <= 100.0 then Success(value) else Failure(PercentileRange)
  {
    CallIs(lib, "percentile", args, vars, [p, value]);
    hide Eval;
    assert [p, value][1..] == [value];
  }
}
