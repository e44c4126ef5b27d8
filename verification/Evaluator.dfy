/** Static checks and evaluation of pricing expressions. */
module Evaluator {
  import opened Decimals
  import opened Grammar
  import Percentile

  /** What the decimal library decides: the numerals it reads, the text containment behind
      `in`, and rounding to a number of places outside the modelled range. */
  datatype Library = Library(
    number: string -> Option<Amount>,
    contains: (Amount, Amount) -> bool,
    roundPlaces: (Amount, int) -> Amount)

  datatype EvalError =
    | DivisionByZero | ModuloByZero | PercentileRange
    | InvalidNumber | WrongArgumentCount | DisallowedFunction

  type Evaluated = Result<Amount, EvalError>

  type Variables = map<string, Amount>

  // ----- Static checks -----

  /** Argument counts, at every depth. */
  predicate CallsOk(n: Node)
    decreases n
  {
    match n
    case Number(_) => true
    case Variable(_) => true
    case Binary(_, l, r) => CallsOk(l) && CallsOk(r)
    case Unary(_, e) => CallsOk(e)
    case Call(fn, args) => ArityOk(fn, |args|) && forall a | a in args :: CallsOk(a)
    case Ternary(c, t, e) => CallsOk(c) && CallsOk(t) && CallsOk(e)
    case Compare(_, l, r) => CallsOk(l) && CallsOk(r)
    case Logic(_, l, r) => CallsOk(l) && CallsOk(r)
  }

  predicate ArityOk(fn: string, count: nat) {
    if fn == "if" || fn == "clamp" then count == 3
    else if fn == "tier" then count >= 4 && count % 2 == 0
    else if fn == "percentile" then count >= 2
    else if fn == "min" || fn == "max" then count >= 1
    else if fn == "ceil" || fn == "floor" then count == 1
    else if fn == "round" then count == 1 || count == 2
    else true
  }

  /** The variables an expression mentions. */
  function Mentions(n: Node): set<string>
    decreases n
  {
    match n
    case Number(_) => {}
    case Variable(name) => {name}
    case Binary(_, l, r) => Mentions(l) + Mentions(r)
    case Unary(_, e) => Mentions(e)
    case Call(_, args) => set a, v | a in args && v in Mentions(a) :: v
    case Ternary(c, t, e) => Mentions(c) + Mentions(t) + Mentions(e)
    case Compare(_, l, r) => Mentions(l) + Mentions(r)
    case Logic(_, l, r) => Mentions(l) + Mentions(r)
  }

  // ----- Evaluation -----

  function Truth(b: bool): Amount {
    if b then 1.0 else 0.0
  }

  function CompareAmounts(lib: Library, op: CompareOp, x: Amount, y: Amount): bool {
    match op
    case Eq => x == y
    case Ne => x != y
    case Lt => x < y
    case Le => x <= y
    case Gt => x > y
    case Ge => x >= y
    case In => lib.contains(x, y)
    case NotIn => !lib.contains(x, y)
  }

  function Arithmetic(op: BinaryOp, x: Amount, y: Amount): Evaluated {
    match op
    case Add => Success(x + y)
    case Sub => Success(x - y)
    case Mul => Success(x * y)
    case Div => if y == 0.0 then Failure(DivisionByZero) else Success(DivRound(x, y))
    case IntDiv => if y == 0.0 then Failure(DivisionByZero) else Success(Truncate(DivRound(x, y)) as real)
    case Mod => if y == 0.0 then Failure(ModuloByZero) else Success(x - y * (Truncate(x / y) as real))
  }

  /** Both sides of a binary operator are always evaluated; `and`, `or` and the ternary skip what
      they do not need; a call evaluates every argument first. */
  function Eval(lib: Library, n: Node, vars: Variables): Evaluated
    decreases n, 0
  {
    match n
    case Number(text) =>
      if lib.number(text).Some? then Success(lib.number(text).value) else Failure(InvalidNumber)
    case Variable(name) => Success(if name in vars then vars[name] else 0.0)
    case Unary(op, e) =>
      var v := Eval(lib, e, vars);
      if v.Failure? then v
      else Success(match op case Minus => -v.value case Not => Truth(v.value == 0.0) case Plus => v.value)
    case Binary(op, l, r) =>
      var x := Eval(lib, l, vars);
      if x.Failure? then x
      else
        var y := Eval(lib, r, vars);
        if y.Failure? then y else Arithmetic(op, x.value, y.value)
    case Compare(op, l, r) =>
      var x := Eval(lib, l, vars);
      if x.Failure? then x
      else
        var y := Eval(lib, r, vars);
        if y.Failure? then y else Success(Truth(CompareAmounts(lib, op, x.value, y.value)))
    case Logic(op, l, r) =>
      var x := Eval(lib, l, vars);
      if x.Failure? then x
      else if op.And? == (x.value == 0.0) then x
      else Eval(lib, r, vars)
    case Ternary(c, t, e) =>
      var v := Eval(lib, c, vars);
      if v.Failure? then v
      else if v.value == 0.0 then Eval(lib, e, vars)
      else Eval(lib, t, vars)
    case Call(fn, args) =>
      var values := EvalArgs(lib, args, vars);
      if values.Failure? then Failure(values.error) else EvalCall(lib, fn, values.value)
  }

  function EvalArgs(lib: Library, args: seq<Node>, vars: Variables): (r: Result<seq<Amount>, EvalError>)
    ensures r.Success? ==> |r.value| == |args|
    decreases args
  {
    if args == [] then Success([])
    else
      var v := Eval(lib, args[0], vars);
      if v.Failure? then Failure(v.error)
      else
        var rest := EvalArgs(lib, args[1..], vars);
        if rest.Failure? then rest else Success([v.value] + rest.value)
  }

  /** The smallest argument. */
  function Least(args: seq<Amount>): (r: Amount)
    requires args != []
    ensures r in args && forall a | a in args :: r <= a
  {
    if |args| == 1 then args[0]
    else
      assert args == [args[0]] + args[1..];
      var rest := Least(args[1..]);
      if args[0] <= rest then args[0] else rest
  }

  function Greatest(args: seq<Amount>): (r: Amount)
    requires args != []
    ensures r in args && forall a | a in args :: a <= r
  {
    if |args| == 1 then args[0]
    else
      assert args == [args[0]] + args[1..];
      var rest := Greatest(args[1..]);
      if args[0] >= rest then args[0] else rest
  }

  /** Where tier(value, threshold, rate, ..., default) finds its rate: the rate after the first
      threshold above the value, or the last argument. */
  function TierIndex(args: seq<Amount>, index: nat): (k: nat)
    requires 1 <= index && index % 2 == 1 && args != []
    ensures k < |args|
    ensures || (k % 2 == 0 && index < k && args[0] < args[k - 1])
            || (k == |args| - 1 && forall i | index <= i < k && i % 2 == 1 :: args[i] <= args[0])
    ensures forall i | index <= i < k - 1 && i % 2 == 1 :: args[i] <= args[0]
    decreases |args| - index
  {
    if index >= |args| - 1 then |args| - 1
    else if args[0] < args[index] then index + 1
    else TierIndex(args, index + 2)
  }

  function Clamp(value: Amount, low: Amount, high: Amount): (r: Amount)
    ensures low <= high ==> low <= r <= high
    ensures low <= value <= high ==> r == value
  {
    if value < low then low else if value > high then high else value
  }

  const MODELLED_PLACES: nat := 1000

  /** An integer as a signed 32-bit number keeps it. */
  function Wrap32(n: int): (r: int)
    ensures -0x8000_0000 <= r < 0x8000_0000 && (n - r) % 0x1_0000_0000 == 0
  {
    (n + 0x8000_0000) % 0x1_0000_0000 - 0x8000_0000
  }

  function RoundTo(lib: Library, x: Amount, places: int): Amount {
    if 0 <= places <= MODELLED_PLACES then RoundScaled(x, Pow10(places))
    else lib.roundPlaces(x, places)
  }

  function EvalCall(lib: Library, fn: string, args: seq<Amount>): Evaluated {
    if fn == "ceil" then
      if |args| < 1 then Failure(WrongArgumentCount) else Success(Ceil(args[0]) as real)
    else if fn == "floor" then
      if |args| < 1 then Failure(WrongArgumentCount) else Success(Floor(args[0]) as real)
    else if fn == "min" then
      if |args| < 1 then Failure(WrongArgumentCount) else Success(Least(args))
    else if fn == "max" then
      if |args| < 1 then Failure(WrongArgumentCount) else Success(Greatest(args))
    else if fn == "round" then
      if |args| < 1 then Failure(WrongArgumentCount)
      else Success(RoundTo(lib, args[0], if |args| == 2 then Wrap32(Truncate(args[1])) else 0))
    else if fn == "if" then
      if |args| < 2 || (args[0] == 0.0 && |args| < 3) then Failure(WrongArgumentCount)
      else Success(if args[0] == 0.0 then args[2] else args[1])
    else if fn == "tier" then
      if |args| < 1 then Failure(WrongArgumentCount) else Success(args[TierIndex(args, 1)])
    else if fn == "clamp" then
      if |args| < 3 then Failure(WrongArgumentCount) else Success(Clamp(args[0], args[1], args[2]))
    else if fn == "percentile" then
      if |args| < 2 then Failure(WrongArgumentCount)
      else if args[0] < 0.0 || args[0] > 100.0 then Failure(PercentileRange)
      else Success(Percentile.PercentileOf(args[0], args[1..]))
    else Failure(DisallowedFunction)
  }

  // ----- The loops inside a call -----

  method SelectExtreme(args: seq<Amount>, least: bool) returns (value: Amount)
    requires args != []
    ensures value == if least then Least(args) else Greatest(args)
  {
    value := args[0];
    for i := 1 to |args|
      invariant value in args
      invariant forall j | 0 <= j < i :: if least then value <= args[j] else args[j] <= value
    {
      if (least && args[i] < value) || (!least && args[i] > value) { value := args[i]; }
    }
  }

  method SelectTier(args: seq<Amount>) returns (rate: Amount)
    requires args != []
    ensures rate == args[TierIndex(args, 1)]
  {
    var index := 1;
    while index < |args| - 1
      invariant 1 <= index && index % 2 == 1
      invariant TierIndex(args, 1) == TierIndex(args, index)
      decreases |args| - index
    {
      if args[0] < args[index] { return args[index + 1]; }
      index := index + 2;
    }
    return args[|args| - 1];
  }
}
