/** Pricing expressions end to end: from source text to a value, and what acceptance promises. */
module Expressions {
  import opened Decimals
  import opened Grammar
  import opened GrammarTheorems
  import opened Evaluator
  import Lexer
  import Parser

  datatype ExpressionError =
    | SyntaxError | NoVariablesUsed | UnknownVariable | NoVariablesGiven | UndefinedVariable
    | Evaluation(cause: EvalError)

  function Numerals(lib: Library): Lexer.NumeralTest {
    (text: string) => lib.number(text).Some?
  }

  /** The library reads the two numerals `true` and `false` stand for. */
  predicate ReadsBits(lib: Library) {
    lib.number("0") == Some(0.0) && lib.number("1") == Some(1.0)
  }

  function ParseSource(lib: Library, source: string): Option<Node> {
    var ts := Lexer.Tokenize(Numerals(lib), source);
    if ts.None? then None
    else
      var n := ParseTokens(ts.value);
      if n.Some? && CallsOk(n.value) then n else None
  }

  method ParsePricingExpression(lib: Library, source: string) returns (r: Option<Node>)
    ensures r == ParseSource(lib, source)
  {
    var tokens := Lexer.TokenizeSource(Numerals(lib), source);
    if tokens.None? { return None; }
    r := Parser.ParseExpressionTokens(tokens.value);
    if r.Some? && !CallsOk(r.value) { return None; }
  }

  /** Acceptance of a formula whose variables must be among the known ones. */
  function ValidateExpression(lib: Library, source: string, known: set<string>): Option<ExpressionError> {
    var n := ParseSource(lib, source);
    if n.None? then Some(SyntaxError)
    else if Mentions(n.value) == {} then Some(NoVariablesUsed)
    else if !(Mentions(n.value) <= known) then Some(UnknownVariable)
    else None
  }

  function EvaluateExpression(lib: Library, source: string, vars: Variables): Result<Amount, ExpressionError> {
    if vars == map[] then Failure(NoVariablesGiven)
    else
      var n := ParseSource(lib, source);
      if n.None? then Failure(SyntaxError)
      else if !(Mentions(n.value) <= vars.Keys) then Failure(UndefinedVariable)
      else
        var v := Eval(lib, n.value, vars);
        if v.Success? then Success(v.value) else Failure(Evaluation(v.error))
  }

  // ----- Round trip through the text -----

  predicate LeavesWritable(lib: Library, n: Node)
    decreases n
  {
    match n
    case Number(text) => Lexer.IsNumeral(Numerals(lib), text)
    case Variable(name) => Lexer.IsIdentifier(name)
    case Binary(_, l, r) => LeavesWritable(lib, l) && LeavesWritable(lib, r)
    case Unary(_, e) => LeavesWritable(lib, e)
    case Call(_, args) => forall a | a in args :: LeavesWritable(lib, a)
    case Ternary(c, t, e) => LeavesWritable(lib, c) && LeavesWritable(lib, t) && LeavesWritable(lib, e)
    case Compare(_, l, r) => LeavesWritable(lib, l) && LeavesWritable(lib, r)
    case Logic(_, l, r) => LeavesWritable(lib, l) && LeavesWritable(lib, r)
  }

  predicate AllWritable(lib: Library, ts: seq<Token>) {
    forall t | t in ts :: Lexer.Writable(Numerals(lib), t)
  }

  lemma FunctionsAreIdentifiers(fn: string)
    requires AllowedFunction(fn) && fn != "if"
    ensures Lexer.IsIdentifier(fn)
  {
  }

  lemma JoinedWritable(lib: Library, a: seq<Token>, between: seq<Token>, b: seq<Token>)
    requires AllWritable(lib, a) && AllWritable(lib, between) && AllWritable(lib, b)
    ensures AllWritable(lib, a + between + b)
  {
  }

  lemma {:induction false} SpellWritable(lib: Library, s: Syntax)
    requires OperandsFit(s) && LeavesWritable(lib, Tree(s))
    requires KeywordCalls(s)
    ensures AllWritable(lib, Spell(s))
    decreases s, 0
  {
    hide Lexer.IsNumeral, Lexer.IsIdentifier, SpellArgs, Trees;
    match s {
      case SNumber(_) =>
      case SVariable(_) =>
      case SBinary(op, l, r) =>
        SpellWritable(lib, l);
        SpellWritable(lib, r);
        JoinedWritable(lib, Spell(l), [BinaryToken(op)], Spell(r));
      case SUnary(op, e) =>
        SpellWritable(lib, e);
        JoinedWritable(lib, [], [UnaryToken(op)], Spell(e));
      case SCall(fn, keyword, args) =>
        if !keyword { FunctionsAreIdentifiers(fn); }
        SpellArgsWritable(lib, args);
        JoinedWritable(lib, [if keyword then TIf else TIdent(fn), TLeftParen], SpellArgs(args), [TRightParen]);
      case STernary(c, t, e) =>
        SpellWritable(lib, c);
        SpellWritable(lib, t);
        SpellWritable(lib, e);
        JoinedWritable(lib, Spell(t), [TIf], Spell(c));
        JoinedWritable(lib, Spell(t) + [TIf] + Spell(c), [TElse], Spell(e));
      case SCompare(op, l, r) =>
        SpellWritable(lib, l);
        SpellWritable(lib, r);
        JoinedWritable(lib, Spell(l), CompareTokens(op), Spell(r));
      case SLogic(op, l, r) =>
        SpellWritable(lib, l);
        SpellWritable(lib, r);
        JoinedWritable(lib, Spell(l), [LogicToken(op)], Spell(r));
      case SParen(e) =>
        SpellWritable(lib, e);
        JoinedWritable(lib, [TLeftParen], Spell(e), [TRightParen]);
    }
  }

  lemma {:induction false} SpellArgsWritable(lib: Library, args: seq<Syntax>)
    requires forall a | a in args :: OperandsFit(a) && KeywordCalls(a)
    requires forall n | n in Trees(args) :: LeavesWritable(lib, n)
    ensures AllWritable(lib, SpellArgs(args))
    decreases args
  {
    hide Lexer.IsNumeral, Lexer.IsIdentifier;
    if args != [] {
      assert Trees(args)[0] == Tree(args[0]) && Trees(args)[0] in Trees(args);
      SpellWritable(lib, args[0]);
      forall n | n in Trees(args[1..]) ensures LeavesWritable(lib, n) {
        assert n in Trees(args);
      }
      SpellArgsWritable(lib, args[1..]);
    }
  }

  /** Every call to `if` is spelled with the keyword. */
  predicate KeywordCalls(s: Syntax)
    decreases s
  {
    match s
    case SNumber(_) => true
    case SVariable(_) => true
    case SBinary(_, l, r) => KeywordCalls(l) && KeywordCalls(r)
    case SUnary(_, e) => KeywordCalls(e)
    case SCall(fn, keyword, args) => keyword == (fn == "if") && forall a | a in args :: KeywordCalls(a)
    case STernary(c, t, e) => KeywordCalls(c) && KeywordCalls(t) && KeywordCalls(e)
    case SCompare(_, l, r) => KeywordCalls(l) && KeywordCalls(r)
    case SLogic(_, l, r) => KeywordCalls(l) && KeywordCalls(r)
    case SParen(e) => KeywordCalls(e)
  }

  lemma {:induction false} MinimalKeywords(n: Node)
    ensures KeywordCalls(Minimal(n))
    decreases n, 0
  {
    match n {
      case Number(_) =>
      case Variable(_) =>
      case Binary(op, l, r) => MinimalKeywords(l); MinimalKeywords(r);
      case Unary(op, e) => MinimalKeywords(e);
      case Call(_, args) => MinimalArgsKeywords(args);
      case Ternary(c, t, e) => MinimalKeywords(c); MinimalKeywords(t); MinimalKeywords(e);
      case Compare(_, l, r) => MinimalKeywords(l); MinimalKeywords(r);
      case Logic(op, l, r) => MinimalKeywords(l); MinimalKeywords(r);
    }
  }

  lemma {:induction false} MinimalArgsKeywords(args: seq<Node>)
    ensures forall s | s in MinimalArgs(args) :: KeywordCalls(s)
    decreases args
  {
    if args != [] {
      MinimalKeywords(args[0]);
      MinimalArgsKeywords(args[1..]);
    }
  }

  /** Writing a tree as text and parsing the text gives back the tree. */
  lemma SourceRoundTrip(lib: Library, n: Node)
    requires NamesAllowed(n) && CallsOk(n) && LeavesWritable(lib, n)
    ensures ParseSource(lib, Lexer.Render(Print(n))) == Some(n)
  {
    MinimalFaithful(n);
    MinimalKeywords(n);
    SpellWritable(lib, Minimal(n));
    Lexer.TokenizeInvertsRender(Numerals(lib), Print(n));
    ParseInvertsPrint(n);
  }

  // ----- What the parser hands to the evaluator -----

  /** Every numeral of the tree is one the library reads. */
  predicate NumbersRead(lib: Library, n: Node)
    decreases n
  {
    match n
    case Number(text) => lib.number(text).Some?
    case Variable(_) => true
    case Binary(_, l, r) => NumbersRead(lib, l) && NumbersRead(lib, r)
    case Unary(_, e) => NumbersRead(lib, e)
    case Call(_, args) => forall a | a in args :: NumbersRead(lib, a)
    case Ternary(c, t, e) => NumbersRead(lib, c) && NumbersRead(lib, t) && NumbersRead(lib, e)
    case Compare(_, l, r) => NumbersRead(lib, l) && NumbersRead(lib, r)
    case Logic(_, l, r) => NumbersRead(lib, l) && NumbersRead(lib, r)
  }

  lemma {:induction false} SpelledNumbersRead(lib: Library, s: Syntax)
    requires forall text | TNumber(text) in Spell(s) :: lib.number(text).Some?
    ensures NumbersRead(lib, Tree(s))
    decreases s, 0
  {
    match s {
      case SNumber(text) => assert TNumber(text) in Spell(s);
      case SVariable(_) =>
      case SBinary(_, l, r) => SpelledNumbersRead(lib, l); SpelledNumbersRead(lib, r);
      case SUnary(_, e) => SpelledNumbersRead(lib, e);
      case SCall(_, _, args) => SpelledArgsRead(lib, args);
      case STernary(c, t, e) =>
        SpelledNumbersRead(lib, c); SpelledNumbersRead(lib, t); SpelledNumbersRead(lib, e);
      case SCompare(_, l, r) => SpelledNumbersRead(lib, l); SpelledNumbersRead(lib, r);
      case SLogic(_, l, r) => SpelledNumbersRead(lib, l); SpelledNumbersRead(lib, r);
      case SParen(e) => SpelledNumbersRead(lib, e);
    }
  }

  lemma {:induction false} SpelledArgsRead(lib: Library, args: seq<Syntax>)
    requires forall text | TNumber(text) in SpellArgs(args) :: lib.number(text).Some?
    ensures forall n | n in Trees(args) :: NumbersRead(lib, n)
    decreases args
  {
    if args != [] {
      SpelledNumbersRead(lib, args[0]);
      SpelledArgsRead(lib, args[1..]);
    }
  }

  /** A parsed tree names only pricing functions, with legal argument counts and readable numerals. */
  lemma ParsedIsChecked(lib: Library, source: string)
    requires ReadsBits(lib) && ParseSource(lib, source).Some?
    ensures var n := ParseSource(lib, source).value;
            NamesAllowed(n) && CallsOk(n) && NumbersRead(lib, n)
  {
    var n := ParseSource(lib, source).value;
    var ts := Lexer.Tokenize(Numerals(lib), source).value;
    Lexer.TokensAreWritable(Numerals(lib), source);
    ParserImage(n);
    ParseIffSpelled(ts, n);
    var s: Syntax :| Fits(s, TERNARY) && Spell(s) == ts && Tree(s) == n;
    forall text | TNumber(text) in ts ensures lib.number(text).Some? {
      assert Lexer.Writable(Numerals(lib), TNumber(text));
      assert text[..|text|] == text;
    }
    SpelledNumbersRead(lib, s);
  }

  // ----- Accepted expressions never get stuck -----

  /** The errors that depend on the values measured, not on the formula. */
  predicate ValueError(e: EvalError) {
    e.DivisionByZero? || e.ModuloByZero? || e.PercentileRange?
  }

  lemma {:induction false} CheckedNeverStuck(lib: Library, n: Node, vars: Variables)
    requires NamesAllowed(n) && CallsOk(n) && NumbersRead(lib, n)
    ensures Eval(lib, n, vars).Failure? ==> ValueError(Eval(lib, n, vars).error)
    decreases n, 0
  {
    match n {
      case Number(_) =>
      case Variable(_) =>
      case Unary(_, e) => CheckedNeverStuck(lib, e, vars);
      case Binary(_, l, r) => CheckedNeverStuck(lib, l, vars); CheckedNeverStuck(lib, r, vars);
      case Compare(_, l, r) => CheckedNeverStuck(lib, l, vars); CheckedNeverStuck(lib, r, vars);
      case Logic(_, l, r) => CheckedNeverStuck(lib, l, vars); CheckedNeverStuck(lib, r, vars);
      case Ternary(c, t, e) =>
        CheckedNeverStuck(lib, c, vars); CheckedNeverStuck(lib, t, vars); CheckedNeverStuck(lib, e, vars);
      case Call(fn, args) =>
        ArgsNeverStuck(lib, args, vars);
        var values := EvalArgs(lib, args, vars);
        if values.Success? { CallNeverStuck(lib, fn, values.value); }
    }
  }

  lemma CallNeverStuck(lib: Library, fn: string, args: seq<Amount>)
    requires AllowedFunction(fn) && ArityOk(fn, |args|)
    ensures EvalCall(lib, fn, args).Failure? ==> EvalCall(lib, fn, args).error.PercentileRange?
  {
  }

  lemma {:induction false} ArgsNeverStuck(lib: Library, args: seq<Node>, vars: Variables)
    requires forall a | a in args :: NamesAllowed(a) && CallsOk(a) && NumbersRead(lib, a)
    ensures EvalArgs(lib, args, vars).Failure? ==> ValueError(EvalArgs(lib, args, vars).error)
    decreases args
  {
    if args != [] {
      CheckedNeverStuck(lib, args[0], vars);
      ArgsNeverStuck(lib, args[1..], vars);
    }
  }

  /** A formula the validator accepts evaluates on every map of the known variables, or fails
      only by a zero divisor or a percentile argument out of range. */
  lemma ValidatedNeverStuck(lib: Library, source: string, known: set<string>, vars: Variables)
    requires ReadsBits(lib) && ValidateExpression(lib, source, known).None? && known <= vars.Keys
    ensures var r := EvaluateExpression(lib, source, vars);
            r.Failure? ==> r.error.Evaluation? && ValueError(r.error.cause)
  {
    var n := ParseSource(lib, source).value;
    ParsedIsChecked(lib, source);
    CheckedNeverStuck(lib, n, vars);
    assert Mentions(n) != {};
    assert vars.Keys != {};
  }

  /** Evaluation reads only the variables the expression mentions. */
  lemma {:induction false} EvalDependsOnMentioned(lib: Library, n: Node, vars: Variables, other: Variables)
    requires forall v | v in Mentions(n) :: v in vars && v in other && vars[v] == other[v]
    ensures Eval(lib, n, vars) == Eval(lib, n, other)
    decreases n, 0
  {
    match n {
      case Number(_) =>
      case Variable(name) => assert name in Mentions(n);
      case Unary(_, e) => EvalDependsOnMentioned(lib, e, vars, other);
      case Binary(_, l, r) =>
        EvalDependsOnMentioned(lib, l, vars, other); EvalDependsOnMentioned(lib, r, vars, other);
      case Compare(_, l, r) =>
        EvalDependsOnMentioned(lib, l, vars, other); EvalDependsOnMentioned(lib, r, vars, other);
      case Logic(_, l, r) =>
        EvalDependsOnMentioned(lib, l, vars, other); EvalDependsOnMentioned(lib, r, vars, other);
      case Ternary(c, t, e) =>
        EvalDependsOnMentioned(lib, c, vars, other);
        EvalDependsOnMentioned(lib, t, vars, other);
        EvalDependsOnMentioned(lib, e, vars, other);
      case Call(_, args) =>
        forall a, v | a in args && v in Mentions(a) ensures v in vars && v in other && vars[v] == other[v] {
          assert v in Mentions(n);
        }
        ArgsDependOnMentioned(lib, args, vars, other);
    }
  }

  lemma {:induction false} ArgsDependOnMentioned(lib: Library, args: seq<Node>, vars: Variables, other: Variables)
    requires forall a, v | a in args && v in Mentions(a) :: v in vars && v in other && vars[v] == other[v]
    ensures EvalArgs(lib, args, vars) == EvalArgs(lib, args, other)
    decreases args
  {
    if args != [] {
      EvalDependsOnMentioned(lib, args[0], vars, other);
      ArgsDependOnMentioned(lib, args[1..], vars, other);
    }
  }

  // ----- Lazy and eager choice -----

  /** `a / y if y != 0 else b` never divides by zero: the skipped branch cannot fail the whole. */
  lemma TernaryGuardsDivision(lib: Library, a: Node, y: string, zero: string, b: Node, vars: Variables)
    requires lib.number(zero) == Some(0.0)
    requires Eval(lib, a, vars).Success? && Eval(lib, b, vars).Success?
    ensures Eval(lib, Ternary(Compare(Ne, Variable(y), Number(zero)), Binary(Div, a, Variable(y)), b), vars).Success?
  {
    var test := Compare(Ne, Variable(y), Number(zero));
    var quotient := Binary(Div, a, Variable(y));
    var d := Eval(lib, Variable(y), vars).value;
    assert Eval(lib, Number(zero), vars) == Success(0.0);
    assert Eval(lib, test, vars) == Success(Truth(d != 0.0));
    if d != 0.0 {
      assert Eval(lib, quotient, vars) == Success(DivRound(Eval(lib, a, vars).value, d));
    }
  }

  /** `if(y != 0, a / y, b)` evaluates the quotient anyway: a zero divisor always fails it. */
  lemma IfCallIsEager(lib: Library, a: Node, y: string, zero: string, b: Node, vars: Variables)
    requires lib.number(zero) == Some(0.0) && Eval(lib, a, vars).Success?
    requires Eval(lib, Variable(y), vars) == Success(0.0)
    ensures Eval(lib, Call("if", [Compare(Ne, Variable(y), Number(zero)), Binary(Div, a, Variable(y)), b]), vars)
         == Failure(DivisionByZero)
  {
    var test := Compare(Ne, Variable(y), Number(zero));
    var quotient := Binary(Div, a, Variable(y));
    var args := [test, quotient, b];
    assert args[1..] == [quotient, b];
    assert Eval(lib, Number(zero), vars) == Success(0.0);
    assert Eval(lib, test, vars).Success?;
    assert Eval(lib, quotient, vars) == Failure(DivisionByZero);
    assert EvalArgs(lib, args[1..], vars) == Failure(DivisionByZero);
  }

  /** So with `a` and `b` in order, the call has a value exactly if the divisor is not zero; the
      ternary always has. */
  lemma IfCallGuardsIff(lib: Library, a: Node, y: string, zero: string, b: Node, vars: Variables)
    requires lib.number(zero) == Some(0.0) && Eval(lib, a, vars).Success? && Eval(lib, b, vars).Success?
    ensures Eval(lib, Call("if", [Compare(Ne, Variable(y), Number(zero)), Binary(Div, a, Variable(y)), b]), vars).Success?
       <==> Eval(lib, Variable(y), vars) != Success(0.0)
  {
    var test := Compare(Ne, Variable(y), Number(zero));
    var quotient := Binary(Div, a, Variable(y));
    var args := [test, quotient, b];
    var d := Eval(lib, Variable(y), vars).value;
    if d == 0.0 {
      IfCallIsEager(lib, a, y, zero, b, vars);
    } else {
      assert Eval(lib, Number(zero), vars) == Success(0.0);
      assert Eval(lib, test, vars).Success?;
      assert Eval(lib, quotient, vars) == Success(DivRound(Eval(lib, a, vars).value, d));
      assert args[1..] == [quotient, b] && args[1..][1..] == [b] && args[1..][1..][1..] == [];
      assert EvalArgs(lib, [b], vars).Success?;
      assert EvalArgs(lib, args[1..], vars).Success?;
      assert EvalArgs(lib, args, vars).Success?;
    }
  }

  /** `not` turns `and` into `or` and back for all operands, errors and skipped operands included. */
  lemma DeMorgan(lib: Library, l: Node, r: Node, vars: Variables)
    ensures Eval(lib, Unary(Not, Logic(And, l, r)), vars) == Eval(lib, Logic(Or, Unary(Not, l), Unary(Not, r)), vars)
    ensures Eval(lib, Unary(Not, Logic(Or, l, r)), vars) == Eval(lib, Logic(And, Unary(Not, l), Unary(Not, r)), vars)
  {
    var notL, notR := Unary(Not, l), Unary(Not, r);
    var x, y := Eval(lib, l, vars), Eval(lib, r, vars);
    assert Eval(lib, notL, vars) == if x.Failure? then x else Success(Truth(x.value == 0.0));
    assert Eval(lib, notR, vars) == if y.Failure? then y else Success(Truth(y.value == 0.0));
    assert Eval(lib, Logic(And, l, r), vars) == if x.Failure? || x.value == 0.0 then x else y;
    assert Eval(lib, Logic(Or, l, r), vars) == if x.Failure? || x.value != 0.0 then x else y;
  }

  // ----- What acceptance decides -----

  /** The failures of a formula that do not depend on the values measured. */
  predicate Static(r: Result<Amount, ExpressionError>) {
    r.Failure? && !(r.error.Evaluation? && ValueError(r.error.cause))
  }

  ghost predicate NeverStatic(lib: Library, source: string, known: set<string>) {
    forall vars: Variables | vars.Keys == known :: !Static(EvaluateExpression(lib, source, vars))
  }

  /** Against names that exist, the validator refuses a formula exactly if it uses no variable or fails,
      on some or all values of those names, for a reason other than the values. */
  lemma RefusedIff(lib: Library, source: string, known: set<string>)
    requires ReadsBits(lib) && known != {}
    ensures ValidateExpression(lib, source, known).None? || ValidateExpression(lib, source, known) == Some(NoVariablesUsed)
       <==> NeverStatic(lib, source, known)
  {
    var n := ParseSource(lib, source);
    var zeros := map name | name in known :: 0.0;
    assert zeros.Keys == known && zeros != map[];
    if n.Some? && Mentions(n.value) <= known {
      ParsedIsChecked(lib, source);
      forall vars: Variables | vars.Keys == known ensures !Static(EvaluateExpression(lib, source, vars)) {
        CheckedNeverStuck(lib, n.value, vars);
        hide Eval;
        assert vars != map[];
      }
    } else {
      assert Static(EvaluateExpression(lib, source, zeros));
    }
  }
}
