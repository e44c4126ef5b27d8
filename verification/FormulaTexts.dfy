/** What a formula's source text is worth: how words spell a tree, and what simple texts come to. */
module FormulaTexts {
  import opened Decimals
  import opened Grammar
  import opened GrammarTheorems
  import opened Evaluator
  import opened Expressions
  import opened FormulaValues
  import Lexer

  // ----- From source text -----

  function AsResult(v: Evaluated): Result<Amount, ExpressionError> {
    if v.Success? then Success(v.value) else Failure(Evaluation(v.error))
  }

  /** A formula spelled in any way, parentheses and all, is worth what its tree is worth. */
  lemma SpelledIsWorth(lib: Library, s: Syntax, vars: Variables)
    requires Fits(s, TERNARY) && KeywordCalls(s) && CallsOk(Tree(s)) && LeavesWritable(lib, Tree(s))
    requires vars != map[] && Mentions(Tree(s)) <= vars.Keys
    ensures EvaluateExpression(lib, Lexer.Render(Spell(s)), vars) == AsResult(Eval(lib, Tree(s), vars))
  {
    SpellWritable(lib, s);
    Lexer.TokenizeInvertsRender(Numerals(lib), Spell(s));
    ParseIffSpelled(Spell(s), Tree(s));
    hide Fits, Spell, Tree, Eval, Lexer.Tokenize, Lexer.Render, ParseTokens;
  }

  /** Words, a blank after each. */
  function Spaced(words: seq<string>): string {
    if words == [] then "" else words[0] + " " + Spaced(words[1..])
  }

  function Words(ts: seq<Token>): (words: seq<string>)
    ensures |words| == |ts| && forall i | 0 <= i < |ts| :: words[i] == Lexer.Lexeme(ts[i])
  {
    if ts == [] then [] else [Lexer.Lexeme(ts[0])] + Words(ts[1..])
  }

  lemma {:induction false} RenderedIsSpaced(ts: seq<Token>)
    ensures Lexer.Render(ts) == Spaced(Words(ts))
  {
    hide Lexer.Lexeme;
    if ts != [] {
      RenderedIsSpaced(ts[1..]);
      assert Words(ts)[1..] == Words(ts[1..]);
    }
  }

  lemma WordsJoin(a: seq<Token>, between: seq<Token>, b: seq<Token>)
    ensures Words(a + between + b) == Words(a) + Words(between) + Words(b)
  {
    hide Lexer.Lexeme;
  }

  /** The words spell the concrete tree, which can stand where the level asks for an operand. */
  predicate Reading(lib: Library, s: Syntax, level: Level, words: seq<string>) {
    && Fits(s, level) && KeywordCalls(s) && CallsOk(Tree(s)) && LeavesWritable(lib, Tree(s))
    && Words(Spell(s)) == words
  }

  /** A text is worth what the tree its words spell is worth. */
  lemma TextIsWorth(lib: Library, s: Syntax, words: seq<string>, vars: Variables)
    requires Reading(lib, s, TERNARY, words) && vars != map[] && Mentions(Tree(s)) <= vars.Keys
    ensures EvaluateExpression(lib, Spaced(words), vars) == AsResult(Eval(lib, Tree(s), vars))
  {
    hide Fits, Spell, Tree, Eval, Words, EvaluateExpression;
    SpelledIsWorth(lib, s, vars);
    RenderedIsSpaced(Spell(s));
  }

  lemma LooserReading(lib: Library, s: Syntax, level: Level, looser: Level, words: seq<string>)
    requires Reading(lib, s, level, words) && looser <= level
    ensures Reading(lib, s, looser, words)
  {
    hide OperandsFit, Spell, Tree;
  }

  lemma NameReads(lib: Library, name: string)
    requires Lexer.IsIdentifier(name)
    ensures Reading(lib, SVariable(name), PRIMARY, [name])
  {
    hide Lexer.IsIdentifier;
    assert Words([TIdent(name)])[0] == name;
    assert Spell(SVariable(name)) == [TIdent(name)] && Words([TIdent(name)]) == [name];
    assert Fits(SVariable(name), PRIMARY);
  }

  lemma OneWord(t: Token)
    ensures Words([t]) == [Lexer.Lexeme(t)]
  {
    hide Lexer.Lexeme;
    assert Words([t])[0] == Lexer.Lexeme(t);
  }

  /** An operator between operands that bind as tightly as it asks. */
  lemma BinaryReads(lib: Library, op: BinaryOp, l: Syntax, r: Syntax, before: seq<string>, after: seq<string>)
    requires Reading(lib, l, BinaryLevel(op), before) && Reading(lib, r, BinaryLevel(op) + 1, after)
    ensures Reading(lib, SBinary(op, l, r), BinaryLevel(op), before + [Lexer.Lexeme(BinaryToken(op))] + after)
  {
    WordsJoin(Spell(l), [BinaryToken(op)], Spell(r));
    OneWord(BinaryToken(op));
    hide Words, BinaryToken, UnaryToken, LogicToken, CompareTokens, Lexer.Lexeme, AllowedFunction, ArityOk;
    var s := SBinary(op, l, r);
    assert Tree(s) == Binary(op, Tree(l), Tree(r));
    assert OperandsFit(s) && LevelOf(s) == BinaryLevel(op);
    assert Spell(s) == Spell(l) + [BinaryToken(op)] + Spell(r);
  }

  lemma CompareReads(lib: Library, op: CompareOp, l: Syntax, r: Syntax, before: seq<string>, after: seq<string>)
    requires Reading(lib, l, ADDITION, before) && Reading(lib, r, ADDITION, after)
    ensures Reading(lib, SCompare(op, l, r), COMPARISON, before + Words(CompareTokens(op)) + after)
  {
    WordsJoin(Spell(l), CompareTokens(op), Spell(r));
    hide Words, BinaryToken, UnaryToken, LogicToken, CompareTokens, Lexer.Lexeme, AllowedFunction, ArityOk;
    var s := SCompare(op, l, r);
    assert Tree(s) == Compare(op, Tree(l), Tree(r));
    assert OperandsFit(s) && LevelOf(s) == COMPARISON;
    assert Spell(s) == Spell(l) + CompareTokens(op) + Spell(r);
  }

  lemma LogicReads(lib: Library, op: BoolOp, l: Syntax, r: Syntax, before: seq<string>, after: seq<string>)
    requires Reading(lib, l, LogicLevel(op), before) && Reading(lib, r, LogicLevel(op) + 1, after)
    ensures Reading(lib, SLogic(op, l, r), LogicLevel(op), before + [Lexer.Lexeme(LogicToken(op))] + after)
  {
    WordsJoin(Spell(l), [LogicToken(op)], Spell(r));
    OneWord(LogicToken(op));
    hide Words, BinaryToken, UnaryToken, LogicToken, CompareTokens, Lexer.Lexeme, AllowedFunction, ArityOk;
    var s := SLogic(op, l, r);
    assert Tree(s) == Logic(op, Tree(l), Tree(r));
    assert OperandsFit(s) && LevelOf(s) == LogicLevel(op);
    assert Spell(s) == Spell(l) + [LogicToken(op)] + Spell(r);
  }

  lemma UnaryReads(lib: Library, op: UnaryOp, e: Syntax, after: seq<string>)
    requires Reading(lib, e, UnaryLevel(op), after)
    ensures Reading(lib, SUnary(op, e), UnaryLevel(op), [Lexer.Lexeme(UnaryToken(op))] + after)
  {
    WordsJoin([], [UnaryToken(op)], Spell(e));
    OneWord(UnaryToken(op));
    assert [] + [UnaryToken(op)] + Spell(e) == [UnaryToken(op)] + Spell(e);
    hide Words, BinaryToken, UnaryToken, LogicToken, CompareTokens, Lexer.Lexeme, AllowedFunction, ArityOk;
    var s := SUnary(op, e);
    assert Tree(s) == Unary(op, Tree(e));
    assert OperandsFit(s) && LevelOf(s) == UnaryLevel(op);
    assert Spell(s) == [UnaryToken(op)] + Spell(e);
  }

  lemma TernaryWords(c: seq<Token>, t: seq<Token>, e: seq<Token>)
    ensures Words(t + [TIf] + c + [TElse] + e) == Words(t) + ["if"] + Words(c) + ["else"] + Words(e)
  {
    WordsJoin(t, [TIf], c);
    WordsJoin(t + [TIf] + c, [TElse], e);
    OneWord(TIf);
    OneWord(TElse);
  }

  lemma TernaryReads(lib: Library, c: Syntax, t: Syntax, e: Syntax, test: seq<string>, yes: seq<string>, no: seq<string>)
    requires Reading(lib, c, OR, test) && Reading(lib, t, OR, yes) && Reading(lib, e, OR, no)
    ensures Reading(lib, STernary(c, t, e), TERNARY, yes + ["if"] + test + ["else"] + no)
  {
    TernaryWords(Spell(c), Spell(t), Spell(e));
    hide Words, BinaryToken, UnaryToken, LogicToken, CompareTokens, Lexer.Lexeme, AllowedFunction, ArityOk;
    var s := STernary(c, t, e);
    assert Tree(s) == Ternary(Tree(c), Tree(t), Tree(e));
    assert OperandsFit(s) && LevelOf(s) == TERNARY;
    assert Spell(s) == Spell(t) + [TIf] + Spell(c) + [TElse] + Spell(e);
  }

  lemma ParenReads(lib: Library, e: Syntax, inside: seq<string>)
    requires Reading(lib, e, TERNARY, inside)
    ensures Reading(lib, SParen(e), PRIMARY, ["("] + inside + [")"])
  {
    WordsJoin([TLeftParen], Spell(e), [TRightParen]);
    OneWord(TLeftParen);
    OneWord(TRightParen);
    assert Lexer.Lexeme(TLeftParen) == "(" && Lexer.Lexeme(TRightParen) == ")";
    hide Words, BinaryToken, UnaryToken, LogicToken, CompareTokens, Lexer.Lexeme, AllowedFunction, ArityOk;
    var s := SParen(e);
    assert Tree(s) == Tree(e);
    assert OperandsFit(s) && LevelOf(s) == PRIMARY;
    assert Spell(s) == [TLeftParen] + Spell(e) + [TRightParen];
  }

  // ----- Calls, read from text -----

  /** Argument texts with commas between them. */
  function Commas(texts: seq<seq<string>>): seq<string> {
    if texts == [] then []
    else if |texts| == 1 then texts[0]
    else texts[0] + [","] + Commas(texts[1..])
  }

  /** The texts are readings of the arguments. */
  predicate ArgumentsRead(lib: Library, args: seq<Syntax>, texts: seq<seq<string>>) {
    |args| == |texts| && forall i | 0 <= i < |args| :: Reading(lib, args[i], OR, texts[i])
  }

  lemma {:induction false} ArgumentWords(lib: Library, args: seq<Syntax>, texts: seq<seq<string>>)
    requires ArgumentsRead(lib, args, texts)
    ensures Words(SpellArgs(args)) == Commas(texts)
    ensures forall a | a in args :: Fits(a, OR) && KeywordCalls(a)
    ensures forall n | n in Trees(args) :: CallsOk(n) && LeavesWritable(lib, n)
    decreases args
  {
    hide Words, Fits, Spell, Tree, CallsOk, LeavesWritable, KeywordCalls;
    if args == [] {
      assert Words([]) == [];
    } else {
      assert Reading(lib, args[0], OR, texts[0]);
      ArgumentWords(lib, args[1..], texts[1..]);
      if |args| > 1 {
        WordsJoin(Spell(args[0]), [TComma], SpellArgs(args[1..]));
        OneWord(TComma);
      }
      assert args == [args[0]] + args[1..];
    }
  }

  lemma CallWords(first: Token, args: seq<Token>)
    ensures Words([first, TLeftParen] + args + [TRightParen]) == [Lexer.Lexeme(first), "("] + Words(args) + [")"]
  {
    WordsJoin([first, TLeftParen], args, [TRightParen]);
    OneWord(TRightParen);
    WordsJoin([first], [TLeftParen], []);
    assert [first] + [TLeftParen] + [] == [first, TLeftParen] && Words([]) == [];
    OneWord(first);
    OneWord(TLeftParen);
  }

  lemma CallFits(fn: string, args: seq<Syntax>)
    requires AllowedFunction(fn) && forall a | a in args :: Fits(a, OR) && KeywordCalls(a)
    ensures Fits(SCall(fn, fn == "if", args), PRIMARY) && KeywordCalls(SCall(fn, fn == "if", args))
  {
    hide AllowedFunction;
    assert OperandsFit(SCall(fn, fn == "if", args));
  }

  lemma CallTree(lib: Library, fn: string, args: seq<Node>)
    requires ArityOk(fn, |args|) && forall n | n in args :: CallsOk(n) && LeavesWritable(lib, n)
    ensures CallsOk(Call(fn, args)) && LeavesWritable(lib, Call(fn, args))
  {
    hide ArityOk, Lexer.IsNumeral, Lexer.IsIdentifier;
  }

  lemma CallSpelling(fn: string, args: seq<Syntax>)
    ensures var s := SCall(fn, fn == "if", args);
            && Words(Spell(s)) == [fn, "("] + Words(SpellArgs(args)) + [")"]
            && Tree(s) == Call(fn, Trees(args))
  {
    hide SpellArgs, Words, Trees;
    CallWords(if fn == "if" then TIf else TIdent(fn), SpellArgs(args));
  }

  /** A call of a pricing function with as many arguments as it takes. */
  lemma CallReads(lib: Library, fn: string, args: seq<Syntax>, texts: seq<seq<string>>)
    requires AllowedFunction(fn) && ArityOk(fn, |args|) && ArgumentsRead(lib, args, texts)
    ensures Reading(lib, SCall(fn, fn == "if", args), PRIMARY, [fn, "("] + Commas(texts) + [")"])
  {
    hide Words, Lexer.Lexeme, AllowedFunction, ArityOk, ArgumentsRead, Commas, SpellArgs, Trees, Fits, KeywordCalls, CallsOk,
         LeavesWritable, Spell, Tree;
    ArgumentWords(lib, args, texts);
    CallFits(fn, args);
    CallTree(lib, fn, Trees(args));
    CallSpelling(fn, args);
  }

  /** The functions there are, and how many arguments each takes. */
  lemma ArgumentCounts(fn: string, count: nat)
    ensures AllowedFunction(fn) && ArityOk(fn, count) <==>
            || (fn in ["ceil", "floor"] && count == 1)
            || (fn == "round" && 1 <= count <= 2)
            || (fn in ["min", "max"] && count > 0)
            || (fn in ["if", "clamp"] && count == 3)
            || (fn == "tier" && count > 2 && count % 2 == 0)
            || (fn == "percentile" && count > 1)
  {
  }

  // ----- What simple texts are worth -----

  /** Three measured names, which stand for themselves. */
  predicate Names(vars: Variables, a: string, b: string, c: string) {
    && Lexer.IsIdentifier(a) && Lexer.IsIdentifier(b) && Lexer.IsIdentifier(c)
    && a in vars && b in vars && c in vars
  }

  lemma NamesRead(lib: Library, vars: Variables, a: string, b: string, c: string, level: Level)
    requires Names(vars, a, b, c)
    ensures Reading(lib, SVariable(a), level, [a])
    ensures Reading(lib, SVariable(b), level, [b])
    ensures Reading(lib, SVariable(c), level, [c])
  {
    hide Lexer.IsIdentifier, Reading;
    NameReads(lib, a);
    NameReads(lib, b);
    NameReads(lib, c);
    LooserReading(lib, SVariable(a), PRIMARY, level, [a]);
    LooserReading(lib, SVariable(b), PRIMARY, level, [b]);
    LooserReading(lib, SVariable(c), PRIMARY, level, [c]);
  }

  /** What a reading is worth, once its tree's value is known. */
  lemma ReadingIsWorth(lib: Library, s: Syntax, level: Level, words: seq<string>, n: Node, vars: Variables, x: Amount)
    requires Reading(lib, s, level, words) && Tree(s) == n && Eval(lib, n, vars) == Success(x)
    requires vars != map[] && Mentions(n) <= vars.Keys
    ensures EvaluateExpression(lib, Spaced(words), vars) == Success(x)
  {
    hide Fits, Spell, Eval, EvaluateExpression, Words, Reading;
    LooserReading(lib, s, level, TERNARY, words);
    TextIsWorth(lib, s, words, vars);
  }

  /** Two measured names under any operator. */
  lemma PairMentions(a: string, b: string, vars: Variables, n: Node)
    requires a in vars && b in vars
    requires || (n.Binary? && n.left == Variable(a) && n.right == Variable(b))
             || (n.Compare? && n.left == Variable(a) && n.right == Variable(b))
             || (n.Logic? && n.left == Variable(a) && n.right == Variable(b))
             || (n.Unary? && n.operand == Variable(a))
    ensures Mentions(n) <= vars.Keys
  {
    assert Mentions(Variable(a)) == {a} && Mentions(Variable(b)) == {b};
  }

  lemma InfixFromText(lib: Library, op: BinaryOp, symbol: string, a: string, b: string, vars: Variables, x: Amount)
    requires Names(vars, a, b, b) && Lexer.Lexeme(BinaryToken(op)) == symbol
    requires Eval(lib, Binary(op, Variable(a), Variable(b)), vars) == Success(x)
    ensures EvaluateExpression(lib, Spaced([a, symbol, b]), vars) == Success(x)
  {
    hide Lexer.IsIdentifier, Reading, Eval, EvaluateExpression, Spaced, BinaryToken, Lexer.Lexeme;
    NamesRead(lib, vars, a, b, b, BinaryLevel(op));
    NamesRead(lib, vars, a, b, b, BinaryLevel(op) + 1);
    BinaryReads(lib, op, SVariable(a), SVariable(b), [a], [b]);
    assert [a] + [symbol] + [b] == [a, symbol, b];
    var s, n := SBinary(op, SVariable(a), SVariable(b)), Binary(op, Variable(a), Variable(b));
    assert Tree(s) == n;
    PairMentions(a, b, vars, n);
    ReadingIsWorth(lib, s, BinaryLevel(op), [a, symbol, b], n, vars, x);
  }

  lemma ComparisonFromText(lib: Library, op: CompareOp, t: Token, symbol: string, a: string, b: string, vars: Variables, x: Amount)
    requires Names(vars, a, b, b) && CompareTokens(op) == [t] && Lexer.Lexeme(t) == symbol
    requires Eval(lib, Compare(op, Variable(a), Variable(b)), vars) == Success(x)
    ensures EvaluateExpression(lib, Spaced([a, symbol, b]), vars) == Success(x)
  {
    OneWord(t);
    hide Lexer.IsIdentifier, Reading, Eval, EvaluateExpression, Spaced, CompareTokens, Words, Lexer.Lexeme;
    NamesRead(lib, vars, a, b, b, ADDITION);
    CompareReads(lib, op, SVariable(a), SVariable(b), [a], [b]);
    assert [a] + [symbol] + [b] == [a, symbol, b];
    var s, n := SCompare(op, SVariable(a), SVariable(b)), Compare(op, Variable(a), Variable(b));
    assert Tree(s) == n;
    PairMentions(a, b, vars, n);
    ReadingIsWorth(lib, s, COMPARISON, [a, symbol, b], n, vars, x);
  }

  lemma MeasuredNames(lib: Library, vars: Variables, a: string, b: string)
    requires a in vars && b in vars
    ensures Eval(lib, Variable(a), vars) == Success(vars[a]) && Eval(lib, Variable(b), vars) == Success(vars[b])
  {
  }

  lemma Product(lib: Library, l: Node, r: Node, vars: Variables, x: Amount, y: Amount)
    requires Eval(lib, l, vars) == Success(x) && Eval(lib, r, vars) == Success(y)
    ensures Eval(lib, Binary(Mul, l, r), vars) == Success(Times(x, y))
  {
    SumsAndProducts(lib, l, r, vars, x, y);
    hide Eval;
  }

  /** The arithmetic operators, from their text. */
  lemma ArithmeticFromText(lib: Library, a: string, b: string, vars: Variables)
    requires Names(vars, a, b, b)
    ensures EvaluateExpression(lib, Spaced([a, "+", b]), vars) == Success(vars[a] + vars[b])
    ensures EvaluateExpression(lib, Spaced([a, "-", b]), vars) == Success(vars[a] - vars[b])
    ensures EvaluateExpression(lib, Spaced([a, "*", b]), vars) == Success(Times(vars[a], vars[b]))
  {
    hide Lexer.IsIdentifier, EvaluateExpression, Spaced, Eval, Times;
    MeasuredNames(lib, vars, a, b);
    SumsAndProducts(lib, Variable(a), Variable(b), vars, vars[a], vars[b]);
    Product(lib, Variable(a), Variable(b), vars, vars[a], vars[b]);
    InfixFromText(lib, Add, "+", a, b, vars, vars[a] + vars[b]);
    InfixFromText(lib, Sub, "-", a, b, vars, vars[a] - vars[b]);
    InfixFromText(lib, Mul, "*", a, b, vars, Times(vars[a], vars[b]));
  }

  /** The two divisions by a measure that is not zero: the quotient to 32 places, and with whole
      numbers the whole part and the rest. */
  lemma DivisionFromText(lib: Library, a: string, b: string, vars: Variables, n: nat, d: nat)
    requires Names(vars, a, b, b) && vars[a] == n as real && vars[b] == d as real && 1 <= d <= LAST_PLACE
    ensures EvaluateExpression(lib, Spaced([a, "//", b]), vars) == Success((n / d) as real)
    ensures EvaluateExpression(lib, Spaced([a, "%", b]), vars) == Success((n % d) as real)
    ensures var q := EvaluateExpression(lib, Spaced([a, "/", b]), vars);
            && q.Success?
            && -0.5 <= ScaleUp(q.value, LAST_PLACE) - ScaleUp(vars[a] / vars[b], LAST_PLACE) <= 0.5
  {
    hide Lexer.IsIdentifier, EvaluateExpression, Spaced, Arithmetic, ScaleUp, IsScaled;
    var l, r := Variable(a), Variable(b);
    assert Eval(lib, l, vars) == Success(n as real) && Eval(lib, r, vars) == Success(d as real);
    hide Eval;
    WholeDivision(lib, l, r, vars, n, d);
    QuotientIsClose(lib, l, r, vars, n as real, d as real);
    InfixFromText(lib, IntDiv, "//", a, b, vars, (n / d) as real);
    InfixFromText(lib, Mod, "%", a, b, vars, (n % d) as real);
    InfixFromText(lib, Div, "/", a, b, vars, Eval(lib, Binary(Div, l, r), vars).value);
  }

  /** The comparisons, from their text. */
  lemma ComparisonsFromText(lib: Library, a: string, b: string, vars: Variables)
    requires Names(vars, a, b, b)
    ensures EvaluateExpression(lib, Spaced([a, "==", b]), vars) == Success(if vars[a] == vars[b] then 1.0 else 0.0)
    ensures EvaluateExpression(lib, Spaced([a, "!=", b]), vars) == Success(if vars[a] == vars[b] then 0.0 else 1.0)
    ensures EvaluateExpression(lib, Spaced([a, "<", b]), vars) == Success(if vars[a] < vars[b] then 1.0 else 0.0)
    ensures EvaluateExpression(lib, Spaced([a, "<=", b]), vars) == Success(if vars[b] < vars[a] then 0.0 else 1.0)
    ensures EvaluateExpression(lib, Spaced([a, ">", b]), vars) == Success(if vars[b] < vars[a] then 1.0 else 0.0)
    ensures EvaluateExpression(lib, Spaced([a, ">=", b]), vars) == Success(if vars[a] < vars[b] then 0.0 else 1.0)
  {
    hide Lexer.IsIdentifier, EvaluateExpression, Spaced, CompareAmounts;
    var x, y := vars[a], vars[b];
    MeasuredNames(lib, vars, a, b);
    hide Eval, Words;
    ComparisonsDecide(lib, Variable(a), Variable(b), vars, x, y);
    ComparisonFromText(lib, Eq, TEqual, "==", a, b, vars, if x == y then 1.0 else 0.0);
    ComparisonFromText(lib, Ne, TNotEqual, "!=", a, b, vars, if x == y then 0.0 else 1.0);
    ComparisonFromText(lib, Lt, TLess, "<", a, b, vars, if x < y then 1.0 else 0.0);
    ComparisonFromText(lib, Le, TLessEqual, "<=", a, b, vars, if y < x then 0.0 else 1.0);
    ComparisonFromText(lib, Gt, TGreater, ">", a, b, vars, if y < x then 1.0 else 0.0);
    ComparisonFromText(lib, Ge, TGreaterEqual, ">=", a, b, vars, if x < y then 0.0 else 1.0);
  }

  /** Multiplication binds tighter than addition. */
  lemma PrecedenceFromText(lib: Library, a: string, b: string, c: string, vars: Variables)
    requires Names(vars, a, b, c)
    ensures EvaluateExpression(lib, Spaced([a, "+", b, "*", c]), vars) == Success(vars[a] + Times(vars[b], vars[c]))
  {
    hide Lexer.IsIdentifier, Reading, EvaluateExpression, Spaced, Arithmetic;
    NamesRead(lib, vars, a, b, c, MULTIPLICATION);
    NamesRead(lib, vars, a, b, c, MULTIPLICATION + 1);
    NamesRead(lib, vars, a, b, c, ADDITION);
    BinaryReads(lib, Mul, SVariable(b), SVariable(c), [b], [c]);
    assert [b] + ["*"] + [c] == [b, "*", c];
    var product := SBinary(Mul, SVariable(b), SVariable(c));
    BinaryReads(lib, Add, SVariable(a), product, [a], [b, "*", c]);
    assert [a] + ["+"] + [b, "*", c] == [a, "+", b, "*", c];
    var s := SBinary(Add, SVariable(a), product);
    var p := Binary(Mul, Variable(b), Variable(c));
    var n := Binary(Add, Variable(a), p);
    assert Tree(product) == p && Tree(s) == n && Mentions(p) <= vars.Keys && Mentions(n) <= vars.Keys;
    MeasuredNames(lib, vars, a, b);
    MeasuredNames(lib, vars, b, c);
    hide Eval, Times;
    Product(lib, Variable(b), Variable(c), vars, vars[b], vars[c]);
    SumsAndProducts(lib, Variable(a), p, vars, vars[a], Times(vars[b], vars[c]));
    ReadingIsWorth(lib, s, ADDITION, [a, "+", b, "*", c], n, vars, vars[a] + Times(vars[b], vars[c]));
  }

  /** Chains lean left. */
  lemma ChainsFromText(lib: Library, a: string, b: string, c: string, vars: Variables)
    requires Names(vars, a, b, c)
    ensures EvaluateExpression(lib, Spaced([a, "-", b, "-", c]), vars) == Success(vars[a] - vars[b] - vars[c])
  {
    hide Lexer.IsIdentifier, Reading, EvaluateExpression, Spaced, Arithmetic;
    NamesRead(lib, vars, a, b, c, ADDITION);
    NamesRead(lib, vars, a, b, c, MULTIPLICATION);
    BinaryReads(lib, Sub, SVariable(a), SVariable(b), [a], [b]);
    assert [a] + ["-"] + [b] == [a, "-", b];
    var first := SBinary(Sub, SVariable(a), SVariable(b));
    BinaryReads(lib, Sub, first, SVariable(c), [a, "-", b], [c]);
    assert [a, "-", b] + ["-"] + [c] == [a, "-", b, "-", c];
    var s := SBinary(Sub, first, SVariable(c));
    var d := Binary(Sub, Variable(a), Variable(b));
    var n := Binary(Sub, d, Variable(c));
    assert Tree(first) == d && Tree(s) == n && Mentions(d) <= vars.Keys && Mentions(n) <= vars.Keys;
    MeasuredNames(lib, vars, a, b);
    MeasuredNames(lib, vars, b, c);
    hide Eval;
    SumsAndProducts(lib, Variable(a), Variable(b), vars, vars[a], vars[b]);
    SumsAndProducts(lib, d, Variable(c), vars, vars[a] - vars[b], vars[c]);
    ReadingIsWorth(lib, s, ADDITION, [a, "-", b, "-", c], n, vars, vars[a] - vars[b] - vars[c]);
  }

  /** Parentheses group. */
  lemma ParenthesesFromText(lib: Library, a: string, b: string, c: string, vars: Variables)
    requires Names(vars, a, b, c)
    ensures EvaluateExpression(lib, Spaced(["(", a, "+", b, ")", "*", c]), vars) == Success(Times(vars[a] + vars[b], vars[c]))
  {
    hide Lexer.IsIdentifier, Reading, EvaluateExpression, Spaced, Arithmetic, Times;
    NamesRead(lib, vars, a, b, c, ADDITION);
    NamesRead(lib, vars, a, b, c, MULTIPLICATION);
    NamesRead(lib, vars, a, b, c, MULTIPLICATION + 1);
    var sum := SBinary(Add, SVariable(a), SVariable(b));
    BinaryReads(lib, Add, SVariable(a), SVariable(b), [a], [b]);
    assert [a] + ["+"] + [b] == [a, "+", b];
    LooserReading(lib, sum, ADDITION, TERNARY, [a, "+", b]);
    ParenReads(lib, sum, [a, "+", b]);
    assert ["("] + [a, "+", b] + [")"] == ["(", a, "+", b, ")"];
    LooserReading(lib, SParen(sum), PRIMARY, MULTIPLICATION, ["(", a, "+", b, ")"]);
    BinaryReads(lib, Mul, SParen(sum), SVariable(c), ["(", a, "+", b, ")"], [c]);
    assert ["(", a, "+", b, ")"] + ["*"] + [c] == ["(", a, "+", b, ")", "*", c];
    var s := SBinary(Mul, SParen(sum), SVariable(c));
    var d := Binary(Add, Variable(a), Variable(b));
    var n := Binary(Mul, d, Variable(c));
    assert Tree(sum) == d && Tree(SParen(sum)) == d && Tree(s) == n && Mentions(d) <= vars.Keys && Mentions(n) <= vars.Keys;
    MeasuredNames(lib, vars, a, b);
    MeasuredNames(lib, vars, b, c);
    hide Eval;
    SumsAndProducts(lib, Variable(a), Variable(b), vars, vars[a], vars[b]);
    Product(lib, d, Variable(c), vars, vars[a] + vars[b], vars[c]);
    ReadingIsWorth(lib, s, MULTIPLICATION, ["(", a, "+", b, ")", "*", c], n, vars, Times(vars[a] + vars[b], vars[c]));
  }

  /** The ternary, from its text. */
  lemma TernaryFromText(lib: Library, a: string, b: string, c: string, vars: Variables)
    requires Names(vars, a, b, c)
    ensures EvaluateExpression(lib, Spaced([a, "if", b, "else", c]), vars) == Success(if vars[b] != 0.0 then vars[a] else vars[c])
  {
    hide Lexer.IsIdentifier, Reading, EvaluateExpression, Spaced;
    NamesRead(lib, vars, a, b, c, OR);
    TernaryReads(lib, SVariable(b), SVariable(a), SVariable(c), [b], [a], [c]);
    assert [a] + ["if"] + [b] + ["else"] + [c] == [a, "if", b, "else", c];
    var s := STernary(SVariable(b), SVariable(a), SVariable(c));
    var n := Ternary(Variable(b), Variable(a), Variable(c));
    assert Tree(s) == n && Mentions(n) <= vars.Keys;
    MeasuredNames(lib, vars, a, b);
    MeasuredNames(lib, vars, b, c);
    hide Eval;
    TernaryChooses(lib, Variable(b), Variable(a), Variable(c), vars, vars[b]);
    ReadingIsWorth(lib, s, TERNARY, [a, "if", b, "else", c], n, vars, if vars[b] != 0.0 then vars[a] else vars[c]);
  }

  lemma LogicFromText(lib: Library, op: BoolOp, symbol: string, a: string, b: string, vars: Variables, x: Amount)
    requires Names(vars, a, b, b) && Lexer.Lexeme(LogicToken(op)) == symbol
    requires Eval(lib, Logic(op, Variable(a), Variable(b)), vars) == Success(x)
    ensures EvaluateExpression(lib, Spaced([a, symbol, b]), vars) == Success(x)
  {
    hide Lexer.IsIdentifier, Reading, Eval, EvaluateExpression, Spaced, LogicToken, Lexer.Lexeme;
    NamesRead(lib, vars, a, b, b, LogicLevel(op));
    NamesRead(lib, vars, a, b, b, LogicLevel(op) + 1);
    LogicReads(lib, op, SVariable(a), SVariable(b), [a], [b]);
    assert [a] + [symbol] + [b] == [a, symbol, b];
    var s, n := SLogic(op, SVariable(a), SVariable(b)), Logic(op, Variable(a), Variable(b));
    assert Tree(s) == n;
    PairMentions(a, b, vars, n);
    ReadingIsWorth(lib, s, LogicLevel(op), [a, symbol, b], n, vars, x);
  }

  /** The connectives, from their text. */
  lemma ConnectivesFromText(lib: Library, a: string, b: string, vars: Variables)
    requires Names(vars, a, b, b)
    ensures EvaluateExpression(lib, Spaced([a, "and", b]), vars) == Success(if vars[a] == 0.0 then 0.0 else vars[b])
    ensures EvaluateExpression(lib, Spaced([a, "or", b]), vars) == Success(if vars[a] == 0.0 then vars[b] else vars[a])
  {
    hide Lexer.IsIdentifier, EvaluateExpression, Spaced;
    MeasuredNames(lib, vars, a, b);
    hide Eval;
    ConnectivesDecide(lib, Variable(a), Variable(b), vars, vars[a]);
    LogicFromText(lib, And, "and", a, b, vars, if vars[a] == 0.0 then 0.0 else vars[b]);
    LogicFromText(lib, Or, "or", a, b, vars, if vars[a] == 0.0 then vars[b] else vars[a]);
  }

  lemma UnaryFromText(lib: Library, op: UnaryOp, symbol: string, a: string, vars: Variables, x: Amount)
    requires Names(vars, a, a, a) && Lexer.Lexeme(UnaryToken(op)) == symbol
    requires Eval(lib, Unary(op, Variable(a)), vars) == Success(x)
    ensures EvaluateExpression(lib, Spaced([symbol, a]), vars) == Success(x)
  {
    hide Lexer.IsIdentifier, Reading, Eval, EvaluateExpression, Spaced, UnaryToken, Lexer.Lexeme;
    NamesRead(lib, vars, a, a, a, UnaryLevel(op));
    UnaryReads(lib, op, SVariable(a), [a]);
    assert [symbol] + [a] == [symbol, a];
    var s, n := SUnary(op, SVariable(a)), Unary(op, Variable(a));
    assert Tree(s) == n;
    PairMentions(a, a, vars, n);
    ReadingIsWorth(lib, s, UnaryLevel(op), [symbol, a], n, vars, x);
  }

  /** The prefixes, from their text. */
  lemma PrefixesFromText(lib: Library, a: string, vars: Variables)
    requires Names(vars, a, a, a)
    ensures EvaluateExpression(lib, Spaced(["-", a]), vars) == Success(0.0 - vars[a])
    ensures EvaluateExpression(lib, Spaced(["+", a]), vars) == Success(vars[a])
    ensures EvaluateExpression(lib, Spaced(["not", a]), vars) == Success(if vars[a] == 0.0 then 1.0 else 0.0)
  {
    hide Lexer.IsIdentifier, EvaluateExpression, Spaced;
    MeasuredNames(lib, vars, a, a);
    hide Eval;
    SignsAndNegation(lib, Variable(a), vars, vars[a]);
    UnaryFromText(lib, Minus, "-", a, vars, 0.0 - vars[a]);
    UnaryFromText(lib, Plus, "+", a, vars, vars[a]);
    UnaryFromText(lib, Not, "not", a, vars, if vars[a] == 0.0 then 1.0 else 0.0);
  }

  // ----- Calls of measured names -----

  function NameNodes(names: seq<string>): (r: seq<Node>)
    ensures |r| == |names| && forall i | 0 <= i < |names| :: r[i] == Variable(names[i])
  {
    if names == [] then [] else [Variable(names[0])] + NameNodes(names[1..])
  }

  function NameTexts(names: seq<string>): (r: seq<seq<string>>)
    ensures |r| == |names| && forall i | 0 <= i < |names| :: r[i] == [names[i]]
  {
    if names == [] then [] else [[names[0]]] + NameTexts(names[1..])
  }

  function NameSyntaxes(names: seq<string>): (r: seq<Syntax>)
    ensures |r| == |names| && forall i | 0 <= i < |names| :: r[i] == SVariable(names[i])
  {
    if names == [] then [] else [SVariable(names[0])] + NameSyntaxes(names[1..])
  }

  lemma {:induction false} NameTrees(names: seq<string>)
    ensures Trees(NameSyntaxes(names)) == NameNodes(names)
  {
    if names != [] {
      NameTrees(names[1..]);
      assert NameSyntaxes(names)[1..] == NameSyntaxes(names[1..]);
    }
  }

  /** A call of a pricing function on measured names, from its text. */
  lemma CallFromText(lib: Library, fn: string, names: seq<string>, vars: Variables, x: Amount)
    requires AllowedFunction(fn) && ArityOk(fn, |names|)
    requires |names| > 0 && forall name | name in names :: Lexer.IsIdentifier(name) && name in vars
    requires Eval(lib, Call(fn, NameNodes(names)), vars) == Success(x)
    ensures EvaluateExpression(lib, Spaced([fn, "("] + Commas(NameTexts(names)) + [")"]), vars) == Success(x)
  {
    hide Lexer.IsIdentifier, Reading, Eval, EvaluateExpression, Spaced, Commas, AllowedFunction, ArityOk;
    var args, texts, nodes := NameSyntaxes(names), NameTexts(names), NameNodes(names);
    forall i | 0 <= i < |names| ensures Reading(lib, args[i], OR, texts[i]) {
      NameReads(lib, names[i]);
      LooserReading(lib, SVariable(names[i]), PRIMARY, OR, [names[i]]);
    }
    CallReads(lib, fn, args, texts);
    NameTrees(names);
    var s := SCall(fn, fn == "if", args);
    CallSpelling(fn, args);
    assert Mentions(Call(fn, nodes)) <= vars.Keys by {
      forall n, v | n in nodes && v in Mentions(n) ensures v in vars { }
    }
    assert names[0] in vars;
    ReadingIsWorth(lib, s, PRIMARY, [fn, "("] + Commas(texts) + [")"], Call(fn, nodes), vars, x);
  }

  // ----- Numerals -----

  lemma NumeralReads(lib: Library, text: string)
    requires Lexer.IsNumeral(Numerals(lib), text)
    ensures Reading(lib, SNumber(text), PRIMARY, [text])
  {
    hide Lexer.IsNumeral;
    OneWord(TNumber(text));
    assert Spell(SNumber(text)) == [TNumber(text)];
    assert Fits(SNumber(text), PRIMARY);
  }

  /** A measured name plus a numeral, from its text. */
  lemma PlusNumeralFromText(lib: Library, a: string, k: string, vars: Variables)
    requires Names(vars, a, a, a) && Lexer.IsNumeral(Numerals(lib), k) && lib.number(k).Some?
    ensures EvaluateExpression(lib, Spaced([a, "+", k]), vars) == Success(vars[a] + lib.number(k).value)
  {
    hide Lexer.IsIdentifier, Lexer.IsNumeral, Reading, EvaluateExpression, Spaced, Arithmetic;
    NamesRead(lib, vars, a, a, a, ADDITION);
    NumeralReads(lib, k);
    LooserReading(lib, SNumber(k), PRIMARY, ADDITION + 1, [k]);
    BinaryReads(lib, Add, SVariable(a), SNumber(k), [a], [k]);
    assert [a] + ["+"] + [k] == [a, "+", k];
    var s, n := SBinary(Add, SVariable(a), SNumber(k)), Binary(Add, Variable(a), Number(k));
    assert Tree(s) == n;
    assert Mentions(n) == {a} && a in vars;
    LeavesAreWorth(lib, k, a, vars);
    hide Eval;
    SumsAndProducts(lib, Variable(a), Number(k), vars, vars[a], lib.number(k).value);
    ReadingIsWorth(lib, s, ADDITION, [a, "+", k], n, vars, vars[a] + lib.number(k).value);
  }
}
