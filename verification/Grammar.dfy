/** Tokens, syntax trees and the grammar of the pricing expression language.

    The grammar is given by concrete syntax: a tree that keeps its parentheses, the tokens it
    spells, and the rule saying which operand may stand where. The recursive-descent functions
    below follow the parser of golang/expr.go level by level; the theorems say that they accept
    exactly the tokens the grammar spells and return exactly the tree spelled. */
module Grammar {
  import opened Decimals

  datatype Token =
    | TNumber(text: string) | TIdent(name: string)
    | TPlus | TMinus | TTimes | TDivide | TIntDivide | TModulo | TPower
    | TLeftParen | TRightParen | TComma
    | TEqual | TNotEqual | TLess | TLessEqual | TGreater | TGreaterEqual
    | TIn | TNot | TAnd | TOr | TIf | TElse

  datatype BinaryOp = Add | Sub | Mul | Div | IntDiv | Mod
  datatype UnaryOp = Plus | Minus | Not
  datatype CompareOp = Eq | Ne | Lt | Le | Gt | Ge | In | NotIn
  datatype BoolOp = And | Or

  datatype Node =
    | Number(text: string)
    | Variable(name: string)
    | Binary(bop: BinaryOp, left: Node, right: Node)
    | Unary(uop: UnaryOp, operand: Node)
    | Call(fn: string, args: seq<Node>)
    | Ternary(condition: Node, thenNode: Node, otherwise: Node)
    | Compare(cop: CompareOp, left: Node, right: Node)
    | Logic(lop: BoolOp, left: Node, right: Node)

  predicate AllowedFunction(name: string) {
    name in {"ceil", "floor", "min", "max", "round", "if", "tier", "clamp", "percentile"}
  }

  // ----- Concrete syntax -----

  /** A syntax tree in which every pair of parentheses is still visible. */
  datatype Syntax =
    | SNumber(text: string)
    | SVariable(name: string)
    | SBinary(bop: BinaryOp, left: Syntax, right: Syntax)
    | SUnary(uop: UnaryOp, operand: Syntax)
    | SCall(fn: string, keyword: bool, args: seq<Syntax>)
    | STernary(condition: Syntax, thenSyntax: Syntax, otherwise: Syntax)
    | SCompare(cop: CompareOp, left: Syntax, right: Syntax)
    | SLogic(lop: BoolOp, left: Syntax, right: Syntax)
    | SParen(inner: Syntax)

  type Level = n: nat | n <= 8

  const TERNARY: Level := 0
  const OR: Level := 1
  const AND: Level := 2
  const NOT: Level := 3
  const COMPARISON: Level := 4
  const ADDITION: Level := 5
  const MULTIPLICATION: Level := 6
  const UNARY: Level := 7
  const PRIMARY: Level := 8

  function BinaryLevel(op: BinaryOp): Level {
    if op.Add? || op.Sub? then ADDITION else MULTIPLICATION
  }

  function LogicLevel(op: BoolOp): Level {
    if op.Or? then OR else AND
  }

  function UnaryLevel(op: UnaryOp): Level {
    if op.Not? then NOT else UNARY
  }

  function LevelOf(s: Syntax): Level {
    match s
    case STernary(_, _, _) => TERNARY
    case SLogic(op, _, _) => LogicLevel(op)
    case SUnary(op, _) => UnaryLevel(op)
    case SCompare(_, _, _) => COMPARISON
    case SBinary(op, _, _) => BinaryLevel(op)
    case _ => PRIMARY
  }

  /** Every operand binds at least as tightly as its position asks: chains lean left,
      comparisons do not chain, a ternary stands alone or in parentheses. */
  predicate Fits(s: Syntax, level: Level)
    decreases s, 1
  {
    LevelOf(s) >= level && OperandsFit(s)
  }

  predicate OperandsFit(s: Syntax)
    decreases s, 0
  {
    match s
    case SNumber(_) => true
    case SVariable(_) => true
    case SBinary(op, l, r) => Fits(l, BinaryLevel(op)) && Fits(r, BinaryLevel(op) + 1)
    case SUnary(op, e) => Fits(e, UnaryLevel(op))
    case SCall(fn, keyword, args) =>
      (if keyword then fn == "if" else AllowedFunction(fn)) && (forall a | a in args :: Fits(a, OR))
    case STernary(c, t, e) => Fits(c, OR) && Fits(t, OR) && Fits(e, OR)
    case SCompare(_, l, r) => Fits(l, ADDITION) && Fits(r, ADDITION)
    case SLogic(op, l, r) => Fits(l, LogicLevel(op)) && Fits(r, LogicLevel(op) + 1)
    case SParen(e) => Fits(e, TERNARY)
  }

  function BinaryToken(op: BinaryOp): Token {
    match op
    case Add => TPlus case Sub => TMinus case Mul => TTimes
    case Div => TDivide case IntDiv => TIntDivide case Mod => TModulo
  }

  function UnaryToken(op: UnaryOp): Token {
    match op case Plus => TPlus case Minus => TMinus case Not => TNot
  }

  function CompareTokens(op: CompareOp): seq<Token> {
    match op
    case Eq => [TEqual] case Ne => [TNotEqual] case Lt => [TLess] case Le => [TLessEqual]
    case Gt => [TGreater] case Ge => [TGreaterEqual] case In => [TIn] case NotIn => [TNot, TIn]
  }

  function LogicToken(op: BoolOp): Token {
    if op.And? then TAnd else TOr
  }

  /** The tokens a concrete tree spells. */
  function Spell(s: Syntax): (ts: seq<Token>)
    ensures |ts| >= 1
    decreases s, 0
  {
    match s
    case SNumber(text) => [TNumber(text)]
    case SVariable(name) => [TIdent(name)]
    case SBinary(op, l, r) => Spell(l) + [BinaryToken(op)] + Spell(r)
    case SUnary(op, e) => [UnaryToken(op)] + Spell(e)
    case SCall(fn, keyword, args) =>
      [if keyword then TIf else TIdent(fn), TLeftParen] + SpellArgs(args) + [TRightParen]
    case STernary(c, t, e) => Spell(t) + [TIf] + Spell(c) + [TElse] + Spell(e)
    case SCompare(op, l, r) => Spell(l) + CompareTokens(op) + Spell(r)
    case SLogic(op, l, r) => Spell(l) + [LogicToken(op)] + Spell(r)
    case SParen(e) => [TLeftParen] + Spell(e) + [TRightParen]
  }

  function SpellArgs(args: seq<Syntax>): seq<Token>
    decreases args
  {
    if args == [] then []
    else if |args| == 1 then Spell(args[0])
    else Spell(args[0]) + [TComma] + SpellArgs(args[1..])
  }

  /** The tree a concrete tree stands for: parentheses dropped. */
  function Tree(s: Syntax): Node
    decreases s, 0
  {
    match s
    case SNumber(text) => Number(text)
    case SVariable(name) => Variable(name)
    case SBinary(op, l, r) => Binary(op, Tree(l), Tree(r))
    case SUnary(op, e) => Unary(op, Tree(e))
    case SCall(fn, _, args) => Call(fn, Trees(args))
    case STernary(c, t, e) => Ternary(Tree(c), Tree(t), Tree(e))
    case SCompare(op, l, r) => Compare(op, Tree(l), Tree(r))
    case SLogic(op, l, r) => Logic(op, Tree(l), Tree(r))
    case SParen(e) => Tree(e)
  }

  function Trees(args: seq<Syntax>): (r: seq<Node>)
    ensures |r| == |args|
    decreases args
  {
    if args == [] then [] else [Tree(args[0])] + Trees(args[1..])
  }

  // ----- The recursive descent -----

  datatype Parsed<+T> = Fail | Ok(value: T, next: nat)

  predicate Advanced<T>(r: Parsed<T>, start: nat, end: nat) {
    r.Ok? ==> start < r.next <= end
  }

  predicate At(ts: seq<Token>, p: nat, t: Token) {
    p < |ts| && ts[p] == t
  }

  /** The operator of a left-leaning chain, when the token is one at this level. */
  function ChainOp(level: Level, t: Token): Option<Token> {
    if (match level
        case 1 => t == TOr
        case 2 => t == TAnd
        case 5 => t == TPlus || t == TMinus
        case 6 => t == TTimes || t == TDivide || t == TIntDivide || t == TModulo
        case _ => false)
    then Some(t) else None
  }

  function ChainNode(op: Token, left: Node, right: Node): Node {
    match op
    case TOr => Logic(Or, left, right)
    case TAnd => Logic(And, left, right)
    case TPlus => Binary(Add, left, right)
    case TMinus => Binary(Sub, left, right)
    case TTimes => Binary(Mul, left, right)
    case TDivide => Binary(Div, left, right)
    case TIntDivide => Binary(IntDiv, left, right)
    case _ => Binary(Mod, left, right)
  }

  predicate IsChain(level: Level) {
    level == OR || level == AND || level == ADDITION || level == MULTIPLICATION
  }

  /** Parse the operand of one precedence level. */
  function ParseLevel(ts: seq<Token>, p: nat, level: Level): (r: Parsed<Node>)
    requires p <= |ts|
    ensures Advanced(r, p, |ts|)
    decreases |ts| - p, 10 - level, 2
  {
    if level == TERNARY then ParseTernary(ts, p)
    else if level == NOT then ParseNot(ts, p)
    else if level == COMPARISON then ParseComparison(ts, p)
    else if level == UNARY then ParseUnary(ts, p)
    else if level == PRIMARY then ParsePrimary(ts, p)
    else ParseChain(ts, p, level)
  }

  function ParseTernary(ts: seq<Token>, p: nat): (r: Parsed<Node>)
    requires p <= |ts|
    ensures Advanced(r, p, |ts|)
    decreases |ts| - p, 10 - TERNARY, 1
  {
    var t := ParseLevel(ts, p, OR);
    if t.Fail? || !At(ts, t.next, TIf) then t
    else
      var c := ParseLevel(ts, t.next + 1, OR);
      if c.Fail? || !At(ts, c.next, TElse) then Fail
      else
        var e := ParseLevel(ts, c.next + 1, OR);
        if e.Fail? then Fail else Ok(Ternary(c.value, t.value, e.value), e.next)
  }

  function ParseChain(ts: seq<Token>, p: nat, level: Level): (r: Parsed<Node>)
    requires p <= |ts| && IsChain(level)
    ensures Advanced(r, p, |ts|)
    decreases |ts| - p, 10 - level, 1
  {
    var l := ParseLevel(ts, p, level + 1);
    if l.Fail? then Fail else ParseRest(ts, l.next, level, l.value)
  }

  /** Extend a chain to the right of the operand already parsed. */
  function ParseRest(ts: seq<Token>, p: nat, level: Level, left: Node): (r: Parsed<Node>)
    requires 0 < p <= |ts| && IsChain(level)
    ensures r.Ok? ==> p <= r.next <= |ts|
    decreases |ts| - p, 10 - level, 0
  {
    if p < |ts| && ChainOp(level, ts[p]).Some? then
      var r := ParseLevel(ts, p + 1, level + 1);
      if r.Fail? then Fail else ParseRest(ts, r.next, level, ChainNode(ts[p], left, r.value))
    else if level == MULTIPLICATION && At(ts, p, TPower) then Fail
    else Ok(left, p)
  }

  function ParseNot(ts: seq<Token>, p: nat): (r: Parsed<Node>)
    requires p <= |ts|
    ensures Advanced(r, p, |ts|)
    decreases |ts| - p, 10 - NOT, 1
  {
    if At(ts, p, TNot) then
      var e := ParseNot(ts, p + 1);
      if e.Fail? then Fail else Ok(Unary(Not, e.value), e.next)
    else ParseLevel(ts, p, COMPARISON)
  }

  /** The comparison operator at p, with the number of tokens it takes. */
  function CompareOpAt(ts: seq<Token>, p: nat): Option<(CompareOp, nat)> {
    if p >= |ts| then None
    else match ts[p]
      case TEqual => Some((Eq, 1))
      case TNotEqual => Some((Ne, 1))
      case TLess => Some((Lt, 1))
      case TLessEqual => Some((Le, 1))
      case TGreater => Some((Gt, 1))
      case TGreaterEqual => Some((Ge, 1))
      case TIn => Some((In, 1))
      case TNot => if At(ts, p + 1, TIn) then Some((NotIn, 2)) else None
      case _ => None
  }

  predicate IsComparisonToken(t: Token) {
    t in {TEqual, TNotEqual, TLess, TLessEqual, TGreater, TGreaterEqual, TIn, TNot}
  }

  function ParseComparison(ts: seq<Token>, p: nat): (r: Parsed<Node>)
    requires p <= |ts|
    ensures Advanced(r, p, |ts|)
    decreases |ts| - p, 10 - COMPARISON, 1
  {
    var l := ParseLevel(ts, p, ADDITION);
    if l.Fail? || l.next == |ts| || !IsComparisonToken(ts[l.next]) then l
    else
      var op := CompareOpAt(ts, l.next);
      if op.None? then Fail
      else
        var r := ParseLevel(ts, l.next + op.value.1, ADDITION);
        if r.Fail? || (r.next < |ts| && IsComparisonToken(ts[r.next])) then Fail
        else Ok(Compare(op.value.0, l.value, r.value), r.next)
  }

  function ParseUnary(ts: seq<Token>, p: nat): (r: Parsed<Node>)
    requires p <= |ts|
    ensures Advanced(r, p, |ts|)
    decreases |ts| - p, 10 - UNARY, 1
  {
    if At(ts, p, TPlus) || At(ts, p, TMinus) then
      var e := ParseUnary(ts, p + 1);
      if e.Fail? then Fail
      else Ok(Unary(if ts[p] == TPlus then Plus else Minus, e.value), e.next)
    else ParseLevel(ts, p, PRIMARY)
  }

  function ParsePrimary(ts: seq<Token>, p: nat): (r: Parsed<Node>)
    requires p <= |ts|
    ensures Advanced(r, p, |ts|)
    decreases |ts| - p, 10 - PRIMARY, 1
  {
    if p == |ts| then Fail
    else match ts[p]
      case TNumber(text) => Ok(Number(text), p + 1)
      case TIdent(name) =>
        if !At(ts, p + 1, TLeftParen) then Ok(Variable(name), p + 1)
        else if !AllowedFunction(name) then Fail
        else ParseCall(ts, p + 2, name)
      case TIf => if At(ts, p + 1, TLeftParen) then ParseCall(ts, p + 2, "if") else Fail
      case TLeftParen =>
        var e := ParseLevel(ts, p + 1, TERNARY);
        if e.Fail? || !At(ts, e.next, TRightParen) then Fail else Ok(e.value, e.next + 1)
      case _ => Fail
  }

  /** A call once its name and opening parenthesis are taken. */
  function ParseCall(ts: seq<Token>, p: nat, fn: string): (r: Parsed<Node>)
    requires p <= |ts|
    ensures Advanced(r, p, |ts|)
    decreases |ts| - p, 12
  {
    var args := ParseArguments(ts, p);
    if args.Fail? then Fail else Ok(Call(fn, args.value), args.next)
  }

  function ParseArguments(ts: seq<Token>, p: nat): (r: Parsed<seq<Node>>)
    requires p <= |ts|
    ensures Advanced(r, p, |ts|)
    decreases |ts| - p, 11
  {
    if At(ts, p, TRightParen) then Ok([], p + 1) else ParseMoreArguments(ts, p, [])
  }

  function ParseMoreArguments(ts: seq<Token>, p: nat, before: seq<Node>): (r: Parsed<seq<Node>>)
    requires p <= |ts|
    ensures Advanced(r, p, |ts|)
    decreases |ts| - p, 10
  {
    var a := ParseLevel(ts, p, OR);
    if a.Fail? then Fail
    else if At(ts, a.next, TComma) then ParseMoreArguments(ts, a.next + 1, before + [a.value])
    else if At(ts, a.next, TRightParen) then Ok(before + [a.value], a.next + 1)
    else Fail
  }

  /** The whole token list as one expression. */
  function ParseTokens(ts: seq<Token>): Option<Node> {
    var r := ParseLevel(ts, 0, TERNARY);
    if r.Ok? && r.next == |ts| then Some(r.value) else None
  }
}
