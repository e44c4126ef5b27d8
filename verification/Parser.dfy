/** The descent as the parser runs it: one cursor advanced in place, chains rebuilt in loops. */
module Parser {
  import opened Decimals
  import opened Grammar

  class PricingExpressionParser {
    const tokens: seq<Token>
    var position: nat

    constructor (tokens: seq<Token>)
      ensures this.tokens == tokens && position == 0
    {
      this.tokens := tokens;
      position := 0;
    }

    /** The cursor never leaves the token list. */
    ghost predicate Valid()
      reads this
    {
      position <= |tokens|
    }

    /** The outcome of a level method and the cursor it leaves agree with the descent function. */
    ghost predicate Agrees<T(!new)>(spec: Parsed<T>, r: Option<T>)
      reads this
    {
      && Valid()
      && match r
         case None => spec.Fail?
         case Some(value) => spec == Ok(value, position)
    }

    predicate Check(t: Token)
      reads this
    {
      position < |tokens| && tokens[position] == t
    }

    method Match(t: Token) returns (matched: bool)
      requires Valid()
      modifies this
      ensures Valid()
      ensures matched == At(tokens, old(position), t)
      ensures position == old(position) + if matched then 1 else 0
    {
      matched := Check(t);
      if matched { position := position + 1; }
    }

    method Parse() returns (r: Option<Node>)
      requires Valid()
      modifies this
      ensures Agrees(ParseLevel(tokens, old(position), TERNARY), r)
      decreases |tokens| - position, 10 - TERNARY
    {
      var expression := BooleanExpression();
      if expression.None? { return None; }
      var isTernary := Match(TIf);
      if !isTernary { return expression; }
      var condition := BooleanExpression();
      if condition.None? { return None; }
      var hasElse := Match(TElse);
      if !hasElse { return None; }
      var otherwise := BooleanExpression();
      if otherwise.None? { return None; }
      return Some(Ternary(condition.value, expression.value, otherwise.value));
    }

    method BooleanExpression() returns (r: Option<Node>)
      requires Valid()
      modifies this
      ensures Agrees(ParseLevel(tokens, old(position), OR), r)
      decreases |tokens| - position, 10 - OR
    {
      var left := AndExpression();
      if left.None? { return None; }
      while Check(TOr)
        invariant Valid() && old(position) < position && left.Some?
        invariant ParseChain(tokens, old(position), OR) == ParseRest(tokens, position, OR, left.value)
        decreases |tokens| - position
      {
        position := position + 1;
        var right := AndExpression();
        if right.None? { return None; }
        left := Some(Logic(Or, left.value, right.value));
      }
      return left;
    }

    method AndExpression() returns (r: Option<Node>)
      requires Valid()
      modifies this
      ensures Agrees(ParseLevel(tokens, old(position), AND), r)
      decreases |tokens| - position, 10 - AND
    {
      var left := NotExpression();
      if left.None? { return None; }
      while Check(TAnd)
        invariant Valid() && old(position) < position && left.Some?
        invariant ParseChain(tokens, old(position), AND) == ParseRest(tokens, position, AND, left.value)
        decreases |tokens| - position
      {
        position := position + 1;
        var right := NotExpression();
        if right.None? { return None; }
        left := Some(Logic(And, left.value, right.value));
      }
      return left;
    }

    method NotExpression() returns (r: Option<Node>)
      requires Valid()
      modifies this
      ensures Agrees(ParseLevel(tokens, old(position), NOT), r)
      decreases |tokens| - position, 10 - NOT
    {
      var negated := Match(TNot);
      if !negated {
        r := Comparison();
        return;
      }
      var operand := NotExpression();
      if operand.None? { return None; }
      return Some(Unary(Not, operand.value));
    }

    method Comparison() returns (r: Option<Node>)
      requires Valid()
      modifies this
      ensures Agrees(ParseLevel(tokens, old(position), COMPARISON), r)
      decreases |tokens| - position, 10 - COMPARISON
    {
      var left := Addition();
      if left.None? { return None; }
      var operation: CompareOp;
      if Check(TNot) {
        position := position + 1;
        var isIn := Match(TIn);
        if !isIn { return None; }
        operation := NotIn;
      } else if position < |tokens| && CompareOpAt(tokens, position).Some? {
        operation := CompareOpAt(tokens, position).value.0;
        position := position + 1;
      } else {
        return left;
      }
      var right := Addition();
      if right.None? { return None; }
      if position < |tokens| && IsComparisonToken(tokens[position]) { return None; }
      return Some(Compare(operation, left.value, right.value));
    }

    method Addition() returns (r: Option<Node>)
      requires Valid()
      modifies this
      ensures Agrees(ParseLevel(tokens, old(position), ADDITION), r)
      decreases |tokens| - position, 10 - ADDITION
    {
      var left := Multiplication();
      if left.None? { return None; }
      while Check(TPlus) || Check(TMinus)
        invariant Valid() && old(position) < position && left.Some?
        invariant ParseChain(tokens, old(position), ADDITION) == ParseRest(tokens, position, ADDITION, left.value)
        decreases |tokens| - position
      {
        var operation := if Check(TPlus) then Add else Sub;
        position := position + 1;
        var right := Multiplication();
        if right.None? { return None; }
        left := Some(Binary(operation, left.value, right.value));
      }
      return left;
    }

    method Multiplication() returns (r: Option<Node>)
      requires Valid()
      modifies this
      ensures Agrees(ParseLevel(tokens, old(position), MULTIPLICATION), r)
      decreases |tokens| - position, 10 - MULTIPLICATION
    {
      var left := UnaryExpression();
      if left.None? { return None; }
      while Check(TTimes) || Check(TDivide) || Check(TIntDivide) || Check(TModulo)
        invariant Valid() && old(position) < position && left.Some?
        invariant ParseChain(tokens, old(position), MULTIPLICATION)
               == ParseRest(tokens, position, MULTIPLICATION, left.value)
        decreases |tokens| - position
      {
        var operation := if Check(TTimes) then Mul else if Check(TDivide) then Div
                         else if Check(TIntDivide) then IntDiv else Mod;
        position := position + 1;
        var right := UnaryExpression();
        if right.None? { return None; }
        left := Some(Binary(operation, left.value, right.value));
      }
      if Check(TPower) { return None; }
      return left;
    }

    method UnaryExpression() returns (r: Option<Node>)
      requires Valid()
      modifies this
      ensures Agrees(ParseLevel(tokens, old(position), UNARY), r)
      decreases |tokens| - position, 10 - UNARY
    {
      if !Check(TPlus) && !Check(TMinus) {
        r := Primary();
        return;
      }
      var operation := if Check(TPlus) then Plus else Minus;
      position := position + 1;
      var operand := UnaryExpression();
      if operand.None? { return None; }
      return Some(Unary(operation, operand.value));
    }

    method Primary() returns (r: Option<Node>)
      requires Valid()
      modifies this
      ensures Agrees(ParseLevel(tokens, old(position), PRIMARY), r)
      decreases |tokens| - position, 10 - PRIMARY
    {
      if position == |tokens| || Check(TPower) { return None; }
      var token := tokens[position];
      if token.TNumber? {
        position := position + 1;
        return Some(Number(token.text));
      }
      if token.TIdent? {
        position := position + 1;
        var isCall := Match(TLeftParen);
        if !isCall { return Some(Variable(token.name)); }
        if !AllowedFunction(token.name) { return None; }
        assert ParsePrimary(tokens, old(position)) == ParseCall(tokens, position, token.name);
        var arguments := CallArguments();
        if arguments.None? { return None; }
        return Some(Call(token.name, arguments.value));
      }
      var isIf := Match(TIf);
      if isIf {
        var isCall := Match(TLeftParen);
        if isCall {
          assert ParsePrimary(tokens, old(position)) == ParseCall(tokens, position, "if");
          var arguments := CallArguments();
          if arguments.None? { return None; }
          return Some(Call("if", arguments.value));
        }
        return None;
      }
      var isParen := Match(TLeftParen);
      if isParen {
        var expression := Parse();
        if expression.None? { return None; }
        var closed := Match(TRightParen);
        if !closed { return None; }
        return expression;
      }
      return None;
    }

    method CallArguments() returns (r: Option<seq<Node>>)
      requires Valid()
      modifies this
      ensures Agrees(ParseArguments(tokens, old(position)), r)
      decreases |tokens| - position, 11
    {
      var arguments: seq<Node> := [];
      if !Check(TRightParen) {
        var more := true;
        while more
          invariant Valid() && old(position) <= position
          invariant more ==> ParseArguments(tokens, old(position)) == ParseMoreArguments(tokens, position, arguments)
          invariant !more ==> ParseArguments(tokens, old(position)) == Closed(tokens, position, arguments)
          decreases |tokens| - position, more
        {
          var argument := BooleanExpression();
          if argument.None? { return None; }
          arguments := arguments + [argument.value];
          more := Match(TComma);
        }
      }
      var closed := Match(TRightParen);
      if !closed { return None; }
      return Some(arguments);
    }
  }

  /** An argument list that must end at the cursor. */
  function Closed(tokens: seq<Token>, position: nat, arguments: seq<Node>): Parsed<seq<Node>> {
    if At(tokens, position, TRightParen) then Ok(arguments, position + 1) else Fail
  }

  /** One parse from the first token to the last. */
  method ParseExpressionTokens(tokens: seq<Token>) returns (r: Option<Node>)
    ensures r == ParseTokens(tokens)
  {
    var parser := new PricingExpressionParser(tokens);
    var node := parser.Parse();
    if node.None? || parser.position < |tokens| { return None; }
    return node;
  }
}
