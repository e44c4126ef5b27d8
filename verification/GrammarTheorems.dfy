/** The descent accepts exactly what the grammar spells, with exactly the tree spelled. */
module GrammarTheorems {
  import opened Decimals
  import opened Grammar

  ghost predicate Spelled(ts: seq<Token>, p: nat, what: seq<Token>, q: nat) {
    p <= q <= |ts| && ts[p..q] == what
  }

  lemma SpelledSplit(ts: seq<Token>, p: nat, a: seq<Token>, b: seq<Token>, q: nat) returns (m: nat)
    requires Spelled(ts, p, a + b, q)
    ensures m == p + |a| && Spelled(ts, p, a, m) && Spelled(ts, m, b, q)
  {
    m := p + |a|;
    assert |a + b| == q - p;
    assert ts[p..m] == (a + b)[..|a|];
    assert ts[m..q] == (a + b)[|a|..];
  }

  lemma SpelledOne(ts: seq<Token>, p: nat, t: Token, q: nat)
    requires Spelled(ts, p, [t], q)
    ensures q == p + 1 && At(ts, p, t)
  {
    assert ts[p..q][0] == ts[p];
  }

  lemma SpelledJoin(ts: seq<Token>, p: nat, a: seq<Token>, m: nat, b: seq<Token>, q: nat)
    requires Spelled(ts, p, a, m) && Spelled(ts, m, b, q)
    ensures Spelled(ts, p, a + b, q)
  {
    assert ts[p..q] == ts[p..m] + ts[m..q];
  }

  lemma SpelledToken(ts: seq<Token>, p: nat)
    requires p < |ts|
    ensures Spelled(ts, p, [ts[p]], p + 1)
  {
  }

  /** The loosest level at which a following token would still be taken into the operand. */
  function ContinuesAt(t: Token): int {
    match t
    case TIf => 0
    case TOr => 1
    case TAnd => 2
    case TEqual => 4 case TNotEqual => 4 case TLess => 4 case TLessEqual => 4
    case TGreater => 4 case TGreaterEqual => 4 case TIn => 4 case TNot => 4
    case TPlus => 5 case TMinus => 5
    case TTimes => 6 case TDivide => 6 case TIntDivide => 6 case TModulo => 6 case TPower => 6
    case TLeftParen => 8
    case _ => -1
  }

  predicate Stops(ts: seq<Token>, q: nat, level: int) {
    q < |ts| ==> ContinuesAt(ts[q]) < level
  }

  /** The first token of an operand tells a prefix operator from anything tighter. */
  lemma {:induction false} FirstToken(s: Syntax, level: Level)
    requires Fits(s, level)
    ensures level >= COMPARISON ==> Spell(s)[0] != TNot
    ensures level >= PRIMARY ==> Spell(s)[0] != TPlus && Spell(s)[0] != TMinus
    decreases s
  {
    match s {
      case SBinary(op, l, r) => FirstToken(l, BinaryLevel(op));
      case SCompare(op, l, r) => FirstToken(l, ADDITION);
      case _ =>
    }
  }

  // ----- Completeness: what is spelled is parsed -----

  lemma {:induction false} Complete(ts: seq<Token>, p: nat, s: Syntax, q: nat, level: Level)
    requires Fits(s, level) && Spelled(ts, p, Spell(s), q) && Stops(ts, q, level)
    ensures ParseLevel(ts, p, level) == Ok(Tree(s), q)
    decreases s, 10 - level, 2
  {
    if level == TERNARY { CompleteTernary(ts, p, s, q); }
    else if level == NOT { CompleteNot(ts, p, s, q); }
    else if level == COMPARISON { CompleteComparison(ts, p, s, q); }
    else if level == UNARY { CompleteUnary(ts, p, s, q); }
    else if level == PRIMARY { CompletePrimary(ts, p, s, q); }
    else { CompleteChain(ts, p, s, q, level); }
  }

  lemma {:induction false} CompleteTernary(ts: seq<Token>, p: nat, s: Syntax, q: nat)
    requires Fits(s, TERNARY) && Spelled(ts, p, Spell(s), q) && Stops(ts, q, TERNARY)
    ensures ParseTernary(ts, p) == Ok(Tree(s), q)
    decreases s, 10 - TERNARY, 1
  {
    hide ParseLevel;
    if s.STernary? {
        var c, t, e := s.condition, s.thenSyntax, s.otherwise;
        var m3 := SpelledSplit(ts, p, Spell(t) + [TIf] + Spell(c) + [TElse], Spell(e), q);
        var m2 := SpelledSplit(ts, p, Spell(t) + [TIf] + Spell(c), [TElse], m3);
        var m1 := SpelledSplit(ts, p, Spell(t) + [TIf], Spell(c), m2);
        var m0 := SpelledSplit(ts, p, Spell(t), [TIf], m1);
        SpelledOne(ts, m0, TIf, m1);
        SpelledOne(ts, m2, TElse, m3);
        Complete(ts, p, t, m0, OR);
        Complete(ts, m1, c, m2, OR);
        Complete(ts, m3, e, q, OR);
    } else {
      Complete(ts, p, s, q, OR);
    }
  }

  lemma {:induction false} CompleteNot(ts: seq<Token>, p: nat, s: Syntax, q: nat)
    requires Fits(s, NOT) && Spelled(ts, p, Spell(s), q) && Stops(ts, q, NOT)
    ensures ParseNot(ts, p) == Ok(Tree(s), q)
    decreases s, 10 - NOT, 1
  {
    if s.SUnary? && s.uop.Not? {
      var m := SpelledSplit(ts, p, [TNot], Spell(s.operand), q);
      SpelledOne(ts, p, TNot, m);
      CompleteNot(ts, m, s.operand, q);
    } else {
      FirstToken(s, COMPARISON);
      assert ts[p] == Spell(s)[0];
      Complete(ts, p, s, q, COMPARISON);
    }
  }

  lemma OperatorAt(ts: seq<Token>, p: nat, op: CompareOp, q: nat)
    requires Spelled(ts, p, CompareTokens(op), q)
    ensures p < q && IsComparisonToken(ts[p]) && CompareOpAt(ts, p) == Some((op, q - p))
    ensures ContinuesAt(ts[p]) == COMPARISON
  {
    assert ts[p] == ts[p..q][0];
    if op.NotIn? { assert ts[p + 1] == ts[p..q][1]; }
  }

  lemma {:induction false} CompleteComparison(ts: seq<Token>, p: nat, s: Syntax, q: nat)
    requires Fits(s, COMPARISON) && Spelled(ts, p, Spell(s), q) && Stops(ts, q, COMPARISON)
    ensures ParseComparison(ts, p) == Ok(Tree(s), q)
    decreases s, 10 - COMPARISON, 1
  {
    hide ParseLevel, CompareOpAt, CompareTokens;
    if s.SCompare? {
        var op, l, r := s.cop, s.left, s.right;
        var m1 := SpelledSplit(ts, p, Spell(l) + CompareTokens(op), Spell(r), q);
        var m0 := SpelledSplit(ts, p, Spell(l), CompareTokens(op), m1);
        OperatorAt(ts, m0, op, m1);
        Complete(ts, p, l, m0, ADDITION);
        Complete(ts, m1, r, q, ADDITION);
    } else {
      Complete(ts, p, s, q, ADDITION);
    }
  }

  lemma {:induction false} CompleteUnary(ts: seq<Token>, p: nat, s: Syntax, q: nat)
    requires Fits(s, UNARY) && Spelled(ts, p, Spell(s), q) && Stops(ts, q, UNARY)
    ensures ParseUnary(ts, p) == Ok(Tree(s), q)
    decreases s, 10 - UNARY, 1
  {
    if s.SUnary? {
      var m := SpelledSplit(ts, p, [UnaryToken(s.uop)], Spell(s.operand), q);
      SpelledOne(ts, p, UnaryToken(s.uop), m);
      CompleteUnary(ts, m, s.operand, q);
    } else {
      FirstToken(s, PRIMARY);
      assert ts[p] == Spell(s)[0];
      Complete(ts, p, s, q, PRIMARY);
    }
  }

  lemma {:induction false} CompletePrimary(ts: seq<Token>, p: nat, s: Syntax, q: nat)
    requires Fits(s, PRIMARY) && Spelled(ts, p, Spell(s), q) && Stops(ts, q, PRIMARY)
    ensures ParsePrimary(ts, p) == Ok(Tree(s), q)
    decreases s, 10 - PRIMARY, 1
  {
    hide ParseLevel;
    assert ts[p] == Spell(s)[0];
    match s {
      case SNumber(text) => SpelledOne(ts, p, TNumber(text), q);
      case SVariable(name) => SpelledOne(ts, p, TIdent(name), q);
      case SParen(e) =>
        var m1 := SpelledSplit(ts, p, [TLeftParen] + Spell(e), [TRightParen], q);
        var m0 := SpelledSplit(ts, p, [TLeftParen], Spell(e), m1);
        SpelledOne(ts, m1, TRightParen, q);
        Complete(ts, m0, e, m1, TERNARY);
      case SCall(_, _, _) => CompleteCall(ts, p, s, q);
    }
  }

  lemma {:induction false} CompleteCall(ts: seq<Token>, p: nat, s: Syntax, q: nat)
    requires s.SCall? && OperandsFit(s) && Spelled(ts, p, Spell(s), q)
    ensures ParsePrimary(ts, p) == Ok(Tree(s), q)
    decreases s, 10 - PRIMARY, 0
  {
    hide ParseLevel, ParseArguments, SpellArgs;
    var head := [if s.keyword then TIf else TIdent(s.fn), TLeftParen];
    var m := SpelledSplit(ts, p, head, SpellArgs(s.args) + [TRightParen], q);
    assert Spell(s) == head + (SpellArgs(s.args) + [TRightParen]);
    assert ts[p] == ts[p..m][0] && ts[p + 1] == ts[p..m][1];
    CompleteAllArguments(ts, m, s.args, q);
  }

  lemma {:induction false} CompleteAllArguments(ts: seq<Token>, p: nat, args: seq<Syntax>, q: nat)
    requires forall a | a in args :: Fits(a, OR)
    requires Spelled(ts, p, SpellArgs(args) + [TRightParen], q)
    ensures ParseArguments(ts, p) == Ok(Trees(args), q)
    decreases args, 1
  {
    hide ParseLevel, ParseMoreArguments;
    var m := SpelledSplit(ts, p, SpellArgs(args), [TRightParen], q);
    SpelledOne(ts, m, TRightParen, q);
    if args == [] {
      assert m == p;
    } else {
      FirstArgument(args);
      assert ts[p] == ts[p..m][0];
      CompleteArguments(ts, p, args, m, []);
      assert [] + Trees(args) == Trees(args);
    }
  }

  lemma FirstArgument(args: seq<Syntax>)
    requires args != []
    ensures |SpellArgs(args)| >= 1 && SpellArgs(args)[0] == Spell(args[0])[0]
    ensures SpellArgs(args)[0] != TRightParen
  {
    StartsOperand(args[0]);
  }

  lemma {:induction false} StartsOperand(s: Syntax)
    ensures Spell(s)[0] != TRightParen
  {
    match s {
      case SBinary(op, l, r) => StartsOperand(l);
      case SCompare(op, l, r) => StartsOperand(l);
      case SLogic(op, l, r) => StartsOperand(l);
      case STernary(c, t, e) => StartsOperand(t);
      case _ =>
    }
  }

  lemma ArgumentsCons(a: Syntax, rest: seq<Syntax>)
    ensures rest == [] ==> SpellArgs([a] + rest) == Spell(a)
    ensures rest != [] ==> SpellArgs([a] + rest) == Spell(a) + [TComma] + SpellArgs(rest)
    ensures Trees([a] + rest) == [Tree(a)] + Trees(rest)
  {
    assert ([a] + rest)[1..] == rest;
  }

  lemma {:induction false} CompleteArguments(ts: seq<Token>, p: nat, args: seq<Syntax>, q: nat, before: seq<Node>)
    requires args != [] && (forall a | a in args :: Fits(a, OR))
    requires Spelled(ts, p, SpellArgs(args), q) && At(ts, q, TRightParen)
    ensures ParseMoreArguments(ts, p, before) == Ok(before + Trees(args), q + 1)
    decreases args, 0
  {
    hide ParseLevel, SpellArgs, Trees, Spell, Tree;
    var a, rest := args[0], args[1..];
    assert args == [a] + rest;
    ArgumentsCons(a, rest);
    assert before + [Tree(a)] + Trees(rest) == before + Trees(args);
    if rest == [] {
      Complete(ts, p, a, q, OR);
      NoTrees();
      assert before + [Tree(a)] + [] == before + [Tree(a)];
    } else {
      var m1 := SpelledSplit(ts, p, Spell(a) + [TComma], SpellArgs(rest), q);
      var m0 := SpelledSplit(ts, p, Spell(a), [TComma], m1);
      SpelledOne(ts, m0, TComma, m1);
      Complete(ts, p, a, m0, OR);
      CompleteArguments(ts, m1, rest, q, before + [Tree(a)]);
    }
  }

  lemma NoTrees()
    ensures Trees([]) == []
  {
  }

  /** What a tree of a chain level is made of. */
  lemma ChainShape(s: Syntax, level: Level) returns (l: Syntax, t: Token, r: Syntax)
    requires IsChain(level) && Fits(s, level) && LevelOf(s) == level
    ensures l < s && r < s && Fits(l, level) && Fits(r, level + 1)
    ensures Spell(s) == Spell(l) + [t] + Spell(r)
    ensures ChainOp(level, t).Some? && ContinuesAt(t) == level
    ensures Tree(s) == ChainNode(t, Tree(l), Tree(r))
  {
    l, r := s.left, s.right;
    t := if s.SLogic? then LogicToken(s.lop) else BinaryToken(s.bop);
  }

  /** A chain operand brings the descent to the point after its last operator, whole left part built. */
  lemma {:induction false} CompleteSpine(ts: seq<Token>, p: nat, s: Syntax, q: nat, level: Level)
    requires IsChain(level) && Fits(s, level) && Spelled(ts, p, Spell(s), q) && Stops(ts, q, level + 1)
    ensures p < q && ParseChain(ts, p, level) == ParseRest(ts, q, level, Tree(s))
    decreases s, 10 - level, 0
  {
    hide ParseLevel, Spell, Tree, OperandsFit;
    if LevelOf(s) == level {
      var l, t, r := ChainShape(s, level);
      var m1 := SpelledSplit(ts, p, Spell(l) + [t], Spell(r), q);
      var m0 := SpelledSplit(ts, p, Spell(l), [t], m1);
      SpelledOne(ts, m0, t, m1);
      CompleteSpine(ts, p, l, m0, level);
      Complete(ts, m1, r, q, level + 1);
    } else {
      Complete(ts, p, s, q, level + 1);
    }
  }

  lemma {:induction false} CompleteChain(ts: seq<Token>, p: nat, s: Syntax, q: nat, level: Level)
    requires IsChain(level) && Fits(s, level) && Spelled(ts, p, Spell(s), q) && Stops(ts, q, level)
    ensures ParseChain(ts, p, level) == Ok(Tree(s), q)
    decreases s, 10 - level, 1
  {
    hide ParseLevel, ParseChain, Spell;
    CompleteSpine(ts, p, s, q, level);
  }

  // ----- Soundness: what is parsed was spelled -----

  ghost predicate Witness(ts: seq<Token>, p: nat, level: Level, r: Parsed<Node>, s: Syntax) {
    r.Ok? && Fits(s, level) && Spelled(ts, p, Spell(s), r.next) && Tree(s) == r.value
  }

  lemma {:induction false} Sound(ts: seq<Token>, p: nat, level: Level) returns (s: Syntax)
    requires p <= |ts| && ParseLevel(ts, p, level).Ok?
    ensures Witness(ts, p, level, ParseLevel(ts, p, level), s)
    decreases |ts| - p, 10 - level, 2
  {
    if level == TERNARY { s := SoundTernary(ts, p); }
    else if level == NOT { s := SoundNot(ts, p); }
    else if level == COMPARISON { s := SoundComparison(ts, p); }
    else if level == UNARY { s := SoundUnary(ts, p); }
    else if level == PRIMARY { s := SoundPrimary(ts, p); }
    else { s := SoundChain(ts, p, level); }
  }

  lemma {:induction false} SoundTernary(ts: seq<Token>, p: nat) returns (s: Syntax)
    requires p <= |ts| && ParseTernary(ts, p).Ok?
    ensures Witness(ts, p, TERNARY, ParseTernary(ts, p), s)
    decreases |ts| - p, 10 - TERNARY, 1
  {
    var rt := ParseLevel(ts, p, OR);
    var t := Sound(ts, p, OR);
    if !At(ts, rt.next, TIf) {
      s := t;
    } else {
      var rc := ParseLevel(ts, rt.next + 1, OR);
      var c := Sound(ts, rt.next + 1, OR);
      var re := ParseLevel(ts, rc.next + 1, OR);
      var e := Sound(ts, rc.next + 1, OR);
      s := STernary(c, t, e);
      SpelledToken(ts, rt.next);
      SpelledToken(ts, rc.next);
      SpelledJoin(ts, p, Spell(t), rt.next, [TIf], rt.next + 1);
      SpelledJoin(ts, p, Spell(t) + [TIf], rt.next + 1, Spell(c), rc.next);
      SpelledJoin(ts, p, Spell(t) + [TIf] + Spell(c), rc.next, [TElse], rc.next + 1);
      SpelledJoin(ts, p, Spell(t) + [TIf] + Spell(c) + [TElse], rc.next + 1, Spell(e), re.next);
    }
  }

  lemma {:induction false} SoundNot(ts: seq<Token>, p: nat) returns (s: Syntax)
    requires p <= |ts| && ParseNot(ts, p).Ok?
    ensures Witness(ts, p, NOT, ParseNot(ts, p), s)
    decreases |ts| - p, 10 - NOT, 1
  {
    if At(ts, p, TNot) {
      var e := SoundNot(ts, p + 1);
      s := SUnary(Not, e);
      SpelledToken(ts, p);
      SpelledJoin(ts, p, [TNot], p + 1, Spell(e), ParseNot(ts, p + 1).next);
    } else {
      s := Sound(ts, p, COMPARISON);
    }
  }

  lemma {:induction false} SoundComparison(ts: seq<Token>, p: nat) returns (s: Syntax)
    requires p <= |ts| && ParseComparison(ts, p).Ok?
    ensures Witness(ts, p, COMPARISON, ParseComparison(ts, p), s)
    decreases |ts| - p, 10 - COMPARISON, 1
  {
    var rl := ParseLevel(ts, p, ADDITION);
    var l := Sound(ts, p, ADDITION);
    if rl.next == |ts| || !IsComparisonToken(ts[rl.next]) {
      s := l;
    } else {
      var op := CompareOpAt(ts, rl.next).value;
      var m := rl.next + op.1;
      var rr := ParseLevel(ts, m, ADDITION);
      var r := Sound(ts, m, ADDITION);
      s := SCompare(op.0, l, r);
      assert Spelled(ts, rl.next, CompareTokens(op.0), m);
      SpelledJoin(ts, p, Spell(l), rl.next, CompareTokens(op.0), m);
      SpelledJoin(ts, p, Spell(l) + CompareTokens(op.0), m, Spell(r), rr.next);
    }
  }

  lemma {:induction false} SoundUnary(ts: seq<Token>, p: nat) returns (s: Syntax)
    requires p <= |ts| && ParseUnary(ts, p).Ok?
    ensures Witness(ts, p, UNARY, ParseUnary(ts, p), s)
    decreases |ts| - p, 10 - UNARY, 1
  {
    if At(ts, p, TPlus) || At(ts, p, TMinus) {
      var e := SoundUnary(ts, p + 1);
      s := SUnary(if ts[p] == TPlus then Plus else Minus, e);
      SpelledToken(ts, p);
      SpelledJoin(ts, p, [ts[p]], p + 1, Spell(e), ParseUnary(ts, p + 1).next);
    } else {
      s := Sound(ts, p, PRIMARY);
    }
  }

  lemma {:induction false} SoundPrimary(ts: seq<Token>, p: nat) returns (s: Syntax)
    requires p <= |ts| && ParsePrimary(ts, p).Ok?
    ensures Witness(ts, p, PRIMARY, ParsePrimary(ts, p), s)
    decreases |ts| - p, 10 - PRIMARY, 1
  {
    SpelledToken(ts, p);
    if ts[p].TNumber? {
      s := SNumber(ts[p].text);
    } else if ts[p].TLeftParen? {
      var re := ParseLevel(ts, p + 1, TERNARY);
      var e := Sound(ts, p + 1, TERNARY);
      s := SParen(e);
      SpelledToken(ts, re.next);
      SpelledJoin(ts, p, [TLeftParen], p + 1, Spell(e), re.next);
      SpelledJoin(ts, p, [TLeftParen] + Spell(e), re.next, [TRightParen], re.next + 1);
    } else if ts[p].TIdent? && !At(ts, p + 1, TLeftParen) {
      s := SVariable(ts[p].name);
    } else {
      s := SoundCall(ts, p, if ts[p].TIf? then "if" else ts[p].name, ts[p].TIf?);
    }
  }

  lemma {:induction false} SoundCall(ts: seq<Token>, p: nat, fn: string, keyword: bool) returns (s: Syntax)
    requires At(ts, p, if keyword then TIf else TIdent(fn)) && At(ts, p + 1, TLeftParen)
    requires if keyword then fn == "if" else AllowedFunction(fn)
    requires ParseCall(ts, p + 2, fn).Ok?
    ensures Witness(ts, p, PRIMARY, ParseCall(ts, p + 2, fn), s)
    decreases |ts| - p, 10 - PRIMARY, 0
  {
    hide SpellArgs, Trees, Spell, Tree, ParseArguments, ParseMoreArguments, ParseLevel, AllowedFunction;
    var head := [ts[p], TLeftParen];
    var ra := ParseArguments(ts, p + 2);
    var args := SoundArguments(ts, p + 2);
    s := SCall(fn, keyword, args);
    assert [] + Trees(args) == Trees(args);
    assert Spelled(ts, p, head, p + 2);
    SpelledToken(ts, ra.next - 1);
    SpelledJoin(ts, p, head, p + 2, SpellArgs(args), ra.next - 1);
    SpelledJoin(ts, p, head + SpellArgs(args), ra.next - 1, [TRightParen], ra.next);
    SpellCall(s);
    assert Tree(s) == Call(fn, ra.value);
    assert OperandsFit(s);
    assert Spelled(ts, p, Spell(s), ra.next);
    assert ParseCall(ts, p + 2, fn) == Ok(Call(fn, ra.value), ra.next);
  }

  lemma SpellCall(s: Syntax)
    requires s.SCall?
    ensures Spell(s) == [if s.keyword then TIf else TIdent(s.fn), TLeftParen] + SpellArgs(s.args) + [TRightParen]
    ensures Tree(s) == Call(s.fn, Trees(s.args))
  {
  }

  ghost predicate ArgumentsWitness(ts: seq<Token>, p: nat, before: seq<Node>, r: Parsed<seq<Node>>, args: seq<Syntax>) {
    && r.Ok? && r.next >= 1 && At(ts, r.next - 1, TRightParen)
    && (forall a | a in args :: Fits(a, OR))
    && Spelled(ts, p, SpellArgs(args), r.next - 1)
    && before + Trees(args) == r.value
  }

  lemma {:induction false} SoundArguments(ts: seq<Token>, p: nat) returns (args: seq<Syntax>)
    requires p <= |ts| && ParseArguments(ts, p).Ok?
    ensures ArgumentsWitness(ts, p, [], ParseArguments(ts, p), args)
    decreases |ts| - p, 11
  {
    if At(ts, p, TRightParen) {
      args := [];
    } else {
      args := SoundMoreArguments(ts, p, []);
    }
  }

  lemma {:induction false} SoundMoreArguments(ts: seq<Token>, p: nat, before: seq<Node>) returns (args: seq<Syntax>)
    requires p <= |ts| && ParseMoreArguments(ts, p, before).Ok?
    ensures args != [] && ArgumentsWitness(ts, p, before, ParseMoreArguments(ts, p, before), args)
    decreases |ts| - p, 10
  {
    hide SpellArgs, Trees, Spell, Tree;
    var ra := ParseLevel(ts, p, OR);
    var a := Sound(ts, p, OR);
    if At(ts, ra.next, TComma) {
      var rest := SoundMoreArguments(ts, ra.next + 1, before + [ra.value]);
      args := [a] + rest;
      ArgumentsCons(a, rest);
      SpelledToken(ts, ra.next);
      SpelledJoin(ts, p, Spell(a), ra.next, [TComma], ra.next + 1);
      SpelledJoin(ts, p, Spell(a) + [TComma], ra.next + 1, SpellArgs(rest),
                  ParseMoreArguments(ts, ra.next + 1, before + [ra.value]).next - 1);
      assert before + Trees(args) == before + [ra.value] + Trees(rest);
    } else {
      args := [a];
      ArgumentsCons(a, []);
      NoTrees();
      assert [a] + [] == [a];
    }
  }

  lemma {:induction false} SoundChain(ts: seq<Token>, p: nat, level: Level) returns (s: Syntax)
    requires p <= |ts| && IsChain(level) && ParseChain(ts, p, level).Ok?
    ensures Witness(ts, p, level, ParseChain(ts, p, level), s)
    decreases |ts| - p, 10 - level, 1
  {
    var rl := ParseLevel(ts, p, level + 1);
    var l := Sound(ts, p, level + 1);
    s := SoundRest(ts, p, rl.next, level, l);
  }

  lemma {:induction false} SoundRest(ts: seq<Token>, p: nat, m: nat, level: Level, l: Syntax) returns (s: Syntax)
    requires p < m <= |ts| && IsChain(level)
    requires Fits(l, level) && Spelled(ts, p, Spell(l), m)
    requires ParseRest(ts, m, level, Tree(l)).Ok?
    ensures Witness(ts, p, level, ParseRest(ts, m, level, Tree(l)), s)
    decreases |ts| - m, 10 - level, 0
  {
    hide Spell, Tree, ChainSyntax;
    if m < |ts| && ChainOp(level, ts[m]).Some? {
      var rr := ParseLevel(ts, m + 1, level + 1);
      var r := Sound(ts, m + 1, level + 1);
      var next := ChainSyntax(ts[m], l, r);
      ChainSyntaxFaithful(level, ts[m], l, r);
      SpelledToken(ts, m);
      SpelledJoin(ts, p, Spell(l), m, [ts[m]], m + 1);
      SpelledJoin(ts, p, Spell(l) + [ts[m]], m + 1, Spell(r), rr.next);
      s := SoundRest(ts, p, rr.next, level, next);
    } else {
      s := l;
    }
  }

  function ChainSyntax(op: Token, left: Syntax, right: Syntax): Syntax {
    match op
    case TOr => SLogic(Or, left, right)
    case TAnd => SLogic(And, left, right)
    case TPlus => SBinary(Add, left, right)
    case TMinus => SBinary(Sub, left, right)
    case TTimes => SBinary(Mul, left, right)
    case TDivide => SBinary(Div, left, right)
    case TIntDivide => SBinary(IntDiv, left, right)
    case _ => SBinary(Mod, left, right)
  }

  lemma ChainSyntaxFits(level: Level, op: Token, l: Syntax, r: Syntax)
    requires IsChain(level) && ChainOp(level, op).Some? && Fits(l, level) && Fits(r, level + 1)
    ensures Fits(ChainSyntax(op, l, r), level)
  {
    var s := ChainSyntax(op, l, r);
    if s.SLogic? {
      assert LogicLevel(s.lop) == level && s == SLogic(s.lop, l, r);
    } else {
      assert BinaryLevel(s.bop) == level && s == SBinary(s.bop, l, r);
    }
    hide ChainOp, ChainSyntax;
    assert OperandsFit(s);
  }

  lemma ChainSyntaxFaithful(level: Level, op: Token, l: Syntax, r: Syntax)
    requires IsChain(level) && ChainOp(level, op).Some? && Fits(l, level) && Fits(r, level + 1)
    ensures Fits(ChainSyntax(op, l, r), level)
    ensures Tree(ChainSyntax(op, l, r)) == ChainNode(op, Tree(l), Tree(r))
    ensures Spell(ChainSyntax(op, l, r)) == Spell(l) + [op] + Spell(r)
  {
    ChainSyntaxFits(level, op, l, r);
    hide Fits, OperandsFit;
    var s := ChainSyntax(op, l, r);
    if s.SLogic? {
      assert LogicToken(s.lop) == op && s == SLogic(s.lop, l, r);
    } else {
      assert BinaryToken(s.bop) == op && s == SBinary(s.bop, l, r);
    }
  }

  // ----- The theorems -----

  lemma ParsedIsSpelled(ts: seq<Token>, n: Node) returns (s: Syntax)
    requires ParseTokens(ts) == Some(n)
    ensures Fits(s, TERNARY) && Spell(s) == ts && Tree(s) == n
  {
    hide Fits, OperandsFit, Spell, Tree;
    s := Sound(ts, 0, TERNARY);
    assert ts[0..|ts|] == ts;
  }

  lemma SpelledIsParsed(ts: seq<Token>, s: Syntax)
    requires Fits(s, TERNARY) && Spell(s) == ts
    ensures ParseTokens(ts) == Some(Tree(s))
  {
    hide Fits, OperandsFit, Spell, Tree;
    assert ts[0..|ts|] == ts;
    Complete(ts, 0, s, |ts|, TERNARY);
  }

  /** A token list parses to a tree exactly when some well-formed concrete syntax spells it. */
  lemma ParseIffSpelled(ts: seq<Token>, n: Node)
    ensures ParseTokens(ts) == Some(n)
       <==> exists s: Syntax :: Fits(s, TERNARY) && Spell(s) == ts && Tree(s) == n
  {
    hide ParseTokens, Fits, OperandsFit, Spell, Tree;
    if ParseTokens(ts) == Some(n) {
      var s := ParsedIsSpelled(ts, n);
      assert Fits(s, TERNARY) && Spell(s) == ts && Tree(s) == n;
    }
    forall s: Syntax | Fits(s, TERNARY) && Spell(s) == ts && Tree(s) == n
      ensures ParseTokens(ts) == Some(n)
    {
      SpelledIsParsed(ts, s);
    }
  }

  /** No token list has two readings. */
  lemma Unambiguous(a: Syntax, b: Syntax)
    requires Fits(a, TERNARY) && Fits(b, TERNARY) && Spell(a) == Spell(b)
    ensures Tree(a) == Tree(b)
  {
    ParseIffSpelled(Spell(a), Tree(a));
    ParseIffSpelled(Spell(a), Tree(b));
  }

  // ----- Minimal parentheses -----

  /** Every call names a pricing function. */
  predicate NamesAllowed(n: Node)
    decreases n
  {
    match n
    case Number(_) => true
    case Variable(_) => true
    case Binary(_, l, r) => NamesAllowed(l) && NamesAllowed(r)
    case Unary(_, e) => NamesAllowed(e)
    case Call(fn, args) => AllowedFunction(fn) && forall a | a in args :: NamesAllowed(a)
    case Ternary(c, t, e) => NamesAllowed(c) && NamesAllowed(t) && NamesAllowed(e)
    case Compare(_, l, r) => NamesAllowed(l) && NamesAllowed(r)
    case Logic(_, l, r) => NamesAllowed(l) && NamesAllowed(r)
  }

  /** Parenthesise only where the position needs a tighter operand. */
  function Wrap(s: Syntax, level: Level): Syntax {
    if LevelOf(s) >= level then s else SParen(s)
  }

  function Minimal(n: Node): Syntax
    decreases n, 0
  {
    match n
    case Number(text) => SNumber(text)
    case Variable(name) => SVariable(name)
    case Binary(op, l, r) =>
      SBinary(op, Wrap(Minimal(l), BinaryLevel(op)), Wrap(Minimal(r), BinaryLevel(op) + 1))
    case Unary(op, e) => SUnary(op, Wrap(Minimal(e), UnaryLevel(op)))
    case Call(fn, args) => SCall(fn, fn == "if", MinimalArgs(args))
    case Ternary(c, t, e) => STernary(Wrap(Minimal(c), OR), Wrap(Minimal(t), OR), Wrap(Minimal(e), OR))
    case Compare(op, l, r) => SCompare(op, Wrap(Minimal(l), ADDITION), Wrap(Minimal(r), ADDITION))
    case Logic(op, l, r) =>
      SLogic(op, Wrap(Minimal(l), LogicLevel(op)), Wrap(Minimal(r), LogicLevel(op) + 1))
  }

  function MinimalArgs(args: seq<Node>): (r: seq<Syntax>)
    ensures |r| == |args|
    decreases args
  {
    if args == [] then [] else [Wrap(Minimal(args[0]), OR)] + MinimalArgs(args[1..])
  }

  /** The printed form of a tree. */
  function Print(n: Node): seq<Token> {
    Spell(Minimal(n))
  }

  lemma WrapFits(s: Syntax, level: Level)
    requires OperandsFit(s)
    ensures Fits(Wrap(s, level), level) && Tree(Wrap(s, level)) == Tree(s)
  {
    assert Fits(s, TERNARY);
  }

  lemma {:induction false} MinimalFits(n: Node, level: Level)
    requires NamesAllowed(n)
    ensures Fits(Wrap(Minimal(n), level), level) && Tree(Wrap(Minimal(n), level)) == n
    decreases n, 1
  {
    MinimalFaithful(n);
    WrapFits(Minimal(n), level);
  }

  lemma {:induction false} MinimalFaithful(n: Node)
    requires NamesAllowed(n)
    ensures OperandsFit(Minimal(n)) && Tree(Minimal(n)) == n
    decreases n, 0
  {
    match n {
      case Number(_) =>
      case Variable(_) =>
      case Binary(op, l, r) => MinimalFits(l, BinaryLevel(op)); MinimalFits(r, BinaryLevel(op) + 1);
      case Unary(op, e) => MinimalFits(e, UnaryLevel(op));
      case Call(_, args) => MinimalArgsFaithful(args);
      case Ternary(c, t, e) => MinimalFits(c, OR); MinimalFits(t, OR); MinimalFits(e, OR);
      case Compare(_, l, r) => MinimalFits(l, ADDITION); MinimalFits(r, ADDITION);
      case Logic(op, l, r) => MinimalFits(l, LogicLevel(op)); MinimalFits(r, LogicLevel(op) + 1);
    }
  }

  lemma {:induction false} MinimalArgsFaithful(args: seq<Node>)
    requires forall a | a in args :: NamesAllowed(a)
    ensures forall s | s in MinimalArgs(args) :: Fits(s, OR)
    ensures Trees(MinimalArgs(args)) == args
    decreases args
  {
    if args != [] {
      MinimalFits(args[0], OR);
      MinimalArgsFaithful(args[1..]);
      assert MinimalArgs(args)[1..] == MinimalArgs(args[1..]);
      assert args == [args[0]] + args[1..];
    }
  }

  /** Parsing undoes printing: all tokens consumed, the very same tree. */
  lemma ParseInvertsPrint(n: Node)
    requires NamesAllowed(n)
    ensures ParseTokens(Print(n)) == Some(n)
  {
    MinimalFaithful(n);
    ParseIffSpelled(Print(n), n);
  }

  /** No well-formed syntax of a tree, in a position of any level, spells it shorter than the
      minimally parenthesised one. */
  lemma {:induction false} ShortestSpelling(s: Syntax, level: Level)
    requires Fits(s, level)
    ensures |Spell(Wrap(Minimal(Tree(s)), level))| <= |Spell(s)|
    decreases s, 0
  {
    hide SpellArgs, MinimalArgs, Trees, AllowedFunction;
    match s {
      case SNumber(_) =>
      case SVariable(_) =>
      case SBinary(op, l, r) =>
        ShortestSpelling(l, BinaryLevel(op));
        ShortestSpelling(r, BinaryLevel(op) + 1);
        hide Wrap;
        WrapKeeps(Minimal(Tree(s)), level);
      case SUnary(op, e) =>
        ShortestSpelling(e, UnaryLevel(op));
        hide Wrap;
        WrapKeeps(Minimal(Tree(s)), level);
      case SCall(_, _, args) => ShortestArguments(args);
      case STernary(c, t, e) =>
        ShortestSpelling(c, OR);
        ShortestSpelling(t, OR);
        ShortestSpelling(e, OR);
        hide Wrap;
        WrapKeeps(Minimal(Tree(s)), level);
      case SCompare(_, l, r) =>
        ShortestSpelling(l, ADDITION);
        ShortestSpelling(r, ADDITION);
        hide Wrap;
        WrapKeeps(Minimal(Tree(s)), level);
      case SLogic(op, l, r) =>
        ShortestSpelling(l, LogicLevel(op));
        ShortestSpelling(r, LogicLevel(op) + 1);
        hide Wrap;
        WrapKeeps(Minimal(Tree(s)), level);
      case SParen(e) =>
        ShortestSpelling(e, TERNARY);
        WrapKeeps(Minimal(Tree(e)), TERNARY);
    }
  }

  lemma WrapKeeps(s: Syntax, level: Level)
    requires LevelOf(s) >= level
    ensures Wrap(s, level) == s
  {
  }

  lemma {:induction false} ShortestArguments(args: seq<Syntax>)
    requires forall a | a in args :: Fits(a, OR)
    ensures |SpellArgs(MinimalArgs(Trees(args)))| <= |SpellArgs(args)|
    decreases args
  {
    if args != [] {
      ShortestSpelling(args[0], OR);
      ShortestArguments(args[1..]);
      assert Trees(args)[1..] == Trees(args[1..]);
      assert MinimalArgs(Trees(args))[1..] == MinimalArgs(Trees(args[1..]));
      hide Spell, Wrap, Minimal, Tree;
    }
  }

  /** No token list that parses to a tree is shorter than its printed form. */
  lemma PrintIsShortest(ts: seq<Token>, n: Node)
    requires ParseTokens(ts) == Some(n)
    ensures |Print(n)| <= |ts|
  {
    ParseIffSpelled(ts, n);
    var s: Syntax :| Fits(s, TERNARY) && Spell(s) == ts && Tree(s) == n;
    ShortestSpelling(s, TERNARY);
  }

  /** The printed parentheses are all needed: dropping any two tokens, such as a pair of them, never
      leaves the same tree. */
  lemma DroppingParenthesesChangesTheTree(n: Node, open: nat, close: nat)
    requires open < close < |Print(n)|
    ensures var ts := Print(n);
            ParseTokens(ts[..open] + ts[open + 1..close] + ts[close + 1..]) != Some(n)
  {
    var ts := Print(n);
    var fewer := ts[..open] + ts[open + 1..close] + ts[close + 1..];
    if ParseTokens(fewer) == Some(n) { PrintIsShortest(fewer, n); }
  }

  /** The parser's image is exactly the trees whose calls are allowed. */
  lemma ParserImage(n: Node)
    ensures NamesAllowed(n) <==> exists ts: seq<Token> :: ParseTokens(ts) == Some(n)
  {
    if NamesAllowed(n) {
      ParseInvertsPrint(n);
    }
    forall ts: seq<Token> | ParseTokens(ts) == Some(n)
      ensures NamesAllowed(n)
    {
      var s := Sound(ts, 0, TERNARY);
      FittingNames(s);
    }
  }

  lemma {:induction false} FittingNames(s: Syntax)
    requires OperandsFit(s)
    ensures NamesAllowed(Tree(s))
    decreases s, 0
  {
    match s {
      case SNumber(_) =>
      case SVariable(_) =>
      case SBinary(_, l, r) => FittingNames(l); FittingNames(r);
      case SUnary(_, e) => FittingNames(e);
      case SCall(_, _, args) => FittingArgs(args);
      case STernary(c, t, e) => FittingNames(c); FittingNames(t); FittingNames(e);
      case SCompare(_, l, r) => FittingNames(l); FittingNames(r);
      case SLogic(_, l, r) => FittingNames(l); FittingNames(r);
      case SParen(e) => FittingNames(e);
    }
  }

  lemma {:induction false} FittingArgs(args: seq<Syntax>)
    requires forall a | a in args :: OperandsFit(a)
    ensures forall n | n in Trees(args) :: NamesAllowed(n)
    decreases args
  {
    if args != [] {
      FittingNames(args[0]);
      FittingArgs(args[1..]);
    }
  }
}
