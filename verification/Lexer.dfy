/** The tokenizer of pricing expressions, and the text that spells a token list.
    Source text is a string of bytes. Whether a numeral is a decimal the number library takes
    (its exponent may be out of range) is a parameter. */
module Lexer {
  import opened Decimals
  import opened Grammar

  type NumeralTest = string -> bool

  predicate IsSpace(c: char) {
    c in {'\t', '\n', '\U{000B}', '\U{000C}', '\r', ' ', '\U{0085}', '\U{00A0}'}
  }

  predicate IsDigit(c: char) {
    '0' <= c <= '9'
  }

  predicate IsNumberStart(c: char) {
    IsDigit(c) || c == '.'
  }

  predicate IsWordStart(c: char) {
    'a' <= c <= 'z' || 'A' <= c <= 'Z' || c == '_'
  }

  predicate IsWordChar(c: char) {
    IsWordStart(c) || IsDigit(c)
  }

  function PairToken(a: char, b: char): Option<Token> {
    if a == '*' && b == '*' then Some(TPower)
    else if a == '/' && b == '/' then Some(TIntDivide)
    else if a == '=' && b == '=' then Some(TEqual)
    else if a == '!' && b == '=' then Some(TNotEqual)
    else if a == '<' && b == '=' then Some(TLessEqual)
    else if a == '>' && b == '=' then Some(TGreaterEqual)
    else None
  }

  function SingleToken(c: char): Option<Token> {
    match c
    case '(' => Some(TLeftParen) case ')' => Some(TRightParen) case ',' => Some(TComma)
    case '+' => Some(TPlus) case '-' => Some(TMinus) case '*' => Some(TTimes)
    case '/' => Some(TDivide) case '%' => Some(TModulo)
    case '<' => Some(TLess) case '>' => Some(TGreater)
    case _ => None
  }

  function WordToken(word: string): Token {
    if word == "true" then TNumber("1")
    else if word == "false" then TNumber("0")
    else if word == "and" then TAnd
    else if word == "or" then TOr
    else if word == "if" then TIf
    else if word == "else" then TElse
    else if word == "in" then TIn
    else if word == "not" then TNot
    else TIdent(word)
  }

  function WordLength(s: string): (n: nat)
    ensures n <= |s| && (forall i | 0 <= i < n :: IsWordChar(s[i])) && (n < |s| ==> !IsWordChar(s[n]))
  {
    if s == [] || !IsWordChar(s[0]) then 0 else 1 + WordLength(s[1..])
  }

  function DigitsLength(s: string): (n: nat)
    ensures n <= |s| && (forall i | 0 <= i < n :: IsDigit(s[i])) && (n < |s| ==> !IsDigit(s[n]))
  {
    if s == [] || !IsDigit(s[0]) then 0 else 1 + DigitsLength(s[1..])
  }

  /** Digits with at most one point; a second point is an error. */
  function MantissaLength(s: string, dotSeen: bool): (n: Option<nat>)
    ensures n.Some? ==> n.value <= |s|
  {
    if s == [] || !IsNumberStart(s[0]) then Some(0)
    else if s[0] == '.' && dotSeen then None
    else
      var rest := MantissaLength(s[1..], dotSeen || s[0] == '.');
      if rest.None? then None else Some(1 + rest.value)
  }

  predicate HasDigit(s: string) {
    exists c | c in s :: IsDigit(c)
  }

  predicate IsExponentMark(c: char) {
    c == 'e' || c == 'E'
  }

  predicate IsSign(c: char) {
    c == '+' || c == '-'
  }

  /** Length of an exponent part at the start of s: 0 when there is none, None when it has no digits. */
  function ExponentLength(s: string): (n: Option<nat>)
    ensures n.Some? ==> n.value <= |s|
  {
    if s == [] || !IsExponentMark(s[0]) then Some(0)
    else
      var start := if 1 < |s| && IsSign(s[1]) then 2 else 1;
      var digits := DigitsLength(s[start..]);
      if digits == 0 then None else Some(start + digits)
  }

  /** Length of the numeral at the start of s. */
  function NumberLength(ok: NumeralTest, s: string): (n: Option<nat>)
    ensures n.Some? ==> 0 < n.value <= |s|
  {
    var m := MantissaLength(s, false);
    if m.None? || !HasDigit(s[..m.value]) then None
    else
      var e := ExponentLength(s[m.value..]);
      if e.None? || !ok(s[..m.value + e.value]) then None else Some(m.value + e.value)
  }

  function Prepend(t: Token, rest: Option<seq<Token>>): Option<seq<Token>> {
    if rest.None? then None else Some([t] + rest.value)
  }

  /** The token at the start of s, and how many bytes it takes. */
  function LexOne(ok: NumeralTest, s: string): (r: Option<(Token, nat)>)
    requires s != []
    ensures r.Some? ==> 0 < r.value.1 <= |s|
  {
    if 1 < |s| && PairToken(s[0], s[1]).Some? then Some((PairToken(s[0], s[1]).value, 2))
    else if SingleToken(s[0]).Some? then Some((SingleToken(s[0]).value, 1))
    else if IsNumberStart(s[0]) then
      var n := NumberLength(ok, s);
      if n.None? then None else Some((TNumber(s[..n.value]), n.value))
    else if IsWordStart(s[0]) then
      var n := WordLength(s);
      Some((WordToken(s[..n]), n))
    else None
  }

  /** The tokens of a source text, or None at the first character no rule takes. */
  function Tokenize(ok: NumeralTest, s: string): Option<seq<Token>>
    decreases |s|
  {
    if s == [] then Some([])
    else if IsSpace(s[0]) then Tokenize(ok, s[1..])
    else
      var t := LexOne(ok, s);
      if t.None? then None else Prepend(t.value.0, Tokenize(ok, s[t.value.1..]))
  }

  // ----- The scanning loops -----

  method ReadWord(source: string, start: nat) returns (next: nat)
    requires start <= |source|
    ensures next == start + WordLength(source[start..])
  {
    next := start;
    while next < |source| && IsWordChar(source[next])
      invariant start <= next <= |source|
      invariant next + WordLength(source[next..]) == start + WordLength(source[start..])
    {
      assert source[next..][1..] == source[next + 1..];
      next := next + 1;
    }
  }

  method ReadDigits(source: string, start: nat) returns (next: nat)
    requires start <= |source|
    ensures next == start + DigitsLength(source[start..])
  {
    next := start;
    while next < |source| && IsDigit(source[next])
      invariant start <= next <= |source|
      invariant next + DigitsLength(source[next..]) == start + DigitsLength(source[start..])
    {
      assert source[next..][1..] == source[next + 1..];
      next := next + 1;
    }
  }

  function Shift(start: nat, n: Option<nat>): Option<nat> {
    if n.None? then None else Some(start + n.value)
  }

  method ReadMantissa(source: string, start: nat) returns (next: Option<nat>)
    requires start <= |source|
    ensures next == Shift(start, MantissaLength(source[start..], false))
  {
    var index := start;
    var dotSeen := false;
    while index < |source| && IsNumberStart(source[index])
      invariant start <= index <= |source|
      invariant Shift(index, MantissaLength(source[index..], dotSeen)) == Shift(start, MantissaLength(source[start..], false))
    {
      assert source[index..][1..] == source[index + 1..];
      if source[index] == '.' {
        if dotSeen { return None; }
        dotSeen := true;
      }
      index := index + 1;
    }
    return Some(index);
  }

  method ReadExponent(source: string, start: nat) returns (next: Option<nat>)
    requires start <= |source|
    ensures next == Shift(start, ExponentLength(source[start..]))
  {
    var index := start;
    if index < |source| && IsExponentMark(source[index]) {
      index := index + 1;
      if index < |source| && IsSign(source[index]) { index := index + 1; }
      var exponentStart := index;
      assert source[start..][exponentStart - start..] == source[exponentStart..];
      index := ReadDigits(source, exponentStart);
      if index == exponentStart { return None; }
    }
    return Some(index);
  }

  method ReadNumber(ok: NumeralTest, source: string, start: nat) returns (next: Option<nat>)
    requires start <= |source|
    ensures next == Shift(start, NumberLength(ok, source[start..]))
  {
    hide MantissaLength, ExponentLength;
    var mantissa := ReadMantissa(source, start);
    if mantissa.None? { return None; }
    if !HasDigit(source[start..mantissa.value]) {
      Slices(source, start, mantissa.value);
      return None;
    }
    next := ReadExponent(source, mantissa.value);
    Slices(source, start, mantissa.value);
    if next.Some? {
      Slices(source, start, next.value);
      if !ok(source[start..next.value]) { return None; }
    }
  }

  lemma Slices(source: string, start: nat, middle: nat)
    requires start <= middle <= |source|
    ensures source[start..][..middle - start] == source[start..middle]
    ensures source[start..][middle - start..] == source[middle..]
  {
  }

  method ReadToken(ok: NumeralTest, source: string, index: nat) returns (r: Option<(Token, nat)>)
    requires index < |source|
    ensures r.None? ==> LexOne(ok, source[index..]).None?
    ensures r.Some? ==> r.value.1 >= index && LexOne(ok, source[index..]) == Some((r.value.0, r.value.1 - index))
  {
    hide NumberLength, WordLength, PairToken, SingleToken, WordToken;
    ghost var s := source[index..];
    if index + 1 < |source| && PairToken(source[index], source[index + 1]).Some? {
      return Some((PairToken(source[index], source[index + 1]).value, index + 2));
    }
    if SingleToken(source[index]).Some? {
      return Some((SingleToken(source[index]).value, index + 1));
    }
    if IsNumberStart(source[index]) {
      var next := ReadNumber(ok, source, index);
      if next.None? { return None; }
      assert s[..next.value - index] == source[index..next.value];
      return Some((TNumber(source[index..next.value]), next.value));
    }
    if IsWordStart(source[index]) {
      var next := ReadWord(source, index);
      assert s[..next - index] == source[index..next];
      return Some((WordToken(source[index..next]), next));
    }
    return None;
  }

  function PrependAll(ts: seq<Token>, rest: Option<seq<Token>>): Option<seq<Token>> {
    if rest.None? then None else Some(ts + rest.value)
  }

  lemma PrependMoves(ts: seq<Token>, t: Token, rest: Option<seq<Token>>)
    ensures PrependAll(ts, Prepend(t, rest)) == PrependAll(ts + [t], rest)
  {
    if rest.Some? {
      assert ts + ([t] + rest.value) == ts + [t] + rest.value;
    }
  }

  lemma PrependNothing(rest: Option<seq<Token>>)
    ensures PrependAll([], rest) == rest
  {
    if rest.Some? {
      assert [] + rest.value == rest.value;
    }
  }

  method TokenizeSource(ok: NumeralTest, source: string) returns (r: Option<seq<Token>>)
    ensures r == Tokenize(ok, source)
  {
    var tokens: seq<Token> := [];
    var index := 0;
    assert source[0..] == source;
    PrependNothing(Tokenize(ok, source));
    while index < |source|
      invariant index <= |source|
      invariant Tokenize(ok, source) == PrependAll(tokens, Tokenize(ok, source[index..]))
    {
      if IsSpace(source[index]) {
        assert source[index..][1..] == source[index + 1..];
        index := index + 1;
      } else {
        var token := ReadToken(ok, source, index);
        if token.None? { return None; }
        var next := token.value.1;
        assert source[index..][next - index..] == source[next..];
        PrependMoves(tokens, token.value.0, Tokenize(ok, source[next..]));
        tokens := tokens + [token.value.0];
        index := next;
      }
    }
    assert tokens + [] == tokens;
    return Some(tokens);
  }

  // ----- Rendering -----

  function Lexeme(t: Token): string {
    match t
    case TNumber(text) => text
    case TIdent(name) => name
    case TPlus => "+" case TMinus => "-" case TTimes => "*" case TDivide => "/"
    case TIntDivide => "//" case TModulo => "%" case TPower => "**"
    case TLeftParen => "(" case TRightParen => ")" case TComma => ","
    case TEqual => "==" case TNotEqual => "!=" case TLess => "<" case TLessEqual => "<="
    case TGreater => ">" case TGreaterEqual => ">="
    case TIn => "in" case TNot => "not" case TAnd => "and" case TOr => "or"
    case TIf => "if" case TElse => "else"
  }

  predicate IsNumeral(ok: NumeralTest, text: string) {
    text != [] && IsNumberStart(text[0]) && NumberLength(ok, text) == Some(|text|)
  }

  predicate IsIdentifier(name: string) {
    name != [] && IsWordStart(name[0]) && (forall c | c in name :: IsWordChar(c)) && WordToken(name) == TIdent(name)
  }

  /** Tokens the tokenizer can produce. */
  predicate Writable(ok: NumeralTest, t: Token) {
    match t
    case TNumber(text) => IsNumeral(ok, text)
    case TIdent(name) => IsIdentifier(name)
    case _ => true
  }

  /** The lexemes in order, a blank after each. */
  function Render(ts: seq<Token>): string {
    if ts == [] then [] else Lexeme(ts[0]) + " " + Render(ts[1..])
  }

  /** What follows does not start with a character that would be read with what comes before. */
  predicate StopsAt(rest: string, continues: char -> bool) {
    rest == "" || !continues(rest[0])
  }

  lemma {:induction false} WordStops(w: string, rest: string)
    requires (forall c | c in w :: IsWordChar(c)) && StopsAt(rest, IsWordChar)
    ensures WordLength(w + rest) == |w|
  {
    if w != [] {
      assert (w + rest)[1..] == w[1..] + rest;
      WordStops(w[1..], rest);
    } else {
      assert w + rest == rest;
    }
  }

  /** A scan that ends by the end of `a` ends there too when something else follows. */
  lemma {:induction false} DigitsStop(a: string, rest: string)
    requires StopsAt(rest, IsDigit)
    ensures DigitsLength(a + rest) == DigitsLength(a)
  {
    var s := a + rest;
    if a != [] {
      assert s[1..] == a[1..] + rest && s[0] == a[0];
      DigitsStop(a[1..], rest);
    } else {
      assert s == rest;
    }
  }

  lemma {:induction false} MantissaStops(a: string, rest: string, dotSeen: bool)
    requires StopsAt(rest, IsNumberStart)
    ensures MantissaLength(a + rest, dotSeen) == MantissaLength(a, dotSeen)
  {
    var s := a + rest;
    if a != [] {
      assert s[1..] == a[1..] + rest && s[0] == a[0];
      MantissaStops(a[1..], rest, dotSeen || a[0] == '.');
    } else {
      assert s == rest;
    }
  }

  lemma ExponentStops(a: string, rest: string)
    requires ExponentLength(a).Some? && StopsAt(rest, IsDigit) && StopsAt(rest, IsExponentMark)
    ensures ExponentLength(a + rest) == ExponentLength(a)
  {
    var s := a + rest;
    if a != [] && IsExponentMark(a[0]) {
      assert s[0] == a[0] && s[1] == a[1];
      var start := if IsSign(a[1]) then 2 else 1;
      assert s[start..] == a[start..] + rest;
      DigitsStop(a[start..], rest);
    } else if a == [] {
      assert s == rest;
    } else {
      assert s[0] == a[0];
    }
  }

  lemma Cuts(a: string, rest: string, n: nat)
    requires n <= |a|
    ensures (a + rest)[..n] == a[..n] && (a + rest)[n..] == a[n..] + rest
  {
  }

  /** Nothing that could carry a numeral on. */
  predicate NumberEnds(rest: string) {
    StopsAt(rest, IsNumberStart) && StopsAt(rest, IsExponentMark)
  }

  lemma NumberStops(ok: NumeralTest, a: string, rest: string)
    requires NumberLength(ok, a).Some? && NumberEnds(rest)
    ensures NumberLength(ok, a + rest) == NumberLength(ok, a)
  {
    hide MantissaLength, ExponentLength, HasDigit;
    MantissaStops(a, rest, false);
    var m := MantissaLength(a, false).value;
    Cuts(a, rest, m);
    ExponentStops(a[m..], rest);
    Cuts(a, rest, m + ExponentLength(a[m..]).value);
  }

  /** A token's text followed by something that is not read with it. */
  predicate Apart(t: Token, rest: string) {
    if t.TNumber? then NumberEnds(rest)
    else if Lexeme(t) != "" && IsWordStart(Lexeme(t)[0]) then StopsAt(rest, IsWordChar)
    else |Lexeme(t)| != 1 || StopsAt(rest, c => PairToken(Lexeme(t)[0], c).Some?)
  }

  lemma BlankApart(ok: NumeralTest, t: Token, rest: string)
    requires Writable(ok, t) && rest != "" && IsSpace(rest[0])
    ensures Apart(t, rest)
  {
  }

  lemma TokenizeHead(ok: NumeralTest, t: Token, rest: string)
    requires Writable(ok, t) && Apart(t, rest)
    ensures Tokenize(ok, Lexeme(t) + rest) == Prepend(t, Tokenize(ok, rest))
  {
    var lexeme := Lexeme(t);
    var s := lexeme + rest;
    LexHead(ok, t, rest);
    assert s[|lexeme|..] == rest;
    assert s[0] == lexeme[0];
  }

  lemma LexHead(ok: NumeralTest, t: Token, rest: string)
    requires Writable(ok, t) && Apart(t, rest)
    ensures Lexeme(t) != [] && !IsSpace(Lexeme(t)[0])
    ensures LexOne(ok, Lexeme(t) + rest) == Some((t, |Lexeme(t)|))
  {
    hide LexOne, NumberLength;
    var lexeme := Lexeme(t);
    if t.TNumber? {
      LexNumber(ok, t.text, rest);
    } else if IsWordStart(lexeme[0]) {
      LexWord(ok, lexeme, rest);
      assert WordToken(lexeme) == t;
    } else {
      LexSymbol(ok, t, rest);
    }
  }

  lemma LexNumber(ok: NumeralTest, text: string, rest: string)
    requires IsNumeral(ok, text) && NumberEnds(rest)
    ensures LexOne(ok, text + rest) == Some((TNumber(text), |text|))
  {
    hide NumberLength;
    var s := text + rest;
    NumberStops(ok, text, rest);
    assert s[..|text|] == text && s[0] == text[0];
  }

  lemma LexWord(ok: NumeralTest, word: string, rest: string)
    requires word != [] && IsWordStart(word[0]) && (forall c | c in word :: IsWordChar(c)) && StopsAt(rest, IsWordChar)
    ensures LexOne(ok, word + rest) == Some((WordToken(word), |word|))
  {
    var s := word + rest;
    WordStops(word, rest);
    assert s[..|word|] == word && s[0] == word[0];
  }

  lemma LexSymbol(ok: NumeralTest, t: Token, rest: string)
    requires !t.TNumber? && !t.TIdent? && !IsWordStart(Lexeme(t)[0])
    requires |Lexeme(t)| == 2 || StopsAt(rest, c => PairToken(Lexeme(t)[0], c).Some?)
    ensures LexOne(ok, Lexeme(t) + rest) == Some((t, |Lexeme(t)|))
  {
    var lexeme := Lexeme(t);
    var s := lexeme + rest;
    assert s[0] == lexeme[0];
    if |lexeme| == 2 {
      assert s[1] == lexeme[1];
      assert PairToken(lexeme[0], lexeme[1]) == Some(t);
    } else {
      assert |s| > 1 ==> s[1] == rest[0];
      assert SingleToken(lexeme[0]) == Some(t);
    }
  }

  lemma {:induction false} BlanksSkipped(ok: NumeralTest, blanks: string, rest: string)
    requires forall c | c in blanks :: IsSpace(c)
    ensures Tokenize(ok, blanks + rest) == Tokenize(ok, rest)
  {
    if blanks == "" {
      assert blanks + rest == rest;
    } else {
      assert (blanks + rest)[1..] == blanks[1..] + rest;
      BlanksSkipped(ok, blanks[1..], rest);
    }
  }

  // ----- Any layout -----

  /** The tokens' texts, each followed by a gap. */
  function Layout(ts: seq<Token>, gaps: seq<string>): string
    requires |gaps| == |ts|
  {
    if ts == [] then "" else Lexeme(ts[0]) + gaps[0] + Layout(ts[1..], gaps[1..])
  }

  /** Gaps are white space, and there is one wherever two texts would be read together. */
  predicate GapsSuffice(ts: seq<Token>, gaps: seq<string>)
    requires |gaps| == |ts|
  {
    ts == [] ||
    (&& (forall c | c in gaps[0] :: IsSpace(c))
     && (gaps[0] != "" || Apart(ts[0], Layout(ts[1..], gaps[1..])))
     && GapsSuffice(ts[1..], gaps[1..]))
  }

  /** However the texts of tokens are laid out, tokenizing gives back the tokens. */
  lemma {:induction false} TokenizeLayout(ok: NumeralTest, ts: seq<Token>, gaps: seq<string>)
    requires |gaps| == |ts| && GapsSuffice(ts, gaps) && forall t | t in ts :: Writable(ok, t)
    ensures Tokenize(ok, Layout(ts, gaps)) == Some(ts)
  {
    hide Apart, Lexeme, Writable;
    if ts != [] {
      var rest := Layout(ts[1..], gaps[1..]);
      TokenizeLayout(ok, ts[1..], gaps[1..]);
      BlanksSkipped(ok, gaps[0], rest);
      if gaps[0] != "" { BlankApart(ok, ts[0], gaps[0] + rest); } else { assert gaps[0] + rest == rest; }
      TokenizeHead(ok, ts[0], gaps[0] + rest);
      assert Lexeme(ts[0]) + gaps[0] + rest == Lexeme(ts[0]) + (gaps[0] + rest);
      assert ts == [ts[0]] + ts[1..];
    }
  }

  /** Tokenizing a rendering gives back the tokens. */
  lemma {:induction false} TokenizeInvertsRender(ok: NumeralTest, ts: seq<Token>)
    requires forall t | t in ts :: Writable(ok, t)
    ensures Tokenize(ok, Render(ts)) == Some(ts)
  {
    hide Apart, Lexeme, Writable;
    if ts != [] {
      var rest := Render(ts[1..]);
      TokenizeInvertsRender(ok, ts[1..]);
      BlanksSkipped(ok, " ", rest);
      BlankApart(ok, ts[0], " " + rest);
      TokenizeHead(ok, ts[0], " " + rest);
      assert Lexeme(ts[0]) + " " + rest == Lexeme(ts[0]) + (" " + rest);
      hide Tokenize;
      assert ts == [ts[0]] + ts[1..];
    }
  }

  // ----- Words and numerals, character by character -----

  /** White space: tab, line feed, vertical tab, form feed, carriage return, blank, next line and no-break space. */
  lemma WhiteSpaceIs(c: char)
    ensures IsSpace(c) <==> c as int in {9, 10, 11, 12, 13, 32, 133, 160}
  {
  }

  predicate Letter(c: char) {
    65 <= c as int <= 90 || 97 <= c as int <= 122
  }

  /** A name: a letter or underscore, then letters, underscores and digits, and no word of the language. */
  lemma IdentifierIs(name: string)
    ensures IsIdentifier(name) <==>
              && name != "" && !(48 <= name[0] as int <= 57)
              && (forall c | c in name :: Letter(c) || c == '_' || 48 <= c as int <= 57)
              && name !in ["true", "false", "and", "or", "if", "else", "in", "not"]
  {
    assert name != "" ==> name[0] in name;
  }

  /** Plain and pointed numerals are read whole, if the number library takes them. */
  lemma PlainNumerals(ok: NumeralTest, whole: string, fraction: string)
    requires whole != "" && (forall c | c in whole :: IsDigit(c)) && forall c | c in fraction :: IsDigit(c)
    ensures ok(whole) ==> IsNumeral(ok, whole)
    ensures ok(whole + "." + fraction) ==> IsNumeral(ok, whole + "." + fraction)
  {
    var pointed := whole + ("." + fraction);
    assert pointed == whole + "." + fraction;
    MantissaOfDigits(whole, false);
    MantissaOfDigits(fraction, true);
    MantissaPast(whole, "." + fraction, false);
    assert ("." + fraction)[1..] == fraction;
    assert whole[..|whole|] == whole && pointed[..|pointed|] == pointed;
    assert whole[0] in whole && whole[0] in pointed && pointed[0] == whole[0];
    assert whole[|whole|..] == "" && pointed[|pointed|..] == "";
  }

  lemma ExponentReads(mark: string, sign: string, power: string)
    requires power != "" && forall c | c in power :: IsDigit(c)
    requires (mark == "e" || mark == "E") && (sign == "" || sign == "+" || sign == "-")
    ensures ExponentLength(mark + sign + power) == Some(|mark + sign + power|)
  {
    var tail := mark + sign + power;
    DigitsOfDigits(power);
    hide DigitsLength;
    assert power[0] in power && !IsSign(power[0]);
    assert tail[0] == mark[0];
    if sign != "" {
      assert tail[1] == sign[0] && tail[2..] == power;
    } else {
      assert tail[1] == power[0] && tail[1..] == power;
    }
  }

  /** A mark, an optional sign and digits carry a numeral on. */
  lemma ExponentNumerals(ok: NumeralTest, whole: string, mark: string, sign: string, power: string)
    requires whole != "" && (forall c | c in whole :: IsDigit(c)) && power != "" && forall c | c in power :: IsDigit(c)
    requires (mark == "e" || mark == "E") && (sign == "" || sign == "+" || sign == "-")
    ensures ok(whole + (mark + sign + power)) ==> IsNumeral(ok, whole + (mark + sign + power))
  {
    var tail := mark + sign + power;
    var text := whole + tail;
    ExponentReads(mark, sign, power);
    assert tail[0] == mark[0] && !IsNumberStart(tail[0]);
    hide ExponentLength, MantissaLength;
    MantissaPast(whole, tail, false);
    assert whole[0] in whole && text[0] == whole[0] && text[..|whole|] == whole && text[|whole|..] == tail;
    assert text[..|text|] == text;
  }

  lemma {:induction false} DigitsOfDigits(digits: string)
    requires forall c | c in digits :: IsDigit(c)
    ensures DigitsLength(digits) == |digits|
  {
    if digits != "" {
      assert digits[0] in digits;
      DigitsOfDigits(digits[1..]);
    }
  }

  /** A word of letters is one token. */
  lemma WordAlone(ok: NumeralTest, word: string)
    requires word != "" && forall c | c in word :: 'a' <= c <= 'z'
    ensures Tokenize(ok, word) == Some([WordToken(word)])
  {
    assert word[0] in word && !IsSpace(word[0]);
    LexWord(ok, word, "");
    assert word + "" == word && word[|word|..] == "";
    assert [WordToken(word)] + [] == [WordToken(word)];
    hide LexOne, WordToken;
  }

  /** The words of the language, and the numerals that two of them stand for. */
  lemma LanguageWords(ok: NumeralTest)
    ensures Tokenize(ok, "true") == Some([TNumber("1")]) && Tokenize(ok, "false") == Some([TNumber("0")])
    ensures Tokenize(ok, "and") == Some([TAnd]) && Tokenize(ok, "or") == Some([TOr]) && Tokenize(ok, "not") == Some([TNot])
    ensures Tokenize(ok, "if") == Some([TIf]) && Tokenize(ok, "else") == Some([TElse]) && Tokenize(ok, "in") == Some([TIn])
  {
    hide Tokenize;
    WordAlone(ok, "true");
    WordAlone(ok, "false");
    WordAlone(ok, "and");
    WordAlone(ok, "or");
    WordAlone(ok, "not");
    WordAlone(ok, "if");
    WordAlone(ok, "else");
    WordAlone(ok, "in");
  }

  lemma {:induction false} MantissaOfDigits(digits: string, dotSeen: bool)
    requires forall c | c in digits :: IsDigit(c)
    ensures MantissaLength(digits, dotSeen) == Some(|digits|)
  {
    if digits != "" {
      assert digits[0] in digits && digits[0] != '.';
      MantissaOfDigits(digits[1..], dotSeen);
    }
  }

  lemma {:induction false} MantissaPast(digits: string, rest: string, dotSeen: bool)
    requires (forall c | c in digits :: IsDigit(c)) && MantissaLength(rest, dotSeen).Some?
    ensures MantissaLength(digits + rest, dotSeen) == Some(|digits| + MantissaLength(rest, dotSeen).value)
  {
    if digits == "" {
      assert digits + rest == rest;
    } else {
      assert (digits + rest)[1..] == digits[1..] + rest && (digits + rest)[0] == digits[0];
      assert digits[0] in digits && digits[0] != '.';
      MantissaPast(digits[1..], rest, dotSeen);
    }
  }

  // ----- What the tokenizer produces -----

  lemma {:induction false} DigitsCut(s: string, n: nat)
    requires DigitsLength(s) <= n <= |s|
    ensures DigitsLength(s[..n]) == DigitsLength(s)
  {
    if s != [] && IsDigit(s[0]) {
      assert s[..n][1..] == s[1..][..n - 1];
      DigitsCut(s[1..], n - 1);
    }
  }

  lemma {:induction false} MantissaCut(s: string, dotSeen: bool, n: nat)
    requires MantissaLength(s, dotSeen).Some? && MantissaLength(s, dotSeen).value <= n <= |s|
    ensures MantissaLength(s[..n], dotSeen) == MantissaLength(s, dotSeen)
  {
    if s != [] && IsNumberStart(s[0]) {
      assert s[..n][1..] == s[1..][..n - 1];
      MantissaCut(s[1..], dotSeen || s[0] == '.', n - 1);
    }
  }

  lemma ExponentCut(e: string)
    requires ExponentLength(e).Some?
    ensures ExponentLength(e[..ExponentLength(e).value]) == ExponentLength(e)
  {
    var n := ExponentLength(e).value;
    if e != [] && IsExponentMark(e[0]) {
      var start := if 1 < |e| && IsSign(e[1]) then 2 else 1;
      DigitsCut(e[start..], n - start);
      assert e[..n][start..] == e[start..][..n - start];
    }
  }

  lemma NumberCut(ok: NumeralTest, s: string)
    requires NumberLength(ok, s).Some?
    ensures NumberLength(ok, s[..NumberLength(ok, s).value]) == NumberLength(ok, s)
  {
    var n := NumberLength(ok, s).value;
    var m := MantissaLength(s, false).value;
    MantissaCut(s, false, n);
    var cut := s[..n];
    assert cut[..m] == s[..m];
    assert cut[m..] == s[m..][..n - m];
    ExponentCut(s[m..]);
    assert cut[..n] == s[..n];
  }

  lemma LexedIsWritable(ok: NumeralTest, s: string)
    requires ok("0") && ok("1") && s != [] && LexOne(ok, s).Some?
    ensures Writable(ok, LexOne(ok, s).value.0)
  {
    if 1 < |s| && PairToken(s[0], s[1]).Some? {
    } else if SingleToken(s[0]).Some? {
    } else if IsNumberStart(s[0]) {
      NumberCut(ok, s);
    } else {
      DigitIsNumeral(ok, "0");
      DigitIsNumeral(ok, "1");
      var word := s[..WordLength(s)];
      assert word[0] == s[0];
    }
  }

  lemma {:induction false} TokensAreWritable(ok: NumeralTest, s: string)
    requires ok("0") && ok("1") && Tokenize(ok, s).Some?
    ensures forall t | t in Tokenize(ok, s).value :: Writable(ok, t)
    decreases |s|
  {
    if s == [] {
    } else if IsSpace(s[0]) {
      TokensAreWritable(ok, s[1..]);
    } else {
      LexedIsWritable(ok, s);
      TokensAreWritable(ok, s[LexOne(ok, s).value.1..]);
    }
  }

  lemma DigitIsNumeral(ok: NumeralTest, d: string)
    requires |d| == 1 && IsDigit(d[0]) && ok(d)
    ensures IsNumeral(ok, d)
  {
    assert MantissaLength(d[1..], false) == Some(0);
    assert d[..1] == d && d[1..] == [];
    assert d[0] in d[..1];
  }

  /** Rewriting a source text in normal form (one blank after each token) keeps its tokens. */
  lemma NormalFormKeepsTokens(ok: NumeralTest, s: string)
    requires ok("0") && ok("1") && Tokenize(ok, s).Some?
    ensures Tokenize(ok, Render(Tokenize(ok, s).value)) == Tokenize(ok, s)
  {
    TokensAreWritable(ok, s);
    TokenizeInvertsRender(ok, Tokenize(ok, s).value);
  }
}
