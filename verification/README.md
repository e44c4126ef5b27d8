# Bursar: verified model of pricing and of its delivery protocols

Bursar prices usage events against a catalog of rate cards and keeps credits, billing events and
exports consistent while processes crash and replies get lost. This project models the Go SDK's
pricing core and the stateful services around it, and proves what they are relied on for. Every
amount is an exact decimal; rounding, division to 32 places and 64-bit saturation are written out.

The modules, in the order they build on each other:

- `Decimals`, `DecimalText`, `PackageCounts`, `Percentile`, `Tiers`: amounts and their rounding, the
  decimal text of configuration, and the arithmetic the charges rest on.
- `Grammar`, `GrammarTheorems`, `Parser`, `Lexer`, `Evaluator`, `Division`, `Expressions`, `FormulaValues`,
  `FormulaTexts`: pricing expressions from source text to value. The grammar of spellings is the independent
  definition the descent is proved sound and complete against; the parser and the tokenizer are
  imperative and agree with it; what a formula is worth is stated from the values of its parts and from
  its text.
- `Charges`, `ChargeValues`, `ChargeDocuments`, `MatcherDocuments`, `RoundedAway`, `RateCards`, `Engine`,
  `PricingDocuments`, `CatalogDocuments`: charges and what they cost, their documents and canonical forms,
  dimension matchers and windows, rate-card inheritance, the calculation itself, and whole catalogs: the
  reading of one, which ties the document to the price, and its canonical form, which reads back.
- `LowBalance`, `ProviderRegistry`, `BillingIngest`, `RunBilled`, `Outbox`, `UsageBatcher`,
  `CatalogCache`: stateful components. Each is a class whose methods are the critical sections (or the
  sequential calls) of the source and equal value-level step functions; theorems then range over every
  run of those steps, with crashes, lost calls, lost answers, expiry and cancellation as steps of their
  own. Every handler, sink, store answer and clock reading is an argument, so the theorems hold for all
  of them.
- `CalendarWindows`, `Blanks`: calendar windows under truncating division and saturating durations, and
  white space.

What the code does not promise, found while proving and stated with its exact condition:

- A tier list whose first bound is negative passes the tier parser and can then bill units at the rates
  of other units (`Tiers.NegativeFirstBoundMisbills`). It never does so if and only if the list has one
  tier, its first bound is not negative, or all tiers after the first cost the same
  (`Tiers.UnitByUnitIff`).
- A package size of 3*10^32 units is free for one unit under `ceil`
  (`PackageCounts.HugePackageUndercharges`); `PackageCounts.PackagesExactIff` says exactly when counts
  are exact.
- A charge on a blank measure passes the schema, the parser and the static check, and no usage can be
  priced with it (`ChargeDocuments.BlankMeasureIsNeverPriced`). `Charges.PricedIff`, and for whole
  catalogs `PricingDocuments.ReadCatalogServesIff`, say exactly when usage is priced.
- Two low-balance thresholds that agree to six places alert on every report of a balance between them
  (`LowBalance.MergedThresholdsRepeat`, `LowBalance.RepeatedAlertIffStraddled`).
- Documents with more than six places can be accepted although their canonical form is refused: a unit
  size that rounds to zero (`RoundedAway.TinySizeIsLost`), two tier bounds that round to one
  (`RoundedAway.CloseTiersAreLost`), a matcher range that rounds to nothing
  (`RoundedAway.CloseRangeIsLost`). `ChargeDocuments.CanonicalRoundTrip` and
  `MatcherDocuments.MatcherRoundTrip` say exactly when this happens.
- Windows of days count from 1 January 2000 and windows of weeks from 3 January 2000, through a 64-bit
  duration that stops at 106751 days. One-day windows miss every date farther away
  (`CalendarWindows.BeyondReachMissesItsDay`, `CalendarWindows.SingleDayContainsIff`); a wider window still
  holds the dates up to its own end (`CalendarWindows.ThousandDaysContainIff`), and
  `CalendarWindows.WindowContainsIff` gives the range of dates for every width.
- `//` and `%` need not fit together for divisors beyond 10^32 (`Division.HugeDivisorMisfits`);
  `Division.QuotientAndRemainderFitIff` says exactly when they do.
- `if(...)` evaluates both of its branches, so `if(y != 0, a / y, b)` has a value exactly for y other than
  zero (`Expressions.IfCallIsEager`, `Expressions.IfCallGuardsIff`); only the ternary guards a division
  (`Expressions.TernaryGuardsDivision`).
- A provider factory that panics leaves its load unpublished: lookups of that name wait, unless cancelled,
  until the cache is cleared (`ProviderRegistry.AbandonedBlocksUntilCleared`,
  `ProviderRegistry.WaitersAreServedIff`).
- An outbox store whose claim call panics leaves its pass active for good
  (`Outbox.AbandonedBlocksForGood`, `Outbox.OnePassAtATime`).
- An acknowledged and ignored billing event is reported handled whether or not its completion took
  effect (`BillingIngest.AcknowledgedWithoutCompleting`); `BillingIngest.HandledIsCompletedIff` says for
  which kinds, handlers and store abilities handled implies completed.
- Work that returns a negative actual amount makes the settlement fail before it reaches the store, and
  the lease is left to expire (`RunBilled.NegativeActualKeepsLease`, `RunBilled.NegativeActualExample`);
  the settlement is asked for exactly when the amount is not negative
  (`RunBilled.SettlesIffNotNegative`).

`dafny verify dfyconfig.toml` checks the whole project.

## Model

| member | source | states |
|---|---|---|
| `Decimals.HalfAwayUnique` | golang/amount.go:51-56 | Rounding half away from zero: the nearest-integer and tie clauses leave exactly one integer, for negative amounts too. |
| `Decimals.RoundScaledNearest` | golang/amount.go:51-56 | Rounding to a number of places returns a multiple of that place no farther from the amount than any other multiple. |
| `Decimals.QuantizeMoneyNearest` | golang/amount.go:51-56 | Money rounding gives a six-place amount within half a millionth, and no six-place amount is closer. |
| `Decimals.QuantizeMoneyIdempotent` | golang/amount.go:51-56 | Rounding money twice is rounding it once. |
| `Decimals.QuantizeMoneyMonotone` | golang/amount.go:51-56 | Money rounding never reverses the order of two amounts. |
| `Decimals.DivRoundError` | golang/amount.go:72-79 | The 32-place quotient is off by at most half a unit in the 32nd place. |
| `PackageCounts.PackagesExactIff` | golang/engine.go:357-376 | For every measure, size and rounding, the count taken from the rounded quotient is the true ceil, floor or half-up count if and only if the remainder does not fall into the band the division rounds away. |
| `PackageCounts.SmallPackagesExact` | golang/engine.go:357-376 | Counts are exact whenever the package size is at most the division scale. |
| `PackageCounts.EnginePackagesExact` | golang/engine.go:357-376 | With the engine's 32 places: sizes up to 10^32 millionths are always counted exactly, under ceil, floor and nearest. |
| `PackageCounts.HugePackageUndercharges` | golang/engine.go:357-376 | For one unit used in packages of 3*10^32 units, ceil bills 0 packages although 1 is used: the bound on the size is needed. |
| `GrammarTheorems.Complete` | golang/expr.go:254-509 | Every well-formed spelling is read back by the descent at its level, stopping exactly where the spelling ends, if what follows cannot continue it. |
| `GrammarTheorems.Sound` | golang/expr.go:254-509 | Whatever any level of the descent accepts is the spelling of a well-formed tree of that level, with the node it returned. |
| `GrammarTheorems.ParseIffSpelled` | golang/expr.go:254-293 | A token list parses to a tree if and only if it is the full spelling of a well-formed syntax (left-associative chains, one comparison, ternary only at the top or in parentheses) denoting that tree. |
| `GrammarTheorems.Unambiguous` | golang/expr.go:254-509 | Two syntaxes with one spelling denote one tree. |
| `GrammarTheorems.ParseInvertsPrint` | golang/expr.go:254-509 | The printed token list of every tree over allowed functions parses back to exactly that tree. |
| `GrammarTheorems.PrintIsShortest` | golang/expr.go:254-509 | The printed token list is minimal: no token list that parses to the tree is shorter, whatever parentheses and signs it uses. |
| `GrammarTheorems.DroppingParenthesesChangesTheTree` | golang/expr.go:254-509 | Dropping any two tokens of the printed list, a pair of parentheses among them, no longer parses to the tree. |
| `GrammarTheorems.ParserImage` | golang/expr.go:254-509 | The trees the parser can return are exactly those whose calls name allowed functions. |
| `Parser.PricingExpressionParser.constructor` | golang/expr.go:249-252 | A parser starts at the first token. |
| `Parser.PricingExpressionParser.Match` | golang/expr.go:485-501 | Consumes the next token if and only if it is the one asked for. |
| `Parser.PricingExpressionParser.Parse` | golang/expr.go:273-293 | The ternary level agrees with its specification from the current position, and leaves the position inside the token list. |
| `Parser.PricingExpressionParser.BooleanExpression` | golang/expr.go:295-308 | The loop over `or` builds the left-associative chain its specification describes. |
| `Parser.PricingExpressionParser.AndExpression` | golang/expr.go:310-323 | Likewise for `and`. |
| `Parser.PricingExpressionParser.NotExpression` | golang/expr.go:325-334 | Prefix `not`, nested. |
| `Parser.PricingExpressionParser.Comparison` | golang/expr.go:336-361 | At most one comparison, `not in` taking two tokens. |
| `Parser.PricingExpressionParser.Addition` | golang/expr.go:363-377 | The loop over `+` and `-` builds the left-associative chain. |
| `Parser.PricingExpressionParser.Multiplication` | golang/expr.go:379-396 | The loop over `*`, `/`, `//` and `%` builds the left-associative chain and rejects `**`. |
| `Parser.PricingExpressionParser.UnaryExpression` | golang/expr.go:398-408 | Prefix signs, nested. |
| `Parser.PricingExpressionParser.Primary` | golang/expr.go:410-449 | Numbers, variables, calls of allowed functions and parenthesised ternaries; anything else is an error. |
| `Parser.PricingExpressionParser.CallArguments` | golang/expr.go:451-469 | Comma-separated arguments up to the closing parenthesis. |
| `Parser.ParseExpressionTokens` | golang/expr.go:254-271 | The imperative descent over a token list succeeds only if every token is consumed, and returns what the grammar says. |
| `Lexer.ReadWord` | golang/expr.go:200-210 | The word loop stops after the longest run of word characters. |
| `Lexer.ReadMantissa` | golang/expr.go:151-170 | The mantissa loop takes digits and one point, and fails on a second point. |
| `Lexer.ReadExponent` | golang/expr.go:168-189 | An exponent needs a digit after its optional sign. |
| `Lexer.ReadNumber` | golang/expr.go:151-198 | A numeral is mantissa and exponent, with a digit, and one the number library takes. |
| `Lexer.TokenizeSource` | golang/expr.go:90-141 | The index loop over the source produces the token list, or fails, as the character-by-character specification says. |
| `Lexer.TokenizeInvertsRender` | golang/expr.go:90-141 | Rendering any writable token list with single spaces and tokenizing it gives the list back. |
| `Lexer.TokenizeLayout` | golang/expr.go:90-141 | The texts of writable tokens with any white space between them, or none where they cannot be read together, tokenize to those tokens. |
| `Lexer.IdentifierIs` | golang/expr.go:200-210 | A name is a letter or underscore followed by letters, digits and underscores, and is no word of the language. |
| `Lexer.PlainNumerals` | golang/expr.go:151-170 | Digits, with or without a point and more digits, are one numeral if the number library takes them. |
| `Lexer.ExponentNumerals` | golang/expr.go:168-189 | Digits, e or E, an optional sign and digits are one numeral if the number library takes them. |
| `Lexer.LanguageWords` | golang/expr.go:118-136 | true and false stand for 1 and 0; and, or, not, if, else and in are words of the language. |
| `Lexer.WhiteSpaceIs` | golang/expr.go:96-100 | The bytes that count as white space. |
| `Lexer.TokensAreWritable` | golang/expr.go:90-207 | Every token the tokenizer returns can be written down again. |
| `Lexer.NormalFormKeepsTokens` | golang/expr.go:90-141 | Re-rendering tokenized source never changes its tokens. |
| `Percentile.SortOrdered` | golang/expr.go:821-846 | The sorted values are ordered and a permutation of the arguments. |
| `Percentile.RankBounds` | golang/expr.go:821-846 | For p in 0..100 the rank, including the rounding of p/100, lies between the first and the last index. |
| `Percentile.InterpolateBetween` | golang/expr.go:821-846 | Both indices are in range and the interpolation lies between the two values it mixes. |
| `Percentile.PercentileWithinValues` | golang/expr.go:821-846 | A percentile lies between any bounds of the values. |
| `Percentile.PercentileMonotone` | golang/expr.go:821-846 | A percentile never decreases as p grows, rounding to 32 places included. |
| `Percentile.PercentileEnds` | golang/expr.go:821-846 | Percentile 0 is the smallest value and percentile 100 the largest. |
| `Evaluator.SelectExtreme` | golang/expr.go:760-770 | The loop of min and max returns a smallest or largest argument. |
| `Evaluator.SelectTier` | golang/expr.go:790-800 | The loop of tier() stops at the first bound above the value, or at the last argument. |
| `Evaluator.Wrap32` | golang/expr.go:771-780 | A number of places keeps only its low 32 bits, as a signed number. |
| `Expressions.ParsePricingExpression` | golang/expr.go:254-271 | Tokenizing, parsing and call checking in sequence give what their specifications give. |
| `Expressions.SourceRoundTrip` | golang/expr.go:90-509 | From tree to text and back: the printed source of every checked tree parses to that tree. |
| `Expressions.ParsedIsChecked` | golang/expr.go:254-271 | Whatever parses calls only allowed functions with fitting arity, and every numeral in it reads as a number. |
| `Expressions.CheckedNeverStuck` | golang/expr.go:624-849 | Evaluating a checked tree fails only on a zero divisor or a percentile outside 0..100, at every nesting. |
| `Expressions.ValidatedNeverStuck` | golang/expr.go:14-54 | An expression the validator accepts for a set of names evaluates, over any map defining them, with no failure but a zero divisor or a percentile outside 0..100. |
| `Expressions.RefusedIff` | golang/expr.go:14-54 | The validator refuses a formula exactly if it uses no variable or fails, on some values of the known names, for a reason other than the values. |
| `Expressions.EvalDependsOnMentioned` | golang/expr.go:587-611 | The value depends only on the variables the expression mentions. |
| `Expressions.TernaryGuardsDivision` | golang/expr.go:624-744 | `a / y if y != 0 else b` never divides by zero: the branch not taken is not evaluated. |
| `Expressions.IfCallIsEager` | golang/expr.go:624-849 | The same guard written as an if() call fails at zero: all arguments are evaluated first. |
| `Expressions.IfCallGuardsIff` | golang/expr.go:624-849 | With both values in order, `if(y != 0, a / y, b)` has a value if and only if y is not zero. |
| `Expressions.DeMorgan` | golang/expr.go:708-722 | `not` turns `and` into `or` and back, with the same errors and skipped operands. |
| `FormulaValues.SumsAndProducts` | golang/expr.go:656-664 | A sum, difference or product of two operands with values is the sum, difference or product of the values. |
| `FormulaValues.QuotientIsClose` | golang/amount.go:72-79 | `/` is within half a unit of the 32nd place of the true quotient, and equal to it if it has no more places. |
| `FormulaValues.ZeroDivisorsFail` | golang/expr.go:664-674 | `/`, `//` and `%` by zero fail with their own errors. |
| `FormulaValues.WholeDivision` | golang/expr.go:664-674 | For whole numbers and divisors up to 10^32, `//` is how often the divisor goes in and `%` what is left. |
| `FormulaValues.ComparisonsDecide` | golang/expr.go:676-707 | Each comparison is 1 exactly if it holds between the values, and 0 otherwise. |
| `FormulaValues.ConnectivesDecide` | golang/expr.go:708-722 | `and` is its first zero operand or the second operand, `or` its first operand that is not zero or the second; the other operand is then not looked at, even if it fails. |
| `FormulaValues.SignsAndNegation` | golang/expr.go:635-652 | Minus negates, plus keeps, `not` is 1 for zero and 0 for anything else. |
| `FormulaValues.TernaryChooses` | golang/expr.go:723-731 | The ternary is its first branch if the condition is not zero, else its second. |
| `FormulaValues.LeavesAreWorth` | golang/expr.go:624-634 | A numeral is worth what the number library reads, a variable what is measured, or nothing. |
| `FormulaValues.CeilIsAbove` | golang/expr.go:753-755 | ceil is the integer not below its argument and less than one above. |
| `FormulaValues.FloorIsBelow` | golang/expr.go:756-758 | floor is the integer not above its argument and less than one below. |
| `FormulaValues.RoundIsNearest` | golang/expr.go:770-780 | round is the nearest integer, a tie going away from zero. |
| `FormulaValues.RoundsToPlaces` | golang/expr.go:770-780 | round(x, k) for 0 to 1000 places is the nearest multiple of the k-th place. |
| `FormulaValues.PlacesWrap` | golang/expr.go:775-779 | The places are the whole part of the second argument, kept to 32 bits with a sign: 2^32 more make no difference. |
| `FormulaValues.ExtremesOfArguments` | golang/expr.go:759-769 | min and max are arguments that no other one undercuts or exceeds. |
| `FormulaValues.ClampHolds` | golang/expr.go:801-820 | clamp is the value, raised to the lower or lowered to the upper bound. |
| `FormulaValues.IfChooses` | golang/expr.go:781-789 | if() is its second argument if the first is not zero, else its third. |
| `FormulaValues.TierChooses` | golang/expr.go:790-800 | tier() is the rate after the first bound above its first argument, or the last argument. |
| `FormulaValues.PercentileMixes` | golang/expr.go:821-846 | percentile() divides the way between two neighbouring values in order as p percent of the last index, to 32 places, divides the way between their indices. |
| `FormulaTexts.SpelledIsWorth` | golang/expr.go:38-54 | A formula spelled in any way, with any parentheses, is worth what its tree is worth. |
| `FormulaTexts.ArithmeticFromText` | golang/expr.go:38-54 | From source text: `a + b`, `a - b` and `a * b` are worth the sum, difference and product of what is measured for a and b. |
| `FormulaTexts.DivisionFromText` | golang/expr.go:38-54 | From source text: `a / b`, `a // b` and `a % b` for whole measured numbers. |
| `FormulaTexts.ComparisonsFromText` | golang/expr.go:38-54 | From source text: the six comparisons of two measured names. |
| `FormulaTexts.PrecedenceFromText` | golang/expr.go:363-396 | From source text: `a + b * c` multiplies first. |
| `FormulaTexts.ChainsFromText` | golang/expr.go:363-377 | From source text: `a - b - c` subtracts b first. |
| `FormulaTexts.ParenthesesFromText` | golang/expr.go:437-449 | From source text: `( a + b ) * c` adds first. |
| `FormulaTexts.TernaryFromText` | golang/expr.go:273-293 | From source text: `a if b else c`. |
| `FormulaTexts.ConnectivesFromText` | golang/expr.go:295-323 | From source text: `a and b`, `a or b`. |
| `FormulaTexts.PrefixesFromText` | golang/expr.go:325-408 | From source text: `- a`, `+ a`, `not a`. |
| `FormulaTexts.PlusNumeralFromText` | golang/expr.go:410-420 | From source text: a measured name plus a numeral. |
| `FormulaTexts.CallFromText` | golang/expr.go:410-469 | From source text: a call of a pricing function on any number of measured names that it takes. |
| `FormulaTexts.ArgumentCounts` | golang/expr.go:511-558 | The functions there are and how many arguments each takes. |
| `Division.IntegerDivisionIff` | golang/amount.go:81-87 | `x // y` is the quotient cut off towards zero if and only if it is not within half a unit of the 32nd place of the next integer away from zero; otherwise it is that next integer. |
| `Division.RemainderFacts` | golang/expr.go:670-674 | `x % y` is smaller than y, has the sign of x, and differs from x by a whole number of y. |
| `Division.QuotientAndRemainderFitIff` | golang/expr.go:668-674 | `y * (x // y) + x % y` is x again if and only if the quotient is clear of the next integer. |
| `Division.WholeNumbersFit` | golang/expr.go:668-674 | For whole numbers and divisors up to 10^32 they always fit. |
| `Division.HugeDivisorMisfits` | golang/amount.go:81-87 | 4*10^32 - 1 divided by 4*10^32 does not: the quotient is 1 and the remainder the whole dividend. |
| `Tiers.GraduatedPrice` | golang/engine.go:377-405 | The loop over remaining units, running total and previous bound computes the graduated price, for every tier list and measure. |
| `Tiers.SelectVolumeTier` | golang/engine.go:406-421 | The loop returns the first tier whose bound reaches the measure, or the last tier. |
| `Tiers.VolumeTierHolds` | golang/engine.go:406-421 | In an increasing list, that tier is the one whose interval holds the measure. |
| `Tiers.UnitsConserved` | golang/engine.go:377-405 | For every non-negative real measure the units billed across the tiers add up to the measure. |
| `Tiers.GraduatedRefinesUnits` | golang/engine.go:377-421 | For every accepted list with integer bounds, the total is the sum over the units of the rate the volume rule gives each, counted from the list's origin. |
| `Tiers.GraduatedUnitByUnit` | golang/engine.go:377-421 | With a first bound that is not negative these are units 1 to m themselves. |
| `Tiers.GraduatedByShares` | golang/engine.go:377-405 | For every measure, fractions included, and a positive first bound: each tier's share of the measure at its own rate. |
| `Tiers.UnitByUnitIff` | golang/engine.go:377-421 | For an accepted list with integer bounds, every integer measure is billed unit by unit if and only if the list has one tier, its first bound is not negative, or all tiers after the first have the last one's rate. |
| `Tiers.NegativeFirstBoundMisbills` | golang/config.go:1618-1659 | A list with a negative first bound, which the tier parser itself accepts, bills fifteen units at 1 although the eleventh costs 2. |
| `Tiers.GraduatedSlope` | golang/engine.go:377-405 | Adding d units changes the price by at least d times the lowest and at most d times the highest rate. |
| `Tiers.GraduatedSubadditive` | golang/engine.go:377-405 | With rates that do not increase, pricing a+b together never costs more than a and b apart. |
| `Charges.EvaluateCharge` | golang/engine.go:336-437 | The charge interpreter returns the price of every kind of charge, or its first error, and the sum loop stops at the first failing component. |
| `Charges.SumChargeAdds` | golang/engine.go:336-437 | A sum costs the total of its components, at any nesting. |
| `ChargeValues.FlatPrice` | golang/engine.go:345-346 | A flat charge costs its amount. |
| `ChargeValues.PerUnitPrice` | golang/engine.go:347-356 | A per-unit charge costs its rate times measure over unit size, that quotient to 32 places and exact if it has no more. |
| `ChargeValues.PackagePrice` | golang/engine.go:357-376 | A package charge costs its amount times the ceiling, floor or nearest integer of the quotient of measure and package size to 32 places. |
| `ChargeValues.VolumePrice` | golang/engine.go:406-421 | A volume charge costs the measure times the rate of the tier whose interval holds it. |
| `ChargeValues.GraduatedPriceByShares` | golang/engine.go:377-405 | A graduated charge costs each tier's share of the measure at the tier's rate. |
| `ChargeValues.GraduatedPriceByUnits` | golang/engine.go:377-405 | With whole units and bounds it costs the sum over the units. |
| `ChargeValues.ExpressionPrice` | golang/engine.go:422-423 | An expression charge costs what its formula is worth. |
| `Charges.PackageChargeExact` | golang/engine.go:357-376 | A package charge over six-place amounts bills the exact count of the true quotient for sizes up to 10^32 millionths. |
| `Charges.AcceptedNeverStuck` | golang/config.go:1739-1776 | A parsed and validated charge over all declared measures fails only on a zero divisor or percentile range inside a formula, on a blank measure, which nothing excludes, or on an unknown rounding, which the schema excludes. |
| `Charges.AcceptedFailsOnlyOnValues` | golang/config.go:1661-1776 | If no measure is blank and every rounding is ceil, floor or nearest, only the zero divisor and the percentile range remain, at every nesting. |
| `Charges.PricedIff` | golang/engine.go:336-437 | Over usage that has every measure the charge names, a parsed charge is priced if and only if no measure is blank, every rounding is known and every formula has a value, at every nesting. |
| `ChargeDocuments.ReadTierList` | golang/config.go:1618-1640 | The loop reading tier objects returns all of them or the first error. |
| `ChargeDocuments.ReadTiers` | golang/config.go:1618-1659 | Reading and checking tiers in the source's order accepts exactly increasing lists whose last tier is open. |
| `ChargeDocuments.ParseTiers` | golang/config.go:1618-1659 | Accepted tiers are well formed. |
| `ChargeDocuments.FirstTierFault` | golang/config.go:1618-1659 | A tier list is refused at its first fault: not closed if a tier before the last has no bound, not increasing if its bound is not above the one before. |
| `ChargeDocuments.ParsedIsShaped` | golang/config.go:1661-1737 | A parsed charge has positive sizes, well-formed tiers, a known kind and a nesting within the limit, at every depth, and only its own kind's fields. |
| `ChargeDocuments.AcceptedDocumentNeverStuck` | golang/config.go:1661-1776 | From document to price: a charge document that parses and validates fails at pricing only on the values of a formula, a blank measure or an unknown rounding. |
| `ChargeDocuments.AcceptedDocumentPricedIff` | golang/config.go:1661-1776 | Such a document's charge is priced on a usage if and only if no measure is blank, every rounding is known and every formula has a value. |
| `ChargeDocuments.FlatDocument` | golang/config.go:1661-1737 | A flat charge's document gives its amount, at up to 64 levels of nesting; deeper documents are refused. |
| `ChargeDocuments.PerUnitDocument` | golang/config.go:1661-1737 | A per-unit charge's document gives measure and rate, and unit size 1 if it names none. |
| `ChargeDocuments.PackageDocument` | golang/config.go:1661-1737 | A package charge's document gives measure, package size and amount, and rounding ceil if it names none. |
| `ChargeDocuments.TieredDocuments` | golang/config.go:1661-1737 | graduated and volume documents give a charge of that kind with measure and tiers. |
| `ChargeDocuments.TierDocument` | golang/config.go:1618-1640 | A tier's document gives rate and bound, and an open tier without a bound. |
| `ChargeDocuments.ExpressionDocument` | golang/config.go:1661-1737 | An expression charge's document gives its formula. |
| `ChargeDocuments.SumDocument` | golang/config.go:1661-1737 | A sum's components are read one level deeper. |
| `ChargeDocuments.BlankMeasureIsNeverPriced` | golang/config.go:1739-1742 | A per-unit charge on the measure "" parses, passes the static check of every operation, and fails for the missing measure on every usage. |
| `ChargeDocuments.CanonicalRoundTrip` | golang/config.go:3176-3211 | Re-parsing the canonical form of a parsed charge succeeds if and only if rounding its amounts to six places leaves it legal, and returns it so rounded. |
| `RoundedAway.TinySizeIsLost` | golang/config.go:3176-3211 | A per-unit charge with unit size 0.0000001 is accepted and its canonical form is refused. |
| `RoundedAway.CloseTiersAreLost` | golang/config.go:3176-3211 | Tiers bounded at 1.0000001 and 1.0000002 are accepted and their canonical form is refused. |
| `ChargeDocuments.SixPlaceRoundTrip` | golang/config.go:3176-3211 | With amounts of at most six places, parsing the canonical form returns the charge itself, whatever the nesting. |
| `DecimalText.FixedSixReadsBack` | golang/amount.go:16-35 | Every fixed six-place text matches the strict decimal grammar and denotes its number of millionths, negative ones too. |
| `DecimalText.AmountTextReadsBack` | golang/amount.go:16-35 | Writing an amount and reading it back gives the amount rounded to six places. |
| `DecimalText.AmountRoundTripIff` | golang/amount.go:16-35 | The text gives the same amount back if and only if the amount has at most six places. |
| `DecimalText.StrictIff` | golang/amount.go:16-35 | Exactly an optional minus, digits without superfluous zeros in front and an optional point with digits are read as an amount. |
| `DecimalText.SpelledReads` | golang/amount.go:16-35 | Such a text is worth its digits over the power of ten of its places, with its sign. |
| `MatcherDocuments.ParseMatcher` | golang/config.go:1538-1616 | A parsed matcher has exactly the fields of its operator, values of the dimension's type, and a consistent range. |
| `MatcherDocuments.EqualAccepts` | golang/engine.go:273-334 | A document's eq matcher accepts exactly its value. |
| `MatcherDocuments.ListedAccepts` | golang/engine.go:273-334 | An in matcher accepts exactly the listed values, a not_in matcher exactly the others. |
| `MatcherDocuments.PrefixAccepts` | golang/engine.go:273-334 | A prefix matcher accepts exactly the texts that start with its value. |
| `MatcherDocuments.RangeAccepts` | golang/engine.go:273-334 | A range matcher accepts exactly the amounts within the bounds it has. |
| `MatcherDocuments.RangeReadIff` | golang/config.go:1577-1612 | A range is read exactly if its bounds are readable, at most one on each side and at least one in all, the lower below the upper. |
| `MatcherDocuments.MatcherRoundTrip` | golang/config.go:3141-3174 | Re-parsing the canonical form of a parsed matcher succeeds if and only if its range survives rounding to six places, and returns it so rounded. |
| `RoundedAway.CloseRangeIsLost` | golang/config.go:3141-3174 | The range from 1.0000001 to 1.0000002, bounds excluded, is accepted and its canonical form is refused. |
| `MatcherDocuments.SixPlaceMatcherRoundTrip` | golang/config.go:3141-3174 | With amounts of at most six places the matcher itself comes back. |
| `MatcherDocuments.WindowRoundTrip` | golang/config.go:3011-3028 | Parsing the canonical form of a parsed window returns that window, defaults filled in. |
| `MatcherDocuments.WindowDocuments` | golang/config.go:817-960 | A calendar window without count and time zone is one unit in UTC; an interval without count is one unit; counts and zones given are kept. |
| `MatcherDocuments.ScalarDocuments` | golang/config.go:1477-1537 | Which document values are of which dimension type: texts, truth values, whole numbers and the decimal texts the library reads. |
| `MatcherDocuments.LargeCounts` | golang/config.go:677-725 | Whole numbers are read exactly up to 2^53 - 1 either way. |
| `RateCards.InheritanceCheck.constructor` | golang/config.go:1959-1962 | The check starts with nothing visiting or visited. |
| `RateCards.InheritanceCheck.Visit` | golang/config.go:1963-1985 | A visit succeeds if and only if the chain from the key is finite and inside the catalog, whatever was visited before; on success it leaves the visiting set as it was and marks the key visited. |
| `RateCards.ValidateInheritance` | golang/config.go:1959-1990 | The depth-first check, in any iteration order, accepts if and only if every chain is finite and stays inside the catalog. |
| `RateCards.OperationPricing` | golang/engine.go:242-261 | The pricing loop, on any catalog, ends with the price, the cycle, the unknown card or the missing price the walk specification names. |
| `RateCards.WalkFailuresMean` | golang/engine.go:242-261 | On any catalog, a card reported unknown is not in it, a cycle is reported only on a chain that never ends, and a missing price only on one that does. |
| `RateCards.ResolvesOperation` | golang/config.go:1994-2017 | True if and only if the pricing walk would find a price, an empty key counting as no card. |
| `RateCards.AcceptedWalk` | golang/engine.go:242-261 | On an accepted catalog the walk never reports a cycle or an unknown card and finds the nearest card on the chain that prices the operation. |
| `RateCards.PricedIffOnChain` | golang/engine.go:242-261 | On an accepted catalog an operation is priced if and only if some card on the chain prices it. |
| `Engine.RuleApplies` | golang/engine.go:263-271 | A rule applies if and only if every dimension it names is given and matches, in any iteration order. |
| `Engine.SelectCharge` | golang/engine.go:132-142 | The loop selects the first matching rule's charge, or the one for unmatched usage. |
| `Engine.ReadDimensions` | golang/engine.go:94-108 | Dimensions are read if and only if every required one is given and every given one has its declared type. |
| `Engine.ReadMeasures` | golang/engine.go:109-119 | The measures read are the declared ones, each with the reported value, or zero if none is reported. |
| `Engine.Calculate` | golang/engine.go:66-167 | The whole calculation, check by check, returns the quantised price or the first error. |
| `Engine.RefusedIff` | golang/engine.go:66-131 | A request is refused before it is priced exactly if it has a fault, and for the first one in the source's order: blank names or negative measures, unknown operation, undeclared measure or dimension, a dimension missing or of the wrong type, unknown or missing card. |
| `Engine.ResolvedCard` | golang/engine.go:222-241 | A request is priced on the card it names, or on the only one. |
| `Engine.CostIsThePriceOfReports` | golang/engine.go:66-167 | A successful cost is the price of the selected charge over the reported measures, zero where nothing is reported, to six places. |
| `Engine.CostOfPerUnit` | golang/engine.go:66-167 | With a per-unit charge selected the cost is, to half a millionth, its rate times the reported usage over the unit size. |
| `Engine.AcceptedNeverSurprises` | golang/engine.go:66-167 | On an accepted catalog a request in order fails only for: no price on the chain, no matching rule, a negative price, a value a formula cannot take, or a blank measure or unknown rounding in the charge it selects. |
| `Engine.ServedIff` | golang/engine.go:66-167 | Such a request is priced if and only if it selects a charge, that charge has no blank measure and no unknown rounding, its formulas have values, and the price is not negative. |
| `PricingDocuments.ReadOperations` | golang/config.go:1800-1862 | The loop over operations reads all of them or refuses, in any order of keys. |
| `PricingDocuments.ReadCards` | golang/config.go:1864-1951 | The loop over rate cards reads all of them against the operations or refuses, in any order of keys. |
| `PricingDocuments.ReadPricing` | golang/config.go:1778-1957 | Sections, identifiers, operations, cards and inheritance, checked in the source's order, give the catalog the document denotes or refuse it. |
| `PricingDocuments.CyclesAreRefused` | golang/config.go:1778-1991 | A catalog that was read has only identifiers as names of cards, operations and measures, a measure for every operation, and chains that end inside it. |
| `PricingDocuments.ReadIsAccepted` | golang/config.go:1778-1957 | Every catalog read from a document meets what the engine's guarantees ask of a catalog. |
| `PricingDocuments.ReadCatalogNeverSurprises` | golang/engine.go:66-167 | From document to price: against a catalog that was read, a request in order fails only for: no price on the chain, no matching rule, a negative price, a value a formula cannot take, or a blank measure or unknown rounding in the charge it selects. |
| `PricingDocuments.ReadCatalogServesIff` | golang/engine.go:66-167 | Against a catalog that was read, a request in order is priced if and only if it selects a charge without such names whose formulas have values and whose price is not negative. |
| `PricingDocuments.DimensionDocument` | golang/config.go:1835-1860 | A declared dimension has the type it names and is required unless the document says otherwise. |
| `PricingDocuments.RulesInOrder` | golang/config.go:1886-1927 | Rules are read one by one and keep their order. |
| `PricingDocuments.UnmatchedDocument` | golang/config.go:1928-1947 | The action charge needs a charge; any other action has none. |
| `PricingDocuments.IdentifierIs` | golang/config.go:741-758 | Identifiers are snake_case: a lower-case letter, then lower-case letters, digits and underscores, by code point. |
| `PricingDocuments.SectionDocument` | golang/config.go:793-799 | A missing or null section is empty, and one that is no object refuses the document. |
| `PricingDocuments.CardDocument` | golang/config.go:1864-1885 | A card extends the card it names by a text, none without the field, and any other value refuses it. |
| `CatalogDocuments.CatalogRoundTrip` | golang/config.go:3213-3251 | Reading the canonical form of a catalog that was read succeeds if and only if every charge and matcher survives rounding to six places, and gives the same operations, cards, parents, ordered rules and actions with amounts so rounded. |
| `Engine.CostOfFirstMatch` | golang/engine.go:132-167 | A successful cost is the first matching rule's price to six places, non-negative and within half a millionth. |
| `Engine.ZeroIsNothing` | golang/engine.go:109-119 | Reporting a declared measure as zero never changes the result. |
| `Engine.InheritedPrice` | golang/engine.go:242-261 | A card that leaves an operation to its parent charges exactly what the parent charges. |
| `LowBalance.LowBalanceTracker.constructor` | golang/credits.go:76-94 | A tracker with descending thresholds and a positive limit starts empty. |
| `LowBalance.LowBalanceTracker.StateForUser` | golang/credits.go:1686-1702 | Moves a known user to the back or adds a new one and evicts from the front; both maps and the list then hold the same users, each once, within the limit. |
| `LowBalance.LowBalanceTracker.Emit` | golang/credits.go:1640-1671 | The threshold scan updates the user's keys and returns the alert as the value-level step says. |
| `LowBalance.LowBalanceTracker.Rearm` | golang/credits.go:1704-1726 | Lifts the keys the balance has risen above and forgets a user with none left. |
| `LowBalance.ScanResult` | golang/credits.go:1652-1666 | After a scan a key is below if and only if the balance is under all its thresholds; the alert is the highest threshold of the lowest newly crossed key. |
| `LowBalance.RepeatedAlertIffStraddled` | golang/credits.go:1652-1666 | A second report of one balance alerts again if and only if two thresholds that round to one key lie on either side of it. |
| `LowBalance.MergedThresholdsRepeat` | golang/credits.go:1652-1666 | Thresholds 5.0000003 and 4.9999996 make a balance of 5 alert every time. |
| `LowBalance.RunningOutAlerts` | golang/credits.go:1640-1651 | Without thresholds a report alerts exactly when the balance runs out with it, at zero, and nothing is remembered. |
| `LowBalance.RunAgrees` | golang/credits.go:1640-1726 | After every run the bounded tracker is tight and agrees with the unbounded one on every user whose memory it has not dropped. |
| `LowBalance.BoundedRefinesUnbounded` | golang/credits.go:1640-1726 | On every run the bounded tracker alerts whenever the unbounded one does, at the same threshold, and otherwise only for a user evicted and not reported on since. |
| `LowBalance.EnoughRoomIsExact` | golang/credits.go:1686-1703 | With no more users than the limit both raise exactly the same alerts. |
| `LowBalance.RunKeepsRecency` | golang/credits.go:1686-1702 | After every run the list of tracked users is ordered by their latest report. |
| `LowBalance.LeastRecentIsDropped` | golang/credits.go:1694-1700 | Memory is dropped only for a user not remembered when the limit is reached, and it is that of the user reported on longest ago. |
| `LowBalance.MemoryIsHistory` | golang/credits.go:1640-1726 | A key is below in the unbounded memory if and only if some report put the balance under it and no event since lifted it. |
| `LowBalance.RecoveryForgetsIff` | golang/credits.go:1704-1726 | A user who recovers is remembered exactly if still under some threshold they were under, with just those keys, and nobody else's memory changes. |
| `ProviderRegistry.ProviderRegistry.constructor` | golang/provider.go:209-233 | A registry starts empty, in generation 0. |
| `ProviderRegistry.ProviderRegistry.ClearCache` | golang/provider.go:266-275 | Clears both tables and begins the next generation, leaving loads in flight to finish. |
| `ProviderRegistry.ProviderRegistry.BeginGet` | golang/provider.go:278-308 | The first lock section: cached instance, load to wait for, error, or a new load of the current generation. |
| `ProviderRegistry.ProviderRegistry.EndGet` | golang/provider.go:310-330 | The second lock section: publishes the checked result, delists only its own load, and caches only in its own generation. |
| `ProviderRegistry.SelectName` | golang/provider.go:334-361 | Picks the requested name, else the fallback, else the only compatible one; a given name that is not compatible is an error. |
| `ProviderRegistry.UsableIff` | golang/provider.go:334-361 | A usable name is a listed one without the white space around it, if that leaves anything. |
| `ProviderRegistry.StepSafe` | golang/provider.go:262-330 | Every interleaved step keeps all registry and lookup invariants and changes no published result. |
| `ProviderRegistry.SingleFlight` | golang/provider.go:277-330 | In every run at most one call per name and generation is in flight. |
| `ProviderRegistry.CacheIsCurrent` | golang/provider.go:319-330 | A cached instance is the result of a call begun in the current generation. |
| `ProviderRegistry.PublishedOnce` | golang/provider.go:319-330 | A published result never changes afterwards. |
| `ProviderRegistry.SameInstance` | golang/provider.go:277-330 | Two successful lookups of one name that start in one generation return the same instance, however late they end. |
| `ProviderRegistry.FirstLookupBuilds` | golang/provider.go:277-330 | After any run: blank and unconfigured names are errors; the first lookup of a name calls its factory and returns what it came to, an error if that is none, nil or another provider; a success is then returned without a call, a failure calls again. |
| `ProviderRegistry.WaitersAreServedIff` | golang/provider.go:292-330 | In every run, a load somebody waits for and that has no result has a runner if and only if nobody abandoned it by a panic inside the factory; an abandoned load never gets a result. |
| `ProviderRegistry.AbandonedBlocksUntilCleared` | golang/provider.go:278-330 | After a factory panics, through any further run, its load stays without a result; a lookup of that name waits for it as long as the generation lasts, and starts a load of its own once the cache is cleared. |
| `ProviderRegistry.RetriedOnlyAfterFailure` | golang/provider.go:277-330 | A second call for a name in one generation happens only after the first failed. |
| `BillingIngest.BillingStore.ClaimBillingEvent` | golang/postgres_billing.go:22-80 | The claim contract: an unclaimed event is granted under a new token, a held one is busy, a completed one a duplicate, also when the call or its answer is lost. |
| `BillingIngest.BillingStore.CloseBillingEvent` | golang/postgres_billing.go:82-83 | Completing or failing takes effect only for the token that holds the claim now. |
| `BillingIngest.BillingService.On` | golang/billing.go:677-687 | From then on a non-blank kind's events go to this handler, and all other kinds' to where they went before. |
| `BillingIngest.BillingService.OnEvent` | golang/billing.go:700-712 | Likewise for callbacks. |
| `BillingIngest.BillingService.SetDefaultHandler` | golang/billing.go:689-698 | Kinds without a handler of their own go to the default handler, which may be none; the others stay. |
| `BillingIngest.BillingService.FireEventHandler` | golang/billing.go:714-728 | Fires the callback of the kind for a non-blank account, if there is one. |
| `BillingIngest.BillingService.Fail` | golang/billing.go:842-852 | One failing call with the own token; the outcome says whether it was confirmed. |
| `BillingIngest.BillingService.CompleteIgnored` | golang/billing.go:803-821 | An acknowledged event is completed without looking at whether the claim was still held, and fires nothing. |
| `BillingIngest.AcknowledgedWithoutCompleting` | golang/billing.go:803-821 | An acknowledged event whose claim expires before the completing call is reported handled and stays unclaimed in the store. |
| `BillingIngest.BillingService.CompleteHandled` | golang/billing.go:825-840 | A handled event fires its callback only after its own completion was confirmed. |
| `BillingIngest.BillingService.HandleClaimed` | golang/billing.go:757-840 | Resolver, handler, processors and ignored kinds are tried in the source's order and lead to exactly one closing call. |
| `BillingIngest.BillingService.Ingest` | golang/billing.go:730-852 | The whole ingestion, with losses and other workers' actions in between, leaves the store, calls, outcome and callback the specification names. |
| `BillingIngest.IngestionFences` | golang/billing.go:730-852 | One ingestion closes at most once, with the token it was granted; it fires, or reports handled without ignored or duplicate, only if its completion took effect on a claim it still held. |
| `BillingIngest.CompletesIff` | golang/billing.go:757-840 | With its claim granted, an ingestion makes one closing call with its token: a completing one exactly if the account resolves and the handler, or else the configured or plain processor, deals with the event, or with none of them the event needs no more than to be acknowledged; otherwise a failing one, no success and no callback. |
| `BillingIngest.UngrantedReports` | golang/billing.go:730-756 | Without a granted claim no closing call is made and nothing fired, and the answer says why: malformed, lost, rejected, worth another try while another worker holds it, or a duplicate once completed. |
| `BillingIngest.CompletedReports` | golang/billing.go:757-840 | A completing ingestion that still owns its claim reports the event handled, for the account the processor names or else the resolved one, ignored if so answered or merely acknowledged, and fires the callback for the rest. |
| `BillingIngest.FailedReports` | golang/billing.go:757-852 | An ingestion that may not complete reports why - resolver, handler, processor, refusal, intent update or nobody to handle it - if its failing call is confirmed, and else that the claim or the call was lost. |
| `BillingIngest.UnconfirmedReports` | golang/billing.go:798-852 | A completion that is lost or no longer owns its claim fires nothing and is an error, except that an acknowledged event does not look at the answer. |
| `BillingIngest.HandledIsCompletedIff` | golang/billing.go:730-852 | Whatever is lost or happens meanwhile, an event reported handled is completed, if and only if it is not a checkout.expired or invoice.upcoming event without handler, configured processing and processor. |
| `BillingIngest.StepFenced` | golang/billing.go:730-852 | Every interleaved step of workers, crashes, losses and expiry keeps the fence. |
| `BillingIngest.OneClosingCall` | golang/billing.go:730-852 | In every run a worker makes at most one Complete or Fail call, with its own token. |
| `BillingIngest.OneCompletion` | golang/postgres_billing.go:82-121 | In every run at most one completion takes effect. |
| `BillingIngest.StaleWorkerIsHarmless` | golang/postgres_billing.go:82-83 | A worker that has lost its claim never holds it again in any further run, and no closing call it makes then changes the store. |
| `BillingIngest.OneCallback` | golang/billing.go:825-840 | In every run at most one callback fires, after the firing worker's own completion took effect. |
| `BillingIngest.CompletedForGood` | golang/postgres_billing.go:22-80 | Once completed, the event stays completed through any further run. |
| `RunBilled.ScopedKeyIs` | golang/credits.go:1540-1550 | The key of a stage is the trimmed operation key, a colon and the stage, if it fits 255 bytes. |
| `RunBilled.SettleKeyIsNoReserveKey` | golang/credits.go:1540-1550 | No settle key equals any operation's reserve key. |
| `RunBilled.SettleKeyIsInjective` | golang/credits.go:1540-1550 | Different operation keys have different settle keys. |
| `RunBilled.SettleKeyExists` | golang/credits.go:1215-1235 | An operation that could be reserved can always be settled. |
| `RunBilled.CreditStore.CreateLease` | golang/credit_store.go:18-23 | The store contract for reserving: idempotent by key, under lost calls and answers. |
| `RunBilled.CreditStore.SettleLease` | golang/credit_store.go:18-23 | The store contract for settling: atomic and idempotent by key, refusing another debit under a used key or an inactive lease. |
| `RunBilled.CreditStore.ReleaseLease` | golang/credit_store.go:18-23 | Releasing ends an active lease and touches no debit. |
| `RunBilled.BeginBilledOperation` | golang/credits.go:1215-1249 | Key checks, amount check and the reservation, in order. |
| `RunBilled.BeginsIff` | golang/credits.go:1215-1249 | A lease is obtained exactly if the trimmed key is not empty and fits with its suffix into 255 bytes, the estimate is not negative, the settings are valid, the call is answered and the store has or admits the reservation. |
| `RunBilled.NegativeAttemptsAreRefused` | golang/credits.go:1464-1473 | A run asked for a negative number of attempts is refused before anything reaches the store, alone or among others. |
| `RunBilled.ByteSizes` | golang/credit_store.go:98-112 | Key lengths are counted in bytes: one up to U+007F, two up to U+07FF, three up to U+FFFF, four beyond. |
| `RunBilled.SettleOperation` | golang/credits.go:1350-1363 | Settles the quantised actual amount under the operation's settle key; a negative amount never reaches the store. |
| `RunBilled.NegativeActualKeepsLease` | golang/credits.go:1350-1363 | A run whose work returns a negative amount makes its one reserving call, fails as invalid and leaves lease and debits as the reservation left them. |
| `RunBilled.SettlesIffNotNegative` | golang/credits.go:1350-1422 | A run that holds its lease and whose work succeeded makes a settlement call if and only if the actual amount is not negative. |
| `RunBilled.NegativeActualExample` | golang/credits.go:1385-1423 | An actual amount of -1 on an estimate of 1, with nothing lost: the run fails and the lease is still active. |
| `RunBilled.SettleRepeatedly` | golang/credits.go:1412-1422 | The retry loop ends at the first success, the first error not worth retrying, cancellation, or the last attempt. |
| `RunBilled.RunGivesUp` | golang/credits.go:1385-1422 | If no call arrives, a run tries as often as it is asked to, three times by default, and no more once an error is not worth retrying or the caller is cancelled. |
| `RunBilled.RunBilledOperation` | golang/credits.go:1385-1423 | Reserve, work, release or settle: ledger, calls and outcome for every script of losses, expiries and cancellations. |
| `RunBilled.RunDebitsAtMostOnce` | golang/credits.go:1385-1423 | A run adds nothing or exactly the operation's one debit of the quantised actual amount; success means it is in the ledger, once. |
| `RunBilled.FailedWorkReleases` | golang/credits.go:1405-1411 | Failed work makes one release call, no settlement call and no debit. |
| `RunBilled.RunUsesOneKey` | golang/credits.go:1385-1423 | All settlement calls are for one debit under one key, never the reserve key, at most as many as the attempts. |
| `RunBilled.RunRecovers` | golang/credits.go:1412-1422 | While the lease lasts, retryable losses short of the attempt limit end in success. |
| `RunBilled.RepeatedRunsDebitOnce` | golang/credits.go:1385-1423 | Over any sequence of runs and re-runs each settle key is debited at most once and debits stay. |
| `RunBilled.InterleavedDebitOnce` | golang/credits.go:1385-1423 | However the calls of any number of runs interleave, with crashes, losses, cancellations and expiring leases, no settle key is debited twice. |
| `RunBilled.InterleavedDebitsAreOwed` | golang/credits.go:1385-1423 | Every debit was made by a run whose work succeeded, is of that run's lease and quantised actual amount under its settle key, and is the only one that run made. |
| `RunBilled.InterleavedSuccessIsDebited` | golang/credits.go:1385-1423 | A run that reports success reports its own debit, and that debit is in the ledger. |
| `RunBilled.InterleavedLeaseDebitOnce` | golang/credits.go:1385-1423 | In every interleaving a lease is debited at most once and is settled from then on. |
| `RunBilled.SharedLeaseIff` | golang/credits.go:1215-1249 | Two runs hold the same lease if and only if they were begun under the same trimmed operation key. |
| `RunBilled.ExpiredIsRefused` | golang/credit_store.go:18-23 | A lease that has run out or is no longer active is not debited under a new key, and the settlement is refused. |
| `RunBilled.AloneIsTheLoop` | golang/credits.go:1412-1422 | Taken step by step, the settlement calls of a run that nobody disturbs leave the ledger and the outcome of its retry loop. |
| `Outbox.BoundedRetryDelay` | golang/outbox_worker.go:615-624 | In 64-bit arithmetic without overflow: min(maximum, base*2^(attempt-1)). |
| `Outbox.DelayGrows` | golang/outbox_worker.go:615-624 | Delays never shrink with the attempt and stay between base and maximum. |
| `Outbox.DelayDoubles` | golang/outbox_worker.go:615-624 | The first delay is the base, and each next one twice the one before or the maximum. |
| `Outbox.DispatchEvent` | golang/outbox_worker.go:477-532 | Delivered if and only if there are handlers, all succeed, the heartbeat holds and completion is confirmed; one closing call at most, the failing one with the bounded delay. |
| `Outbox.CountOutcomes` | golang/outbox_worker.go:454-469 | The counting loop yields the counts of its specification. |
| `Outbox.CountsAre` | golang/outbox_worker.go:454-469 | Delivered, failed and claim lost are the numbers of events that end so, lost ones counting as failed too. |
| `Outbox.StatusIs` | golang/outbox_worker.go:477-532 | An event's claim is lost if its heartbeat is lost or its closing call is not confirmed; otherwise it fails if it has no handler or one fails. |
| `Outbox.DispatchOnce` | golang/outbox_worker.go:437-475 | The pass loop yields the counts and error of its specification on every exit. |
| `Outbox.PassCounts` | golang/outbox_worker.go:437-475 | On every exit Claimed = Delivered + Failed, at most the batch size, ClaimLost at most Failed; no claim exceeds concurrency or what is left; a pass that ends short saw a short claim. |
| `Outbox.OutboxWorker.constructor` | golang/outbox_worker.go:174-211 | A worker is neither started nor stopped and has no pass. |
| `Outbox.OutboxWorker.Start` | golang/outbox_worker.go:213-240 | Starting is refused after Stop and idempotent before. |
| `Outbox.OutboxWorker.EnterRun` | golang/outbox_worker.go:249-269 | The entry lock section: refused after Stop, joined to the active pass, or a new pass. |
| `Outbox.OutboxWorker.EndRun` | golang/outbox_worker.go:275-299 | The exit lock section publishes the result and clears the active pass if it is its own. |
| `Outbox.OutboxWorker.BeginStop` | golang/outbox_worker.go:320-336 | Records the stop and the pass to wait for. |
| `Outbox.StepOrderly` | golang/outbox_worker.go:249-367 | Every interleaved step keeps the lifecycle invariants. |
| `Outbox.OnePassAtATime` | golang/outbox_worker.go:249-300 | In every run at most one pass is unpublished and at most one caller runs one; an unpublished pass has a runner if and only if no panic abandoned it. |
| `Outbox.AbandonedBlocksForGood` | golang/outbox_worker.go:249-367 | After the store's claim panics, through any further run, no pass begins, the abandoned one gets no result, whoever asks joins it or is refused, and no Stop returns in order. |
| `Outbox.JoinersGetThePass` | golang/outbox_worker.go:302-309 | Whoever ran or joined a pass got that pass's published result. |
| `Outbox.NothingAfterStop` | golang/outbox_worker.go:320-367 | No pass begins after Stop is recorded, and once a Stop has returned in order none is under way. |
| `UsageBatcher.UsageWriteBatcher.Enqueue` | golang/storage_handlers.go:59-75 | Appends the request and arms one flush if none is armed. |
| `UsageBatcher.UsageWriteBatcher.TakePending` | golang/storage_handlers.go:84-89 | Takes the whole queue and disarms. |
| `UsageBatcher.UsageWriteBatcher.Flush` | golang/storage_handlers.go:84-116 | One write with the entries in queue order, its result sent to every request of the batch; nothing for an empty queue. |
| `UsageBatcher.StepSound` | golang/storage_handlers.go:59-143 | Every interleaved step keeps all batcher invariants. |
| `UsageBatcher.WaitingIsArmed` | golang/storage_handlers.go:70-92 | In every run requests wait if and only if exactly one flush is scheduled. |
| `UsageBatcher.ArrivalOrder` | golang/storage_handlers.go:70-96 | Batches in the order taken, then the queue, are the requests in arrival order, each in one place. |
| `UsageBatcher.EachRequestOneResult` | golang/storage_handlers.go:110-116 | A request is sent at most one result, its own batch's, and has it once the batch is served. |
| `UsageBatcher.SubmitReturns` | golang/storage_handlers.go:76-82 | A submission returns the result sent to it, or its own cancellation. |
| `UsageBatcher.CancelledOnlyTogether` | golang/storage_handlers.go:118-143 | The write's context is cancelled before the write ends only if every request of the batch is cancelled. |
| `CatalogCache.CatalogService.constructor` | golang/catalog.go:44-55 | A service starts with an empty cache. |
| `CatalogCache.CatalogService.Install` | golang/catalog.go:353-371 | A revision that builds replaces revision, engine and version cache together; one that does not changes nothing. |
| `CatalogCache.CatalogService.RefreshNow` | golang/catalog.go:82-103 | After a successful refresh the engine is the active revision's; a failed one changes nothing; the cache stays truthful. |
| `CatalogCache.CatalogService.RefreshIfStale` | golang/catalog.go:113-138 | A fresh cache, or a zero TTL, is left alone; otherwise success means fresh until the TTL has passed from now. |
| `CatalogCache.UndisturbedRefresh` | golang/catalog.go:82-103 | Taken step by step, a refresh that nobody disturbs leaves the active revision's engine in the cache, fresh from now, or changes nothing if it cannot be built. |
| `CatalogCache.CatalogService.Invalidate` | golang/catalog.go:140-149 | Only marks the cache stale. |
| `CatalogCache.CatalogService.RememberEngine` | golang/catalog.go:271-278 | An engine cached meanwhile is kept and used. |
| `CatalogCache.CatalogService.EngineForVersion` | golang/catalog.go:242-279 | Cached or built, the engine of a version is the one its revision builds, and it is found if and only if that builds. |
| `CatalogCache.CatalogService.CalculateForLease` | golang/catalog.go:213-240 | The cost is a function of the lease's snapshot, the revision it names and the usage. |
| `CatalogCache.LeaseChoosesCard` | golang/catalog.go:213-240 | Usage under a lease is priced on the card the lease names, else on its plan's card, else on no particular one. |
| `CatalogCache.StepCoherent` | golang/catalog.go:82-371 | Every interleaved publication, activation, refresh, invalidation and pricing step keeps cached and answered engines true to their revisions. |
| `CatalogCache.CachedIsRebuilt` | golang/catalog.go:242-279 | In every run every cached engine equals the one rebuilt from its revision. |
| `CatalogCache.LeasePriceIsFixed` | golang/catalog.go:213-240 | Two pricings of one lease, with any catalog activity between or during them, use the same engine and cost the same. |
| `CalendarWindows.FloorDivideIsFloor` | golang/auto_recharge.go:989-996 | From truncating division and remainder, the floor of the exact quotient for all signed dividends and divisors. |
| `CalendarWindows.ElapsedIsClamped` | golang/auto_recharge.go:965-967 | Days counted through a 64-bit duration stop at 106751 either way. |
| `CalendarWindows.ResolveWindow` | golang/auto_recharge.go:957-987 | In civil numbers: the window is as long as asked, starts whole steps from January 2000, weeks on a Monday, months normalised, and holds the date, for days and weeks within 106751 days. |
| `CalendarWindows.WindowContainsIff` | golang/auto_recharge.go:957-987 | A window of days or weeks contains its date if and only if the date lies from the start of the earliest window the 64-bit duration reaches to the end of the latest; a window of months or years always does. |
| `CalendarWindows.WindowsTile` | golang/auto_recharge.go:957-987 | Within reach, before and after the anchor: a date lies in its window, all dates of a window share it, and each window ends where the next starts. |
| `CalendarWindows.SameOrDisjoint` | golang/auto_recharge.go:957-987 | Any two dates get the same window or disjoint ones. |
| `CalendarWindows.BeyondReachMissesItsDay` | golang/auto_recharge.go:965-967 | The day after the last reachable one resolves to a window that does not contain it. |
| `CalendarWindows.SingleDayContainsIff` | golang/auto_recharge.go:965-967 | One-day windows contain exactly the dates within reach. |
| `CalendarWindows.ThousandDaysContainIff` | golang/auto_recharge.go:957-987 | Windows of a thousand days contain exactly the dates from 107000 days before the anchor up to 107000 days after it, past the duration's own 106751. |
| `Blanks.TrimEmptyIffBlank` | golang/credit_store.go:90-96 | Trimming leaves nothing if and only if the text is all white space. |
| `Blanks.TrimIdempotent` | golang/credit_store.go:90-96 | Trimming twice is trimming once. |
| `Blanks.TrimTakesBlanks` | golang/credit_store.go:90-96 | What trimming takes away is white space, and what it leaves neither starts nor ends with any. |
| `Blanks.SpaceIs` | golang/credit_store.go:90-96 | White space is the list of code points Unicode gives that property. |

## Left out

- Evaluator.Wrap32: `round(x, n)` keeps the low 32 bits of n; what rounding to a huge number of places gives is a total function of the number library, left uninterpreted.
- The `in` and `not in` operators compare decimal texts; they are left as a total function of the number library.
- Whether a numeral with an exponent is in range is the number library's decision and a parameter.
- RunBilled.CreditStore.SettleLease: models the store's written contract (atomic, idempotent by key), not the SQL behind it; balances, allowances and quotas are not modelled.
- BillingIngest.BillingStore.ClaimBillingEvent: one event's claim; the fingerprint that makes a conflicting redelivery rejected is a parameter, and an unusable reply counts as a lost one.
- ProviderRegistry.ProviderRegistry.BeginGet: a load is known by its place in a list instead of by its address, and the generation counter does not wrap at 64 bits.
- LowBalance.LowBalanceTracker.StateForUser: the linked list is a sequence and the map to list nodes the set of its users, so the cost of moving a node is not captured; the key text is the whole number of millionths it spells.
- Outbox.CountOutcomes: outcomes are listed in the order they arrive; the goroutines that produce them are not modelled, and neither is the heartbeat's timing (losing it is an input).
- Outbox.OutboxWorker.EndRun: a panic is a step of the run (Abandon), not an outcome of this method.
- Outbox.NothingAfterStop: Stop waiting for the polling goroutine itself, beyond the pass it runs, is not modelled.
- CalendarWindows.ResolveWindow: day, month and year numbers stand for instants; time zones and daylight saving are the time library's, and counts whose product with seven leaves 64 bits are not modelled.
- MatcherDocuments.WindowRoundTrip: that "UTC" is a known zone is a precondition, as the time library guarantees.
- JSON binary floats as matcher numbers, YAML, the JSON schema itself and file loading are not modelled beyond what `Charges.RoundingsKnown` states: the schema allows no rounding but ceil, floor and nearest.
- Not modelled: entitlements, plans beyond their rate card, the commerce section (products, prices, providers), availability and admission rules, and the catalog's regular expressions.
- PricingDocuments.ReadPricing: a refused document carries no error kind, and the sorted order in which keys are read is any order, since only the reported fault depends on it.
- ProviderRegistry.ProviderRegistry.EndGet: a panic is a step of the run (Abandon), not an outcome of this method.
- RunBilled.InterleavedDebitOnce: one call is one step; its interleaving with other calls inside the store is covered by the store's atomicity contract.
- PostgreSQL transactions, row decoding and error classification; provider network calls, webhooks and checkout links; telemetry, event sinks and diagnostics.
- The metric-priced variants of RunBilled differ from it only in where the amounts come from.
- That Invalidate forces a reload under a concurrent refresh is not promised by the code and not stated.
- Error values keep their kind, not their message text; where the source reports the first of several faults in map order, the kinds are merged.
