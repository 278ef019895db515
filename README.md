# rust-exp calculator: parser and expression tree in Dafny

The repository is a line-oriented calculator. Each input line is parsed by a
recursive-descent parser into an expression tree. The tree is then evaluated.
The grammar has four levels:

- add: `mul`, `mul + add`, `mul - add`
- mul: `base`, `base * mul`, `base / mul`, `base % mul`
- base: `- base`, `+ base`, `( add )`, `| add |`, or a number
- number: a maximal run of numeric characters and periods

Blanks (spaces and tabs) may stand before any token. A line terminator counts
as the end of the input. Every step answers with one of three outcomes: a tree
(`Present`), nothing to parse (`Absent`) or a syntax error with a message and
a character index (`Error`).

The model has three layers:

- `Expression`: the tree as one datatype, and its evaluation over real numbers.
  Quotient and remainder are parameters (`Arith`) about which nothing is assumed.
- `ParseResults`: the three-way result and its combinators `Map` and `Monad`,
  with their functor and monad laws.
- `Lexical` and `Grammar`: a pure description of the parser. Each grammar
  level is a function from a line and a start index to the outcome and the
  index where the cursor stops (`Step`). It keeps every branch of the source:
  - unary `+` negates like unary `-`;
  - an absent operand after an opener or an operator passes through as `Absent`;
  - a missing `)` or `|` is an error at the index after the blanks;
  - remaining input is an error at its first character.
- `Parsing`: the cursor object of the source as a class with `idx` and the
  lookahead `cur`, updated in place. The methods `Skip`, `SkipSpace`,
  `Symbol`, `ParseNumber`, `ParseBase`, `ParseMul`, `ParseAdd` and `Parse`
  have loops and mutual recursion as in the source. Each is proved to end in
  exactly the state and result that the matching `Grammar` function
  describes.

`GrammarProperties` proves the general behaviour of the grammar:
- what each level answers in each case;
- that starting anywhere inside the blanks before a token gives the same step,
  and that blanks between the tokens of a chain of single digits joined by `+`
  and `-` do not change its tree;
- that sign runs nest negations;
- that chains of `+`/`-` lean to the right;
- that products bind tighter than sums.

`Examples` checks concrete lines against these rules.

Numbers are real numbers. A literal has the exact decimal value of its
digits. A captured run is accepted exactly when it holds only ASCII digits
and periods, at most one period and at least one digit. These are the runs
that the standard float parser accepts among those the number scanner can
capture.

## Model

| member | source | states |
|---|---|---|
| Expression.AbsValue | src/expression.rs:103-109 | the absolute value is never negative, is `n` or `-n`, and differs from `n` exactly when `n < 0` |
| Expression.Eval | src/expression.rs:87-98 | evaluation is defined for every tree by structural recursion, and a constant evaluates to its own value |
| Expression.EvalOperands | src/expression.rs:87-94 | a binary node applies its operator to the left value, then the right value; the quotient and the remainder use the given division operations; swapping the operands of a difference negates its value |
| Expression.EvalProduct | src/expression.rs:92 | a product multiplies the left value by the right value |
| Expression.EvalAbs | src/expression.rs:95-96 | an `Abs` node is non-negative, equals its operand's value or its negation, ignores a negation below it, and is idempotent |
| Expression.EvalNegNeg | src/expression.rs:95 | two negations cancel |
| Expression.EvalNegated | src/expression.rs:95 | `n` nested negations leave the value unchanged for even `n` and negate it for odd `n` |
| Expression.EvalDivisionFree | src/expression.rs:87-98 | evaluation is total, and a tree without `/` or `%` has the same value whatever the division operations are |
| ParseResults.ParseResult.Monad | src/parser.rs:105-114 | a `Present` result is continued with the function, and `Absent` or `Error` is returned unchanged |
| ParseResults.ParseResult.Map | src/parser.rs:118-128 | a `Present` tree is transformed and stays `Present`, and `Absent` or `Error` is returned unchanged |
| ParseResults.ParseResult.IsPresent | src/parser.rs:131-136 | true exactly when the result holds a tree, that is when `PresentTree` gives one |
| ParseResults.ParseResult.IsAbsent | src/parser.rs:139-144 | true exactly when the result is neither present nor an error |
| ParseResults.ParseResult.IsError | src/parser.rs:147-152 | true exactly when the result has an error message and an error index |
| ParseResults.ParseResult.PresentTree | src/parser.rs:155-160 | some tree exactly for a `Present` result, and that result's tree |
| ParseResults.ParseResult.ErrorMessage | src/parser.rs:163-168 | a message exactly for an `Error` result, and that result's message |
| ParseResults.ParseResult.ErrorIndex | src/parser.rs:171-176 | an index exactly for an `Error` result, and that result's index |
| ParseResults.ExactlyOneOutcome | src/parser.rs:131-152 | exactly one of `IsPresent`, `IsAbsent` and `IsError` holds, and an error is rebuilt from its two accessors |
| ParseResults.MapIsMonad | src/parser.rs:105-128 | `Map(f)` is `Monad` with a continuation that wraps `f`'s tree in `Present` |
| ParseResults.MapFunctor | src/parser.rs:118-128 | `Map` keeps the identity and composes |
| ParseResults.MonadLaws | src/parser.rs:105-114 | left identity, right identity and associativity of `Monad` with `Present` as unit |
| Lexical.IsSpace | src/parser.rs:431-436 | true exactly for a space or a tab, never for the end of the input; a blank is never a number character, a terminator, an operator, a bracket or a bar |
| Lexical.IsNumeric | src/parser.rs:439-444 | every ASCII digit is numeric, and no numeric character is a blank, a terminator, a period, an operator, a bracket or a bar |
| Lexical.IsNumberChar | src/parser.rs:439-444 | a period and every ASCII digit are number characters; the end of the input, a blank, a terminator, an operator, a bracket and a bar are not |
| Lexical.CharAt | src/parser.rs:214-215 | the character the iterator yields after `i` steps: the `i`-th character, or none past the end |
| Lexical.Lookahead | src/parser.rs:202-211 | none exactly at the end of the line or at `\n` or `\r`, and otherwise the character itself |
| Lexical.SpaceEnd | src/parser.rs:228-232 | the scan stops within the line, at or after the start, on a lookahead that is neither a space nor a tab |
| Lexical.SpaceEndSkipsBlanks | src/parser.rs:228-232 | every character the scan passes over is a space or a tab |
| Lexical.NumberEnd | src/parser.rs:255-258 | the scan stops within the line, at or after the start, on a lookahead that is not a numeric character or a period |
| Lexical.NumberEndSkipsNumberChars | src/parser.rs:255-258 | every character the scan passes over is a numeric character or a period |
| Lexical.ParseFloat | src/parser.rs:262-265 | a run converts exactly when the literal is accepted, and its value is never negative |
| Lexical.RejectedLiterals | src/parser.rs:262-264 | a run with two periods, with a character other than an ASCII digit or a period, or with no digit fails to convert |
| Lexical.DecimalRoundTrip | src/parser.rs:262-263 | every natural number, written in decimal, converts back to itself |
| Lexical.FractionLiteral | src/parser.rs:262-263 | a literal with a fraction converts to its exact decimal value: `1.25` is 1.25 |
| Lexical.LeadingPeriodLiteral | src/parser.rs:262-263 | a literal that starts with its period converts: `.5` is 0.5 |
| Lexical.DigitLiteral | src/parser.rs:262-263 | a single ASCII digit converts to that digit's value |
| Lexical.SpaceEndOfRun | src/parser.rs:229-231 | a run of blanks that ends before a non-blank is skipped exactly to its end |
| Lexical.NumberEndOfRun | src/parser.rs:255-258 | a run of number characters that ends before a non-number character is consumed exactly to its end |
| Grammar.ParseNumberFrom | src/parser.rs:241-266 | the cursor never moves backwards or past the end, and any error is a step error at an index between the start and the stop |
| Grammar.NumberOutcome | src/parser.rs:241-266 | `Absent` exactly when no number character follows the blanks, without consuming beyond them; otherwise the maximal run is consumed; it is `Error("Incorrect number", start of run)` exactly when the run does not convert; otherwise it is a constant with the converted value |
| Grammar.ParseBaseFrom | src/parser.rs:279-334 | the cursor never moves backwards or past the end, and any error is a step error at an index between the start and the stop |
| Grammar.MulOpOf | src/parser.rs:357-370 | `Mul` exactly for `*`, `Div` exactly for `/`, `Rem` exactly for `%`, and no operator for any other lookahead |
| Grammar.AddOpOf | src/parser.rs:405-415 | `Add` exactly for `+`, `Sub` exactly for `-`, and no operator for any other lookahead |
| Grammar.MulNode | src/parser.rs:376-382 | the node for `Mul`, `Div` or `Rem` is the product, quotient or remainder node with the first operand on the left and the second on the right |
| Grammar.AddNode | src/parser.rs:421-426 | the node for `Add` or `Sub` is the sum or difference node with the first operand on the left and the second on the right |
| Grammar.ParseMulFrom | src/parser.rs:346-383 | the cursor never moves backwards or past the end, and any error is a step error within the consumed span |
| Grammar.MulRest | src/parser.rs:355-382 | the rest of a product never moves the cursor before its first operand's end, and keeps errors within the span |
| Grammar.ParseAddFrom | src/parser.rs:394-427 | the cursor never moves backwards or past the end, and any error is a step error within the consumed span |
| Grammar.AddRest | src/parser.rs:403-426 | the rest of a sum never moves the cursor before its first operand's end, and keeps errors within the span |
| Grammar.ParseLine | src/parser.rs:44-83 | an error of the sum is returned unchanged; a `Present` or `Absent` result is returned exactly when only blanks remain before the end or a terminator; otherwise the result is `Error("Extra input", index after the blanks)`; every error message is one of the four and every index lies within the line |
| GrammarProperties.NumberRunBase | src/parser.rs:252-265 | a base that starts with a run of number characters is the converted constant or `Incorrect number` at the run's start, with the cursor after the run |
| GrammarProperties.DigitBase | src/parser.rs:331-332 | a lone digit is a constant base with that digit's value |
| GrammarProperties.SignBase | src/parser.rs:282-295 | `-` and `+` alike wrap the next base in `Neg`, and an absent or failed base is passed on with its cursor |
| GrammarProperties.SignRun | src/parser.rs:282-295 | a run of `n` signs wraps the base in `n` negations |
| GrammarProperties.BlanksBeforeToken | src/parser.rs:222-225 | starting anywhere inside the blanks before a token gives the same number, base, product and sum |
| GrammarProperties.BlankLineIsAbsent | src/parser.rs:74-78 | a line of blanks, with or without a terminator, is `Absent` |
| GrammarProperties.NothingLeft | src/parser.rs:247-250 | with only blanks left before the end, every level is `Absent` and stops after the blanks |
| GrammarProperties.WholeLine | src/parser.rs:74-79 | a sum that reaches the end of the line is the line's answer |
| GrammarProperties.ChainStep | src/parser.rs:403-426 | a digit, with only blanks before it and between it and a following `+` or `-`, is joined as the left operand to the sum parsed after the operator |
| GrammarProperties.ChainEnd | src/parser.rs:403-415 | a digit, with only blanks around it, followed by something that cannot continue a sum is the whole sum, with the cursor after the blanks that follow it |
| GrammarProperties.DigitOperand | src/parser.rs:346-370 | a digit followed by blanks and something that is not a `*`, `/`, `%` or number character is a product made of that digit alone, with the cursor after the blanks |
| GrammarProperties.SpacedChainLink | src/parser.rs:403-426 | in a chain of digits and `+`/`-` with blanks anywhere between the tokens, the sum from each digit's start is that digit joined to the sum from the next digit's start |
| GrammarProperties.SpacedChainRightNested | src/parser.rs:394-427 | such a chain, with blanks anywhere between its tokens, parses to the right-leaning tree and stops where the chain ends |
| GrammarProperties.PlainChainIsSpaced | src/parser.rs:394-427 | a chain written without blanks is the special case with no blank between the tokens |
| GrammarProperties.ChainLine | src/parser.rs:394-427 | a whole line that is such a chain parses to the right-leaning tree |
| GrammarProperties.SpacedChainLine | src/parser.rs:44-83 | a whole line that is a chain with blanks between its tokens parses to the right-leaning tree, the same answer as the chain without blanks |
| GrammarProperties.FirstOperandOnly | src/parser.rs:349-370 | a product or sum whose first operand is not a tree answers that operand; with no operator after the operand, the operand is the answer and the cursor stops after the blanks |
| GrammarProperties.OperatorJoins | src/parser.rs:372-382 | after an operator, the node joins the first operand on the left and the same level parsed after the operator on the right, and an absent or failed right side is the answer |
| GrammarProperties.Brackets | src/parser.rs:298-329 | after a bracket or bar opener, a non-tree sum is the answer; a missing closer is `Expected ')'` or the matching bar error at the index after the blanks; a closing bracket returns the tree unchanged and a closing bar wraps it in `Abs` |
| GrammarProperties.ProductsHoldSumsOnlyInBrackets | src/parser.rs:336-345 | a product level yields a sum or a difference only when it starts with `(`: products bind tighter than sums |
| Parsing.Parser.constructor | src/parser.rs:54-60 | the cursor starts at index 0 with the first character as lookahead |
| Parsing.Parser.Peek | src/parser.rs:202-211 | the lookahead is none exactly at the end or at a line terminator, and is otherwise the current character |
| Parsing.Parser.Skip | src/parser.rs:214-219 | the index grows by exactly one, and the lookahead becomes the character at the new index |
| Parsing.Parser.Symbol | src/parser.rs:222-225 | skips blanks, then returns the lookahead, which is not a blank |
| Parsing.Parser.SkipSpace | src/parser.rs:228-232 | consumes only spaces and tabs, up to the end of the run, and stops on a lookahead that is neither |
| Parsing.Parser.ParseNumber | src/parser.rs:241-266 | the result and final index are the ones `Grammar.ParseNumberFrom` gives for the starting index |
| Parsing.Parser.ParseBase | src/parser.rs:279-334 | the result and final index are the ones `Grammar.ParseBaseFrom` gives |
| Parsing.Parser.ParseGroup | src/parser.rs:298-329 | from a bracket or bar opener, the result and final index are the ones `Grammar.ParseBaseFrom` gives for the start of the base |
| Parsing.Parser.ParseMul | src/parser.rs:346-383 | the result and final index are the ones `Grammar.ParseMulFrom` gives |
| Parsing.Parser.ParseAdd | src/parser.rs:394-427 | the result and final index are the ones `Grammar.ParseAddFrom` gives |
| Parsing.Parse | src/parser.rs:44-83 | the answer for a line is `Grammar.ParseLine` of that line |
| Examples.SubtractionLeansRight | src/parser.rs:417-426 | `8-3-2` parses to `8-(3-2)` |
| Examples.SubtractionValue | src/expression.rs:91 | `8-3-2` evaluates to 7 |
| Examples.BlanksAroundOperator | src/parser.rs:222-232 | `1 + 2` parses to `1+2`, the same answer as the line without blanks |
| Examples.UnclosedBracket | src/parser.rs:298-303 | `(1+2` is `Error("Expected ')'", 4)` |
| Examples.TrailingInput | src/parser.rs:74-82 | `1 2` is `Error("Extra input", 2)` |
| Examples.TrailingInputAfterTwoBlanks | src/parser.rs:74-82 | `1  2` is `Error("Extra input", 3)`: an inserted blank moves the error index |
| Examples.StrayCloser | src/parser.rs:65-82 | `)` is `Error("Extra input", 0)` |
| Examples.TwoPeriods | src/parser.rs:262-264 | `1.2.3` is `Error("Incorrect number", 0)` |
| Examples.ArabicIndicDigit | src/parser.rs:439-444 | a non-ASCII numeral is consumed as a number and then refused: `Error("Incorrect number", 0)` |
| Examples.NegationBindsTightly | src/parser.rs:282-287 | `-3*2` parses to `(-3)*2` |
| Examples.NegationValue | src/expression.rs:92-95 | `-3*2` evaluates to -6 |
| Examples.UnaryPlusNegates | src/parser.rs:290-295 | `+3` parses to `Neg(3)` and evaluates to -3 |
| Examples.ProductRightOfSum | src/parser.rs:394-427 | `1+2*3` parses to `1+(2*3)` |
| Examples.ProductLeftOfSum | src/parser.rs:346-383 | `2*3+1` parses to `(2*3)+1` |
| Examples.BarsAroundNegation | src/parser.rs:316-329 | `-5` between bars parses to `Abs(Neg(5))` and evaluates to 5 |
| Examples.BarsAroundDifference | src/parser.rs:316-329 | `2-9` between bars parses to `Abs(2-9)` and evaluates to 7 |
| Examples.LoneSignIsAbsent | src/parser.rs:282-287 | `-` is `Absent`, not an error |
| Examples.LoneOpenerIsAbsent | src/parser.rs:298-317 | a lone opening bracket and a lone opening bar are `Absent`, not errors |
| Examples.DanglingOperatorIsAbsent | src/parser.rs:419-421 | `1+` is `Absent`, not an error |
| Examples.BlankLines | src/parser.rs:74-78 | the empty line, a line of blanks and a line of blanks with a terminator are `Absent` |

## Left out

- The read-eval-print loop in `src/main.rs` is not part of this model. It reads lines from standard input, prints results and stops on `Absent`; it only calls `parse` and `eval`.
- IEEE-754 arithmetic is not modelled: rounding, infinities, NaN, `-0.0`, and the sign rule of `%`. Numbers are real numbers, and the quotient and the remainder are parameters about which nothing is assumed.
- Lexical.ParseFloat: gives the exact decimal value of a literal, not the nearest double that the standard float parser returns. Which runs are accepted is modelled exactly.
- Lexical.IsNumeric: covers the ASCII digits and a sample of the other Unicode numeric ranges, not the full Unicode table; every character of the sample is numeric. A numeral outside the sample is not consumed as part of a number, so for such a line the model stops the number there and reports the error that follows from that character (`Extra input`, or `Expected ')'` or `Expected '|'` when a closer was expected) at that character, where the source consumes it and reports `Incorrect number` at the start of the run.
- GrammarProperties.SpacedChainLine: insensitivity to inserted blanks is proved only for chains of single digits joined by `+` and `-`, not for every expression. Inserted blanks do move error indices: `1 2` is `Extra input` at index 2, `1  2` at index 3 (`Examples.TrailingInputAfterTwoBlanks`). `BlanksBeforeToken` states only that, within one line, starting anywhere inside the blanks before a token gives the same step.
- The twelve per-type `Expression` implementations for the primitive number types (src/expression.rs:119-193) are not modelled; one real-valued constant stands for all of them.
- The factory functions `val`, `add`, `sub`, `mul`, `div`, `rem`, `neg` and `abs` (src/expression.rs:23-60) are the constructors of `Expression.Expr`, left operand first. Boxing and dynamic dispatch are not modelled.
- Parsing.Parser.Skip: requires a current character. The source would also step past the end of the line, but every call site skips only after a lookahead that is some character.
- The user data the source passes to the closures of `map` and `monad` is not modelled; the Dafny closures capture what they need. The bracket and bar continuations, which move the cursor, are the method `Parsing.Parser.ParseGroup`, which `ParseBase` calls, rather than a closure passed to `Monad`; it branches on whether the inner sum is `Present`.
- The captured number run is built as an immutable sequence, not as a string buffer grown in place.
