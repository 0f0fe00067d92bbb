# ArithmeticParser in Dafny

This project models the core of ArithmeticParser (`ap::Expression`). An
`Expression` holds an arithmetic expression as text: signed decimal
numbers, `+ - * /`, parentheses (optionally signed) and white space. It
lexes the text into tokens with a five-state machine and evaluates the
tokens with two mutually recursive resolvers. It keeps the value, the token
list, a validity flag and a diagnostic message.

The project has these modules:

- `Doubles` models `double` as an exact real or an IEEE special value (a signed infinity, NaN).
- `Tokens` holds the tokens, the tags they report, the fixed messages, and the parenthesis depth of a token list.
- `Patterns` holds the regular expressions of the pattern table. Each is a language predicate and an anchored matcher that returns the length of its match.
- `Lexer` specifies `createTokenList` and `getOpTokenFromString`, and proves what an accepted token list looks like.
- `Evaluator` specifies `getSubExpressionEndPos`, `resolveValueAtPos` and `resolveTokenList`. It proves that on every token list the lexer accepts, these never index outside the list, and raise their logic error exactly when a `)` comes before its `(`.
- `Syntax` is an abstract syntax of expressions, with a printer to tokens and a meaning. It proves that the evaluator gives every printed expression that meaning.
- `Parsing` reads the expression tree back from a token list. It proves that every token list the evaluator accepts is the print of its tree, so the value of every accepted expression is that tree's meaning.
- `ArithmeticParser` holds the class `Expression`. Its fields, state machine and loops prove that they compute the specifications above. The module also holds the pure driver `Evaluate` and the lemmas about what the object reports.
- `AsWritten` and `Grouping` model two parts of the source as written, where they differ from what is evidently intended (see Findings). `ArithmeticParser.IntendedEvaluate` is the third such correction.
- `Examples` works through the program's own test suite.

The model follows the code where it departs from the conventional reading of such a parser:

- `+` and `-` combine the value so far with the value of everything after them. So `10 - 2 - 3` is 11 (`Syntax.MinusGroupsRight`), which is a Finding.
- `2 / -(4)` is `(2 / -1) * 4`, that is -8, because a negated parenthesis becomes `-1 *`. The comment at ArithmeticParser.cpp:102-104 argues that this is safe because multiplication binds tightest, but after `/` the `-1` becomes the divisor; the model keeps the code's -8 (`Examples.EvaluateNegatedParen`).
- `0 / 0` gives NaN. NaN is not infinite, so the expression is reported valid.
- After a failure, the infinity check reads the value left by the previous evaluation (a Finding).

## Model

| member | source | states |
|---|---|---|
| Tokens.GetType | ArithmeticParser.h:48-62 | each token variant reports its own tag, and a tag is reported only by its variant |
| Tokens.MessagesDistinct | ArithmeticParser.h:28-37 | the no-error message is empty; every other message and logic-error message is non-empty, and all are pairwise different, so a message identifies its diagnosis |
| Patterns.LeadingSpace | ArithmeticParser.h:16-20 | the result is the length of the longest prefix of `\s` characters: all before it are white space, the next is not |
| Patterns.DigitRun | ArithmeticParser.h:16 | the result is the length of the longest run of digits from `j` |
| Patterns.MatchOpenParen | ArithmeticParser.h:17 | the anchored open-paren search: the length of white space, an optional sign and `(` at the front, characterised by `MatchOpenParenSpec` |
| Patterns.MatchCloseParen | ArithmeticParser.h:18 | the anchored close-paren search: the length of white space and `)` at the front, characterised by `MatchCloseParenSpec` |
| Patterns.MatchOperator | ArithmeticParser.h:19 | the anchored operator search: the length of white space and one operator character at the front, characterised by `MatchOperatorSpec` |
| Patterns.MatchValue | ArithmeticParser.h:16 | the anchored value search: the length of the longest value lexeme at the front, characterised by `MatchValueSound` and `MatchValueLongest` |
| Patterns.MatchOpenParenSpec | ArithmeticParser.h:17 | the open-paren search matches `n` characters exactly when the first `n` characters are white space, an optional sign and `(` (both directions) |
| Patterns.MatchCloseParenSpec | ArithmeticParser.h:18 | the close-paren search matches `n` characters exactly when the first `n` are white space and `)` (both directions) |
| Patterns.MatchOperatorSpec | ArithmeticParser.h:19 | the operator search matches `n` characters exactly when the first `n` are white space and one of `+ - * /` (both directions) |
| Patterns.MatchValueSound | ArithmeticParser.h:16 | what the value search matches is a value lexeme: white space, an optional sign, digits, and optionally `.` and digits |
| Patterns.MatchValueLongest | ArithmeticParser.h:16 | every prefix that is a value lexeme is covered by the match, so the search is greedy and finds a match whenever one exists |
| Patterns.MatchWhitespace | ArithmeticParser.h:20 | the whole-string white-space test is true exactly when every character is white space |
| Patterns.LexemeValue | ArithmeticParser.cpp:121 | `std::stod` of a value lexeme: its sign applied to the exact decimal value of its digits |
| Lexer.OpenParenTokens | ArithmeticParser.cpp:101-111 | the tokens queued for an open-paren lexeme: `-1 * (` when it contains `-`, `(` otherwise (contains reading, see Left out); characterised by `OpenParenFold` |
| Lexer.OpTokenFromString | ArithmeticParser.cpp:287-298 | `getOpTokenFromString`: the first of `-`, `+`, `*`, `/` the lexeme contains, or the invalid-operator error when it contains none (contains reading, see Left out); characterised by `OperatorLexemeMaps` |
| Lexer.LexOperand | ArithmeticParser.cpp:98-129 | the FIND_OPEN_PAREN and FIND_VALUE states over the remaining input: open-paren lexemes, then a value, else a missing value; characterised by `OperandShape` and `OperandBalance` |
| Lexer.LexAfterValue | ArithmeticParser.cpp:131-175 | the FIND_CLOSE_PAREN, FIND_OPERATOR and OPERATOR_NOT_FOUND states: close parens, then an operator and an operand, or the end with the balance test, else a missing operator; characterised by `AfterValueShape` and `AfterValueBalance` |
| Lexer.Lex | ArithmeticParser.cpp:82-178 | `createTokenList`: the tokens queued and how the run ends, from FIND_OPEN_PAREN with balance 0; characterised by `LexWellShaped`, `LexBalance` and `NoInvalidOperator`, and computed by `Expression.CreateTokenList` |
| Lexer.OpenParenFold | ArithmeticParser.cpp:101-111 | an open-paren lexeme with `-` queues `-1`, `*` and `(`; one without queues only `(` |
| Lexer.OperatorLexemeMaps | ArithmeticParser.cpp:287-298 | every lexeme the operator search can match maps to the operator of its character, so the logic error is never raised |
| Lexer.OperandShape | ArithmeticParser.cpp:96-178 | from the operand states, an accepted run yields tokens that alternate operand slots and operator slots, end with a value or `)`, and close every `(` opened |
| Lexer.AfterValueShape | ArithmeticParser.cpp:96-178 | the same from the after-value states, for the tokens that follow a value |
| Lexer.LexWellShaped | ArithmeticParser.cpp:82-178 | every token list the lexer accepts is well shaped: operands and operators alternate and the parenthesis counts agree |
| Lexer.NoInvalidOperator | ArithmeticParser.cpp:143-153 | no input makes the lexer raise the invalid-operator logic error (contains reading, see Left out) |
| Lexer.OperandBalance | ArithmeticParser.cpp:155-168 | when a run from the operand states reaches the end of the input, it is accepted exactly when the parentheses counted so far and in the rest balance |
| Lexer.AfterValueBalance | ArithmeticParser.cpp:155-168 | the same from the after-value states |
| Lexer.LexBalance | ArithmeticParser.cpp:159-168 | an input lexed to its end is accepted exactly when it holds as many `(` as `)`, and otherwise reports unbalanced parentheses |
| Lexer.BlankLex | ArithmeticParser.cpp:117-129 | an input of white space only yields no tokens and a missing value |
| Evaluator.Scan | ArithmeticParser.cpp:272-284 | the scanning loop of `getSubExpressionEndPos` from a position and a balance, failing when it runs off the list; characterised by `SubExpressionEndMatches` |
| Evaluator.SubExpressionEnd | ArithmeticParser.cpp:263-285 | `getSubExpressionEndPos`: the position itself for any token but `(`, otherwise the end of the scan, which lies at or after the position and inside the list |
| Evaluator.ResolveValue | ArithmeticParser.cpp:244-258 | `resolveValueAtPos`: a value token's value, a parenthesised range resolved between its parentheses, the unexpected-token error otherwise; characterised by `ValueSafe` and `Syntax.FactorEval` |
| Evaluator.Resolve | ArithmeticParser.cpp:183-238 | `resolveTokenList`: the first operand resolved, then the operator loop; characterised by `RangeSafe`, `ResolveWellShaped`, `Syntax.SumEval` and `Parsing.ResolveMeansParsed` |
| Evaluator.Loop | ArithmeticParser.cpp:198-235 | the operator loop: `+` and `-` combine with the rest of the range, `*` and `/` with the next operand, any other token raises the unexpected-token error; characterised by `LoopSafe` and `Syntax.ChainEval` |
| Evaluator.SubExpressionEndMatches | ArithmeticParser.cpp:263-285 | for a `(`, the end found is the `)` after which the depth is first back where it was; the only failure is running off the list, exactly when the `(` is never closed |
| Evaluator.ValueSafe | ArithmeticParser.cpp:244-258 | on an alternating stretch that ends at its starting depth, the operand resolves and its end lies inside the stretch |
| Evaluator.LoopSafe | ArithmeticParser.cpp:198-235 | on such a stretch the operator loop never indexes outside the list, and succeeds exactly when no prefix drops below the starting depth |
| Evaluator.RangeSafe | ArithmeticParser.cpp:183-238 | the same for `resolveTokenList` over the range |
| Evaluator.ResolveWellShaped | ArithmeticParser.cpp:183-258 | on every well-shaped token list, evaluation either succeeds or raises the unexpected-token error (never an out-of-range index), and succeeds exactly when the list is well nested |
| Syntax.SumNested | ArithmeticParser.cpp:263-285 | a printed expression never closes more parentheses than it has opened, and closes them all |
| Syntax.FactorEnd | ArithmeticParser.cpp:263-285 | the end of a printed operand is its last token: a `(` is matched by the `)` that ends the printed sum |
| Syntax.FactorEval | ArithmeticParser.cpp:244-258 | a printed operand resolves to its meaning |
| Syntax.SumEval | ArithmeticParser.cpp:183-238 | a printed sum resolves to its meaning, wherever it stands in the token list |
| Syntax.ChainEval | ArithmeticParser.cpp:198-231 | the loop folds each `*` and `/` operand into the running value from the left, then combines it with the printed tail |
| Syntax.TailEval | ArithmeticParser.cpp:211-218 | after `+` or `-` the running value is combined with the value of the whole rest of the range |
| Syntax.EvaluatesPrinted | ArithmeticParser.cpp:183-258 | evaluating the tokens of any printed expression gives its meaning |
| Syntax.MinusGroupsRight | ArithmeticParser.cpp:215-218 | `10 - 2 - 3` evaluates to 11 |
| Syntax.DivisionGroupsLeft | ArithmeticParser.cpp:227-230 | `8 / 2 / 2` evaluates to 2 |
| Parsing.Parse | ArithmeticParser.cpp:183-285 | the expression tree a token list stands for, read off with the same operand ends the evaluator uses; characterised by `ParsePrints` and `ParseOfPrint` |
| Parsing.ParseOfPrint | ArithmeticParser.cpp:183-285 | parsing the tokens of any well-formed expression gives that expression back |
| Parsing.ParsePrints | ArithmeticParser.cpp:82-285 | every well-shaped, well-nested token list, which includes every list the lexer accepts and the evaluator resolves, is the print of the well-formed expression parsed from it |
| Parsing.ResolveMeansParsed | ArithmeticParser.cpp:183-258 | on such a list, evaluation gives the meaning of the parsed expression, and the corrected evaluation its conventional meaning |
| Parsing.LexedMeaning | ArithmeticParser.cpp:82-258 | for every expression the lexer accepts and that is well nested, its tokens print back from the parsed tree, and evaluation gives that tree's meaning as written and its conventional meaning when corrected |
| Grouping.IntendedLoop | ArithmeticParser.cpp:198-235 | the operator loop with `+` and `-` applied to the next product only: a pending sum and the product being built; characterised by `Grouping.IntendedMeansPrinted` |
| Grouping.IntendedResolve | ArithmeticParser.cpp:183-238 | `resolveTokenList` with that loop; characterised by `Grouping.IntendedMeansPrinted` and `Parsing.ResolveMeansParsed` |
| Grouping.IntendedMeansPrinted | ArithmeticParser.cpp:208-218 | with `+` and `-` applied to the next product only, evaluating any printed expression gives its conventional left-to-right meaning |
| Grouping.MinusGroupsLeft | ArithmeticParser.cpp:215-218 | `10 - 2 - 3` is 5 with the corrected loop and 11 as written |
| ArithmeticParser.CheckInfinite | ArithmeticParser.cpp:71-76 | the final check: an infinite value makes the outcome invalid with the infinite-result message, and nothing else changes |
| ArithmeticParser.Evaluate | ArithmeticParser.cpp:43-77 | `evaluateExpression` from the value and tokens held before; characterised by `EvaluateConsistent`, `ValidExactly`, `RaisedExactly` and the lemmas after them, and computed by `Expression.EvaluateExpression` |
| ArithmeticParser.Expression.Empty | ArithmeticParser.cpp:10 | the default constructor evaluates the empty expression from the initial state |
| ArithmeticParser.Expression.constructor | ArithmeticParser.cpp:12-14 | the expression is stored and the fields become what `Evaluate` gives from the initial state |
| ArithmeticParser.Expression.SetExpression | ArithmeticParser.cpp:22-25 | the expression is replaced; the fields become what `Evaluate` gives from the previous value and tokens; a rethrown logic error is returned |
| ArithmeticParser.Expression.GetExpression | ArithmeticParser.cpp:29 | the result is the expression held |
| ArithmeticParser.Expression.IsValid | ArithmeticParser.cpp:31 | the object is valid exactly when no message is held, and a valid value is never infinite |
| ArithmeticParser.Expression.GetErrorMessage | ArithmeticParser.cpp:33 | the message is one of the fixed messages, and empty exactly when the object is valid |
| ArithmeticParser.Expression.GetValue | ArithmeticParser.cpp:35-36 | the value of a valid object is never infinite |
| ArithmeticParser.Expression.EvaluateExpression | ArithmeticParser.cpp:43-77 | value, tokens, validity and message become what `Evaluate` gives, and a logic error is returned exactly when it does |
| ArithmeticParser.Expression.CreateTokenList | ArithmeticParser.cpp:82-178 | the tokens become those `Lex` yields; the invalid-operator error is raised exactly when `Lex` stops there, leaving flag and message alone; otherwise the object is valid exactly when `Lex` accepts, with this outcome's message |
| ArithmeticParser.Expression.FindOpenParenCase | ArithmeticParser.cpp:98-115 | an open-paren lexeme is consumed and its tokens queued, keeping the run on course to the same result; otherwise the state moves to FIND_VALUE with nothing changed |
| ArithmeticParser.Expression.FindValueCase | ArithmeticParser.cpp:117-129 | a value lexeme is consumed and its token queued; otherwise the run ends with the value-not-found message and the tokens queued so far |
| ArithmeticParser.Expression.FindCloseParenCase | ArithmeticParser.cpp:131-141 | a `)` is consumed and queued; otherwise the state moves to FIND_OPERATOR with nothing changed |
| ArithmeticParser.Expression.FindOperatorCase | ArithmeticParser.cpp:143-153 | an operator lexeme is consumed and its token queued; otherwise OPERATOR_NOT_FOUND follows; a raised error is exactly the case where `Lex` stops at an invalid operator |
| ArithmeticParser.Expression.OperatorNotFoundCase | ArithmeticParser.cpp:155-175 | the tokens are final; the object is valid exactly when only white space remains and the parentheses balance; the message says which case holds |
| ArithmeticParser.Expression.ResolveTokenList | ArithmeticParser.cpp:183-238 | the loop computes `Resolve` over the range, including its logic error |
| ArithmeticParser.Expression.ResolveValueAtPos | ArithmeticParser.cpp:244-258 | the result is `ResolveValue` at the position |
| ArithmeticParser.Expression.GetSubExpressionEndPos | ArithmeticParser.cpp:263-285 | the scanning loop computes `SubExpressionEnd` |
| ArithmeticParser.EvaluateConsistent | ArithmeticParser.cpp:43-77 | every outcome is valid exactly when its message is empty, never valid with an infinite value, and holds one of the fixed messages |
| ArithmeticParser.ValidExactly | ArithmeticParser.cpp:43-77 | an outcome is valid exactly when the expression is non-empty, lexed, well nested and not infinite; then it holds the lexed tokens, which print back from their parsed tree, and that tree's meaning |
| ArithmeticParser.RaisedExactly | ArithmeticParser.cpp:59-69 | a logic error escapes exactly when the lexer accepts but a `)` comes before its `(`; the token list is then cleared and the old value kept (contains reading, see Left out) |
| ArithmeticParser.LexErrorReported | ArithmeticParser.cpp:48-57 | a lexer rejection keeps the old value and the tokens queued so far, and reports the lexer's message, unless the old value is infinite |
| ArithmeticParser.ResolvedReported | ArithmeticParser.cpp:59-76 | an accepted expression whose tokens resolve to `v` holds `v` and its tokens, and is valid unless `v` is infinite |
| ArithmeticParser.UnbalancedReported | ArithmeticParser.cpp:159-168 | for an input lexed to its end, with a finite value held before, the unbalanced-parentheses message appears exactly when the `(` and `)` counts differ |
| ArithmeticParser.EmptyRejected | ArithmeticParser.cpp:45-47 | the empty expression is invalid and leaves value and tokens as they were |
| ArithmeticParser.BlankIsMissingValue | ArithmeticParser.cpp:117-129 | a non-empty expression of white space only reports a missing value and no tokens, when the value held before is finite |
| ArithmeticParser.EvaluateIdempotent | ArithmeticParser.cpp:43-77 | setting the same expression again reproduces the same outcome |
| ArithmeticParser.HistoryOnlyThroughInfinity | ArithmeticParser.cpp:71-76 | validity and a raised error do not depend on the previous state; the message depends on it only when the previous value is infinite |
| ArithmeticParser.IntendedEvaluate | ArithmeticParser.cpp:43-77 | `evaluateExpression` with the infinity check applied only to a value computed now; characterised by `IntendedReportsCurrent` and `IntendedAgrees` |
| ArithmeticParser.IntendedReportsCurrent | ArithmeticParser.cpp:71-76 | with the infinity check applied to the current result only, validity, message and raised error do not depend on the previous state, and the empty expression gets its own message |
| ArithmeticParser.IntendedAgrees | ArithmeticParser.cpp:43-77 | the corrected driver satisfies the same consistency, and agrees with the driver as written whenever the previous value is not infinite |
| ArithmeticParser.StaleInfinity | ArithmeticParser.cpp:45-47 | as written, the empty expression after an infinite value reports an infinite result; corrected, it reports the empty expression |
| AsWritten.DotStarMatch | ArithmeticParser.h:21-24 | `regex_match` of `.*c.*`: the string contains `c` and no line terminator |
| AsWritten.OpTokenFromStringAsWritten | ArithmeticParser.cpp:287-298 | an operator is found only in a lexeme without a line terminator |
| AsWritten.OpenParenTokensAsWritten | ArithmeticParser.cpp:105-109 | the tokens queued for an open paren always end with `(` |
| AsWritten.AgreeWithoutLineTerminators | ArithmeticParser.h:21-24 | without `\n` or `\r` in the lexeme, the patterns as written and as intended give the same tokens |
| AsWritten.NewlineBeforeOperator | ArithmeticParser.cpp:146-147 | `"\n-2"` after a value is an operator lexeme, yet as written it names no operator (the logic error), and as intended it names subtraction |
| AsWritten.NewlineBeforeNegatedParen | ArithmeticParser.cpp:101-109 | for `"\n-(2)"` the `-` is dropped as written, and kept as `-1 *` as intended |
| Examples.FourPointOne | ArithmeticParser.cpp:121 | the lexeme `" 4.1"` converts to 4.1 |
| Examples.TwoPointZero | ArithmeticParser.cpp:121 | the lexeme `2.0` converts to 2 |
| Examples.SevenPointEight | ArithmeticParser.cpp:121 | the lexeme `7.8` converts to 7.8 |
| Examples.LexLoneSign | TEST_ArithmeticParser.cpp:50-54 | `+` is neither an open paren nor a value: no tokens, missing value |
| Examples.LexLoneClose | TEST_ArithmeticParser.cpp:56-60 | `)` gives no tokens and a missing value |
| Examples.LexFive | TEST_ArithmeticParser.cpp:18-25 | `5` lexes to one value token |
| Examples.LexTwoTimesNegThree | TEST_ArithmeticParser.cpp:36-45 | `2 * -3` lexes to a value, `*` and the signed value -3 |
| Examples.LexFeatured | TEST_ArithmeticParser.cpp:27-34 | the featured expression lexes to its 19 tokens, with `-(` as `-1 * (` |
| Examples.LexSixOverZero | TEST_ArithmeticParser.cpp:134-138 | `6 / 0` lexes to three tokens |
| Examples.LexNegatedParen | ArithmeticParser.cpp:102-108 | `2 / -(4)` lexes to `2 / -1 * ( 4 )` |
| Examples.LexEmptyParens | TEST_ArithmeticParser.cpp:62-66 | `()` stops after `(` with a missing value |
| Examples.LexMissingOperand | TEST_ArithmeticParser.cpp:68-72 | `6 + * 5` stops after `6 +` with a missing value |
| Examples.LexOperandBeforeClose | TEST_ArithmeticParser.cpp:92-96 | `(3 + )` stops after `( 3 +` with a missing value |
| Examples.LexMissingOperator | TEST_ArithmeticParser.cpp:74-78 | `7 + 8 9` stops with a missing operator after `8` |
| Examples.LexRepeatedPoint | TEST_ArithmeticParser.cpp:80-84 | `7.8.9` takes the value 7.8 and stops with a missing operator |
| Examples.LexValueBeforeParen | TEST_ArithmeticParser.cpp:86-90 | `4(3 + 2)` takes the value 4 and stops with a missing operator |
| Examples.LexUnclosed | TEST_ArithmeticParser.cpp:111-115 | `(1 + 1` is read to its end and reported unbalanced |
| Examples.LexUnopened | TEST_ArithmeticParser.cpp:117-121 | `1 + 1)` is read to its end and reported unbalanced |
| Examples.LexDoubledOpen | TEST_ArithmeticParser.cpp:99-103 | `((1 + 1)` is read to its end and reported unbalanced |
| Examples.LexDoubledClose | TEST_ArithmeticParser.cpp:105-109 | `(1 + 1))` is read to its end and reported unbalanced |
| Examples.LexCloseBeforeOpen | ArithmeticParser.cpp:155-168 | `(1)) + (1` is accepted by the lexer, whose counts balance |
| Examples.FeaturedPrinted | TEST_ArithmeticParser.cpp:27-34 | the syntax tree of the featured expression prints to the tokens the lexer yields |
| Examples.FeaturedValue | TEST_ArithmeticParser.cpp:27-34 | the featured expression means -13 |
| Examples.NegatedParenPrinted | ArithmeticParser.cpp:102-108 | the tree of `(2 / -1) * (4)` prints to the tokens of `2 / -(4)` |
| Examples.NegatedParenValue | ArithmeticParser.cpp:223-230 | that tree means -8 |
| Examples.EvaluateFive | TEST_ArithmeticParser.cpp:18-25 | `5` is valid, with value 5 and no message |
| Examples.EvaluateTwoTimesNegThree | TEST_ArithmeticParser.cpp:36-45 | `2 * -3` is valid with value -6, whatever was evaluated before |
| Examples.EvaluateFeatured | TEST_ArithmeticParser.cpp:27-34 | `-(-2 + 4.1) * 6 + (2.0 / +(-3 - 2))` is valid with value -13 |
| Examples.EvaluateSixOverZero | TEST_ArithmeticParser.cpp:134-138 | `6 / 0` is infinite and reported as such |
| Examples.EvaluateNegatedParen | ArithmeticParser.cpp:102-108 | `2 / -(4)` is valid with value -8 |
| Examples.EvaluateMissingValues | TEST_ArithmeticParser.cpp:50-72 | `+`, `)`, `()` and `6 + * 5` report a missing value, keeping the tokens queued so far and the value held before |
| Examples.EvaluateOperandBeforeClose | TEST_ArithmeticParser.cpp:92-96 | `(3 + )` reports a missing value |
| Examples.EvaluateMissingOperators | TEST_ArithmeticParser.cpp:74-90 | `7 + 8 9`, `7.8.9` and `4(3 + 2)` report a missing operator |
| Examples.EvaluateDoubledParens | TEST_ArithmeticParser.cpp:98-109 | `((1 + 1)` and `(1 + 1))` report unbalanced parentheses |
| Examples.EvaluateUnbalanced | TEST_ArithmeticParser.cpp:111-121 | `(1 + 1` and `1 + 1)` report unbalanced parentheses |
| Examples.EvaluateCloseBeforeOpen | ArithmeticParser.cpp:233 | `(1)) + (1` makes the evaluator raise the unexpected-token error, which escapes with the token list cleared |
| Examples.EmptyAfterDivisionByZero | ArithmeticParser.cpp:71-76 | after `6 / 0`, the empty expression reports an infinite result as written, and the empty expression when corrected |

## Left out

- Floating point: values are exact reals. Rounding, overflow to infinity, subnormals and the sign of zero are not modelled. The special values keep their IEEE rules.
- The sign of zero changes validity: the lexer accepts `-0`, so `1/0 + 1/-0` is infinity plus negative infinity, NaN, and valid in the source; in the model `-0` is 0, the sum is positive infinity and the expression is reported infinite.
- Overflow in arithmetic: the test at TEST_ArithmeticParser.cpp:128-132 multiplies a `1` followed by 308 zeros, that is 10^308 and still within the `double` range, by 2. The product overflows at ArithmeticParser.cpp:223-230, and the check at ArithmeticParser.cpp:73 then reports an infinite result. The model has no overflow, so it gives the valid finite value 2 times 10^308 where that test expects an infinite result.
- `std::stod` range errors: a literal above the largest `double` (about 1.8 times 10^308) or one so small that it underflows makes `std::stod` throw `out_of_range`; `evaluateExpression` (ArithmeticParser.cpp:49-56) then clears the tokens, records the exception's text and rethrows. The model has no range, so the literal stays finite and this exception is not modelled.
- `std::stod` is modelled as the exact decimal value of the lexeme (`Patterns.LexemeValue`).
- Memory management: the `new` of each token, `clearTokenList`'s `delete` and the destructor. The token list is a sequence of values, which `clearTokenList` empties.
- Exceptions: a rethrown `std::logic_error` is returned as its message (`Option<string>`). Constructors cannot return it, so `Expression.Empty` and `Expression.constructor` do not report it, though the fields record it.
- The uninitialised `_value` of a new object is modelled as 0, so the first infinity check of a new object sees a finite value.
- Indexing outside the token list is undefined behaviour in the source. The specification functions return `OutOfRange` there, and `Evaluator.ResolveWellShaped` shows it never happens on lexer output.
- `regex_search` and `regex_match` are hand-written matchers over the classic-locale `\s`.
- `Lexer.OpTokenFromString`, `Lexer.OpenParenTokens`, `Lexer.NoInvalidOperator`, `ArithmeticParser.RaisedExactly`: the `.*c.*` tests are read as "contains c", as intended; `AsWritten` reads them as the regex engine does, where a line terminator defeats them. The class uses the intended reading. So `Lexer.NoInvalidOperator` and `ArithmeticParser.RaisedExactly` hold for the intended reading only: as written, a `\n` or `\r` before an operator raises the invalid-operator error (`AsWritten.NewlineBeforeOperator`).
- After a lexer error the tokens queued so far stay in the token list, as in the code (only a logic error clears it).
- The `switch` of `createTokenList` is a loop whose cases are methods of the class (`FindOpenParenCase` and the others). Each case keeps the loop invariant.
- `Expression.constructor`, `Expression.Empty`, `Expression.SetExpression`, `Expression.EvaluateExpression`, `Expression.CreateTokenList`: the class follows the source as written, both for the stale infinity check and for right-grouped `+` and `-`. The corrections live beside the class (`IntendedEvaluate`, `Grouping`).

## Findings

| source | as written | input that shows it | evidently intended | confidence | as-written member | corrected member |
|---|---|---|---|---|---|---|
| ArithmeticParser.cpp:288-295 | `minus`, `plus`, `times` and `divide` use `.`, which matches no line terminator; `operator` accepts `\n` and `\r` through `\s*` | in `"1\n-2"` the operator lexeme `\n-` names no operator, so the invalid-operator logic error is raised | the lexeme contains the operator character | not executed | AsWritten.NewlineBeforeOperator | Lexer.OperatorLexemeMaps |
| ArithmeticParser.cpp:105-108 | the same `.` in the `minus` test of an open-paren lexeme | `"\n-(2)"` queues only `(`, so its sign is lost | the sign is kept as `-1 *` | not executed | AsWritten.NewlineBeforeNegatedParen | Lexer.OpenParenFold |
| ArithmeticParser.cpp:73-76 | the infinity check reads `_value` even when this evaluation did not set it | `"6 / 0"` then `""` reports an infinite result | check only a value computed now: "no expression was provided" | not executed | ArithmeticParser.StaleInfinity | ArithmeticParser.IntendedReportsCurrent |
| ArithmeticParser.cpp:211-218 | after `+` or `-` the whole rest of the range is resolved first, so differences group to the right | `"10 - 2 - 3"` gives 11 | the conventional left-to-right reading, as the comment's appeal to associativity expects: 5 | not executed | Syntax.MinusGroupsRight | Parsing.LexedMeaning |
