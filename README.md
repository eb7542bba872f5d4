# A verified model of a recursive-descent calculator

The calculator takes one line of text, such as `3 - (2 - 1)` or
`fac(fac(3))`, and computes its value in two stages.

- **The tokenizer** (`src/tokenizer.rs`) first deletes every whitespace
  character, then scans what is left from left to right:
  - a maximal run of digits and `.` that starts with a digit becomes a
    number;
  - a maximal run of letters must be `sqrt`, `abs` or `fac`;
  - each of `+ - * / ( ) % ^` is its own token;
  - any other character becomes the token `EOF`.
- **The parser** (`src/parser.rs`) is a recursive-descent evaluator over a
  cursor object `Tokens`, which holds the token vector and an index.
  - `peek` returns the token under the cursor, or `EOF` past the end.
  - `eat` moves the cursor one step.
  - Five mutually recursive levels compute the value while they parse. From
    loosest to tightest they are `expr` (`+ -`), `modulo` (`%`), `term`
    (`* /`), `power` (`^`) and `factor`.
  - `factor` handles a number, unary `-`, a parenthesised expression, and
    `sqrt`/`abs`/`fac` applied to a parenthesised operand.
  - Each binary level is a `while` loop over its operators, so every level,
    `^` included, is left-associative.
  - `parse` runs `expr` from the first token and ignores whatever is left.

The Dafny project keeps both stages in their imperative form.

- `Tokenizer.Tokenize` is a loop over the characters that grows the token
  sequence. Its sub-loop `TakeRun` builds one run.
- `Parser.Tokens` is a class whose `Eat` updates the `current` field.
  `Parser.Expr` … `Parser.Factor` are recursive methods with one `while`
  loop per level, sharing one cursor.

Each method is proved equal to a functional specification of the same
operation:

- `Tokenized`/`Lex` for the tokenizer;
- `ParseExpr` … `ParseFactor`, over a token sequence and a position, for
  the parser.

The properties are proved on those functions. The central ones are:

- **Whitespace does not matter.** `tokenize` of a text equals `tokenize`
  of the text with its whitespace deleted.
- **Printed tokens tokenize back, under two conditions.** Write each
  token's spelling and put any whitespace between the spellings; the
  tokenizer then returns exactly those tokens (`Rendering.TokenizeLayout`).
  This needs two conditions:
  - every token has a spelling: no `EOF` and no negative number
    (`Rendering.AllPrintable`);
  - no two numbers and no two function names stand next to each other
    (`Rendering.Separated`).
  The second condition is needed because whitespace is deleted before
  scanning: `1 2` tokenizes to the one number 12 (`MainTests.SpacedDigitsJoin`)
  and `s qrt` to `SQRT` (`MainTests.SpacedLettersJoin`).
- **The parser meets a reference semantics.** Expressions are written as
  trees (`Grammar.Ast`), with an independent evaluator `Grammar.Eval`.
  - A tree's node `Group` stands for parentheses written in the input, so
    every parenthesisation is a tree, redundant pairs included.
  - `Grammar.Emit` prints a tree. It prints the parentheses of each `Group`,
    plus the ones that the precedence and the left-associativity of the
    grammar require.
  - Parsing that printout yields the tree's value, or the tree's arithmetic
    error (`Grammar.ParsePrinted`).
- **The whole pipeline meets the same semantics.** `Calculator.EvaluatePrinted`
  combines the two results above, for every tree whose literals are
  non-negative. It covers the text in that printed form (`Calculator.Show`):
  no whitespace, numerals without leading zeros, nothing after the
  expression. `Calculator.EvaluateIgnoresWhitespace` extends it to the
  same text with any whitespace added. For other inputs, such as `07` or
  an expression followed by trailing tokens, the two stages' results apply
  separately: `Tokenizer.Tokenized` gives the tokens, and
  `Grammar.ParsePrinted` applies whenever those are a printed tree followed
  by tokens that are not operators.
  - `MainTests.ComplexExpressionValue` applies `Grammar.ParsePrinted` to
    the tokens of the `complex_expression` test, which uses redundant
    parentheses, and obtains its value 941.

Numbers are integers. The parser computes with Rust's `i32`: `/` and `%`
truncate toward zero, and the model writes that out (`Arith.TruncDiv`,
`Arith.TruncRem`). Every failure is an error value where Rust would panic:

- a malformed literal;
- an unknown word;
- a missing parenthesis;
- a token that cannot start a factor;
- division or remainder by zero.

A negative exponent is an error value too, although Rust does not
necessarily panic there (see `Parser.PowerLoop` under "Left out").

The modules are:

- `Results`: Option and Result.
- `Arith`: the integer operations and their Rust semantics.
- `Tokenizer`: `src/tokenizer.rs`.
- `Parser`: `src/parser.rs`.
- `Grammar`: trees, the reference evaluator, and the parser's agreement
  with it.
- `Rendering`: spelling tokens back to text.
- `Calculator`: `eval` in `src/main.rs`.
- `MainTests`: the test inputs of `src/main.rs` and further corner cases.

## Model

| member | source | states |
|---|---|---|
| Tokenizer.Strip | src/tokenizer.rs:21 | the filtered text is no longer than the input |
| Tokenizer.StripRemovesWhitespace | src/tokenizer.rs:21 | no character of the filtered text is whitespace |
| Tokenizer.StripConcat | src/tokenizer.rs:21 | the filter works character by character: filtering a concatenation concatenates the filtered parts |
| Tokenizer.StripAllWhitespace | src/tokenizer.rs:21 | a text made only of whitespace filters to nothing |
| Tokenizer.StripNoWhitespace | src/tokenizer.rs:21 | a text without whitespace passes the filter unchanged |
| Tokenizer.IsWhitespace | src/tokenizer.rs:21 | space, tab, line feed and carriage return are whitespace |
| Tokenizer.IsDigit | src/tokenizer.rs:26 | `is_digit(10)`: the ten characters `0` to `9`; its disjointness from letters and whitespace is `Tokenizer.CharClassesDisjoint` |
| Tokenizer.IsAlphabetic | src/tokenizer.rs:41 | `is_alphabetic`, on ASCII letters only (see "Left out"); its disjointness from digits and whitespace is `Tokenizer.CharClassesDisjoint` |
| Tokenizer.CharClassesDisjoint | src/tokenizer.rs:26-41 | whitespace, digits and letters are disjoint, so the first character selects exactly one branch of the scan |
| Tokenizer.Literal | src/tokenizer.rs:39 | the conversion of a run succeeds exactly when every character is a digit, gives a non-negative value, and otherwise fails naming the run |
| Tokenizer.Span | src/tokenizer.rs:28-37 | the length of the maximal prefix of a run: every character before it is in the run and the one at it is not (or the text ends) |
| Tokenizer.Keyword | src/tokenizer.rs:54-59 | a word names a function exactly when it is `sqrt`, `abs` or `fac`, and the function's spelling is that word |
| Tokenizer.Symbol | src/tokenizer.rs:63-73 | a character gives a token other than `EOF` exactly when it is one of `+ - * / ( ) % ^`, and that token is spelt as the character |
| Tokenizer.Lex | src/tokenizer.rs:23-79 | the scan of filtered text; on success it yields at most one token per character |
| Tokenizer.TakeRun | src/tokenizer.rs:27-37 | the inner loop collects exactly the maximal run from the start index and stops at the first character outside it |
| Tokenizer.LexNumberRun | src/tokenizer.rs:26-40 | one step of the scan at a digit: the whole number run becomes one `Num` token with the next token starting right after it, or the scan stops with the run's conversion error |
| Tokenizer.LexWordRun | src/tokenizer.rs:41-61 | one step at a letter: the maximal letter run becomes its function token, or the scan stops with an unknown-operation error |
| Tokenizer.LexSymbolChar | src/tokenizer.rs:62-77 | one step at any other character: it becomes its symbol token (or `EOF`) and exactly one character is consumed |
| Tokenizer.Tokenized | src/tokenizer.rs:19-82 | `tokenize` is the scan of the filtered text; a successful result has no more tokens than the filtered text has characters, which are no more than the input's |
| Tokenizer.Tokenize | src/tokenizer.rs:19-82 | the imperative tokenizer returns exactly the tokens, or the error, of the functional specification |
| Tokenizer.TokenizedStripped | src/tokenizer.rs:21 | tokenizing the text with its whitespace deleted gives the same result as tokenizing the text |
| Tokenizer.WhitespaceIgnored | src/tokenizer.rs:21 | inserting whitespace anywhere does not change the result |
| Tokenizer.LexOtherChar | src/tokenizer.rs:62-77 | a character that is neither a digit nor a letter emits its symbol, which is `EOF` exactly when it is not an operator or a parenthesis, and scanning continues at the next character |
| Tokenizer.LexNumber | src/tokenizer.rs:26-40 | a maximal number run followed by the rest becomes its decimal value then the tokens of the rest, or fails with the malformed-literal error when it contains `.` |
| Tokenizer.LexWord | src/tokenizer.rs:41-61 | a maximal letter run followed by the rest becomes `SQRT`, `ABS` or `FAC` then the tokens of the rest, and any other word aborts with an unknown-operation error |
| Tokenizer.TokenizeWord | src/tokenizer.rs:41-61 | an input that is one word tokenizes to its function token or to the unknown-operation error |
| Tokenizer.TokenizeNumberRun | src/tokenizer.rs:26-40 | an input that is one number run tokenizes to one number, or to the malformed-literal error that only the conversion raises |
| Tokenizer.LexSpelling | src/tokenizer.rs:54-73 | the spelling of each operator, parenthesis and function name scans to exactly that token |
| Tokenizer.LexConcat | src/tokenizer.rs:19-82 | tokens come out in the order of the text: scanning two texts that do not merge at their boundary is scanning each and concatenating the results (the first error wins) |
| Tokenizer.SpanConcat | src/tokenizer.rs:28-37 | a run that ends before the boundary is not extended by the text that follows |
| Parser.PeekAt | src/parser.rs:20-26 | `peek` on a token sequence and a position: the token there, or `EOF` past the end; its contract is `Parser.PeekAtEnd` |
| Parser.PeekAtEnd | src/parser.rs:20-26 | `peek` sees `EOF` exactly past the end or on an `EOF` token, and otherwise the token under the cursor |
| Parser.ApplyFunction | src/parser.rs:137-166 | `sqrt` gives the floor square root, and 0 for a negative operand; `abs` gives the magnitude; `fac` gives n! for n >= 0, and 1 for a negative n |
| Parser.ParseExpr | src/parser.rs:29-50 | a successful `expr` consumes at least one token and stays within the tokens |
| Parser.ExprLoop | src/parser.rs:32-47 | the `+ -` loop never moves the cursor back or past the end |
| Parser.ParseModulo | src/parser.rs:52-69 | a successful `modulo` consumes at least one token and stays within the tokens |
| Parser.ModuloLoop | src/parser.rs:55-66 | the `%` loop never moves the cursor back or past the end |
| Parser.ParseTerm | src/parser.rs:71-92 | a successful `term` consumes at least one token and stays within the tokens |
| Parser.TermLoop | src/parser.rs:74-89 | the `* /` loop never moves the cursor back or past the end |
| Parser.ParsePower | src/parser.rs:94-111 | a successful `power` consumes at least one token and stays within the tokens |
| Parser.PowerLoop | src/parser.rs:97-108 | the `^` loop never moves the cursor back or past the end |
| Parser.ParseFactor | src/parser.rs:113-169 | a successful `factor` consumes at least one token, which is the termination measure of the mutual recursion |
| Parser.ParseCall | src/parser.rs:137-166 | a successful call consumes its name, a `(`, an operand of at least one token and a `)`: at least four tokens, with `(` right after the name and `)` as the last token consumed |
| Parser.ParseTokens | src/parser.rs:171-174 | `parse` succeeds only on a non-empty token sequence, with the value of `expr` from the first token, and otherwise fails with the error of `expr` |
| Parser.Tokens.constructor | src/parser.rs:9-14 | a new cursor holds the tokens and points at the first one |
| Parser.Tokens.Eat | src/parser.rs:16-18 | `eat` advances the cursor by exactly one and changes nothing else |
| Parser.Tokens.Peek | src/parser.rs:20-26 | `peek` returns the token under the cursor, or `EOF` at or past the end, and changes nothing |
| Parser.Expr | src/parser.rs:29-50 | the imperative `expr` returns the value or error of `ParseExpr` and leaves the cursor where `ParseExpr` ends, never past the tokens |
| Parser.Modulo | src/parser.rs:52-69 | the imperative `modulo` agrees with `ParseModulo` in value and cursor |
| Parser.Term | src/parser.rs:71-92 | the imperative `term` agrees with `ParseTerm` in value and cursor |
| Parser.Power | src/parser.rs:94-111 | the imperative `power` agrees with `ParsePower` in value and cursor |
| Parser.Factor | src/parser.rs:113-169 | the imperative `factor` agrees with `ParseFactor` in value and cursor |
| Parser.Call | src/parser.rs:137-166 | the `sqrt`/`abs`/`fac` branches agree with `ParseCall` in value and cursor |
| Parser.Parse | src/parser.rs:171-174 | `parse` returns what `expr` computes from the first token |
| Arith.Abs | src/parser.rs:155 | the magnitude is non-negative and equals the number or its negation |
| Arith.Quotient | src/parser.rs:83 | the quotient of naturals is the largest m with y * m <= x |
| Arith.TruncDiv | src/parser.rs:83 | `/` on integers truncates toward zero: the magnitude is the quotient of the magnitudes, and the sign is the product of the signs |
| Arith.TruncRem | src/parser.rs:60 | `%` is the remainder of the truncating division: smaller in magnitude than the divisor and with the sign of the dividend |
| Arith.Pow | src/parser.rs:102 | a power is 0 exactly when the base is 0 and the exponent is positive; it is negative exactly for a negative base and an odd exponent |
| Arith.PowAdd | src/parser.rs:102 | exponents add under multiplication |
| Arith.PowPow | src/parser.rs:102 | raising a power multiplies the exponents, which gives the value of a chain of `^` |
| Arith.FloorSqrt | src/parser.rs:145 | the largest r with r * r <= n |
| Arith.SqrtToInt | src/parser.rs:145 | the root converted back to an integer: 0 for a negative operand, otherwise the floor of the square root |
| Arith.Factorial | src/parser.rs:165 | the factorial is at least 1 |
| Arith.RangeProduct | src/parser.rs:165 | the product over an empty range is 1, a range of positive numbers gives at least 1, and a range through 0 gives 0 |
| Arith.RangeProductSplit | src/parser.rs:165 | a product over 2..=n splits off its last factor |
| Arith.FacIsFactorial | src/parser.rs:165 | the product over 2..=n is n! for n >= 0 and 1 for a negative n |
| Grammar.Descend | src/parser.rs:29-111 | proof step used by `Grammar.ParseEmitted`: each binary level first parses one operand at the next level, then runs its loop from there; an operand error is the level's error |
| Grammar.LoopStops | src/parser.rs:33 | proof step used by `Grammar.ParseEmitted`: a level's loop stops, with its value and cursor unchanged, at any token that is not one of its operators |
| Grammar.LoopStep | src/parser.rs:33-46 | proof step used by `Grammar.ParseEmitted`: one loop turn: after an operator, the operand at the next level is combined with the accumulated value, left to right, or its error or the arithmetic error ends the level |
| Grammar.ParseEmitted | src/parser.rs:29-169 | parsing a printed tree at any level, when the printout is followed by no tighter operator, reaches the end of the printout with the tree's reference value and continues the level's loop from there (so it stops there unless an operator of that level follows), or fails with the tree's error |
| Grammar.ParseEmittedNeg | src/parser.rs:120-125 | a printed negation is parsed as unary minus applied to the factor's value, with the cursor right after the printout, or fails with the operand's error |
| Grammar.ParseEmittedCall | src/parser.rs:137-166 | a printed `sqrt`, `abs` or `fac` call is parsed to the function of its parenthesised operand's value, with the cursor right after the `)`, or fails with the operand's error |
| Grammar.ParseEmittedGroup | src/parser.rs:126-136 | a parenthesised subexpression is parsed to the value (or error) of the inside, and the cursor stops right after the `)` |
| Grammar.ParsePrinted | src/parser.rs:171-174 | `parse` of a printed tree followed by anything that is not an operator gives the tree's reference value or error, so trailing tokens are ignored |
| Grammar.ParsePrintedAlone | src/parser.rs:171-174 | `parse` of a printed tree alone gives the tree's reference value or error |
| Grammar.SubLeftAssociative | src/parser.rs:29-50 | `a - b - c` is `(a - b) - c` |
| Grammar.DivLeftAssociative | src/parser.rs:71-92 | `a / b / c` is `(a / b) / c` with truncating division, and a zero divisor is a division-by-zero error |
| Grammar.PowLeftAssociative | src/parser.rs:94-111 | `a ^ b ^ c` is `(a ^ b) ^ c`, that is `a ^ (b * c)` |
| Grammar.MulBeforeAdd | src/parser.rs:29-92 | `*` binds tighter than `+` on either side |
| Grammar.ModBetweenAddAndMul | src/parser.rs:29-92 | `%` binds tighter than `+` and looser than `*` on either side: `a + b % c`, `a % b + c`, `a * b % c` and `a % b * c` |
| Grammar.RemBeforeAdd | src/parser.rs:29-69 | `a % b + c` is `(a % b) + c` |
| Grammar.NegBeforePow | src/parser.rs:94-125 | unary minus belongs to the factor, so `-a ^ b` is `(-a) ^ b` |
| Grammar.FactorFailurePropagates | src/parser.rs:29-169 | when the first factor fails, every level fails with that same error |
| Grammar.NoOperand | src/parser.rs:167 | an input that cannot start a factor, including the empty input, fails naming the token found (`EOF` past the end) |
| Grammar.CallWithoutParenthesis | src/parser.rs:137-162 | a function name not followed by `(` fails naming the token found |
| Grammar.UnclosedParenthesis | src/parser.rs:126-132 | a parenthesised expression not followed by `)` fails naming the token found, unless evaluating the inside failed first |
| Rendering.DigitChar | src/tokenizer.rs:26 | the digit character of a value below ten is a digit with that value |
| Rendering.DecimalString | src/tokenizer.rs:39 | a decimal numeral whose conversion gives back the number |
| Rendering.SpellChars | src/tokenizer.rs:26-77 | a spelling is non-empty and made of the characters of its token's branch of the scan |
| Rendering.SpellLexes | src/tokenizer.rs:19-82 | the spelling of any token except `EOF` and negative numbers scans to exactly that token |
| Rendering.TextChars | src/tokenizer.rs:21 | printed text has no whitespace, and it starts with a character of its first token's branch |
| Rendering.TextLexes | src/tokenizer.rs:19-82 | printing tokens with no two numbers and no two names adjacent, then scanning, gives the tokens back |
| Rendering.TokenizeText | src/tokenizer.rs:19-82 | `tokenize` of such printed tokens returns them |
| Rendering.StripPiece | src/tokenizer.rs:21 | filtering removes a whitespace gap in front of a word that has none |
| Rendering.LayoutStrips | src/tokenizer.rs:21 | tokens laid out with whitespace gaps filter to the gap-free text |
| Rendering.TokenizeLayout | src/tokenizer.rs:19-82 | the round trip: tokens with no `EOF` or negative number, and no two numbers or function names adjacent, printed with any whitespace in between, tokenize back to the same tokens |
| Calculator.Evaluate | src/main.rs:7-10 | `eval` succeeds only when the filtered text is non-empty and tokenizes, with the value `parse` gives; a tokenizer error is returned first, then a parser error |
| Calculator.EvaluateText | src/main.rs:7-10 | `eval` tokenizes and then parses, and it fails with the first stage's error |
| Calculator.EvaluateIgnoresWhitespace | src/main.rs:7-10 | the value of an input does not depend on its whitespace |
| Calculator.EvaluateDropsWhitespace | src/main.rs:7-10 | inserting whitespace anywhere does not change the value |
| Calculator.EmitSpellable | src/tokenizer.rs:19-82 | a printed tree with non-negative literals has a spelling, and no two numbers or names stand next to each other |
| Calculator.EvaluatePrinted | src/main.rs:7-10 | `eval` of the text of any tree with non-negative literals is the tree's reference value or the tree's error |
| MainTests.BasicAddition | src/main.rs:40-43 | `2 + 2` is 4, from the text |
| MainTests.BasicFactorial | src/main.rs:95-98 | `fac(5)` is 120, from the text |
| MainTests.LexStops | src/main.rs:7-10 | an input that `tokenize` rejects fails in `eval` with that same error |
| MainTests.FactorialOfFractionTokens | src/tokenizer.rs:26-40 | `tokenize` of `fac(3.1)` fails converting `3.1` |
| MainTests.FactorialOfFraction | src/main.rs:178-182 | `fac(3.1)` fails in the literal conversion |
| MainTests.SpacedDigitsJoin | src/tokenizer.rs:21 | `1 2` is one number, 12 |
| MainTests.SpacedLettersJoin | src/tokenizer.rs:21 | `s qrt` is `SQRT` |
| MainTests.RunTogetherNames | src/tokenizer.rs:41-59 | `sqrtabs` is one word and is rejected |
| MainTests.MisspelledName | src/tokenizer.rs:54-59 | `fact` is rejected |
| MainTests.DottedRun | src/tokenizer.rs:26-40 | `1.2.3` is scanned as one run and rejected only by its conversion |
| MainTests.LeadingDot | src/tokenizer.rs:62-77 | `.5` is `EOF` followed by 5 |
| MainTests.ChainedSubtractions | src/main.rs:55-58 | the tokens of `5 - 4 - 3 - 2` give -4 |
| MainTests.ChainedDivisions | src/main.rs:80-83 | the tokens of `10 / 5 / 2` give 1 |
| MainTests.BasicPower | src/main.rs:90-93 | the tokens of `2 ^ 3` give 8 |
| MainTests.FactorialOfFactorial | src/main.rs:100-103 | the tokens of `fac(fac(3))` give 720 |
| MainTests.ModuloAfterPlus | src/main.rs:110-113 | the tokens of `1 + 5 % 2` give 2 |
| MainTests.ModuloAfterTimes | src/main.rs:115-118 | the tokens of `2 * 3 % 4` give 2 |
| MainTests.TimesBeforePlus | src/main.rs:120-123 | the tokens of `5 + 3 * 2` give 11 |
| MainTests.Parentheses | src/main.rs:125-128 | the tokens of `3 - (2 - 1)` give 2 |
| MainTests.ExpressionNegation | src/main.rs:140-143 | the tokens of `-(1 + 3)` give -4 |
| MainTests.AbsoluteValue | src/main.rs:145-148 | the tokens of `abs(-5)` give 5 |
| MainTests.PowerChain | src/parser.rs:97-108 | `2 ^ 3 ^ 2` is `(2 ^ 3) ^ 2`, 64 |
| MainTests.NegatedBase | src/parser.rs:120-125 | `-2 ^ 2` is 4 |
| MainTests.DoubleNegation | src/parser.rs:120-125 | `- - 5` is 5 |
| MainTests.TrailingTokens | src/parser.rs:171-174 | tokens after a complete expression are ignored |
| MainTests.EmptyInput | src/parser.rs:167 | no tokens is the error "did not expect `EOF`" |
| MainTests.MissingRightParenthesis | src/parser.rs:129-132 | `(1 + 2` fails, expecting `)` and finding `EOF` |
| MainTests.MissingLeftParenthesis | src/parser.rs:159-162 | `fac 5` fails, expecting `(` and finding 5 |
| MainTests.DivideByZero | src/parser.rs:81-84 | `5 / 0` is a division-by-zero error |
| MainTests.ComplexExpressionValue | src/main.rs:165-171 | the tokens of `sqrt(1) * ((fac(3) + (15 * (abs(8^2 - fac(2))) + 3^2) - ((1 + 2) * (3 + 4) / (1 + 2))) - (-5 + 2))` give 941 |

## Left out

- The number type. In `src/tokenizer.rs:4` a number token holds an `f64`, and `eval` in `src/main.rs:7` returns `f64`. The parser is `i32` throughout (`src/parser.rs:29`, `src/parser.rs:113-118`), so the files disagree. The model follows the parser: a number token holds an integer, and a number run that contains `.` is a malformed literal, which is the failing `unwrap` at `src/tokenizer.rs:39`.
  - This leaves out the floating-point reading of literals such as `2.4`, and the test `operations_with_floats` (`src/main.rs:173-176`).
  - `MainTests.FactorialOfFraction` reaches the failure that `unsupported_factorial_with_floats` expects, but in the literal conversion rather than in the parser.
- Parser.Expr and the other grammar methods, Arith.Abs, Arith.TruncDiv, Arith.TruncRem, Arith.Pow and Arith.RangeProduct: integers are unbounded, so 32-bit overflow is not modelled.
  - Rust panics on overflow in debug builds and wraps in release builds. This applies to binary `+ - * ^`, to unary `-` (`src/parser.rs:124`) and `abs()` (`src/parser.rs:155`) of `i32::MIN`, and to the factorial's `product()`.
  - `i32::MIN / -1` and `i32::MIN % -1` (`src/parser.rs:83`, `src/parser.rs:60`) panic in every build. The model returns 2147483648 and 0.
- Parser.PowerLoop: a negative exponent is an error value. Rust converts it with `as u32`, which gives a huge exponent that overflows for every base except -1, 0 and 1.
- Arith.SqrtToInt: the `f64` round trip of `sqrt` is modelled as the integer floor square root. A negative operand gives 0, the value of NaN cast to `i32`. For any `i32` operand the floating-point root truncates to the same integer.
- Panics are error values. The panic messages and the `Debug` formatting of tokens are left out, and so is the unreachable `_` arm of each loop's `match`.
- Tokenizer.IsAlphabetic: only ASCII letters count as letters. Rust's `char::is_alphabetic` also accepts other Unicode letters; such a character falls into the symbol branch here and becomes `EOF`. `IsWhitespace` follows Unicode's White_Space list.
- `main` (`src/main.rs:12-33`) is left out: command-line arguments, the prompt loop, `quit` and printing are I/O. `eval` (`src/main.rs:7-10`) is `Calculator.EvaluateText`.
- Rendering.TokenizeLayout and Calculator.EvaluatePrinted cover non-negative literals only, the only numbers the tokenizer can produce; a negative value is written with unary minus, as in the calculator's own input. `Grammar.ParsePrinted` holds for every tree.
- The test inputs of `src/main.rs` are not all spelled out one by one. `Calculator.EvaluatePrinted` covers every input that is a printed tree, and `MainTests` covers a representative subset at the text or token level; `complex_expression` is covered at the token level.
