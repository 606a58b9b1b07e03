# Calculator expression evaluator and entry buffer

This project models the logic of a small JavaFX desktop calculator. It has
two parts.

**The evaluator.** `Calculator.evaluate` is a single-pass recursive-descent
parser with one character of lookahead.

- It keeps a cursor `pos` into the expression and the lookahead `ch`, where
  `-1` marks the end of input. Both are advanced in place by `nextChar`.
- Its grammar has three levels: `parseExpression` for `+ -`, `parseTerm`
  for `* /`, and `parseFactor` for parentheses, unary signs and numbers.
- It fails in three ways:
  - input left over after a complete expression ("Unexpected");
  - a `(` without its `)`;
  - a number token that `Double.parseDouble` refuses.

**The entry buffer.** The window keeps the expression being typed in a
`StringBuilder`, which the keypad edits in place. The `=` button and the
Enter key evaluate the buffer and then empty it.

The model is split into modules:

- **Syntax**: the parse tree (`Num(token) | Neg | Add | Sub | Mul | Div`),
  the error kinds, the result type, and the character classes the scanner
  tests. `IsWhitespace` is the table of `Character.isWhitespace`.
- **Grammar**: the grammar as pure functions over the input and a cursor.
  Each function returns the tree and the cursor after it, moving the cursor
  exactly as the parser does.
- **Evaluator**: the parser as the source runs it. It is a class with `pos`
  and `ch` fields and the same `while` loops. Every method is proved equal
  to the matching Grammar function from the cursor it starts at.
  - The Java methods fold doubles as they go (`value += parseTerm()`).
    The model's methods build the tree that this fold evaluates
    (`value := Add(value, term)`).
- **Layout** and **Printer**: a printer that writes a tree with the fewest
  parentheses, and the proof that parsing its output gives the tree back.
  This states precedence, left associativity and the binding of unary
  minus for every tree at once.
- **Balance**: every accepted input has balanced parentheses, and a missing
  `)` is reported only where a `(` was read.
- **Arithmetic**: the value of a tree over exact decimals.
- **Examples**: worked inputs, both successes and failures.
- **Entry**: the buffer as a class with a `seq<char>` field, together with
  its keypad, `=` and Enter behaviour.

Two behaviours of the number scanner are worth knowing:

- `parseNumber` collects any run of digits and dots and hands it to
  `Double.parseDouble`, so `.5` and `5.` are accepted
  (`Examples.LeadingDot`, `Examples.TrailingDot`).
- A missing operand, or a character that starts no factor, fails as the
  empty number token `BadNumber("")` (`Examples.NoOperand`,
  `Examples.TrailingOperator`, `Examples.EmptyParentheses`).

## Model

| member | source | states |
|---|---|---|
| Syntax.IsWhitespace | src/main/java/gui/simple/calculator/CalculatorApp.java:196 | the characters `Character.isWhitespace` accepts: space, tab, newline and carriage return among them, the non-breaking spaces U+00A0, U+2007 and U+202F not, and nothing outside U+0009..U+3000 |
| Syntax.ValidNumber | src/main/java/gui/simple/calculator/CalculatorApp.java:192 | `Double.parseDouble` accepts a run of digits and dots iff it has a digit and no two places hold a dot |
| Syntax.OneDot | src/main/java/gui/simple/calculator/CalculatorApp.java:192 | counting the dots of a token (at most one) agrees with comparing their places (no two) |
| Evaluator.IsDigitCode | src/main/java/gui/simple/calculator/CalculatorApp.java:182-184 | the lookahead code is a digit iff it is the code of a character `0`..`9`; the end marker -1 is none |
| Grammar.SkipWs | src/main/java/gui/simple/calculator/CalculatorApp.java:195-199 | the cursor after the whitespace: every character skipped is whitespace, and the one it stops at is not (or the input has ended) |
| Grammar.NumberEnd | src/main/java/gui/simple/calculator/CalculatorApp.java:188-191 | the number token is the longest run of digits and dots: every character in it is one, and the one after it is not |
| Grammar.Number | src/main/java/gui/simple/calculator/CalculatorApp.java:186-193 | the token is the whole run at the cursor. Success gives a numeral (at least one digit, at most one dot) ending where no digit or dot follows. Failure carries that same run, and the conversion refuses it |
| Grammar.Factor | src/main/java/gui/simple/calculator/CalculatorApp.java:242-261 | a factor consumes at least one character, builds a tree whose tokens are all numerals, and never fails with "Unexpected" |
| Grammar.Term | src/main/java/gui/simple/calculator/CalculatorApp.java:226-240 | a term consumes at least one character, builds a well-formed tree, never fails with "Unexpected", and stops at a character that is not whitespace, `*` or `/` |
| Grammar.TermTail | src/main/java/gui/simple/calculator/CalculatorApp.java:228-239 | the product loop never moves the cursor back, stops before no `*`, `/` or whitespace, and keeps trees well formed |
| Grammar.Expression | src/main/java/gui/simple/calculator/CalculatorApp.java:210-224 | an expression consumes at least one character and stops at a character that is not whitespace and not a binary operator |
| Grammar.ExpressionTail | src/main/java/gui/simple/calculator/CalculatorApp.java:212-223 | the sum loop never moves the cursor back and keeps trees well formed. When it starts where a term stopped, it stops at a character that is not whitespace and not a binary operator |
| Grammar.SpaceSkipped | src/main/java/gui/simple/calculator/CalculatorApp.java:195-199 | starting on a whitespace character or just after it reads the same factor, term and expression, and the same continuation of either loop |
| Grammar.Parse | src/main/java/gui/simple/calculator/CalculatorApp.java:201-208 | success iff one expression uses up the whole input, with a well-formed tree. A failure inside is passed on unchanged. Left-over input is reported by its first character, which is never whitespace or an operator |
| Evaluator.Lookahead | src/main/java/gui/simple/calculator/CalculatorApp.java:179 | the lookahead is -1 exactly past the end of the input, and otherwise the character under the cursor |
| Evaluator.Parser.constructor | src/main/java/gui/simple/calculator/CalculatorApp.java:175-176 | a fresh parser for the expression has its cursor at -1 |
| Evaluator.Parser.NextChar | src/main/java/gui/simple/calculator/CalculatorApp.java:178-180 | moves the cursor one place on and loads the lookahead; from inside the input or from -1 the cursor stays within the input or just past it |
| Evaluator.Parser.SkipWhitespace | src/main/java/gui/simple/calculator/CalculatorApp.java:195-199 | the loop leaves the cursor where Grammar.SkipWs puts it |
| Evaluator.Parser.ParseNumber | src/main/java/gui/simple/calculator/CalculatorApp.java:186-193 | collects the run into the buffer and converts it, with the outcome and cursor of Grammar.Number; the cursor never moves back |
| Evaluator.Parser.ParseFactor | src/main/java/gui/simple/calculator/CalculatorApp.java:242-261 | outcome and final cursor are those of Grammar.Factor, and the cursor never moves back; recursion on a sign or `(` follows consumption |
| Evaluator.Parser.ParseTerm | src/main/java/gui/simple/calculator/CalculatorApp.java:226-240 | outcome and final cursor are those of Grammar.Term. The loop keeps "the term so far continues as TermTail" and ends because each round consumes input |
| Evaluator.Parser.ParseExpression | src/main/java/gui/simple/calculator/CalculatorApp.java:210-224 | outcome and final cursor are those of Grammar.Expression, by the same kind of loop invariant |
| Evaluator.Parser.Eval | src/main/java/gui/simple/calculator/CalculatorApp.java:201-208 | reading the first character, one expression and the end check yield exactly Grammar.Parse |
| Evaluator.Evaluate | src/main/java/gui/simple/calculator/CalculatorApp.java:174-175 | a fresh parser per call, so the outcome is Grammar.Parse of the expression alone: evaluating twice gives the same result |
| Layout.NumberToken | src/main/java/gui/simple/calculator/CalculatorApp.java:186-193 | a run of digits and dots that nothing continues is read whole, and is accepted iff it is a valid number |
| Layout.FactorNumeral | src/main/java/gui/simple/calculator/CalculatorApp.java:258-259 | a numeral followed by no digit or dot is one factor |
| Printer.FactorRoundTrip | src/main/java/gui/simple/calculator/CalculatorApp.java:242-261 | a printed factor is read back as the same tree, ending exactly where its text ends |
| Printer.FactorNegated | src/main/java/gui/simple/calculator/CalculatorApp.java:252-254 | the same for a negation: signs nest to any depth |
| Printer.FactorParenthesisedRoundTrip | src/main/java/gui/simple/calculator/CalculatorApp.java:244-251 | the same for a parenthesised sum or product |
| Printer.TermPrefix | src/main/java/gui/simple/calculator/CalculatorApp.java:226-240 | a printed term is read as the same tree, and the product loop continues after it |
| Printer.TermProduct | src/main/java/gui/simple/calculator/CalculatorApp.java:228-235 | a chain of `*` and `/` groups to the left: the left operand is everything before the last operator |
| Printer.ExpressionPrefix | src/main/java/gui/simple/calculator/CalculatorApp.java:210-224 | a printed expression is read as the same tree, and the sum loop continues after it |
| Printer.ExpressionSum | src/main/java/gui/simple/calculator/CalculatorApp.java:212-219 | a chain of `+` and `-` groups to the left, and a product is a whole operand of it |
| Printer.ParsePrint | src/main/java/gui/simple/calculator/CalculatorApp.java:201-261 | for every tree of numerals, evaluating its printed form gives the tree back. This is precedence, left associativity and the binding of unary minus |
| Balance.FactorBalanced | src/main/java/gui/simple/calculator/CalculatorApp.java:242-261 | a factor read successfully closes every `(` it opens and never closes more than it opened; a MissingParen inside it comes from a `(` at or after its start |
| Balance.TermBalanced | src/main/java/gui/simple/calculator/CalculatorApp.java:226-240 | the same for a term |
| Balance.TermTailBalanced | src/main/java/gui/simple/calculator/CalculatorApp.java:228-239 | the same for the stretch the product loop reads |
| Balance.ExpressionBalanced | src/main/java/gui/simple/calculator/CalculatorApp.java:210-224 | the same for an expression |
| Balance.ExpressionTailBalanced | src/main/java/gui/simple/calculator/CalculatorApp.java:212-223 | the same for the stretch the sum loop reads |
| Balance.ParseBalanced | src/main/java/gui/simple/calculator/CalculatorApp.java:201-261 | an accepted input has as many `)` as `(`, and no prefix of it has more `)` than `(` |
| Balance.MissingParenNeedsOpen | src/main/java/gui/simple/calculator/CalculatorApp.java:244-249 | "Missing closing parenthesis" is reported only for an input holding a `(` |
| Examples.ProductInsideSum | src/main/java/gui/simple/calculator/CalculatorApp.java:210-240 | `2+3*4` is Add(2, Mul(3, 4)) |
| Examples.ParenthesisedSum | src/main/java/gui/simple/calculator/CalculatorApp.java:244-251 | `(2+3)*4` is Mul(Add(2, 3), 4) |
| Examples.QuotientsFoldLeft | src/main/java/gui/simple/calculator/CalculatorApp.java:228-239 | `8/4/2` is Div(Div(8, 4), 2) |
| Examples.DifferenceOfDifference | src/main/java/gui/simple/calculator/CalculatorApp.java:212-223 | `2-(3-4)` is Sub(2, Sub(3, 4)) |
| Examples.MinusBindsTightest | src/main/java/gui/simple/calculator/CalculatorApp.java:252-254 | `-2*3` is Mul(Neg 2, 3) |
| Examples.DoubleMinus | src/main/java/gui/simple/calculator/CalculatorApp.java:252-254 | `--5` is Neg(Neg 5) |
| Examples.PlusMinus | src/main/java/gui/simple/calculator/CalculatorApp.java:252-257 | `+-3` is Neg 3: a unary plus adds no node |
| Examples.LeadingDot | src/main/java/gui/simple/calculator/CalculatorApp.java:186-193 | `.5` is accepted as one numeral |
| Examples.TrailingDot | src/main/java/gui/simple/calculator/CalculatorApp.java:186-193 | `5.` is accepted as one numeral |
| Examples.TwoDots | src/main/java/gui/simple/calculator/CalculatorApp.java:186-193 | `1.2.3` fails the conversion as one token |
| Examples.NoOperand | src/main/java/gui/simple/calculator/CalculatorApp.java:186-193 | the empty input and `a` fail as the empty number token |
| Examples.EmptyParentheses | src/main/java/gui/simple/calculator/CalculatorApp.java:244-246 | `()` fails as the empty number token |
| Examples.TrailingOperator | src/main/java/gui/simple/calculator/CalculatorApp.java:214-216 | `2+` fails as the empty number token |
| Examples.UnclosedParenthesis | src/main/java/gui/simple/calculator/CalculatorApp.java:244-249 | `(2+3` fails with MissingParen |
| Examples.JuxtaposedInParentheses | src/main/java/gui/simple/calculator/CalculatorApp.java:244-249 | `(1 2)` fails with MissingParen |
| Examples.JuxtaposedNumbers | src/main/java/gui/simple/calculator/CalculatorApp.java:201-206 | `2 3` fails with Unexpected('3'): whitespace ends a number |
| Examples.StrayParenthesis | src/main/java/gui/simple/calculator/CalculatorApp.java:201-206 | `2)` fails with Unexpected(')') |
| Examples.SpacesAround | src/main/java/gui/simple/calculator/CalculatorApp.java:195-199 | ` 2 + 3 ` is Add(2, 3) |
| Examples.DecimalProduct | src/main/java/gui/simple/calculator/CalculatorApp.java:186-193 | `2.5*2` is Mul(2.5, 2) |
| Examples.ProductInsideSumValue | src/main/java/gui/simple/calculator/CalculatorApp.java:210-240 | `2+3*4` is worth 14 |
| Examples.QuotientsFoldLeftValue | src/main/java/gui/simple/calculator/CalculatorApp.java:228-239 | `8/4/2` is worth 1 |
| Examples.SignsValue | src/main/java/gui/simple/calculator/CalculatorApp.java:252-257 | `--5` is worth 5 and `+-3` is worth -3 |
| Examples.DotsValue | src/main/java/gui/simple/calculator/CalculatorApp.java:192 | `.5` is worth one half and `5.` is worth five |
| Examples.ParenthesisedSumValue | src/main/java/gui/simple/calculator/CalculatorApp.java:244-251 | `(2+3)*4` is worth 20 |
| Examples.SpacesAroundValue | src/main/java/gui/simple/calculator/CalculatorApp.java:195-199 | ` 2 + 3 ` is worth 5 |
| Examples.DecimalProductValue | src/main/java/gui/simple/calculator/CalculatorApp.java:232 | `2.5*2` is worth 5 |
| Arithmetic.Value | src/main/java/gui/simple/calculator/CalculatorApp.java:216-254 | the value the operator fold computes, over exact decimals: a tree without a quotient always has a value |
| Arithmetic.TokenValue | src/main/java/gui/simple/calculator/CalculatorApp.java:192 | a numeral's value is never negative: signs are separate factors |
| Arithmetic.TrailingDotValue | src/main/java/gui/simple/calculator/CalculatorApp.java:192 | a dot at the end of a dotless token does not change its value |
| Arithmetic.LeadingDotValue | src/main/java/gui/simple/calculator/CalculatorApp.java:192 | a dot before one digit makes tenths |
| Arithmetic.DoubleNegation | src/main/java/gui/simple/calculator/CalculatorApp.java:254 | two unary minuses cancel |
| Arithmetic.ValueDefined | src/main/java/gui/simple/calculator/CalculatorApp.java:233-235 | a tree has no value iff some divisor in it is worth zero |
| Entry.IsOperator | src/main/java/gui/simple/calculator/CalculatorApp.java:139-141 | the labels that replace one another are exactly the single-character keypad labels other than `=` and the digits: `+ - * / .` |
| Entry.Edited | src/main/java/gui/simple/calculator/CalculatorApp.java:123-136 | an edit keeps every character but the last, and the buffer then ends with the label. A character is removed exactly when an operator label meets an operator at the end, so the length grows by the label's length less that one |
| Entry.EditedKeepsOperatorsApart | src/main/java/gui/simple/calculator/CalculatorApp.java:123-141 | a keypad edit never puts two operator characters side by side |
| Entry.TypedKeepsOperatorsApart | src/main/java/gui/simple/calculator/CalculatorApp.java:114-141 | any sequence of keypad presses keeps operators apart |
| Entry.DotReplacesOperator | src/main/java/gui/simple/calculator/CalculatorApp.java:139-141 | the dot counts as an operator: `.` after `2+` gives `2.` |
| Entry.SecondDotTyped | src/main/java/gui/simple/calculator/CalculatorApp.java:123-136 | the keypad lets a second dot into one number: `1 . 5 .` gives `1.5.` |
| Entry.SecondDotRefused | src/main/java/gui/simple/calculator/CalculatorApp.java:143-148 | evaluating `1.5.` fails the number conversion |
| Entry.CalculatorApp.constructor | src/main/java/gui/simple/calculator/CalculatorApp.java:30 | the buffer starts empty, which satisfies the keypad invariant |
| Entry.CalculatorApp.EvaluateExpression | src/main/java/gui/simple/calculator/CalculatorApp.java:143-148 | an empty buffer yields 0 without parsing. Otherwise the result succeeds iff the parse does, with its tree, or fails with its error |
| Entry.CalculatorApp.HandleButtonAction | src/main/java/gui/simple/calculator/CalculatorApp.java:114-137 | `=` shows the evaluation or its error and empties the buffer either way. Any other label applies Edited and echoes the buffer. A keypad press keeps operators apart |
| Entry.CalculatorApp.PressEnter | src/main/java/gui/simple/calculator/CalculatorApp.java:69-78 | Enter shows the evaluation, or "Error" when it fails, and empties the buffer either way |

## Left out

- The JavaFX user interface is not modelled. This covers the window, the button grid, the theme switch and its styles, and the key-listener wiring. Only the effect of each key on the buffer and on the result line is kept.
- `formatDouble` is not modelled: `DecimalFormat` rounding is floating-point formatting done by a library.
- Arithmetic.Value: it computes over exact decimals, not IEEE-754 doubles. It therefore does not model `Double.parseDouble` rounding or rounding in `+ - * /`. Division by zero gives no value, where the code yields an infinity or NaN.
- Evaluator.Parser.ParseExpression, Evaluator.Parser.ParseTerm and Evaluator.Parser.ParseFactor: these return the tree whose value the Java methods accumulate, not the double itself.
- Entry.CalculatorApp.HandleButtonAction: the result line holds the reading or the error kind, not the formatted text or the exception's message text.
- The model does not capture the stack overflow that very deep nesting of parentheses or signs causes in the code.
- Characters are Dafny `char`s. Java's UTF-16 code units, surrogate pairs included, are not distinguished.
- `Character.isWhitespace` is the table of current JDKs. U+180E, treated as whitespace only by old ones, is not included.
- The unused `ops` list is not modelled.
