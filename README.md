# Calculator pipeline model

A Dafny model of the expression calculator in `calculator.c`. The program
reads one line and sends it through four stages. Each stage rewrites the
line as a string of space-separated tokens:

1. `tokenization`. Lex the line and write each lexeme followed by one space
   into a 100-byte buffer. Then drop the last space. A `-` that does not
   follow a number becomes the unary-minus symbol `u`.
2. `validate`. Reject an OPERATOR token that is not one of the thirteen
   known symbols. Reject a bracket count that goes negative.
3. `infix_to_postfix`. The shunting-yard conversion, driven by
   `get_priority`. It rejects two NUMBERs, two OPERATORs or two FUNCTIONs
   in a row.
4. `calc_rpn`. Evaluate the postfix text on a value stack. The values
   travel as text, printed with `sprintf("%lf")` and read back with `atof`.

All four stages read their input through the same lexer, `get_token`. The
lexer steps through the string with `getch`/`ungetch`. The linked-list
stack (`push`, `pop`, `peek`, `clean`, `is_empty`) holds operators in the
converter and values in the evaluator.

How the model is built:

- **The lexer is a function plus a method.** `Lexer.Lex` is the specification
  function for one lexeme, and `Lexer.Scan` is the token sequence a
  stage's loop sees. `Lexer.GetToken` is the imperative lexer over a
  `Cursor` object, and it is proved to return exactly what `Lex` computes.
- **Each stage is a fold plus a method.** The stage's loop is a pure fold
  over the scan: `Validator.ValidateFrom`, `Postfix.ConvertFrom` or
  `Rpn.RunFrom`. The stage's method runs the source's loop over the cursor
  and the `Stacks.Stack` object, and it is proved equal to its fold. What
  the source promises is proved as lemmas about the folds.
- **Strings are returned, not rewritten.** The source rewrites the string
  in place. Here each stage returns the new string instead.
- **The library is a parameter.** `atof`, `sprintf("%lf")` and the `math.h`
  functions come in through `Rpn.Numerics`, so the evaluator's results are
  stated in terms of them.

The code is followed where it departs from the documented behaviour. These
departures matter:

- A `-` after `)` becomes `u` (calculator.c:281), so `(1) - 2` is read as
  `(1) u 2`.
- The converter re-reads `u` as a FUNCTION word. So `--3`, normalised to
  `u u 3`, is rejected as two FUNCTIONs in a row (`Scenarios.DoubleNegationRejected`).
- `calc_rpn` never updates `last_type`, so its lexer turns every `-` of
  the postfix text into `u`. The subtraction branch is dead code, and see
  "## Findings".
- `validate` accepts a line whose final bracket count is not zero, so `(1`
  passes (`Scenarios.UnclosedBracketValid`).
- `infix_to_postfix` drops an unmatched `)` without an error. Everything on
  the operator stack is emitted and the failed `pop` is ignored
  (calculator.c:121-129; `Postfix.Step`, `Postfix.PopUntilOpenSplits`).
- `ln`, `sqrt` and `ctg` never set ERROR (calculator.c:214-233). A unary
  branch keeps the status (`Rpn.Unary`), and at a zero of `tan` the `ctg`
  branch pushes the printed pole (`Rpn.Cotangent`). Division by zero is the
  only domain error.
- Values left under the top of the stack at the end are discarded, not
  rejected (calculator.c:237-239, `Rpn.Finish`).

## Model

| member | source | states |
|---|---|---|
| Lexer.Lex | calculator.c:268-297 | one call of `get_token` always moves the cursor forward; a token other than END is non-empty and ends inside the string, and END has no text |
| Lexer.Classify | calculator.c:272-296 | the lexeme at the first non-blank character moves the cursor past it; a token other than END is non-empty and ends inside the string, and END has no text |
| Lexer.Scan | calculator.c:112 | the tokens a stage's loop header receives before TOKEN_END: none is END or empty, and there are no more of them than characters left in the string |
| Lexer.SkipBlanks | calculator.c:270 | the first offset at or after `i` that is not a space or tab; everything skipped is blank |
| Lexer.DigitsEnd | calculator.c:275 | the end of the maximal run of digits from `i`; the character there is no digit |
| Lexer.AlphaEnd | calculator.c:289 | the end of the maximal run of letters from `i`; the character there is no letter |
| Lexer.LexClassifies | calculator.c:268-297 | END exactly at the terminator, NUMBER exactly at a digit, brackets exactly at `(` `)`, FUNCTION exactly at a letter; number and word texts are the characters read, every other token consumes one character, and an OPERATOR's text is `u` for a `-` not after a NUMBER and the character itself otherwise |
| Lexer.LexNumber | calculator.c:274-280 | a NUMBER is digits, then optionally a point and more digits, and it is read by maximal munch (the next character is no digit, and no point unless the number holds one) |
| Lexer.LexWord | calculator.c:288-292 | a FUNCTION word is letters only, read by maximal munch |
| Lexer.MinusRule | calculator.c:281-283 | a `-` becomes OPERATOR `u` exactly when the previous kind is not NUMBER, and stays `-` exactly when it is |
| Lexer.Cursor.Getch | calculator.c:346 | returns the character under the cursor (the terminator past the end) and advances by one |
| Lexer.Cursor.Ungetch | calculator.c:348 | moves the cursor back by one |
| Lexer.ReadDigits | calculator.c:275 | appends the run of digits under the cursor and returns the first non-digit, already consumed |
| Lexer.ReadLetters | calculator.c:289 | appends the run of letters under the cursor and returns the first non-letter, already consumed |
| Lexer.ReadNumber | calculator.c:274-280 | reads digits, an optional point and digits, pushes back one character, and returns the numeral `Classify` specifies |
| Lexer.GetToken | calculator.c:268-297 | the kind, the text and the new cursor offset are exactly those of the specification `Lex` |
| Lexer.ScanStep | calculator.c:87-88 | one call of a stage's loop header takes the head of the remaining scan, and the rest still fits the token buffer |
| Lexer.NextToken | calculator.c:112 | returns END exactly when the remaining scan is empty, and otherwise its head, advancing the cursor past it |
| Lexer.ScanShape | calculator.c:268-297 | every scanned token is non-empty and holds no blank, and it starts with a digit exactly when it is a NUMBER |
| Lexer.ScanWithoutTrackingHasNoMinus | calculator.c:171 | with `last_type` held at END, no scanned token is the text `-` |
| Stacks.PopFrom | calculator.c:321-328 | popping an empty stack fails and leaves the stack and the caller's buffer as they were; otherwise it returns the top and the rest |
| Stacks.PushThenPop | calculator.c:314-328 | popping right after a push gives back the pushed token and the earlier stack |
| Stacks.Stack.Peek | calculator.c:330-334 | has a value exactly when the stack is non-empty, and the value is the top |
| Stacks.Stack.Push | calculator.c:314-319 | the token becomes the new top and nothing under it changes |
| Stacks.Stack.Pop | calculator.c:321-328 | returns and removes the top; on an empty stack it reports ERROR and hands back the caller's buffer unchanged |
| Stacks.Stack.IsEmpty | calculator.c:344 | true exactly when `peek` has no top to return |
| Stacks.Stack.Clean | calculator.c:336-342 | leaves the stack empty |
| Normaliser.NewlineAt | calculator.c:86 | the offset of the first newline of the line |
| Normaliser.WriteLexeme | calculator.c:89-94 | one lexeme copied after the words already written; on SUCCESS the buffer holds those words and this one, each followed by a space; on ERROR the index reached the end of the buffer and the buffer's first 99 bytes are a prefix of the joined words |
| Normaliser.WriteLexemes | calculator.c:87-96 | the loop writes every scanned word followed by a space while under 99 bytes; on ERROR the buffer's first 99 bytes are a prefix of the joined words, which are at least 99 bytes long |
| Normaliser.Tokenization | calculator.c:78-100 | SUCCESS exactly when the words joined by single spaces are shorter than 99 bytes, and then that joined text is the result, which neither starts nor ends with a space; on ERROR the result is 99 bytes and a prefix of the joined text |
| Normaliser.AllFitFitsWhileRead | calculator.c:87-88 | the normaliser's requirement, that each lexeme read before ERROR fits the token buffer, follows from every lexeme fitting it, which is what the other stages require |
| Normaliser.WordsHaveNoEdgeSpaces | calculator.c:92-97 | the lexemes joined by single spaces neither start nor end with a space, and the joined text is empty exactly when the line has no lexeme |
| Normaliser.AsWrittenLastSeparator | calculator.c:87-96 | for lexeme lengths, the offset of the last separator the loop stores as written; never past offset 100 |
| Normaliser.AsWrittenSeparatorOverflows | calculator.c:92-97 | for a 2-character lexeme followed by 49 one-character lexemes (the line `12+1+1+...+1+`), the loop as written stores a separator at offset 100, one past `buffer[MAX_BUFFER_SIZE]` |
| CalcTypes.SpacedIsJoinThenSpace | calculator.c:94-97 | words each followed by a space, with the last space dropped, are the words joined by single spaces |
| CalcTypes.JoinHasNoEdgeSpaces | calculator.c:94-97 | the joined text of blank-free words neither starts nor ends with a space, and it is empty exactly when there are no words |
| Validator.ValidateFrom | calculator.c:250-264 | the validator's loop as a fold: once ERROR is set it stays, and on SUCCESS after at least one token the bracket count is not negative |
| Validator.ValidateFromMeaning | calculator.c:250-264 | the fold's count is the start plus the bracket depth of all tokens, and its status stays SUCCESS exactly when every OPERATOR is a known symbol and the count never goes negative |
| Validator.IsValidOperator | calculator.c:252-255 | true exactly when the token is one of `VALID_TOKENS` |
| Validator.Validate | calculator.c:243-266 | SUCCESS exactly when every OPERATOR token is one of the thirteen valid symbols and the bracket count is non-negative after every token; an unbalanced `(` is not rejected |
| Postfix.GetPriority | calculator.c:299-312 | the priority lies between 0 and 4 |
| Postfix.PriorityTable | calculator.c:299-312 | priority 1 exactly for `+ -`, 2 for `* /`, 3 for the six functions, 4 for `u`, and 0 for every other text |
| Postfix.PriorityOfValidTokens | calculator.c:10-16 | among the valid symbols exactly the brackets have priority 0, so an operator never pops a `(` |
| Postfix.PopWhileAtLeast | calculator.c:133-140 | the operator loop leaves a prefix of the stack, and the words it pops and the words it leaves add up to the old stack's height |
| Postfix.PopWhileAtLeastSplits | calculator.c:133-140 | the operator loop pops a suffix of the stack: what stays plus the popped words in stack order is the old stack |
| Postfix.PopWhileAtLeastPriorities | calculator.c:133-140 | every popped word has priority at least the incoming one, and the top it stops at has a lower one |
| Postfix.PopUntilOpen | calculator.c:121-128 | the `)` loop leaves a prefix of the stack, and the words it pops and the words it leaves add up to the old stack's height |
| Postfix.PopUntilOpenSplits | calculator.c:121-128 | the `)` loop pops a suffix holding no `(`, and what stays is empty or ends with the nearest `(` |
| Postfix.Step | calculator.c:113-156 | `last_type` becomes the token's kind; the status stays SUCCESS exactly when it was and the token does not repeat the previous NUMBER, OPERATOR or FUNCTION kind; a NUMBER goes to the output and a `(` onto the stack |
| Postfix.ConvertFrom | calculator.c:112-156 | the converter's loop only appends to the output, never clears ERROR, and leaves on the output and the stack together at most one word more per token |
| Postfix.PostfixOf | calculator.c:102-168 | the whole conversion, with the stack drained top first, writes no more words than the line has tokens |
| Postfix.StepNumerals | calculator.c:113-156 | each step keeps numbers off the stack and adds to the output exactly the step's own number |
| Postfix.NumbersKeepOrder | calculator.c:102-168 | the numbers of the postfix text are exactly the input's NUMBER tokens, in input order |
| Postfix.PostfixErrors | calculator.c:102-168 | the conversion reports ERROR exactly when two adjacent tokens are both NUMBERs, both OPERATORs or both FUNCTIONs |
| Postfix.Emit | calculator.c:116-117 | the buffer gains the word followed by one space |
| Postfix.EmitWhileAtLeast | calculator.c:132-140 | the stack becomes what the operator loop leaves, and the buffer gains the popped words, top first |
| Postfix.EmitUntilOpen | calculator.c:121-129 | the buffer gains the words above the nearest `(`, and the stack loses them and the `(` |
| Postfix.Drain | calculator.c:158-163 | the stack ends empty and the buffer gains its words, top first |
| Postfix.InfixToPostfix | calculator.c:102-168 | the status and the output string are those of the conversion fold, with the output words joined by single spaces |
| Rpn.OpOf | calculator.c:183-235 | the `strcmp` chain recognises exactly the eleven texts `+ * - / u tan ctg sin cos ln sqrt` |
| Rpn.Binary | calculator.c:183-197 | with two values, the top becomes the right operand, the one under it the left, both are recorded in the buffers, and the result replaces them; with fewer the status is ERROR |
| Rpn.Division | calculator.c:198-205 | as a binary branch, except that a zero divisor sets ERROR and pushes nothing |
| Rpn.Unary | calculator.c:206-233 | the top is replaced by the function of its value; on an empty stack the stale buffer's value is used and the status is ERROR |
| Rpn.Step | calculator.c:181-235 | a NUMBER is pushed; the `strcmp` chain picks the binary, division or unary branch; an unknown text sets ERROR; ERROR is never cleared |
| Rpn.Cotangent | calculator.c:216 | the `ctg` branch prints the reciprocal of `tan`, a value `c` with `c * tan(x) == 1`; at a zero of `tan` it gives the printed pole |
| Rpn.RunFrom | calculator.c:180-236 | the evaluator's loop as a fold: the stack grows by at most one value per token |
| Rpn.Finish | calculator.c:237-239 | the result is the value of the top, or of the stale buffer with ERROR on an empty stack |
| Rpn.RpnOf | calculator.c:170-241 | the whole evaluation; a postfix text without a NUMBER evaluates to ERROR |
| Rpn.NoNumberNoValue | calculator.c:180-236 | without a NUMBER the stack stays empty until ERROR is set, since every operator branch on an empty stack sets ERROR |
| Rpn.ErrorsAreSticky | calculator.c:180-239 | once ERROR is set the evaluation ends with ERROR |
| Rpn.RunAppend | calculator.c:180 | evaluating two token runs in a row is evaluating their concatenation |
| Rpn.NumbersArePushed | calculator.c:181-182 | a run of NUMBERs pushes their texts in order, last on top |
| Rpn.UnaryKeepsHeight | calculator.c:206-233 | on a non-empty stack a unary branch keeps the height, everything under the top and the status |
| Rpn.BinaryOperandOrder | calculator.c:183-197 | `+` and `*` combine top and next as right and left operands, and `-` computes left minus right |
| Rpn.StackUnderflow | calculator.c:183-233 | a binary branch on fewer than two values, or a unary one on none, sets ERROR |
| Rpn.MinusBranchIsDead | calculator.c:171-197 | in the scan `calc_rpn` reads, no token selects the subtraction branch |
| Rpn.IntendedRpnOf | calculator.c:171-197 | the evaluation with `last_type` held at NUMBER, so that `-` means subtraction; on a text without `-` it agrees with what `calc_rpn` computes |
| Rpn.ScanWithoutMinus | calculator.c:281-283 | `last_type` only decides how a `-` is read, so the scan of a text without `-` does not depend on it |
| Rpn.IntendedScanKeepsMinus | calculator.c:193-197 | read with `last_type` held at NUMBER, no OPERATOR is rewritten: each is one character, never `u`, and a `-` selects subtraction |
| Rpn.ApplyBinary | calculator.c:183-197 | the stack object, status and buffers end as `Binary` specifies |
| Rpn.ApplyDivision | calculator.c:198-205 | the stack object, status and buffers end as `Division` specifies |
| Rpn.ApplyUnary | calculator.c:206-233 | the stack object, status and buffer end as `Unary` specifies |
| Rpn.CalcRpn | calculator.c:170-241 | the status and result are those of the evaluation fold over the scan with `last_type` END |
| Scenarios.RpnLexesMinusAsNegation | calculator.c:171-180 | `calc_rpn` reads `5 3 -` as the tokens 5, 3, `u` |
| Scenarios.NegationDiscardsLeftOperand | calculator.c:206-239 | those tokens evaluate with SUCCESS to minus 3, and the 5 is discarded |
| Scenarios.IntendedLexKeepsMinus | calculator.c:193-197 | read with `last_type` held at NUMBER, `5 3 -` keeps its `-` |
| Scenarios.IntendedSubtraction | calculator.c:193-197 | read that way, `5 3 -` evaluates with SUCCESS to 5 minus 3 |
| Scenarios.DoubleMinusNormalised | calculator.c:78-100 | `--3` normalises to `u u 3` |
| Scenarios.DoubleNegationRejected | calculator.c:142-143 | `u u 3` is rejected by `infix_to_postfix` as two FUNCTIONs in a row |
| Scenarios.UnclosedBracketValid | calculator.c:243-266 | `(1` passes `validate` with a final bracket count of 1 |

## Left out

- `main` (the input loop, `getchar`, `printf`, the `q` command) is not part of this model. The line a stage receives is a parameter.
- Floating point is left out. `atof`, `sprintf("%lf")`, `tan`, `sin`, `cos`, `log` and `sqrt` are fields of `Rpn.Numerics`, and the printed form of `1.0 / tan(x)` at a pole of `tan` is a field too. Arithmetic is on `real`, so no rounding, infinity or NaN is modelled.
- `malloc` and `free` are left out. The linked list is a sequence, and `clean` only empties it.
- In-place rewriting is left out. The stages return the new string instead of `memcpy`/`strcpy` over the caller's array, and `infix_to_postfix`'s output buffer is a growing string with no 100-byte bound.
- The 10-byte `tmp` buffer of `calc_rpn` is left out. `sprintf("%lf")` can print more than 9 characters into it, and `push` copies only 10 bytes. A printed value is taken whole.
- `tmp_token1` and `tmp_token2` start uninitialised in the source. The model starts them as the empty text, which matters only after a pop from an empty stack.
- Lexer.GetToken: requires the lexeme it reads to fit `token[MAX_TOKEN_SIZE]` (`Lexer.Fits`), because the source writes past the buffer with no check. `validate`, `infix_to_postfix` and `calc_rpn` read every lexeme of their input, so they require every lexeme to fit (`Lexer.AllFit`). `tokenization` stops calling `get_token` once ERROR is set, so it requires only the lexemes it reads to fit (`Normaliser.FitsWhileRead`); a lexeme that starts after MAX_BUFFER_SIZE bytes are written may have any length.
- Normaliser.Tokenization: requires a newline in the line with no NUL byte ahead of it (`strchr` stops at the first NUL and would return NULL, which `*strchr(...) = '\0'` dereferences; `main` can store a NUL read from input), and at least one token (`buffer[--index]` at index 0 writes before the buffer).
- Postfix.InfixToPostfix: requires the output to have at least one word, for the same `buffer[--index]` reason.
- Input is read as characters, not bytes. The source lexes bytes and the 99-byte limit counts bytes; a non-ASCII character, which takes several bytes in the source, is one character here, so non-ASCII input is outside the model.
- Normaliser.WriteLexeme: writes the separator only inside the buffer (see Findings). The source's out-of-bounds store is modelled only by `Normaliser.AsWrittenLastSeparator`.

## Findings

| source | as written | input that shows it | evidently intended | confidence | as-written member | corrected member |
|---|---|---|---|---|---|---|
| calculator.c:92-97 | `buffer[index++] = ' '` runs even after the lexeme loop set ERROR at index 99, so the separator is stored at `buffer[100]` when a lexeme starts at offset 99 | the 51-character line `12+1+1+...+1+` (`12`, then 49 one-character lexemes), which `main` accepts: the 49th one-character lexeme is stored at offset 99 | ERROR is reported without storing past `buffer[MAX_BUFFER_SIZE - 1]` | not executed | Normaliser.AsWrittenSeparatorOverflows | Normaliser.WriteLexeme |
| calculator.c:171-197 | `last_type` stays TOKEN_END in `calc_rpn`, so `get_token` turns every `-` of the postfix text into `u`: subtraction negates the right operand and the left one is discarded | `5 3 -` (the postfix form of `5 - 3`) evaluates to -3 | the `-` of the postfix text is read as subtraction, giving 2 | not executed | Scenarios.NegationDiscardsLeftOperand | Scenarios.IntendedSubtraction |
