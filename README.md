# fi1a/format — a Dafny model of the template engine

fi1a/format renders `{{...}}` templates. `Hello {{name}}` looks `name` up in the values passed along and writes it into the text. A placeholder may name a colon path (`{{user:name}}`) or nothing at all (`{{}}`, the next positional argument). Placeholders may be piped through specifiers with modifiers (`{{value|declension("год", "года", "лет")}}`). Templates may hold `{{if(...)}} … {{elseif(...)}} … {{else}} … {{endif}}` blocks.

The project models the engine's core, file by file:

- **Tokenizer** (`tokenizer.dfy`, `scanner.dfy`, `scanfacts.dfy`, `token.dfy`).
  - `scanner.dfy` turns each scan mode of `src/Tokenizer/Tokenizer.php` into a function on an explicit scanner state. The state holds the source, the cursor, the image, the kind, the return modes, the parenthesis count and the quote flags.
  - `Run` is the driver loop of the tokenizer's base class. The base class is not part of this model, so the driver is an assumption: it calls the current mode, emits a token when the mode has set a type, and stops when the mode sets `finish`.
  - `tokenizer.dfy` writes each mode again as a loop and proves the loop equal to its function. Its `Tokenizer` class keeps the fields the source mutates.
  - `scanfacts.dfy` proves what the tokenizer's tests pin down: the image round trip on templates of text and placeholders, keyword recognition, whitespace runs, operator order, word-operator boundaries, parenthesis counting and quotes.
- **Template builder** (`ast.dfy`, `conditions.dfy`, `counter.dfy`).
  - The constructor loop of `src/AST/AST.php` is specified by `Step`/`Walk`/`Finish` and written as written in `Construct`/`TakeToken`, with `Counter` objects.
  - It parses variables, specifiers and modifier lists, with every syntax-error exit. It also parses conditions and casts literals.
  - `conditions.dfy` holds the condition stack's `isSatisfies`.
- **Values and nodes** (`values.dfy`, `paths.dfy`, `nodes.dfy`).
  - The recursive lookup `getValueInternal` and `convert`.
  - The colon-path splitter `explodePath` with `\:` escaping, as a loop proved against a step function.
  - How `Modifier`, `ConditionPart` and `Variable` resolve themselves.
  - `applySpecifier` as a fold.
- **The older formatter** (`formatter.dfy`). The token loop of `src/Formatter.php` builds a positional `sprintf` format string and its argument list. The module also covers that file's own lookup with the `{{key}}` fallback.
- **Specifiers** (`declension.dfy`, `phone.dfy`, `time.dfy`): Russian plural choice, phone-mask filling and duration bucketing.
- `php.dfy` gives the PHP built-ins the code relies on: the whitespace class `[\s\t\n]` under the `/u` flag (PCRE's Unicode `\s`: `\p{Z}`, `\h` and `\v`, so next line U+0085 and the Mongolian vowel separator U+180E count as whitespace), `mb_substr`, `mb_strtolower` on the ASCII letters the tables use, `%`, `trim`, `explode`/`implode`, `str_replace`, `is_numeric` and `filter_var(FILTER_VALIDATE_INT)`.

Points where the code does something other than what its design suggests:

- **Satisfied `elseif`.** In the template builder, an `{{elseif}}` met while the stack is satisfied is passed over without changing the stack (`Ast.SatisfiedElseifIgnored`). So when an `if` branch is shown, the text after a following `elseif` is shown too, up to `else`/`endif`.
- **False values in the older formatter.** The older formatter casts the *rendered* value to bool. A key that holds `false` renders as `"false"`, so the condition is true (`Formatting.ConditionValueOfKey`).
- **Escaped colons.** `Variable` and `Modifier` split their key with a plain `explode(':')`, while `ConditionPart` uses `explodePath`. So `a\:b` means two different things in the two places (`Nodes.EscapedColonSplitsOnlyInConditions`).
- **Leading colon.** `explodePath` reads the character before index 0 with `mb_substr($path, -1, 1)`, which is the *last* character. So a leading `:` counts as escaped when the path ends in a backslash (`Paths.PathSegmentsLeadingColon`).
- **Mismatched snapshots.**
  - `src/Formatter.php` reads token kinds (`T_OPEN`, `T_CONDITION`, `T_FORMAT`) that `src/Tokenizer/Token.php` does not define, so the older formatter is modelled over its own token type.
  - `ConditionPart` (src/AST/ConditionPart.php:43-64) does not fit the `Modifier` it extends:
    - it reads a `modifierValues` field that `Modifier` does not declare;
    - it reads `value` and `isVariable`, which `Modifier` keeps private;
    - it calls `applySpecifier`, which the `TValue` trait used by `Modifier` does not define. Only `ValueTrait` defines it.
  - `Nodes.ConditionPartValue` models what `ConditionPart` evidently means. It reads its own fields and applies the specifiers with `ValueTrait`'s `applySpecifier`.

## Model

| member | source | states |
|---|---|---|
| Php.CharAt | src/AST/ValueTrait.php:63-64 | `mb_substr($s, $i, 1)`: the character at an index inside the string, `""` past the end, and the last character at index -1 |
| Php.Substr | src/Tokenizer/Tokenizer.php:213-235 | `mb_substr` with a start and a length: the slice when it fits, a shorter string when the source ends first |
| Php.ToLowerIdempotent | src/Tokenizer/Tokenizer.php:195-204 | lowering a word twice is lowering it once |
| Php.ToLower | src/Tokenizer/Tokenizer.php:197-198 | `mb_strtolower` keeps the length and lowers each character on its own |
| Php.NatToStringIsCanonical | src/AST/AST.php:176-180 | `(string)` of a counter value gives decimal digits whose value is that number, with no leading zero |
| Php.IntRem | src/Specifier/Declension.php:31-34 | PHP's `%` truncates toward zero: the remainder is below the divisor in size, equals the Euclidean remainder for a non-negative value, and is never positive for a non-positive value |
| Php.TrimRightIsPrefix | src/AST/AST.php:477 | trimming on the right keeps a prefix of the string |
| Php.Trim | src/AST/AST.php:477-487 | `trim` leaves a string that is empty or starts and ends with a non-blank character |
| Php.FilterInt | src/AST/AST.php:538-542 | `filter_var(FILTER_VALIDATE_INT)` only accepts values within 64 bits |
| Php.FilterIntOfIntToString | src/AST/AST.php:538-542 | the decimal form of every 64-bit integer passes `filter_var` with that integer |
| Php.FilterIntOfDigits | src/AST/AST.php:538-542 | canonical digits within 64 bits pass `filter_var` with their value |
| Php.FilterIntOfNegativeDigits | src/AST/AST.php:538-542 | so do canonical digits behind a minus sign |
| Php.DigitRunEnd | src/AST/ConditionPart.php:55 | the index just past a run of digits: every character before it is a digit and the one at it is not |
| Php.IntToStringIsNumeric | src/AST/ConditionPart.php:55-57 | the decimal form of any integer is `is_numeric` |
| Php.DigitsAreNumeric | src/AST/ConditionPart.php:55-57 | digits with an optional minus sign are `is_numeric` |
| Php.ReplaceAllUndoesEscape | src/AST/AST.php:526-537 | replacing `\q` by `q` undoes escaping every `q` with a backslash, for any quote character other than the backslash |
| Php.ReplaceAllWithoutOccurrence | src/AST/AST.php:526-536 | `str_replace` changes nothing when its needle does not occur |
| Php.Explode | src/AST/Variable.php:50-53 | `explode` always gives at least one piece |
| Php.ExplodeJoin | src/AST/Variable.php:50-53 | `implode` with the same separator undoes `explode` |
| Php.ExplodePiecesLackSeparator | src/AST/Variable.php:50-53 | no piece `explode` returns holds the separator |
| Tokens.ImagesAppend | src/Tokenizer/Token.php:17-222 | the images of two token lists in a row are the images of each, in a row |
| Tokens.KeywordMeaning | src/Tokenizer/Tokenizer.php:195-204 | `if`, `endif`, `elseif` and `else` are recognised in any letter case, and every other word is a variable |
| Scanner.Symbol | src/Tokenizer/Tokenizer.php:118-119 | the symbol at the cursor is the character there, and nothing past the end |
| Scanner.SymbolIsCharAt | src/Tokenizer/Tokenizer.php:118-119 | the symbol, as a string, is what `mb_substr` returns |
| Scanner.KeyAtFits | src/Tokenizer/Tokenizer.php:213-235 | a word that matches at the cursor fits in the source |
| Scanner.FirstKey | src/Tokenizer/Tokenizer.php:213-235 | the table entry found matches at the cursor |
| Scanner.FirstKeyFirst | src/Tokenizer/Tokenizer.php:213-235 | the table is tried in order: no earlier entry matches, and when none is found, no entry matches |
| Scanner.FirstKeyIs | src/Tokenizer/Tokenizer.php:213-235 | the first matching entry is the one found |
| Scanner.FirstKeyFinds | src/Tokenizer/Tokenizer.php:213-235 | when some entry matches, one is found |
| Scanner.TablesHaveWords | src/Tokenizer/Tokenizer.php:43-85 | no word of the operator or value table is empty |
| Scanner.WhitespaceRun | src/Tokenizer/Tokenizer.php:805-826 | parseWhitespace's loop appends exactly the maximal run of Unicode `\s` whitespace (U+0085 and U+180E included) at the cursor |
| Scanner.WhitespaceRunEnds | src/Tokenizer/Tokenizer.php:805-826 | the run ends at the first character that is not Unicode `\s` whitespace |
| Scanner.TakeWord | src/Tokenizer/Tokenizer.php:213-268 | taking a table word moves the cursor forward and changes only the kind, image, cursor and mode |
| Scanner.Emit | src/Tokenizer/Tokenizer.php:89-93 | the assumed driver emits `Token(type, image)` when a mode set a type, then clears type and image, and changes nothing else |
| Scanner.Run | src/Tokenizer/Tokenizer.php:89-93 | the driver always ends, in a finished state |
| Scanner.CallProgress | src/Tokenizer/Tokenizer.php:101-826 | every call of a mode leaves the scanner ready for the next one, closer to its end by a measure |
| Scanner.TextProgress | src/Tokenizer/Tokenizer.php:101-135 | parse() progresses |
| Scanner.StatementProgress | src/Tokenizer/Tokenizer.php:376-461 | parseStatement() progresses |
| Scanner.StatementExitProgress | src/Tokenizer/Tokenizer.php:390-437 | each early exit of parseStatement() progresses |
| Scanner.ConditionsProgress | src/Tokenizer/Tokenizer.php:278-366 | parseConditions() progresses |
| Scanner.ConditionsExitProgress | src/Tokenizer/Tokenizer.php:294-350 | each exit of parseConditions' loop progresses |
| Scanner.ConditionsSpaceProgress | src/Tokenizer/Tokenizer.php:294-302 | the exit of parseConditions to whitespace progresses |
| Scanner.ConditionsQuoteProgress | src/Tokenizer/Tokenizer.php:303-311 | the exit of parseConditions to a quote progresses |
| Scanner.ConditionsParenthesisProgress | src/Tokenizer/Tokenizer.php:335-350 | the exits of parseConditions to a parenthesis progress |
| Scanner.ConditionsNext | src/Tokenizer/Tokenizer.php:352-358 | a character of parseConditions that causes no exit joins the image, and the scan closes in on its end |
| Scanner.ModifiersProgress | src/Tokenizer/Tokenizer.php:504-578 | parseSpecifierModifiers() progresses |
| Scanner.ModifiersExitProgress | src/Tokenizer/Tokenizer.php:504-578 | each exit of its loop progresses |
| Scanner.ModifiersNext | src/Tokenizer/Tokenizer.php:504-578 | a character of parseSpecifierModifiers that causes no exit joins the image |
| Scanner.SpecifierProgress | src/Tokenizer/Tokenizer.php:725-769 | parseSpecifier() progresses |
| Scanner.SpecifierExitProgress | src/Tokenizer/Tokenizer.php:725-769 | each exit of its loop progresses |
| Scanner.SpecifierNext | src/Tokenizer/Tokenizer.php:725-769 | a character of parseSpecifier that causes no exit joins the image |
| Scanner.OperatorStepProgress | src/Tokenizer/Tokenizer.php:213-235 | parseOperator() progresses |
| Scanner.ValueStepProgress | src/Tokenizer/Tokenizer.php:246-268 | parseValue() progresses |
| Scanner.MarkStepProgress | src/Tokenizer/Tokenizer.php:147-190 | parseOpenStatement, parseCloseStatement, parseQuote, parseSeparator and parseWhitespace progress |
| Scanner.ParenthesisStepProgress | src/Tokenizer/Tokenizer.php:588-714 | the comma and parenthesis modes progress |
| Tokenizing.Parse | src/Tokenizer/Tokenizer.php:101-135 | parse() as a loop computes the text mode's function |
| Tokenizing.StatementStep | src/Tokenizer/Tokenizer.php:386-444 | one pass of parseStatement's loop, as written, is its exit function |
| Tokenizing.ParseStatement | src/Tokenizer/Tokenizer.php:376-461 | parseStatement() as a loop computes the statement mode's function |
| Tokenizing.ParseWhitespace | src/Tokenizer/Tokenizer.php:805-826 | parseWhitespace() as a loop computes the whitespace mode's function |
| Tokenizing.OperatorAhead | src/Tokenizer/Tokenizer.php:313-333 | the foreach over the operators finds one exactly when an operator fits at the cursor |
| Tokenizing.ValueAhead | src/Tokenizer/Tokenizer.php:547-560 | the foreach over true/false/null finds one exactly when a value fits at the cursor |
| Tokenizing.ConditionsStep | src/Tokenizer/Tokenizer.php:292-358 | one pass of parseConditions' loop, as written, is its exit function |
| Tokenizing.ParseConditions | src/Tokenizer/Tokenizer.php:278-366 | parseConditions() as a loop computes the conditions mode's function |
| Tokenizing.ModifiersStep | src/Tokenizer/Tokenizer.php:504-578 | one pass of parseSpecifierModifiers' loop is its exit function |
| Tokenizing.ParseSpecifierModifiers | src/Tokenizer/Tokenizer.php:504-578 | parseSpecifierModifiers() as a loop computes the modifiers mode's function |
| Tokenizing.ParseSpecifier | src/Tokenizer/Tokenizer.php:725-769 | parseSpecifier() as a loop computes the specifier mode's function |
| Tokenizing.FirstWordAt | src/Tokenizer/Tokenizer.php:213-235 | the foreach over a table stops at the first word that matches |
| Tokenizing.TakeFirstWord | src/Tokenizer/Tokenizer.php:213-268 | parseOperator/parseValue as written take that word |
| Tokenizing.CallMode | src/Tokenizer/Tokenizer.php:101-826 | calling the mode the state names computes that mode's function |
| Tokenizing.Tokenizer.constructor | src/Tokenizer/Tokenizer.php:89-93 | a new tokenizer starts in text mode with no tokens |
| Tokenizing.Tokenizer.Run | src/Tokenizer/Tokenizer.php:89-93 | the driver over the object's fields leaves exactly the tokens of the specification |
| Tokenizing.TokenizeSource | src/Tokenizer/Tokenizer.php:89-93 | a fresh tokenizer yields `Tokenize(source)` |
| ScanFacts.TextScanToBraces | src/Tokenizer/Tokenizer.php:111-135 | text mode copies text up to the first `{{` or `}}`, or to the end, as one TEXT token, and hands over to the statement mark |
| ScanFacts.TextToOpen | src/Tokenizer/Tokenizer.php:111-126 | text mode copies the text before `{{` into the image, typed TEXT only when there is some, and hands over to parseOpenStatement at the `{{` |
| ScanFacts.TextToEnd | src/Tokenizer/Tokenizer.php:111-135 | text mode copies text without braces to the end of the source and finishes |
| ScanFacts.CallOpenStatement | src/Tokenizer/Tokenizer.php:174-190 | `{{` becomes one two-character OPEN_STATEMENT token |
| ScanFacts.CallCloseStatement | src/Tokenizer/Tokenizer.php:147-163 | `}}` becomes one two-character CLOSE_STATEMENT token |
| ScanFacts.KeywordOfFalsy | src/Tokenizer/Tokenizer.php:195-204 | the words `""` and `"0"` are variables |
| ScanFacts.StatementExitKeyChar | src/Tokenizer/Tokenizer.php:439-444 | a key character joins the statement word |
| ScanFacts.StatementExitBraces | src/Tokenizer/Tokenizer.php:439-460 | `}}` after `{{` ends the statement word, which is classified by checkKeywords |
| ScanFacts.StatementScanKey | src/Tokenizer/Tokenizer.php:376-461 | a key up to `}}` becomes one statement token with that image |
| ScanFacts.RunStep | src/Tokenizer/Tokenizer.php:89-93 | one driver step keeps the scanner ready |
| ScanFacts.RunDone | src/Tokenizer/Tokenizer.php:89-93 | a finished scan stays as it is |
| ScanFacts.TextPhase | tests/Tokenizer/TokenizerTest.php:759-769 | the text of a segment runs up to its `{{` |
| ScanFacts.OpenPhase | src/Tokenizer/Tokenizer.php:174-190 | the `{{` of a segment is emitted as OPEN_STATEMENT and the scan goes on in parseStatement after it |
| ScanFacts.KeyPhase | tests/Tokenizer/TokenizerTest.php:759-769 | the key of a segment runs up to its `}}` |
| ScanFacts.ClosePhase | src/Tokenizer/Tokenizer.php:147-163 | the `}}` after a key is emitted as CLOSE_STATEMENT and the scan goes on in text mode after it |
| ScanFacts.SegmentRun | tests/Tokenizer/TokenizerTest.php:759-769 | one `text{{key}}` segment gives TEXT, OPEN_STATEMENT, the key token and CLOSE_STATEMENT |
| ScanFacts.TailRun | tests/Tokenizer/TokenizerTest.php:759-769 | trailing text gives one TEXT token and finishes the scan |
| ScanFacts.TemplateRun | tests/Tokenizer/TokenizerTest.php:922-931 | a template of segments and trailing text gives the tokens of each part, in order |
| ScanFacts.TemplateLaid | tests/Tokenizer/TokenizerTest.php:922-931 | a template's source holds its segments one after another |
| ScanFacts.SegmentImages | tests/Tokenizer/TokenizerTest.php:922-931 | a segment's token images spell its source |
| ScanFacts.TemplateImages | tests/Tokenizer/TokenizerTest.php:922-931 | the images of a template's tokens spell the template |
| ScanFacts.TokenizeTemplate | tests/Tokenizer/TokenizerTest.php:922-931 | tokenizing a template of text and placeholders gives its tokens, and their images concatenate back to the source |
| ScanFacts.TokenizeFalsy | src/Tokenizer/Tokenizer.php:110-116 | `""` and `"0"` give no tokens |
| ScanFacts.WhitespaceOneToken | src/Tokenizer/Tokenizer.php:805-826 | a run of Unicode `\s` whitespace (U+0085 and U+180E included) becomes exactly one WHITESPACE token, and the scan resumes in `whiteSpaceReturn` |
| ScanFacts.OperatorIdentical | src/Tokenizer/Tokenizer.php:53-76 | `===` is taken whole before `==` is tried |
| ScanFacts.OperatorNotIdentical | src/Tokenizer/Tokenizer.php:53-76 | `!==` is taken whole before `!=` and `!` |
| ScanFacts.NotEqualIsFirst | src/Tokenizer/Tokenizer.php:53-76 | at `!=` not followed by `=`, no operator listed before `!=` fits |
| ScanFacts.OperatorNotEqual | src/Tokenizer/Tokenizer.php:53-76 | `!=` not followed by `=` is NOT_EQUAL, not NOT |
| ScanFacts.NoOperatorInsideWord | src/Tokenizer/Tokenizer.php:316-326 | inside a run of word characters no operator fits, so `key2orkey1` has no `or` |
| ScanFacts.OperatorInsideWord | src/Tokenizer/Tokenizer.php:316-326 | no word-shaped operator fits strictly inside a run of word characters, because the character before it is a word character |
| ScanFacts.WordCharPasses | src/Tokenizer/Tokenizer.php:352-358 | outside quotes, a word character where no operator starts joins the condition part and the loop goes on |
| ScanFacts.ConditionsWord | tests/Tokenizer/TokenizerTest.php:276-289 | a word up to whitespace becomes one CONDITION_PART |
| ScanFacts.ConditionsWordRun | src/Tokenizer/Tokenizer.php:292-358 | a run of word characters without operators joins the image up to whitespace |
| ScanFacts.SpaceEndsPart | src/Tokenizer/Tokenizer.php:294-302 | any Unicode `\s` whitespace outside quotes (U+0085 and U+180E included) ends a condition part |
| ScanFacts.OrBetweenSpaces | tests/Tokenizer/TokenizerTest.php:323-336 | `or` between whitespace is an operator |
| ScanFacts.OperatorBeforeZero | src/Tokenizer/Tokenizer.php:316-326 | `or` before the character `0` is an operator, because `"0"` counts as the end of input |
| ScanFacts.ConditionsParentheses | src/Tokenizer/Tokenizer.php:335-365 | inner parentheses raise and lower the count, and only the outermost `)` leaves the conditions mode |
| ScanFacts.QuoteToggles | src/Tokenizer/Tokenizer.php:485-490 | `"` toggles the double-quote flag unless single quotes are open, and `'` the single-quote flag unless double quotes are open |
| Ast.Next | src/AST/AST.php:79 | the cursor reads the next token, or T_EOF at the end without moving |
| Ast.SkipWhitespace | src/AST/AST.php:214-216 | one whitespace token gives way to the token after it |
| Ast.CastQuotedEscaped | src/AST/AST.php:526-537 | a double- or single-quoted image whose quotes were escaped with `\` unescapes to the original text, as a non-variable string |
| Ast.CastValueOutcomes | src/AST/AST.php:506-550 | true/false/null and quoted images become non-variable literals; an unquoted int-like image becomes that integer and stays variable; anything else stays a variable string |
| Ast.CastIntegerImage | src/AST/AST.php:538-543 | an unquoted image that spells a 64-bit integer becomes that integer, still variable |
| Ast.CastQuotedPlain | src/AST/AST.php:526-537 | a quoted image without backslashes is kept as it is |
| Ast.ReadModifier | src/AST/AST.php:231-364 | one pass of specifier()'s do-while, as written, is the modifier-list function; the pass fails exactly when `PassError` names a reason (input ends, a stray comma or `)` after the first pass, a token that cannot be a modifier value, an unclosed quote, no `,` or `)` after the value), and with that reason |
| Ast.ReadValue | src/AST/AST.php:262-364 | the value part of a pass (an optional opening quote, the value token, the closing quote and separator) fails exactly when `ValueExit` names a reason, and otherwise continues the modifier list |
| Ast.CloseErrorAt | src/AST/AST.php:305-364 | the index-based `CloseError` agrees with the cursor-based end of a pass: an unclosed or mismatched quote, an input that ends after the value, a missing `,`/`)`, or no error |
| Ast.ReadModifierEnd | src/AST/AST.php:301-364 | the end of a pass as written: a quote error exactly when the closing quote is missing or differs from the opening one, "specifier not set" exactly when the input ends after it, a comma-separator error exactly when something other than `,` or `)` follows, and otherwise a modifier whose value is cast from the token and a pass that continues exactly after a comma |
| Ast.ParseModifiers | src/AST/AST.php:229-365 | the do-while over the modifiers computes the modifier list, or the first syntax error; every error is a format error, and a first pass that fails fails the whole list with its reason |
| Ast.ParseSpecifier | src/AST/AST.php:198-369 | specifier() as written computes the specifier function |
| Ast.ParseNamedSpecifier | src/AST/AST.php:228-368 | specifier() after its name, as written |
| Ast.ParseSpecifiers | src/AST/AST.php:184-188 | the loop over `|` collects the specifiers in order |
| Ast.ModifierListShapes | src/AST/AST.php:228-364 | the four error exits of the modifier list on concrete token shapes: end of input is "specifier not set", a leading comma a syntax error, an unclosed quote or a value at the very end a quote error, two values without a comma a comma-separator error; a value followed by `,` or `)` passes |
| Ast.SpecifierShapes | src/AST/AST.php:203-230 | no name after `\|` is "specifier not set"; a name without `(` has no modifiers; `()` gives none |
| Ast.LastModifier | src/AST/AST.php:278-364 | an unquoted modifier before `)` is cast and appended after the others |
| Ast.PartValue | src/AST/AST.php:457-462 | a condition part whose lookup fails with NotFoundKey reads as `false` |
| Ast.ReadPart | src/AST/AST.php:435-463 | a condition part is cast, given its specifiers and turned into text, as written |
| Ast.ReadConditionToken | src/AST/AST.php:426-465 | a token of the condition adds its text, as written |
| Ast.ParseConditionText | src/AST/AST.php:419-466 | the do-while collects the condition text up to `)` |
| Ast.ParseCondition | src/AST/AST.php:377-499 | condition() as written computes the condition function |
| Ast.PlainConditionText | src/AST/AST.php:420-466 | operators, whitespace and the like are copied into the condition text as they are |
| Ast.UnclosedCondition | src/AST/AST.php:468-476 | without a `)` the condition is "no close parentheses" |
| Ast.ConditionShapes | src/AST/AST.php:386-418 | end of input after the keyword is a syntax error, a missing `(` is "no open parentheses", an empty trimmed condition is "empty condition" |
| Ast.MissingPartIsFalse | src/AST/AST.php:457-462 | a part whose key is missing is spliced in as the text `false` |
| Ast.VariableAt | src/AST/AST.php:169-191 | variable() gives a variable node and moves the cursor forward |
| Ast.ParseVariable | src/AST/AST.php:169-191 | variable() as written, with a Counter object, computes the variable function |
| Ast.VariableKey | src/AST/AST.php:176-180 | an empty key takes the counter's value and raises the counter by one; a named key leaves it alone |
| Ast.PlainStep | src/AST/AST.php:118-142 | the else, endif and text branches never touch the statement balance or the counter |
| Ast.Step | src/AST/AST.php:79-143 | one pass of the loop moves the cursor forward |
| Ast.WalkOn | src/AST/AST.php:79-143 | a pass that succeeds hands its state to the rest of the loop |
| Ast.Finish | src/AST/AST.php:144-152 | after the loop: a positive balance is the "closed statements" error, a negative one the "opened statements" error, open conditions the "conditions" error, otherwise the nodes |
| Ast.TakeCondition | src/AST/AST.php:100-116 | the if/elseif branch as written, with the open-conditions Counter |
| Ast.TakePlain | src/AST/AST.php:118-142 | the else, endif and text branches as written |
| Ast.TakeToken | src/AST/AST.php:79-143 | one pass of the constructor loop as written computes Step |
| Ast.Construct | src/AST/AST.php:70-153 | the constructor as written computes the nodes of the specification, or its error |
| Ast.StatementMarks | src/AST/AST.php:81-91 | `{{` adds one to the statement balance and `}}` subtracts one |
| Ast.StepKeepsDepth | src/AST/AST.php:100-137 | every pass keeps the stack exactly as deep as the open-conditions count allows, and only appends nodes |
| Ast.WalkKeepsDepth | src/AST/AST.php:79-143 | so does the whole loop |
| Ast.ConditionsErrorMeansUnclosed | src/AST/AST.php:150-152 | after the loop the open-conditions count is the stack depth, so the conditions error means an `if` left open |
| Ast.HiddenAddsNothing | src/AST/AST.php:93-98 | text and variables under an unsatisfied stack add nothing |
| Ast.ShownText | src/AST/AST.php:139-142 | shown text becomes one unescaped text node |
| Ast.SatisfiedElseifIgnored | src/AST/AST.php:100-103 | an elseif under a satisfied stack changes nothing |
| Ast.IfPushes | src/AST/AST.php:489-494 | if pushes the value of its condition and counts it open |
| Ast.ElseifOverwrites | src/AST/AST.php:489-497 | (dispatched at lines 100-116) an elseif under an unsatisfied, non-empty stack replaces the top entry with its own condition, leaving the open-condition count and everything else as they were, and fails exactly when its condition fails; under satisfied outer entries, the new stack is satisfied exactly when that condition holds |
| Ast.ElseFlips | src/AST/AST.php:118-124 | else under an unsatisfied stack negates the top entry |
| Ast.ElseAfterShownBranch | src/AST/AST.php:126-128 | else under a satisfied stack sets the top entry to false, so what follows is hidden |
| Ast.EndifPops | src/AST/AST.php:131-137 | endif pops one entry and counts one condition closed |
| Ast.SegmentBuild | src/AST/AST.php:93-98 | one segment of text and a placeholder adds a text node (when there is text) and a variable node |
| Ast.TemplateBuild | src/AST/AST.php:79-143 | a template of segments keeps the balance and the stack, and only appends nodes |
| Ast.PlaceholderWalk | src/AST/AST.php:81-98 | `{{key}}` gives one variable node, numbered by the counter when the key is empty |
| Ast.SegmentWalk | src/AST/AST.php:79-143 | the tokens of one segment give SegmentBuild |
| Ast.TailWalk | src/AST/AST.php:139-142 | trailing text is the last text node |
| Ast.TemplateWalk | src/AST/AST.php:79-143 | the tokens of a whole template give TemplateBuild |
| Ast.BuildOfTemplate | src/AST/AST.php:70-153 | end to end, a template of text and placeholders builds the nodes of TemplateBuild |
| Conditions.AndFromIsConjunction | src/AST/Condition.php:20-22 | the reduce is the conjunction of the carry and every entry |
| Conditions.IsSatisfies | src/AST/Condition.php:17-23 | the stack is satisfied exactly when every entry is true, and an empty stack is satisfied; the copy in src/Condition.php:17-23 behaves the same |
| Conditions.PushSatisfies | src/AST/Condition.php:17-23 | after a push the stack is satisfied exactly when it was and the new entry is true |
| Conditions.TopDecides | src/AST/Condition.php:17-23 | a non-empty stack is satisfied exactly when the stack below the top is and the top is true |
| Counters.Counter.constructor | src/AST/Counter.php:15 | a counter starts at 0 |
| Counters.Counter.Increment | src/AST/Counter.php:20-23 | adds exactly one |
| Counters.Counter.Decrement | src/AST/Counter.php:28-31 | subtracts exactly one, possibly below zero |
| Counters.Counter.Get | src/AST/Counter.php:36-39 | returns the value without changing it |
| Values.LiteralValue | src/AST/AST.php:506-550 | a literal is a scalar or null |
| Values.GetValueInternal | src/AST/ValueTrait.php:27-49 | for a path of at least one segment, which every caller passes: only NotFoundKey can fail a lookup, and a single segment is one direct lookup; the copy in src/AST/TValue.php:26-47 behaves the same |
| Values.GetValueInternalConcat | src/AST/ValueTrait.php:37-43 | the lookup descends one segment at a time: resolving `p + q` is resolving `q` in the result of `p` |
| Values.GetValueInternalOfScalar | src/AST/ValueTrait.php:30-36 | a scalar or null has no entries, so every lookup in it fails with NotFoundKey |
| Values.Convert | src/AST/ValueTrait.php:121-140 | bool becomes `"true"`/`"false"`, null `"null"`, an array `"array"`, an integer its decimal form, a string itself; the copy in src/Formatter.php:169-188 behaves the same |
| Values.ConvertIsWord | src/AST/ValueTrait.php:121-140 | every value but a string or stringable object renders as a non-empty word, truthy except for 0 |
| Paths.ExplodePass | src/AST/ValueTrait.php:62-80 | one pass of explodePath's do-while, as written, is its step function |
| Paths.DropLast | src/AST/ValueTrait.php:75 | `mb_substr($s, 0, -1)` drops exactly the last character, and gives `""` for `""` |
| Paths.EscapedColonStep | src/AST/ValueTrait.php:74-80 | at `\:` the backslash ending the current segment is replaced by the colon |
| Paths.ExplodePath | src/AST/ValueTrait.php:56-84 | explodePath as written computes the segments of the specification, at least one; the copy in src/AST/TValue.php:55-82 behaves the same |
| Paths.PathSegments | src/AST/ValueTrait.php:56-84 | a path has at least one segment |
| Paths.CharAtReads | src/AST/ValueTrait.php:63-66 | the symbol and previous symbol as explodePath reads them |
| Paths.ExplodeOfJoin | src/AST/Variable.php:50-53 | `explode` undoes `implode` of pieces free of the separator |
| Paths.ExplodeWithoutSeparator | src/AST/Variable.php:50-53 | a string without the separator is one piece |
| Paths.ExplodeConcat | src/AST/Variable.php:50-53 | `explode` of `x:y` is the pieces of `x`, then those of `y` |
| Paths.PathSegmentsOfPlainPath | src/AST/ValueTrait.php:56-84 | without backslashes, explodePath is `explode(':')` with the empty pieces before the last dropped |
| Paths.PathSegmentsOfKey | src/AST/ValueTrait.php:56-84 | a plain key is one segment |
| Paths.PathSegmentsOfEmptyPath | src/AST/ValueTrait.php:56-84 | `""` gives `[""]` |
| Paths.PathSegmentsTrailingSeparator | src/AST/ValueTrait.php:56-84 | `a:` gives `["a", ""]` |
| Paths.PathSegmentsDoubledSeparator | src/AST/ValueTrait.php:66-70 | `a::b` gives `["a", "b"]` |
| Paths.PathSegmentsEscapedColon | src/AST/ValueTrait.php:74-80 | `a\:b` gives the one segment `a:b`; the copy in src/AST/TValue.php:65-79 behaves the same |
| Paths.PathSegmentsLeadingColon | src/AST/ValueTrait.php:63-66 | a leading `:` counts as escaped when the path ends in a backslash |
| Nodes.PlainLookup | src/AST/Modifier.php:44-46 | the plain-explode lookup fails only with NotFoundKey |
| Nodes.PlainLookupOfJoin | src/AST/Variable.php:50-53 | colon-joined keys descend one key per segment |
| Nodes.PlainLookupOfKey | src/AST/Variable.php:50-53 | a key without a colon is one direct lookup |
| Nodes.ModifierValue | src/AST/Modifier.php:42-49 | a non-variable modifier gives its literal; only a variable modifier can fail, with NotFoundKey |
| Nodes.ModifierResolvesPath | src/AST/Modifier.php:44-46 | a variable modifier naming `k1:k2:…` reads the nested entry |
| Nodes.ModifierOfMissingKey | src/AST/Modifier.php:44-46 | a variable modifier naming a missing key fails with NotFoundKey, with no fallback |
| Nodes.ModifierValues | src/AST/ValueTrait.php:102-105 | the modifier values in order, or the first failure |
| Nodes.ModifierValuesFailEarly | src/AST/ValueTrait.php:102-105 | once a prefix fails, the whole list fails the same way |
| Nodes.CollectArguments | src/AST/ValueTrait.php:101-105 | the inner foreach as written computes the modifier values |
| Nodes.ApplySpecifiers | src/AST/ValueTrait.php:94-114 | an empty list gives the value back unchanged |
| Nodes.ApplySpecifiersConcat | src/AST/ValueTrait.php:94-114 | applying `a + b` applies `a`, then `b` to its output |
| Nodes.ApplyStep | src/AST/ValueTrait.php:96-111 | each turn feeds the previous output to the next specifier, and a failure ends the fold |
| Nodes.ApplySpecifier | src/AST/ValueTrait.php:94-114 | the foreach as written computes the fold |
| Nodes.Escaped | src/AST/ConditionPart.php:49-51 | only strings are escaped |
| Nodes.ConditionPartValue | src/AST/ConditionPart.php:43-64 | a non-variable part gives its literal; NotFoundKey escapes only from a variable part whose value is not numeric |
| Nodes.ConditionPartOfKey | src/AST/ConditionPart.php:45-53 | a found key without specifiers gives the escaped entry |
| Nodes.ConditionPartOfMissingKey | src/AST/ConditionPart.php:54-59 | a missing key gives the raw value back when it is numeric, and fails with NotFoundKey otherwise |
| Nodes.ConditionPartOfInteger | src/AST/ConditionPart.php:54-57 | an integer part never fails with NotFoundKey |
| Nodes.VariableValue | src/AST/Variable.php:50-53 | a variable's lookup fails only with NotFoundKey |
| Nodes.VariableResolvesPath | src/AST/Variable.php:50-53 | a variable naming `k1:k2:…` reads the nested entry |
| Nodes.EscapedColonSplitsOnlyInConditions | src/AST/Variable.php:50-53 | a variable splits `a\:b` at the colon and keeps the backslash, while a condition part reads the key `a:b` |
| Formatting.DoublePercent | src/Formatter.php:36-40 | shown text never gets shorter |
| Formatting.ReplacePercent | src/Formatter.php:37 | `str_replace('%', '%%', …)` doubles every `%` |
| Formatting.PrintedDoubled | src/Formatter.php:36-40 | doubled text comes out of sprintf as it went in |
| Formatting.GetValue | src/Formatter.php:124-146 | nothing exactly when getValueInternal fails: a missing segment or a value on the way that is no container |
| Formatting.GetValueIsLookup | src/Formatter.php:124-146 | the older lookup finds the converted leaf exactly when getValueInternal finds a value |
| Formatting.GetValueWithKey | src/Formatter.php:154-162 | a value that is not found is written back as `{{fullKey}}` |
| Formatting.MissingKeyWrittenBack | src/Formatter.php:154-162 | a missing plain key is written back as typed |
| Formatting.ConditionValue | src/Formatter.php:51-53 | false when the lookup of the image split on `:` fails, otherwise the truthiness of the rendered leaf |
| Formatting.ConditionValueOfKey | src/Formatter.php:51-53 | a missing key is false, an entry `0` is false, and an entry `false` is true |
| Formatting.ExplodeKey | src/Formatter.php:52 | a key without a colon is one segment |
| Formatting.Suffix | src/Formatter.php:97-102 | the suffix after `%N` starts with `$`: `$s`, or `$` and the following format token |
| Formatting.Format | src/Formatter.php:23-110 | the loop as written computes the format string and arguments of the specification, or its error |
| Formatting.TakeToken | src/Formatter.php:32-104 | the body of the loop as written computes one step |
| Formatting.TakeCondition | src/Formatter.php:42-65 | the if/elseif branch as written |
| Formatting.TakePlaceholder | src/Formatter.php:79-103 | the placeholder branch as written |
| Formatting.TextStep | src/Formatter.php:36-40 | shown text is appended so that sprintf prints it as it was; hidden text changes nothing |
| Formatting.ConditionStep | src/Formatter.php:42-65 | with `(`, a condition and `)` ahead, if pushes the value and counts it open, and elseif overwrites a non-empty top |
| Formatting.BareConditionWord | src/Formatter.php:42-50 | without them, if/elseif is an ordinary token: a placeholder right after `{{` under a satisfied stack, otherwise nothing |
| Formatting.EndifElseStep | src/Formatter.php:66-78 | endif pops and counts one condition closed; else negates a non-empty top |
| Formatting.PlaceholderStep | src/Formatter.php:83-102 | a placeholder appends exactly one argument, writes `%N$…` with N its 1-based position, and uses the counter as the key when its token is not a variable |
| Formatting.StepGrows | src/Formatter.php:32-104 | a step only appends to the format string and the arguments, and keeps the stack as deep as the open count allows |
| Formatting.WalkGrows | src/Formatter.php:32-104 | so does the whole loop |
| Formatting.FormatOutcome | src/Formatter.php:105-109 | the error means an `if` left open; otherwise the format string comes first and the arguments after it |
| Declension.RuleNumber | src/Specifier/Declension.php:29-34 | the number the rule looks at is the remainder by 100, reduced to its last digit above 19 |
| Declension.Format | src/Specifier/Declension.php:17-44 | any modifier count but three is an error, and the result is always one of the three modifiers |
| Declension.FormatDependsOnRemainder | src/Specifier/Declension.php:31-34 | the choice depends only on `$value % 100` |
| Declension.TeensTakeThirdForm | src/Specifier/Declension.php:31-44 | 11 to 19 take the third form |
| Declension.LastDigitDecides | src/Specifier/Declension.php:31-42 | otherwise a last digit of 1 takes the first form, 2 to 4 the second, any other the third |
| Declension.NegativeTakesThirdForm | src/Specifier/Declension.php:31-44 | a negative number always takes the third form |
| Declension.FormatOfLargeYear | tests/Specifier/DeclensionTest.php:45-51 | 32345433343 takes "года" |
| Phone.DigitsOf | src/Specifier/Phone.php:26-27 | the result holds only digits, each taken from the value, and is no longer than the value; the lemmas below pin it down as the digits in order |
| Phone.DigitsOfChar | src/Specifier/Phone.php:26-27 | one character is kept exactly when it is a digit |
| Phone.DigitsOfConcat | src/Specifier/Phone.php:26-27 | the digits of `a + b` are the digits of `a` followed by those of `b`, so every digit is kept and the order is kept |
| Phone.DigitsOfDigits | src/Specifier/Phone.php:26-27 | a value of digits only is left whole |
| Phone.FillStep | src/Specifier/Phone.php:33-47 | one mask character adds at most one output character and takes at most one digit |
| Phone.Format | src/Specifier/Phone.php:17-25 | an error exactly when the modifier count is not one or the mask is empty |
| Phone.FormatPhone | src/Specifier/Phone.php:17-50 | format() as written, with its do-while, computes the specification |
| Phone.FillIsShort | src/Specifier/Phone.php:33-47 | after k mask characters the output holds at most k characters |
| Phone.FormatIsShort | src/Specifier/Phone.php:33-47 | the output is never longer than the mask |
| Phone.TakenIsPrefix | src/Specifier/Phone.php:40-44 | the digits placed are a prefix of the value's digits, in order |
| Phone.LiteralIsCopied | src/Specifier/Phone.php:46 | a mask character that is neither `d` nor a digit is copied as it is |
| Phone.MismatchIsSticky | src/Specifier/Phone.php:37-39 | once the value disagrees with a mask digit, it stays in disagreement |
| Phone.MaskDigitCopiedAfterMismatch | src/Specifier/Phone.php:37-46 | after a mismatch, mask digits are copied from the mask |
| Time.UnitRow | src/Specifier/Time.php:47-52 | a unit names a row that has a divisor |
| Time.Floor | src/Specifier/Time.php:80 | `floor` of a division: the largest n with n·d ≤ value |
| Time.Ceil | src/Specifier/Time.php:93 | `ceil` of a division: the smallest n with value ≤ n·d |
| Time.FirstCovering | src/Specifier/Time.php:83-94 | the first row whose threshold is at least the value, none before it |
| Time.TableIsWellFormed | src/Specifier/Time.php:17-42 | every row's label key exists and every divisor is positive |
| Time.Format | src/Specifier/Time.php:57-100 | more than one modifier is an error; an unknown unit is an error; no modifier never fails |
| Time.ScanIndex | src/Specifier/Time.php:83-99 | the row the foreach settles on is in the table |
| Time.FormatWithoutUnit | src/Specifier/Time.php:83-99 | without a unit, the first covering row decides, and values past the table use ceil in days |
| Time.ScanIsBucket | src/Specifier/Time.php:83-99 | what the scan prints is the bucket of the value |
| Time.FormatWithUnit | src/Specifier/Time.php:75-81 | with a unit, the count is floor(value / divisor), a space and the unit's label |
| Time.UnitIsCaseInsensitive | src/Specifier/Time.php:68 | unit names are matched case-insensitively |
| Time.FormatOneSecondInDays | tests/Specifier/TimeTest.php:160 | one second in days is "0 д." |
| Time.FormatHundredDays | tests/Specifier/TimeTest.php:114-121 | a hundred days is "100 д." |
| Time.TimeLabels.constructor | src/Specifier/Time.php:32-42 | the labels start as the default table |
| Time.TimeLabels.SetTimes | src/Specifier/Time.php:107-117 | succeeds exactly when all nine keys are present, and then replaces the labels; otherwise it names the first missing key, in the order of the table, and leaves the labels unchanged |

## Left out

- Floating point:
  - the float branch of castValue (src/AST/AST.php:544-548);
  - `convert` of floats;
  - the Memory and Price specifiers.
- `expression()` (src/AST/AST.php:555-579) runs PHP's tokenizer and `eval`. It is the parameter `Env.eval`, applied to the finished condition text.
- `Safe::unescape` is the parameter `Env.unescape`; src/Safe.php is not part of this model.
- `htmlspecialchars` is the parameter `escape`.
- `var_export` is the parameter `Env.exported`.
- The specifier registry (`Formatter::getSpecifier`) and the specifiers' `format` are the parameters `known` and `format`.
- The Sprintf, Escape, UnEscape and Date specifiers call PHP built-ins (`sprintf`, `htmlspecialchars*`, `date`/`strtotime`). They are not modelled.
- The final `sprintf` of src/Formatter.php:111 is not modelled either. The model stops at the format string and its arguments, and `Formatting.Printed` describes only how sprintf reads `%%`.
- The tokenizer's base class (`next`, `lookAt*`, `getCount`, line and column positions) is not part of this model.
  - The driver loop `Scanner.Run` is the assumed behaviour.
  - The token cursor is an index into the token list.
  - Error messages carry no positions.
- The tokenizer that src/Formatter.php reads is not part of this model. `Formatting.Format` takes its token list as input.
- Collection semantics on an empty condition stack are not fixed by the code shown: `set(count - 1, …)` under a top-level `else`, and `delete(count - 1)` under a top-level `endif`. Both end the model's walk with `Unmodelled`. The key renumbering of `resetKeys` after a delete is not modelled; the stack is a sequence.
- The AST object is reduced to its node list. The getters of Text, Specifier, Variable and ConditionPart return their constructor arguments and are the datatypes' fields.
- Nodes.ConditionPartValue: does not follow the letter of `ConditionPart::getValue`.
  - Under PHP's visibility rules a subclass cannot see the private `value` and `isVariable` of `Modifier`; it reads them as undefined, that is null. So the method as written returns null without any lookup, and its `applySpecifier` call, which `TValue` does not define, is never reached.
  - The model gives the part its own `value`, `isVariable` and `modifierValues`, and applies specifiers with `ValueTrait::applySpecifier`. It does not capture the null result.
- The image round trip of the tokenizer is proved for templates of plain text and `{{key}}` placeholders only. It does not hold for every input: a `|` can leave an untyped image that is then overwritten.
- `mb_strtolower` is modelled on ASCII letters only. The tables it is compared with are ASCII.
- `Time.Format`: the rounded count is written as an integer. PHP's `floor`/`ceil` give a float, and PHP writes a float with more than 14 significant digits in exponent form.
- `Time.Format`, `Declension.Format`, `Phone.Format`: the `(int)` and `(string)` casts of the value are left out. The value arrives as an integer or a string.
- src/configure.php and the interface files hold no logic.
