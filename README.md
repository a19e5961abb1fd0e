# glox front end in Dafny

This project models the front end of glox, a tree-walking interpreter for the Lox
language written in Go. The model covers five parts:

- the byte-level scanner (`glox/scan.go`);
- the token vocabulary (`glox/token.go`);
- the recursive-descent expression parser (`glox/parser.go`);
- the expression tree and its S-expression printer (`glox/expr.go`);
- the chain of variable scopes (`glox/env.go`).

The modules are:

- `Tokens` (`tokens.dfy`) holds the token kinds, the reserved-word and kind-name
  tables, `TokenType.String`, the ASCII character classes, and the `Token` record.
  A source byte is a `char` below 256.
- `Scanning` (`scanner.dfy`) defines pure functions `Step`, `Run` and `Scan`.
  They say what one call of `scanToken`, the loop of `ScanTokens` and a whole scan
  do. The class `Scanner` has the Go scanner's fields: `current`, `line`,
  `visitedLinesLen` and `tokens`. Each method is proved to change them exactly as
  the matching function says.
- `ScanningProps` (`scanner_props.dfy`) proves what the scanner promises, as
  lemmas about those functions.
- `Ast` (`ast.dfy`) defines the expression datatype and `ExprToString`, with
  `parenthesize` written as a fold. It proves the printed forms of each variant,
  and that the parentheses of the output balance.
- `Parsing` (`parser.dfy`) defines pure functions, one per precedence routine,
  giving the result of parsing from a cursor position. The class `Parser` holds
  the token sequence and the `current` cursor. Each method is proved to return
  what the matching function says and to leave the cursor after what it parsed.
- `ParsingProps` (`parser_props.dfy`) writes the expression grammar out
  independently as `InLevel`. It proves that every parse result is in the grammar,
  and that parsing the tokens of any grammatical expression gives that expression
  back (`ParseInvertsFlatten`). Left associativity and precedence follow from
  these two theorems, and examples show them on concrete token sequences.
- `Env` (`env.dfy`) models `Environment` as a class chain. It sees the chain
  through `Scopes()`, the maps from the innermost scope outwards. `Get` and `Set`
  are proved equal to `Lookup` and `UpdateInnermost` on that sequence.

The model follows the code as written, including these quirks:

- In three places, `scanToken` reads past the cursor without a bound check in
  front of the read. At `glox/scan.go:69` and `:138` the loop test reads the byte
  under the cursor before it checks the bound. At `:156` the byte under the cursor
  and the one after a dot are read with no check at all. Reading past the end is a
  run-time fault in Go. In the model it is an explicit outcome: `Fault(index)` for
  a step and `Panicked(index)` for a whole scan. The fault happens for a comment at
  the end of input, an unterminated string, and a number (or a number and a dot) at
  the end of input. So the unterminated-string error at `glox/scan.go:145-146` is
  never reached.
- Inside a string, a newline sets the line start to the newline's own offset
  (`glox/scan.go:141`). The main loop sets it to the offset after the newline
  (`glox/scan.go:63`). So after a string that spans lines, columns on the
  string's last line are one larger than elsewhere
  (`StringLineStartExample`).
- A `//` comment bumps the line counter without consuming its newline, and the
  newline bumps it again (`CommentCountsItsNewlineTwice`).
- `Comparison` matches `=` rather than `>=` (`EqualIsComparisonExample`,
  `GreaterEqualStopsExample`).
- Number literals keep their text: the payload of a number token is its lexeme
  (`glox/scan.go:163`), and a number literal expression carries that payload
  unchanged (`glox/parser.go:133-134`, `PrimaryLiteral`).

## Model

| member | source | states |
|---|---|---|
| Tokens.TokenTypeString | glox/token.go:125-130 | a kind in the name table prints as its table name; any other value prints as `TokenType(n)` with `n` in decimal |
| Tokens.TokenTypeStringInjective | glox/token.go:80-130 | two kinds print the same exactly when they are the same kind |
| Tokens.TokenNamesDomain | glox/token.go:80-122 | the name table covers exactly the kinds from `None` to `EOF` |
| Tokens.NameIsNoFallback | glox/token.go:125-130 | no name in the table has the `TokenType(n)` form printed for other values |
| Tokens.TokenNamesDistinct | glox/token.go:80-122 | distinct kinds have distinct names |
| Tokens.ReservedKeywordsWords | glox/token.go:61-78 | the reserved-word table holds exactly the sixteen listed words |
| Tokens.ReservedKeywordsTable | glox/token.go:61-78 | every reserved word is mapped to a keyword kind |
| Tokens.ReservedKeywordsInjective | glox/token.go:61-78 | distinct reserved words map to distinct kinds |
| Tokens.ReservedWordOfKind | glox/token.go:61-122 | the printed name of every keyword kind is a reserved word, and that word is scanned as the kind |
| Tokens.ReservedKeywordsCoverKeywords | glox/token.go:61-78 | every keyword kind is the kind of some reserved word |
| Tokens.ReservedKeywordNames | glox/token.go:61-122 | the name of each reserved word's kind is the word itself |
| Tokens.IsDigit | glox/token.go:149-151 | holds exactly for the byte values 48-57 |
| Tokens.IsAlpha | glox/token.go:153-156 | holds exactly for the byte values 65-90, 97-122 and 95 (`_`), and never for a digit |
| Tokens.IsAlphaNumeric | glox/token.go:158-160 | holds exactly for a digit, a letter or `_` |
| Tokens.KindName | glox/token.go:80-122 | each named kind's table name identifies the kind: reading the name back gives the kind |
| Tokens.NatDecimalRoundTrip | glox/token.go:129 | the decimal text used by `TokenType(n)` reads back as `n` |
| Tokens.IntDecimalInjective | glox/token.go:129 | distinct integers print as distinct decimal text |
| Scanning.MakeToken | glox/scan.go:179-203 | a token's lexeme is the source between start and cursor, and its span is as long as its lexeme |
| Scanning.Emit | glox/scan.go:179-203 | appending a token keeps every earlier token and adds exactly one |
| Scanning.RunEnd | glox/scan.go:153-154 | a scanning loop stops at the first byte failing its test, or at the end of the source, and every byte passed satisfies the test |
| Scanning.StringScan | glox/scan.go:138-144 | the string loop stops at the first quote or the end, and never moves the line start past its stopping point |
| Scanning.CommentStep | glox/scan.go:66-79 | the comment case faults one byte past the end when no newline follows the comment; otherwise the state stays well-formed and the cursor moves forward |
| Scanning.StringStep | glox/scan.go:137-149 | the string case faults one byte past the end when no closing quote follows; otherwise the state stays well-formed and the cursor moves past the closing quote |
| Scanning.NumberStep | glox/scan.go:152-163 | the number case faults only one byte past the end (a number, or a number and a dot, at the end of input); otherwise the state stays well-formed and the cursor does not move back |
| Scanning.WordStep | glox/scan.go:165-170 | the identifier case never faults, keeps the state well-formed and does not move the cursor back |
| Scanning.PunctuationStep | glox/scan.go:84-134 | the one- and two-byte operator cases never fault, keep the state well-formed and do not move the cursor back |
| Scanning.Step | glox/scan.go:50-176 | one `scanToken` call either faults by reading exactly one byte past the end, or keeps the state well-formed and moves the cursor forward (so `ScanTokens` terminates) |
| Scanning.EofToken | glox/scan.go:34-43 | the end token has kind EOF, an empty lexeme, no literal, the line after the last one counted and an empty span at column 0 |
| Scanning.Run | glox/scan.go:26-48 | the loop of `ScanTokens` faults only one byte past the end; otherwise it ends at the end of the source with the EOF token last; it succeeds only when no error was collected, returning the tokens, and it reports every collected error |
| Scanning.Scan | glox/scan.go:26-48 | a whole scan faults only one byte past the end, reports at least one error when it fails, and when it succeeds returns tokens ending in an EOF token |
| Scanning.Scanner.constructor | glox/scan.go:18-24 | a new scanner holds the source, sits at offset 0 on line 0 and has no tokens |
| Scanning.Scanner.ScanTokens | glox/scan.go:26-48 | the loop over `scanToken` leaves the fields and returns the result exactly as `Run` from the old state, with no errors yet |
| Scanning.Scanner.ScanToken | glox/scan.go:50-176 | one call changes the fields and reports the outcome exactly as `Step` does |
| Scanning.Scanner.ScanComment | glox/scan.go:66-80 | the comment branch changes the fields exactly as `CommentStep` does, including its fault at the end of input |
| Scanning.Scanner.ScanString | glox/scan.go:137-149 | the string branch changes the fields exactly as `StringStep` does |
| Scanning.Scanner.SkipStringBody | glox/scan.go:138-144 | the string loop moves the cursor, the line counter and the line start exactly as `StringScan` says |
| Scanning.Scanner.ScanNumber | glox/scan.go:152-163 | the number branch changes the fields exactly as `NumberStep` does |
| Scanning.Scanner.ScanWord | glox/scan.go:165-170 | the identifier branch changes the fields exactly as `WordStep` does |
| Scanning.Scanner.SkipWhile | glox/scan.go:153-154 | a cursor-advancing loop stops where `RunEnd` says |
| Scanning.Scanner.AddToken | glox/scan.go:179-190 | appends one token with the kind, the lexeme between start and cursor, no literal, and the line and columns relative to the line start |
| Scanning.Scanner.AddLiteralToken | glox/scan.go:192-203 | as `AddToken`, carrying the given literal |
| Scanning.Scanner.AddIdentifier | glox/scan.go:205-211 | appends a token whose kind is the reserved word's kind when the lexeme is reserved, and `Identifier` otherwise |
| ScanningProps.StringScanCountsLines | glox/scan.go:138-144 | the string loop adds one to the line counter for each newline it passes |
| ScanningProps.StringStepSpec | glox/scan.go:137-149 | a string faults exactly when no quote follows; otherwise its lexeme includes both quotes, its literal is the bytes between them, and the line counter grows by the newlines inside |
| ScanningProps.StepString | glox/scan.go:137 | a `"` under the cursor selects the string branch |
| ScanningProps.CommentStepSpec | glox/scan.go:66-80 | a comment faults exactly when no newline follows; otherwise its lexeme runs from `//` up to the newline, which is not consumed, its literal drops one leading space from a text longer than one byte, and the line counter grows by one |
| ScanningProps.StepComment | glox/scan.go:66-67 | `//` under the cursor selects the comment branch |
| ScanningProps.CommentCountsItsNewlineTwice | glox/scan.go:60-63 | a comment and the newline after it together add two to the line counter |
| ScanningProps.NumberStepSpec | glox/scan.go:152-163 | a number faults exactly when its digits, or its digits and a dot, end the source; otherwise its lexeme is the longest digits or digits-dot-digits text at the cursor, and its literal is that text |
| ScanningProps.StepNumber | glox/scan.go:152 | a digit under the cursor selects the number branch |
| ScanningProps.WordStepSpec | glox/scan.go:165-170 | a word is the longest run of letters, digits and `_` from a letter or `_`; it gets the keyword kind exactly when it is reserved, and `Identifier` otherwise |
| ScanningProps.StepWord | glox/scan.go:165-170 | a letter or `_` under the cursor selects the identifier branch |
| ScanningProps.OperatorStepSpec | glox/scan.go:107-134 | `!`, `=`, `<` and `>` followed by `=` give the two-byte token and consume both bytes; otherwise they give the one-byte token |
| ScanningProps.UnexpectedStepSpec | glox/scan.go:171-173 | a byte that starts no token is an error carrying the byte, the 1-based line and the column after it, and the cursor moves past it |
| ScanningProps.UnexpectedDoesNotStop | glox/scan.go:28-32 | after an error the scan loop goes on with the error recorded |
| ScanningProps.StepTokenSpansLexeme | glox/scan.go:179-203 | every token a step adds has the consumed bytes as its lexeme, a span as long as its lexeme, and is not EOF; an error adds no token |
| ScanningProps.RunSpec | glox/scan.go:26-48 | the scan loop ends at the end of the source with one EOF token after all others; once an error is recorded the scan reports errors, including every one recorded |
| ScanningProps.StepKeepsBodyTokens | glox/scan.go:50-203 | a step that does not fault keeps the tokens so far and adds at most one token, which is not EOF and spans its lexeme |
| ScanningProps.RunAtEnd | glox/scan.go:34-47 | at the end of the source the loop appends the EOF token on the line after the last counted, and reports the errors if there are any and the tokens otherwise |
| ScanningProps.RunOutcomeBack | glox/scan.go:28-33 | what the loop leaves from a later state, with more tokens and errors, is also what it leaves from the earlier state |
| ScanningProps.ScanSpec | glox/scan.go:26-48 | a successful scan ends with exactly one EOF token with an empty lexeme, no literal, the line after the last one counted and an empty span; every other token's span is as long as its lexeme |
| ScanningProps.OperatorsExample | glox/scan.go:107-120 | `!==` scans as `!=`, `=`, EOF |
| ScanningProps.CommentLineExample | glox/scan.go:60-82 | `// hi` then a newline and `x` gives a comment token with literal `hi`, then `x` on line 2 |
| ScanningProps.StringLineStartExample | glox/scan.go:137-149 | after a string holding a newline, the next token's columns are one larger than after a plain newline, and the string token starts at column -1 |
| ScanningProps.FaultExamples | glox/scan.go:66-163 | a comment (the loop test at line 69), a string (line 138), and a number or a number with a trailing dot (line 156) at the end of input each fault one byte past the end |
| ScanningProps.UnexpectedExample | glox/scan.go:165-173 | `@+#` reports both unexpected bytes with their columns, in order |
| Ast.ValueString | glox/expr.go:28-32 | a text payload prints unchanged; `nil` and the booleans print as one of `nil`, `true`, `false` |
| Ast.SpaceEach | glox/expr.go:14-17 | with at least one part the output starts with a space |
| Ast.ExprToString | glox/expr.go:22-37 | every expression but a literal prints as a parenthesised form, starting with `(` and ending with `)` |
| Ast.Parenthesize | glox/expr.go:10-20 | the output starts with `(` and ends with `)`, and between them is the name followed by each part with one space before it |
| Ast.SpaceEachLength | glox/expr.go:14-17 | the loop adds exactly one byte besides the parts for each part |
| Ast.ParenthesizeOne | glox/expr.go:10-20 | with one part the output is `(name part)` |
| Ast.ParenthesizeTwo | glox/expr.go:10-20 | with two parts the output is `(name a b)` |
| Ast.RenderCompound | glox/expr.go:24-27 | a unary renders as `(op right)`, a binary as `(op left right)`, a grouping as `(group inner)` |
| Ast.RenderLiteral | glox/expr.go:28-32 | a nil literal renders as `nil`, a boolean as `true` or `false`, a string as itself |
| Ast.RenderBalanced | glox/expr.go:10-37 | when no operator lexeme or literal contains a parenthesis, the output's parentheses balance and no prefix closes more than it opens |
| Parsing.AtEnd | glox/parser.go:17-19 | when the cursor is not at the end it is on a token that is not EOF, and another token follows |
| Parsing.CheckKind | glox/parser.go:40-45 | `check` holds only on a non-EOF token of the kind, with another token after it |
| Parsing.MatchAny | glox/parser.go:48-56 | `match` holds only on a non-EOF token of one of the kinds, with another token after it |
| Parsing.Ops | glox/parser.go:76-114 | no binary level takes `>=`, EOF, a comment or `)` as an operator |
| Parsing.AdvancePos | glox/parser.go:27-33 | `advance` stays on the last token or EOF and otherwise moves one token on |
| Parsing.SkipComments | glox/parser.go:69-72 | the comment loop stops on the first token that is not a comment (or at the end), having passed only comments |
| Parsing.ParseExpression | glox/parser.go:68-74 | a successful parse consumes at least one token and leaves the cursor on a token |
| Parsing.ParseLevel | glox/parser.go:76-114 | as `ParseExpression`, for each binary level |
| Parsing.ParseLevelLoop | glox/parser.go:78-82 | the operator loop of a binary level leaves the cursor on a token at or after where it started |
| Parsing.ParseUnary | glox/parser.go:116-123 | as `ParseExpression`, for `unary` |
| Parsing.ParsePrimary | glox/parser.go:125-145 | as `ParseExpression`, for `primary` |
| Parsing.ParseTokens | glox/parser.go:147-149 | parsing no tokens fails, and a successful parse of a whole sequence consumes at least one token and leaves the cursor on a token |
| Parsing.Parser.constructor | glox/parser.go:10-15 | a new parser holds the tokens with the cursor at 0 |
| Parsing.Parser.IsAtEnd | glox/parser.go:17-19 | true exactly on an EOF token or the last token |
| Parsing.Parser.Peek | glox/parser.go:22-24 | returns the token under the cursor |
| Parsing.Parser.Advance | glox/parser.go:27-33 | returns the token under the cursor and moves as `AdvancePos` says |
| Parsing.Parser.Previous | glox/parser.go:35-37 | returns the token before the cursor |
| Parsing.Parser.Check | glox/parser.go:40-45 | false at the end, otherwise whether the current token has the kind |
| Parsing.Parser.Match | glox/parser.go:48-56 | takes one token exactly when `check` holds for one of the kinds, and none otherwise |
| Parsing.Parser.Consume | glox/parser.go:59-66 | when the current token has the kind, advances as `advance` does; otherwise it returns an error naming the expected and actual kinds and the position, and the cursor stays |
| Parsing.Parser.Expression | glox/parser.go:68-74 | skips comments and parses an equality, returning what `ParseExpression` says |
| Parsing.Parser.Equality | glox/parser.go:76-84 | returns what `ParseLevel` at level 4 says |
| Parsing.Parser.Comparison | glox/parser.go:86-94 | returns what `ParseLevel` at level 3 says |
| Parsing.Parser.Term | glox/parser.go:96-104 | returns what `ParseLevel` at level 2 says |
| Parsing.Parser.Factor | glox/parser.go:106-114 | returns what `ParseLevel` at level 1 says |
| Parsing.Parser.Operand | glox/parser.go:77-80 | the operand of each binary level is parsed by the level below it, returning what `ParseLevel` says for that level |
| Parsing.Parser.BinaryLevel | glox/parser.go:76-114 | the shared loop of the four binary levels returns what `ParseLevel` says |
| Parsing.Parser.Unary | glox/parser.go:116-123 | returns what `ParseUnary` says |
| Parsing.Parser.Primary | glox/parser.go:125-145 | returns what `ParsePrimary` says, with each panic as `Failed` |
| Parsing.Parser.Parse | glox/parser.go:147-149 | from a fresh parser, returns the parse of the whole token sequence |
| ParsingProps.MatchAnySpec | glox/parser.go:17-56 | `match` takes the current token exactly when its kind is listed, it is not EOF and it is not the last token, so it never takes EOF |
| ParsingProps.AdvanceSpec | glox/parser.go:17-33 | `advance` never moves past the last token, and moves exactly when not at the end |
| ParsingProps.ExpressionSkipsComment | glox/parser.go:68-74 | a leading comment token is passed over |
| ParsingProps.ExpressionWithoutComment | glox/parser.go:68-74 | without a leading comment, `Expression` is `Equality` |
| ParsingProps.OpsDisjoint | glox/parser.go:76-114 | no operator kind belongs to two binary levels |
| ParsingProps.InLevelMonotone | glox/parser.go:76-123 | every expression of a tighter level is also one of each looser level |
| ParsingProps.ParseExpressionSound | glox/parser.go:68-74 | every expression `Expression` returns is in the grammar |
| ParsingProps.ParseLevelSound | glox/parser.go:76-114 | each binary level returns an expression of that level: left-nested, its operators from that level, operands from the level below |
| ParsingProps.ParseLevelLoopSound | glox/parser.go:76-114 | each round of a level's loop keeps the left-hand side in that level |
| ParsingProps.ParseUnarySound | glox/parser.go:116-123 | `unary` returns prefix operators over a primary |
| ParsingProps.ParsePrimarySound | glox/parser.go:125-145 | `primary` returns a literal or a grouping |
| ParsingProps.PrimaryLiteral | glox/parser.go:127-134 | for any token not in last place, whatever its lexeme and position: `false`, `true` and `nil` give that literal, and a number or string token gives a literal carrying the token's payload unchanged |
| ParsingProps.PrimaryGrouping | glox/parser.go:135-142 | for any `(` not in last place: an error inside is the error of the whole; a `)` after the inner expression closes a grouping and is taken as `advance` takes it; any other token there is an error expecting `)` and naming that token's kind and position |
| ParsingProps.PrimaryExpectedExpression | glox/parser.go:125-145 | a token that starts no expression, or any token in last place, gives the expected-expression error naming its kind and position, and so does the whole expression when no comment is skipped first |
| ParsingProps.LeafToken | glox/parser.go:127-134 | the token written for a literal value is the token the scanner makes for it: a `nil`, `true` or `false` keyword token with no payload, or a number token whose payload is its lexeme |
| ParsingProps.FlattenStart | glox/parser.go:68-74 | a grammatical expression never starts with a comment token |
| ParsingProps.LiteralRoundTrip | glox/parser.go:127-134 | the token written for a literal (a keyword, or a number token carrying its text), not in last place, parses as that literal; any literal-kind token is covered by `PrimaryLiteral` |
| ParsingProps.GroupingRoundTrip | glox/parser.go:135-142 | `(`, an expression and a `)` that is not the last token parse as a grouping, ending after the `)` |
| ParsingProps.LoopStep | glox/parser.go:78-82 | one round of a level's loop makes the operator and the next operand the right-hand side of a new node over everything so far |
| ParsingProps.LevelPrefix | glox/parser.go:76-114 | the tokens of an expression of a level, then a token that is no lower-level operator, reach that level's loop with the whole expression on the left |
| ParsingProps.OperatorStops | glox/parser.go:76-114 | an operator of a binary level does not continue any tighter level |
| ParsingProps.LevelEntersLoop | glox/parser.go:76-114 | a binary level parses the next level down and enters its loop with the result |
| ParsingProps.LevelPrefixBinary | glox/parser.go:76-114 | for a binary node of the level, laid out as left operand, operator and right operand, parsing reaches the level's loop with the whole node on the left |
| ParsingProps.LoopTakesRight | glox/parser.go:78-82 | on the operator of a binary node, the loop takes the operator and the right operand, building the node over the left operand |
| ParsingProps.UnaryCase | glox/parser.go:116-134 | the tokens of a prefix-operator or literal expression, not in last place, parse back to it through `unary` |
| ParsingProps.GroupingCase | glox/parser.go:135-142 | the tokens of a grouping, not in last place, parse back to it through `unary` |
| ParsingProps.GroupingParts | glox/parser.go:135-142 | `(`, the tokens of an expression and `)`, not in last place, parse back to the grouping, ending after the `)` |
| ParsingProps.CloseParenStops | glox/parser.go:76-114 | `)` is no operator of any binary level |
| ParsingProps.RoundTrip | glox/parser.go:76-145 | the tokens of an expression of a level, then a token that is no operator of that level or below, parse back to the expression with the cursor on that token |
| ParsingProps.ParseInvertsFlatten | glox/parser.go:68-149 | parsing the tokens of any grammatical expression, followed by any non-operator token, gives that expression back |
| ParsingProps.LeftmostFailure | glox/parser.go:76-145 | an error in the leftmost operand is the error of every level |
| ParsingProps.LeftAssociativeExample | glox/parser.go:96-104 | `1 - 2 - 3` parses as `(1 - 2) - 3` |
| ParsingProps.PrecedenceExample | glox/parser.go:96-114 | `1 + 2 * 3` parses with the product as the right operand of the sum |
| ParsingProps.UnaryNestingExample | glox/parser.go:116-123 | `- - 1` parses as `-(-1)` |
| ParsingProps.EqualIsComparisonExample | glox/parser.go:86-94 | `1 = 2` parses as a comparison |
| ParsingProps.GreaterEqualStopsExample | glox/parser.go:88 | `>=` is no operator of any level, so `1 >= 2` parses as `1` with the cursor on `>=` |
| ParsingProps.MissingRightParenExample | glox/parser.go:135-142 | `(1` then EOF is an error expecting `)` and naming EOF and its position |
| ParsingProps.ExpectedExpressionExamples | glox/parser.go:144 | `+` then EOF, and a lone number token, are each an expected-expression error naming the token's kind and position |
| Env.Lookup | glox/env.go:17-26 | a value found is the value of `name` in one of the scopes |
| Env.UpdateInnermost | glox/env.go:37-47 | assigning keeps the number of scopes |
| Env.LookupInnermost | glox/env.go:17-26 | a lookup finds the binding of the first scope that has one |
| Env.LookupMissing | glox/env.go:17-26 | a lookup fails exactly when no scope binds the name |
| Env.UpdateInnermostSpec | glox/env.go:37-47 | assigning changes no scope's set of names and no other name's value, and changes nothing when no scope binds the name |
| Env.LookupAfterUpdate | glox/env.go:37-47 | after assigning, the name looks up to the new value if it was bound, and is still missing otherwise |
| Env.LookupOtherAfterUpdate | glox/env.go:37-47 | assigning one name does not change what any other name looks up to |
| Env.LookupFallsThrough | glox/env.go:22-25 | a name the innermost scope does not bind is looked up in the enclosing chain |
| Env.Environment.Scopes | glox/env.go:5-8 | the chain has one scope per environment, starting with this one's map |
| Env.Environment.constructor | glox/env.go:10-15 | a new environment has an empty map and the given enclosing link, in front of the enclosing chain |
| Env.Environment.Get | glox/env.go:17-26 | returns the value from the innermost scope that binds the name, or `Missing` |
| Env.Environment.Declare | glox/env.go:28-35 | fails with a redeclaration error, changing nothing, exactly when this scope binds the name; otherwise binds it here; the enclosing scopes are untouched either way, so `DeclareEffect` applies to the chain |
| Env.Environment.Set | glox/env.go:37-47 | succeeds exactly when some scope binds the name, and then updates the innermost such binding; otherwise returns an unknown-variable error; either way the chain becomes `UpdateInnermost` of the old one |
| Env.DeclareEffect | glox/env.go:28-35 | after a successful declaration the name looks up to the new value even when an enclosing scope binds it; enclosing scopes and other names are untouched |
| Env.SetEffect | glox/env.go:37-47 | after `Set` the name looks up to the new value if it was bound; no scope gains or loses a name; other names look up as before; an unknown name changes nothing |
| Env.SetKeepsShadowed | glox/env.go:37-42 | outer bindings shadowed by the one `Set` updates keep their values |

## Left out

- `main.go`, `glox/stmt.go` and `glox/fun.go` are not part of this model. They
  hold command-line and file I/O, statement execution through an `Evaluate` method
  that the expression tree does not have, and a clock built-in that reads the wall
  clock.
- The evaluator, statement parsing, assignment and the logical operators are not
  in the modelled code.
- Error messages and their formatting: errors are datatypes carrying the kind,
  character, line and column. `errors.Join` is the list of errors, in order.
- `Token.String` (`glox/token.go:145-147`) is only `fmt` formatting. It is not
  modelled.
- The unterminated-string error at `glox/scan.go:145-146` cannot be reached,
  because the loop before it faults first. It has no branch in the model;
  `FaultExamples` shows such an input faulting.
- The `unknown expr type` case of `ExprToString` (`glox/expr.go:36`) cannot arise,
  because `Expr` is a closed datatype here instead of Go's `any`.
- Literal payloads are `nil`, booleans and byte strings. These are all the values
  the scanner and parser produce; `fmt.Sprint` of any other Go value is not
  modelled.
- Ast.Parenthesize: takes the sub-expressions already rendered rather than calling
  `ExprToString` on each itself; `ExprToString` renders them before the call.
- Parsing.Parser.Previous: requires a token before the cursor. In Go, reading
  before the first token is an index fault, which the model does not represent;
  the parser only calls it after a successful `match`.
- Parser panics (a missing `)`, a token that starts no expression) are the
  `Failed` result. Calling `peek` on an empty token sequence is an index fault in
  Go and is `Failed(NoTokens)` in the model.
- Env.Environment.Get: returns `Missing` where Go returns the pair `(nil, false)`.
  Values are a type parameter rather than Go's `any`.
