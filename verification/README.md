# Monkey in Dafny

A model of the Monkey language toolchain from `monkey-ts`: the lexer, the
Pratt parser and its syntax tree, the tree-walking evaluator over chained
environments, the bytecode compiler with its symbol table, the bytecode
encoder and disassembler, the stack virtual machine, and the small Go
prototype of the encoder (`t.go`). Every part keeps the form of its source:

- The lexer, parser, symbol table, compiler and virtual machine update
  their objects field by field in the source. Here they are classes
  (`Lexing.Lexer`, `Parsing.Parser`, `Symbols.SymbolTable`,
  `Compiling.Compiler`, `Machine.VM`) whose methods are proved against pure
  specification functions: `NextTokenSpec`, the parse functions
  `ParseProgramSpec`, `ParseExpressionSpec`, `InfixLoopSpec` and their
  siblings, `CompileExpr`, `RunSpec` and the per-opcode `*Step` functions.
- The parse functions are followed token by token along a lexed stream
  (`Parsing.LexesTo`), and `ParserTests` proves six of the parser's
  operator-precedence tests: the input parses without errors to one
  expression statement that prints with the expected parentheses.
- The evaluator, the operators, the token and object tables and the
  encoding helpers are expressions in the source. Here they are functions
  with lemmas.
- Loops in the source (`make`, `readOperands`, `stringifyInstructions`,
  `evalProgram`, `evalBlockStatement`, `evalExpressions`,
  `extendFunctionEnv`, the VM's `run` loop, `Bing`) are methods with loop
  invariants, each proved equal to a recursive specification function.
- `Agreement` ties the two back ends together:
  - the VM and the evaluator agree on truthiness, on `!` and `-`, and on
    the integer operators;
  - the compiler maps each infix operator to the opcode whose VM effect
    matches the evaluator;
  - compiling `1 + 2` and running the bytecode leaves 3 as the last popped
    value.

Modules: `Wrappers` (Option, Result), `Text` (decimal spelling),
`Tokens`, `Utils`, `Lexing`, `Ast`, `Parsing`, `ParserTests`, `Objects`, `Builtins`,
`Environments`, `Evaluation`, `Symbols`, `Code`, `Compiling`, `Machine`,
`GoCode`, `Agreement`.

Where the code and its tests and comments disagree, the model follows the code:

- the parser never parses the value of `let` or `return`; it skips to `;`;
- `<` is compiled by swapping the operands of `>`;
- `make` keeps only the last operand's bytes;
- the compiler test for `1 + 2` lists no `OpAdd` or `OpPop`, but the
  compiler emits both, and the model emits both;
- the parser test for `3 + 4; -5 * 5` expects `(3 + 4)((-5) * 5)`, but
  `Program.toString` joins statements with a newline, and the model joins
  them with a newline.

Value identity (`===`), which JavaScript decides by allocation, is decided
only where the answer does not depend on allocation. Booleans and `null`
are shared instances, and values of different kinds are never identical.
The other cases give an explicit `Unmodelled` outcome. Division gives the
same outcome when the quotient would not be a whole number.

## Model

| member | source | states |
|---|---|---|
| Text.DigitChar | src/code.ts:162 | the digit character of d < 10 is '0'..'9' and its code minus '0' is d |
| Text.NatToString | src/code.ts:162 | the decimal spelling of a number is non-empty, all digits, and has no leading zero |
| Text.IntToString | src/code.ts:89 | an integer's spelling is non-empty and starts with '-' exactly when it is negative |
| Text.DecimalRoundTrip | src/parser.ts:200-207 | reading back the decimal spelling of n gives n |
| Text.CanonicalRoundTrip | src/parser.ts:200-207 | a canonical decimal string is the spelling of its own value |
| Text.NatToStringInjective | src/code.ts:162 | different numbers have different spellings |
| Text.PadStart | src/code.ts:162 | `padStart`: the result is max(width, \|s\|) long, ends with s, and is filled with the pad character before it |
| Text.Join | src/code.ts:167 | `join`: no parts give "", one part gives that part |
| Text.JoinAppend | src/code.ts:167 | appending one part to a non-empty list adds the separator and that part |
| Text.JoinConcat | src/code.ts:167 | joining two non-empty lists is joining each with one separator between them |
| Tokens.LookupIdent | src/token.ts:60-62 | a word is IDENT or one of the keyword types |
| Tokens.LookupSpelling | src/token.ts:50-62 | every keyword's spelling looks up to that keyword |
| Tokens.LookupIdentExactly | src/token.ts:50-62 | a word is IDENT exactly when it is not a keyword; otherwise its type is spelled by the word |
| Tokens.SymbolNames | src/token.ts:7-48 | operator and delimiter types are their own one- or two-character symbols ("==", "!=", "<", ...) |
| Tokens.TypeName | src/token.ts:7-48 | definition: each token type's `TOKENS` value, as used by `SymbolNames` and `LookupSpelling` |
| Tokens.Spelling | src/token.ts:50-58 | a keyword's spelling is a key of `keywords` that maps back to that keyword |
| Utils.NumToString | src/utils.ts:4-6 | `fromCharCode` gives one character whose code is num mod 65536 |
| Utils.StringToNum | src/utils.ts:11-13 | `charCodeAt(0)` is NaN (None) exactly on the empty string, else the first character's code |
| Utils.CodeRoundTrip | src/utils.ts:4-13 | reading back the character made from a code gives the code |
| Utils.CharRoundTrip | src/utils.ts:4-13 | making a character from a character's code gives the character back |
| Utils.IsLetter | src/utils.ts:21-28 | definition: a code in 'a'..'z', 'A'..'Z', or '_'; stated by `LetterDigitDisjoint` and `UtilsExamples` |
| Utils.IsDigit | src/utils.ts:30-31 | definition: a code in '0'..'9'; stated by `LetterDigitDisjoint` and `UtilsExamples` |
| Utils.NotDoubleQuote | src/utils.ts:33-34 | definition: a code other than '"' and 0; stated by `NotDoubleQuoteExactly` |
| Utils.LetterDigitDisjoint | src/utils.ts:21-34 | no code is both a letter and a digit, and letters and digits are never a quote or 0 |
| Utils.NotDoubleQuoteExactly | src/utils.ts:33-34 | `notDoubleQuote` fails exactly on '"' and on the code 0 |
| Utils.UtilsExamples | __tests__/utils.test.ts:4-40 | the utility tests' letters, non-letters, digits and non-digits |
| Lexing.CodeAt | src/lexer.ts:124-129 | past the end of the input the current code is 0 |
| Lexing.SkipWs | src/lexer.ts:153-157 | skipping whitespace stops at the first non-whitespace position and passes only whitespace |
| Lexing.ScanFrom | src/lexer.ts:162-170 | `readWhile` stops at the first code failing the filter and never runs past the input |
| Lexing.Slice | src/lexer.ts:162-170 | within the input, the text read is the input's slice |
| Lexing.SingleCharType | src/lexer.ts:29-84 | a one-character token type is a symbol spelled by exactly that character |
| Lexing.NextTokenSpec | src/lexer.ts:24-101 | every token advances the position, and by at most one past the input |
| Lexing.TokenAt | src/lexer.ts:29-100 | the switch on the current character always advances, at most one past the input |
| Lexing.Tokenize | src/lexer.ts:24-101 | n calls of `nextToken` give n tokens and advance at least n positions |
| Lexing.LeadingWhitespace | src/lexer.ts:27 | whitespace before a token does not change the token |
| Lexing.EofAtEnd | src/lexer.ts:85-87 | at or past the end the token is EOF with an empty literal |
| Lexing.TokenWithinInput | src/lexer.ts:24-101 | a token other than EOF ends within the input |
| Lexing.EofAbsorbing | src/lexer.ts:85-87 | past the end, every further token is EOF |
| Lexing.EofExactly | src/lexer.ts:85-87 | the token is EOF exactly when whitespace runs to the end or to a NUL character |
| Lexing.TokenAtEof | src/lexer.ts:85-87 | without leading whitespace, EOF exactly on the code 0 |
| Lexing.TwoCharOperators | src/lexer.ts:131-141 | '=' and '!' become EQ/NOT_EQ when '=' follows and ASSIGN/BANG otherwise, with the right literal and position |
| Lexing.WordIsMaximalRun | src/lexer.ts:89-91 | an identifier is the longest run of letters and its type is `lookupIdent` of it |
| Lexing.NumberIsMaximalRun | src/lexer.ts:92-93 | a number is the longest run of digits, as an INT token |
| Lexing.StringToken | src/lexer.ts:72-75 | a string token holds the characters between the quotes, stopping at '"', NUL or the end |
| Lexing.SingleCharacterTokens | src/lexer.ts:29-96 | any other character is one token of one character: its own symbol or ILLEGAL |
| Lexing.SimpleInput | src/__tests__/lexer.test.ts:23-40 | "=+(){},;" lexes to the test's nine tokens ending in EOF |
| Lexing.SimpleInputMiddle | src/__tests__/lexer.test.ts:23-40 | the same input lexed from position 2 |
| Lexing.SimpleInputTail | src/__tests__/lexer.test.ts:23-40 | the same input lexed from position 4 |
| Lexing.SimpleInputEnd | src/__tests__/lexer.test.ts:23-40 | the same input lexed from position 6 |
| Lexing.WordAt | src/lexer.ts:89-91 | a run of letters with no letter after it is read whole, typed by `lookupIdent`, and the position moves past it |
| Lexing.NumberAt | src/lexer.ts:92-93 | a run of digits with no digit after it is read whole as an INT token, and the position moves past it |
| Lexing.LetterAt | src/lexer.ts:89-91 | a lower-case letter not followed by a letter lexes as the one-letter identifier and moves one position |
| Lexing.DigitAt | src/lexer.ts:92-93 | a digit not followed by a digit lexes as the one-digit INT token and moves one position |
| Lexing.Lexer.constructor | src/lexer.ts:15-22 | a new lexer reads its first character at position 0 |
| Lexing.Lexer.PeekChar | src/lexer.ts:143-151 | the peeked character is the code at the read position (0 past the end) |
| Lexing.Lexer.ReadChar | src/lexer.ts:124-129 | reading a character advances both positions by one and loads the code there |
| Lexing.Lexer.SkipWhitespace | src/lexer.ts:153-157 | the new position is `SkipWs` of the old one |
| Lexing.Lexer.ReadWhile | src/lexer.ts:162-170 | reads the maximal run after the current character and returns the slice from the old position |
| Lexing.Lexer.MaybeReadSecondChar | src/lexer.ts:131-141 | two-character token if the next character matches, else the one-character token, position as described |
| Lexing.Lexer.NextToken | src/lexer.ts:24-101 | the token and new position are exactly `NextTokenSpec` of the old position |
| Lexing.Lexer.ReadToken | src/lexer.ts:29-100 | the switch on the current character is exactly `TokenAt` |
| Ast.ProgramTokenLiteral | src/ast.ts:19-25 | the first statement's token literal, or "" for an empty program |
| Ast.ExpressionString | src/ast.ts:93-110 | definition: an identifier prints its name and an integer literal its decimal spelling; the other nodes print in the Monkey book's parenthesised form; stated by `IntegerLiteralPrintsItsSpelling` and the `ParserTests` lemmas |
| Ast.StatementString | src/ast.ts:45-80 | definition: "let name = value;", "return value;", or the expression; stated by `LetWithoutValue` and `PrintLetProgram` |
| Ast.ProgramString | src/ast.ts:27-29 | definition: the statements' strings joined by newlines; stated by `StatementStrings` and `ProgramSeparatesStatements` |
| Ast.StatementStrings | src/ast.ts:27-29 | the printed statements, one per statement, in order |
| Ast.IntegerLiteralPrintsItsSpelling | src/ast.ts:108-110 | an integer literal prints as its own canonical spelling |
| Ast.LetWithoutValue | src/ast.ts:45-49 | a `let` without value prints "let name = ;" |
| Ast.PrintLetProgram | src/__tests__/ast.test.ts:16-27 | the ast test's program prints "let myVar = anotherVar;" |
| Ast.ProgramSeparatesStatements | src/ast.ts:27-29 | a program prints its statements joined by newlines |
| Parsing.Precedence | src/parser.ts:320-322 | an operator's precedence is never above PRODUCT; unknown tokens are LOWEST |
| Parsing.InfixParsersMatchPrecedences | src/parser.ts:32-73 | a token has an infix parser exactly when its precedence is above LOWEST |
| Parsing.PrecedenceOrder | src/parser.ts:22-41 | EQUALS < LESSGREATER < SUM < PRODUCT < PREFIX, and `;`, EOF and `)` bind at LOWEST |
| Parsing.ParseDecimal | src/parser.ts:200-207 | `parseInt` fails (NaN) exactly on a literal that does not start with a digit |
| Parsing.LeadingDigits | src/parser.ts:200-207 | the digits `parseInt` reads are the maximal leading run of digits |
| Parsing.StartState | src/parser.ts:74-76 | the constructor reads two tokens from the lexer: the first is current, no errors, and the held tokens are consistent with the input |
| Parsing.Advance | src/parser.ts:83-86 | `nextToken`: the peek token becomes current, the errors stay, and input is consumed unless both held tokens are EOF |
| Parsing.ExpectPeekSpec | src/parser.ts:304-318 | `expectAndAdvance`: true exactly when the peek token has the type; then it advances, else it records one peek error and moves nothing |
| Parsing.SkipSpec | src/parser.ts:139-141 | the skip loop, corrected to stop at EOF too: it ends on `;` or EOF, adds no error, and stays put when already there |
| Parsing.ParseProgramSpec | src/parser.ts:102-113 | `parseProgram` ends on EOF, only adds errors, and an input that is already at EOF gives the empty program |
| Parsing.ProgramLoopSpec | src/parser.ts:104-111 | the statement loop keeps the statements gathered so far as a prefix and ends on EOF |
| Parsing.ParseStatementSpec | src/parser.ts:115-124 | a statement carries the current token; `let` gives a let statement or none, `return` a return statement, anything else an expression statement |
| Parsing.StatementCases | src/parser.ts:115-124 | `let` parses as `ParseLetStatementSpec`, `return` as a return statement, anything else as an expression statement |
| Parsing.ParseLetStatementSpec | src/parser.ts:126-146 | without IDENT after `let` there is no statement and one peek error; a failure adds exactly one error; a success is `let name` without value ending on `;` or EOF |
| Parsing.ParseReturnStatementSpec | src/parser.ts:148-156 | a return statement with its token and no value, ending on `;` or EOF, without errors |
| Parsing.ParseExpressionStatementSpec | src/parser.ts:158-169 | the statement holds the expression parsed at LOWEST from the current token, and a following `;` is consumed |
| Parsing.ParseExpressionSpec | src/parser.ts:171-193 | without a prefix parser one error and nothing read; otherwise the parse ends before `;` or an operator binding no tighter than p |
| Parsing.InfixLoopSpec | src/parser.ts:177-190 | the infix loop ends before `;` or an operator binding no tighter than p, and does nothing when it starts there |
| Parsing.InfixLoopStep | src/parser.ts:179-190 | one pass of the loop is `nextToken`, the infix parse, then the rest of the loop |
| Parsing.ParsePrefixSpec | src/parser.ts:54-63 | identifiers and booleans are read in place; `!` and `-` give a prefix node with their token; `if` gives an if node or nothing |
| Parsing.ParseIntegerLiteralSpec | src/parser.ts:200-207 | a literal starting with digits gives its value and no error; otherwise no node and the three error strings |
| Parsing.ParsePrefixExpressionSpec | src/parser.ts:209-220 | always a prefix node with the operator token and its literal, after reading at least one token |
| Parsing.ParseInfixSpec | src/parser.ts:222-235 | an infix node whose left is the given operand; a present right operand is followed by an operator binding no tighter than this one |
| Parsing.ParseGroupedExpressionSpec | src/parser.ts:240-247 | the inner expression parsed at LOWEST when `)` follows it, ending on `)`; otherwise no node and one peek error |
| Parsing.ParseIfExpressionSpec | src/parser.ts:249-279 | without `(` after `if` no node and one peek error; a result is an if node carrying the `if` token |
| Parsing.ParseIfBranchesSpec | src/parser.ts:262-278 | without `{` no node and one peek error; a result keeps the condition and its consequence starts at `{` |
| Parsing.ParseElseSpec | src/parser.ts:269-276 | without `else` nothing moves; `else {` gives a block ending on `}` or EOF; `else` without `{` one more error |
| Parsing.ParseBlockStatementSpec | src/parser.ts:281-294 | a block carries its `{` token and ends on `}` or EOF |
| Parsing.BlockLoopSpec | src/parser.ts:286-292 | the block loop keeps the statements gathered so far as a prefix and ends on `}` or EOF |
| Parsing.Parser.constructor | src/parser.ts:74-76 | a new parser holds exactly `StartState` of the lexer position |
| Parsing.Parser.NextToken | src/parser.ts:83-86 | the peek token becomes current and the next token from the lexer is peeked, which is `Advance` |
| Parsing.Parser.ExpectAndAdvance | src/parser.ts:304-318 | the flag and new state equal `ExpectPeekSpec` |
| Parsing.Parser.ParseProgram | src/parser.ts:102-113 | the program and new state equal `ParseProgramSpec` |
| Parsing.Parser.ParseStatement | src/parser.ts:115-124 | the statement and new state equal `ParseStatementSpec` |
| Parsing.Parser.ParseLetStatement | src/parser.ts:126-146 | the statement and new state equal `ParseLetStatementSpec` |
| Parsing.Parser.ParseReturnStatement | src/parser.ts:148-156 | the statement and new state equal `ParseReturnStatementSpec` |
| Parsing.Parser.SkipToSemicolon | src/parser.ts:139-141 | the corrected skip loop: the new state equals `SkipSpec` |
| Parsing.Parser.ParseExpressionStatement | src/parser.ts:158-169 | the statement and new state equal `ParseExpressionStatementSpec` |
| Parsing.Parser.ParseExpression | src/parser.ts:171-193 | the expression and new state equal `ParseExpressionSpec`, so the loop folds operators as `InfixLoopSpec` does |
| Parsing.Parser.ParseInfixLoop | src/parser.ts:179-190 | the expression and new state equal `InfixLoopSpec` |
| Parsing.Parser.ParseInfixStep | src/parser.ts:179-190 | one pass reads at least one token and leaves the `InfixLoopSpec` result unchanged |
| Parsing.Parser.ParsePrefix | src/parser.ts:54-63 | the expression and new state equal `ParsePrefixSpec` |
| Parsing.Parser.ParseIntegerLiteral | src/parser.ts:200-207 | the expression and new state equal `ParseIntegerLiteralSpec` |
| Parsing.Parser.ParsePrefixExpression | src/parser.ts:209-220 | the expression and new state equal `ParsePrefixExpressionSpec` |
| Parsing.Parser.ParseInfixExpression | src/parser.ts:222-235 | the expression and new state equal `ParseInfixSpec` |
| Parsing.Parser.ParseGroupedExpression | src/parser.ts:240-247 | the expression and new state equal `ParseGroupedExpressionSpec` |
| Parsing.Parser.ParseIfExpression | src/parser.ts:249-279 | the expression and new state equal `ParseIfExpressionSpec` |
| Parsing.Parser.ParseIfBranches | src/parser.ts:262-278 | the expression and new state equal `ParseIfBranchesSpec` |
| Parsing.Parser.ParseElse | src/parser.ts:269-276 | the flag, alternative and new state equal `ParseElseSpec` |
| Parsing.Parser.ParseBlockStatement | src/parser.ts:281-294 | the block and new state equal `ParseBlockStatementSpec` |
| Parsing.Parser.ParseBlockLoop | src/parser.ts:286-292 | the statements and new state equal `BlockLoopSpec` |
| Parsing.HoldingConsistent | src/parser.ts:83-86 | every state along a lexed token stream is consistent with the input |
| Parsing.StartHolding | src/parser.ts:74-76 | on a lexer at the start the constructor holds the stream's first two tokens |
| Parsing.AdvanceHolding | src/parser.ts:83-86 | `nextToken` moves the held pair one token along the stream |
| Parsing.IdentifierOperand | src/parser.ts:54-63 | an identifier followed by `;` or a weaker operator is the whole expression, and nothing is read |
| Parsing.IntegerPrefix | src/parser.ts:200-207 | an integer token is read in place as its decimal value |
| Parsing.IntegerOperand | src/parser.ts:171-193 | an integer followed by `;` or a weaker operator is the whole expression |
| Parsing.SingleDigitValue | src/parser.ts:200-207 | `parseInt` of one digit is that digit's value |
| Parsing.PrefixOperator | src/parser.ts:209-220 | `!` or `-` takes as operand the expression parsed at PREFIX from the next token |
| Parsing.InfixFoldsLeft | src/parser.ts:177-190 | one pass of the infix loop makes everything parsed so far the left operand of a tighter operator, whose right operand is parsed at its own precedence |
| Parsing.ExpressionFromPrefix | src/parser.ts:171-193 | an expression is its prefix part followed by the infix loop |
| Parsing.LoopStops | src/parser.ts:177 | the infix loop stops, reading nothing, before `;` or an operator binding no tighter than p |
| Parsing.LastIdentifierFolds | src/parser.ts:177-190 | a last operator then an identifier: the loop ends with one more infix node whose right operand is that identifier |
| Parsing.LastIntegerFolds | src/parser.ts:177-190 | a last operator then an integer: the loop ends with one more infix node whose right operand is that integer |
| Parsing.LastOperandFolds | src/parser.ts:177-190 | a last operator whose right operand is a parsed expression: the loop ends with one more infix node around it |
| Parsing.IdentifierInfix | src/parser.ts:171-235 | `a op b` followed by a weaker token parses to one infix node of the two identifiers |
| Parsing.FoldsIdentifierInfix | src/parser.ts:222-235 | an operator followed by `b op2 c` with op2 tighter makes the node `b op2 c` its right operand: the tighter operator groups first |
| Parsing.GroupedOperand | src/parser.ts:240-247 | a parenthesised expression is the expression inside, with no node of its own, ending on `)` |
| Parsing.ExpressionStatementOf | src/parser.ts:158-169 | an expression statement without `;` holds the expression parsed at LOWEST and ends where it ends |
| Parsing.ProgramLoopStep | src/parser.ts:104-111 | one pass of the program loop gathers the statement just parsed |
| Parsing.SingleExpressionProgram | src/parser.ts:102-113 | an input that is one expression parses, without errors, to the program of that one expression statement |
| ParserTests.NegTimes | src/__tests__/parser.test.ts:242-243 | "-a * b" parses without errors and prints "((-a) * b)" |
| ParserTests.BangNeg | src/__tests__/parser.test.ts:246-247 | "!-a" parses without errors and prints "(!(-a))" |
| ParserTests.SumSum | src/__tests__/parser.test.ts:250-251 | "a + b + c" parses without errors and prints "((a + b) + c)": equal precedence groups to the left |
| ParserTests.Mixed | src/__tests__/parser.test.ts:270-271 | "a + b * c + d / e - f" parses without errors and prints "(((a + (b * c)) + (d / e)) - f)" |
| ParserTests.GroupedFirst | src/__tests__/parser.test.ts:310-311 | "(5 + 5) * 2" parses without errors and prints "((5 + 5) * 2)" |
| ParserTests.GroupedLast | src/__tests__/parser.test.ts:314-315 | "2 / (5 + 5)" parses without errors and prints "(2 / (5 + 5))" |
| Parsing.SkipAsWrittenStaysPastEnd | src/parser.ts:139-141 | as written, once past the input without `;` the skip loop never sees `;` |
| Parsing.SkipAsWrittenNeverEnds | src/parser.ts:139-141 | "let x = 5" without `;` keeps the loop running for any number of passes |
| Parsing.SkipAsWritten | src/parser.ts:139-141 | definition: n passes of the loop as written, stopping only on `;`; stated by `SkipAsWrittenStaysPastEnd` and `SkipAsWrittenNeverEnds` |
| Objects.NativeBoolToObj | src/vm.ts:27 | a host boolean becomes the boolean object of that value |
| Objects.TypeName | src/evaluator.ts:158-164 | definition: the name a value reports in error messages; `TypeNameIdentifiesKind` states that it names the kind exactly |
| Objects.Hashable | src/vm.ts:147-157 | definition: integers, booleans and strings are hashable; used by `HashIndex` and `HashThrowsOnUnhashableKey` |
| Objects.HashKeyOf | src/vm.ts:147-157 | definition: the key of a hashable value; `HashKeyInjective` states that it is one-to-one |
| Objects.TypeNameIdentifiesKind | src/evaluator.ts:158-164 | two values have the same type name exactly when they are of the same kind |
| Objects.Identical | src/vm.ts:170-173 | `===`: values of different kinds are never identical; booleans and null are identical exactly when equal; else unknown |
| Objects.HashKeyInjective | src/vm.ts:147-157 | two hashable values have the same hash key exactly when they are equal |
| Builtins.Len | src/builtins.ts:11-24 | `len`: the arity error, the length of a string, or the unsupported-type error |
| Builtins.LenSucceedsExactlyOnOneString | src/builtins.ts:11-24 | `len` gives an integer, never negative, exactly on one string argument |
| Environments.Alloc | src/environment.ts:6 | a new environment is an empty store at a new reference, enclosed by the given one |
| Environments.Get | src/environment.ts:8-14 | a value held in the environment's own store is the answer; with no outer environment, the own store's entry or nothing; `GetSearchesChain` states the whole chain |
| Environments.Set | src/environment.ts:16-19 | `set` changes only the named binding of that environment and returns the value |
| Environments.EnclosesBelow | src/environment.ts:6 | an enclosing environment was allocated no later than the one it encloses |
| Environments.GetSearchesChain | src/environment.ts:8-14 | `get` finds the binding of the nearest enclosing store that has the name, or nothing if none has a value |
| Environments.SetThenGet | src/environment.ts:8-19 | a name just set reads back the value set |
| Environments.GetFallsBack | src/environment.ts:8-14 | a name missing here is looked up in the outer environment |
| Environments.SetInvisibleOutside | src/environment.ts:8-19 | setting in one environment is invisible from environments it does not enclose |
| Environments.SetLeavesOuterUnchanged | src/environment.ts:8-19 | setting in an inner environment leaves the outer one's reads unchanged |
| Environments.ExtensionKeepsGet | src/environment.ts:8-14 | allocating new environments does not change reads from old ones |
| Evaluation.Rethrow | src/evaluator.ts:254 | an abrupt completion passes through unchanged in kind |
| Evaluation.BangNegatesTruthiness | src/evaluator.ts:80-92 | `!x` is the negation of x's truthiness, and `!!x` its truthiness |
| Evaluation.FalsyExactly | src/evaluator.ts:181-192 | only null and false are falsy |
| Evaluation.IsTruthy | src/evaluator.ts:181-192 | definition: null and false are falsy, everything else truthy; stated by `FalsyExactly` |
| Evaluation.EvalBang | src/evaluator.ts:80-92 | definition: TRUE→FALSE, FALSE→TRUE, NULL→TRUE, else FALSE; stated by `BangNegatesTruthiness` |
| Evaluation.EvalIdentifier | src/evaluator.ts:207-213 | definition: the environment's value for the name, else the "identifier not found" error; stated by `LetThenIdentifier` and `UnboundIdentifier` |
| Evaluation.EvalMinus | src/evaluator.ts:97-103 | `-` negates an integer and is an "unknown operator" error on anything else |
| Evaluation.MinusInvolutive | src/evaluator.ts:97-103 | `-(-n)` is n |
| Evaluation.EvalPrefix | src/evaluator.ts:168-179 | `!`, `-`, or the unknown-operator error |
| Evaluation.EvalIntegerInfix | src/evaluator.ts:105-140 | the integer sum, difference, product, exact quotient and comparisons; any other operator is an error |
| Evaluation.EvalInfix | src/evaluator.ts:142-166 | integers go to the integer table; `==`/`!=` compare by identity; else "type mismatch" or "unknown operator" by type names |
| Evaluation.UnwrapReturnValue | src/evaluator.ts:231-237 | unwrapping removes a return wrapper |
| Evaluation.EvalNode | src/evaluator.ts:262-349 | evaluating an expression only extends the environment heap |
| Evaluation.EvalStatement | src/evaluator.ts:262-349 | evaluating a statement only extends the environment heap |
| Evaluation.EvalOptional | src/evaluator.ts:262-266 | evaluating a possibly missing node only extends the environment heap |
| Evaluation.ProgramFrom | src/evaluator.ts:44-59 | evaluating the rest of a program only extends the environment heap |
| Evaluation.BlockFrom | src/evaluator.ts:61-75 | evaluating the rest of a block only extends the environment heap |
| Evaluation.ExpressionsFrom | src/evaluator.ts:215-229 | evaluating the remaining arguments only extends the environment heap |
| Evaluation.ApplyFunction | src/evaluator.ts:252-260 | applying a non-function throws "not a function" with its type name |
| Evaluation.ExtendedEnv | src/evaluator.ts:239-250 | the call environment is a new environment enclosed by the function's own |
| Evaluation.BindParameters | src/evaluator.ts:239-250 | binding parameters changes only the call environment's store |
| Evaluation.EvalProgram | src/evaluator.ts:44-59 | the loop over statements computes `ProgramFrom` |
| Evaluation.EvalBlockStatement | src/evaluator.ts:61-75 | the loop over a block computes `BlockFrom` |
| Evaluation.EvalExpressions | src/evaluator.ts:215-229 | the loop over arguments computes `ExpressionsFrom` |
| Evaluation.ExtendFunctionEnv | src/evaluator.ts:239-250 | the binding loop computes `ExtendedEnv` |
| Evaluation.BlockStopsAtReturnOrError | src/evaluator.ts:61-75 | after a return value or an error, the rest of a block is not evaluated |
| Evaluation.ProgramStopsAtError | src/evaluator.ts:44-59 | after an error, the rest of a program is not evaluated |
| Evaluation.ExpressionsAllOrFirstError | src/evaluator.ts:215-229 | argument evaluation gives all values in order, or just the first error |
| Evaluation.LetThenIdentifier | src/evaluator.ts:318-330 | after `let x = v`, reading x gives v |
| Evaluation.UnboundIdentifier | src/evaluator.ts:207-213 | an unbound name is "identifier not found: name" |
| Evaluation.IfFalsyWithoutElse | src/evaluator.ts:194-205 | a falsy condition without `else` gives null |
| Evaluation.BindParametersKeepsOthers | src/evaluator.ts:239-250 | names that are not parameters keep their bindings |
| Evaluation.BindParametersBinds | src/evaluator.ts:239-250 | the last parameter of a name is bound to its argument, or to nothing if the argument is missing |
| Evaluation.ParameterReadsArgument | src/evaluator.ts:239-250 | in the call environment a parameter reads its argument; a missing argument reads through to the function's environment |
| Evaluation.ReadInCallEnv | src/environment.ts:8-14 | a read in a call environment sees its own value first, else the outer environment |
| Evaluation.NestedReturn | src/__tests__/evaluator.test.ts:112-134 | the nested `if` with two returns evaluates to 10 |
| Evaluation.ErrorStopsProgram | src/__tests__/evaluator.test.ts:137-166 | "5; true + false; 5" evaluates to "unknown operator: BOOLEAN + BOOLEAN" |
| Evaluation.IdentityReturnsArgument | src/evaluator.ts:252-260 | the identity function returns its argument |
| Evaluation.CallIdentity | src/evaluator.ts:335-348 | calling a bound identity function on 5 gives 5 |
| Evaluation.LetIdentity | src/evaluator.ts:318-334 | `let identity = fn(x) { return x; }` binds a closure over the current environment |
| Evaluation.IdentityCall | src/__tests__/evaluator.test.ts:208 | "let identity = fn(x) { return x; }; identity(5);" gives 5 |
| Symbols.SymbolTable.constructor | src/symbolTable.ts:18-23 | a new table is empty and enclosed by the given one |
| Symbols.SymbolTable.Define | src/symbolTable.ts:25-34 | a definition is GLOBAL at the root and LOCAL inside, numbered by the definitions so far |
| Symbols.SymbolTable.DefineBuiltin | src/symbolTable.ts:36-40 | a builtin is stored at the given index without counting as a definition |
| Symbols.SymbolTable.DefineFree | src/symbolTable.ts:42-53 | the captured symbol is appended to the free symbols and the name becomes FREE at its index |
| Symbols.SymbolTable.DefineFunctionName | src/symbolTable.ts:55-59 | the function's own name is FUNCTION 0 |
| Symbols.SymbolTable.Resolve | src/symbolTable.ts:61-79 | own names first; then outer names, globals and builtins unchanged, anything else captured as a new free symbol; every table up the chain between this one and the name's owner captures it too, appending the outer table's item to its own free symbols, and every other table is left as it was |
| Symbols.CaptureThroughMiddle | src/symbolTable.ts:61-79 | a local of the first function read from a function two levels inside it is free in both inner tables: the middle one's free symbols hold the original LOCAL, the inner one's the middle one's FREE |
| Symbols.ThreeScopes | src/__tests__/symbolTable.test.ts:124-135 | the test's three nested tables with one definition each |
| Symbols.NestedFreeVariables | src/__tests__/symbolTable.test.ts:124-176 | from the innermost table: a global, a captured free variable (captured once), a local, and an unbound name |
| Code.OpcodeName | src/code.ts:55-77 | every opcode's name starts with "Op" |
| Code.Lookup | src/code.ts:86-92 | `lookup` finds exactly the declared opcodes, else "opcode N undefined" |
| Code.ReadUint16 | src/code.ts:94-101 | the first two bytes, big-endian, or the error for fewer than two |
| Code.NumToHexBytes | src/code.ts:104-110 | an in-range number is exactly width big-endian bytes; any number gives at least width bytes, and an out-of-range one need not read back as itself (65536 at width 2 gives [16, 0]) |
| Code.FirstUnencodable | src/code.ts:122-131 | the first operand whose width is not 2 (or missing), if any |
| Code.Make | src/code.ts:115-134 | the `forEach` loop computes the opcode followed by the last operand's bytes, or the width error |
| Code.ReadOperands | src/code.ts:136-153 | the loop computes the operands read and the bytes consumed, or the first error |
| Code.StringifyOperand | src/code.ts:170-186 | the name alone, or the name and the operand; fails on a count mismatch or more than one operand |
| Code.StringifyInstructions | src/code.ts:155-168 | the loop gives the listing lines joined by newlines, or the first error |
| Code.Encode | src/code.ts:115-134 | an encodable instruction is 1 + the sum of its widths long |
| Code.BigEndianTwoBytes | src/code.ts:94-101 | two bytes are determined by the number they encode |
| Code.NumToHexBytesExamples | src/__tests__/code.test.ts:18-22 | 65534 → [255, 254]; 1 → [0, 1] and [1] |
| Code.NumToHexBytesOversized | src/code.ts:104-110 | 65536 at width 2 gives [16, 0], which reads back as 4096 |
| Code.MakeNoOperands | src/code.ts:115-134 | without operands, `make` is the opcode alone, or [] for an unknown opcode |
| Code.MakeExample | src/__tests__/code.test.ts:25-43 | `make(OpConstant, 65534)` is [OpConstant, 255, 254] |
| Code.MakeLength | src/code.ts:115-134 | with one in-range operand per width, `make` succeeds with the declared length |
| Code.FirstUnencodableOfTable | src/code.ts:55-77 | for the table's widths the first unencodable operand is the one past the arity |
| Code.MakeBeyondArity | src/code.ts:122-131 | `make` fails exactly when given more operands than widths, with the "undefined" width error |
| Code.MakeKeepsEveryOperand | src/code.ts:115-134 | whenever `make` succeeds it holds every operand's bytes, since no opcode takes two |
| Code.MakeReadRoundTrip | src/code.ts:115-153 | `readOperands` of what `make` wrote gives back the operands and the width sum |
| Code.ReadOperandsExample | src/__tests__/code.test.ts:45-62 | OpConstant 65535 reads back as ([65535], 2) |
| Code.ReadOperandsShape | src/code.ts:136-153 | a successful read gives one operand per width and consumes the width sum |
| Code.MakeSpec | src/code.ts:115-134 | definition: [] for an undefined opcode, the width error, or the opcode and the last operand's bytes; stated by `Make`, `MakeLength`, `MakeBeyondArity` and `MakeReadRoundTrip` |
| Code.ReadOperandsSpec | src/code.ts:136-153 | definition: the operands read width by width and the offset after them; stated by `ReadOperands`, `ReadOperandsShape` and `MakeReadRoundTrip` |
| Code.DisassembleFrom | src/code.ts:155-168 | definition: the listing lines from an offset, or the first error; stated by `DisassembleAssemble`, `DisassembleCons` and `DisassembleUndefined` |
| Code.DisassembleAssemble | src/code.ts:155-186 | disassembling assembled instructions gives their listing, at any offset |
| Code.DisassembleAssembled | src/code.ts:155-186 | disassembly from a position where assembled code starts gives its listing |
| Code.DisassembleOne | src/code.ts:155-168 | one encoded instruction contributes its line in front of the rest |
| Code.StringifyInstruction | src/code.ts:170-186 | an encodable instruction stringifies to its text |
| Code.DisassembleCons | src/code.ts:155-168 | one pass of the loop adds one line and skips the operands |
| Code.ReadEncoded | src/code.ts:155-168 | an encoded instruction is looked up and read back exactly |
| Code.DisassembleUndefined | src/code.ts:86-92 | disassembly stops with "opcode N undefined" at an undefined byte |
| GoCode.Lookup | t.go:65-72 | only OpConstant is defined, with one width-2 operand; else "opcode N undefined" |
| GoCode.ReadUint16 | t.go:117-120 | the first two bytes big-endian; fewer panic |
| GoCode.Uint16Bytes | t.go:109 | `PutUint16(uint16(o))` writes o mod 65536 big-endian |
| GoCode.Layout | t.go:96-112 | the bytes after the opcode are as long as the sum of the widths |
| GoCode.Make | t.go:90-115 | the loop computes `MakeSpec`: [] for unknown opcodes, an index panic past the arity, else the laid-out bytes |
| GoCode.ReadOperandsFrom | t.go:74-89 | one operand per width, and the offset advances by the width sum |
| GoCode.ReadOperands | t.go:74-89 | the loop computes `ReadOperandsSpec` |
| GoCode.FmtInstruction | t.go:45-59 | the "%s %d" line, the count-mismatch error, or the unhandled-count error |
| GoCode.MakeLength | t.go:96-102 | `Make` is 1 + the width sum long and starts with the opcode |
| GoCode.MakeTruncates | t.go:105-112 | an operand is kept modulo 65536: 65535 → [0, 255, 255], 65536 → [0, 0, 0] |
| GoCode.MakeReadRoundTrip | t.go:74-115 | reading back what `Make` wrote gives the operand modulo 65536 |
| GoCode.MakeReadExact | t.go:74-115 | a 16-bit operand reads back exactly |
| GoCode.ReadOperandsUnsupportedWidth | t.go:78-85 | a width other than 2 leaves the zero operand and still advances the offset |
| GoCode.MakeSpec | t.go:90-115 | definition: [] for an undefined opcode, the index panic past the arity, else the laid-out bytes; stated by `Make`, `MakeLength`, `MakeTruncates` and `MakeReadRoundTrip` |
| GoCode.ReadOperandsSpec | t.go:74-89 | definition: one operand per width and the offset after them; stated by `ReadOperands`, `MakeReadRoundTrip` and `ReadOperandsUnsupportedWidth` |
| GoCode.BingFrom | t.go:22-43 | definition: the corrected listing from an offset; stated by `Bing`, `BingAgreesWhereDefined`, `BingSkipsUndefined` and `BingSkipsExample` |
| GoCode.BingStallsAsWritten | t.go:26-31 | as written, after any number of passes at an undefined opcode the cursor has not moved and one error line per pass was written |
| GoCode.BingStallsExample | t.go:26-31 | on the single byte 1 the written loop never advances |
| GoCode.BingAgreesWhereDefined | t.go:32-39 | at a defined opcode, the corrected listing takes the written loop's step |
| GoCode.BingSkipsUndefined | t.go:26-31 | corrected: a run of undefined bytes gives one error line per byte, and the listing ends |
| GoCode.BingSkipsExample | t.go:26-31 | corrected: on the byte 1 the listing is the one line "ERROR: opcode 1 undefined" |
| GoCode.Bing | t.go:22-43 | corrected loop computes `BingFrom`, which steps past undefined bytes |
| Compiling.EmitSpec | src/compiler.ts:293-300 | `emit` appends at the end, keeps what was there, records the last and previous instructions; no bytes for an opcode missing from the table |
| Compiling.AddConstantSpec | src/compiler.ts:321-324 | the constant is appended to the pool |
| Compiling.WithoutLastPop | src/compiler.ts:338-346 | removing the last pop keeps a prefix of the instructions |
| Compiling.Spliced | src/compiler.ts:355-361 | `splice` keeps what precedes the position, and within range overwrites exactly the new bytes |
| Compiling.ChangeOperandSpec | src/compiler.ts:363-367 | changing an operand touches only the current instructions |
| Compiling.InfixOpcode | src/compiler.ts:142-170 | exactly `+ - * / > == !=` have an opcode |
| Compiling.ChangeOperandKeeps | src/compiler.ts:363-367 | patching at a position keeps the bytes before it and does not shorten |
| Compiling.PatchedGrows | src/compiler.ts:363-367 | patching after a point keeps the instructions emitted before it |
| Compiling.ExpressionShape | src/compiler.ts:115-291 | compiling an expression only appends, and the last instruction is not a pop |
| Compiling.StatementsShape | src/compiler.ts:116-117 | compiling statements only appends to the instructions |
| Compiling.StatementShape | src/compiler.ts:115-224 | compiling a statement only appends to the instructions, and its last instruction is its own; when that is an OpPop, the instruction before it is also its own and is not an OpPop; the exact trailing OpPop of an expression statement is `ExpressionStatementEndsWithPop` |
| Compiling.ExpressionStatementEndsWithPop | src/compiler.ts:118-120 | an expression statement compiles exactly when its expression does, to the expression's code plus one OpPop; that OpPop is the last instruction and the one before it is not OpPop |
| Compiling.PatchJump | src/compiler.ts:363-367 | patching a jump writes the new 16-bit target and leaves every other byte |
| Compiling.JumpEncoding | src/compiler.ts:363-367 | a jump with an operand below 65536 encodes as its opcode and the operand's two big-endian bytes |
| Compiling.EmitJump | src/compiler.ts:183-192 | emitting a jump with the placeholder adds three bytes starting with the opcode |
| Compiling.IfJumpsArePatched | src/compiler.ts:179-208 | after an `if`, OpJumpNotTruthy targets just past the OpJump, which targets the end; without `else` an OpNull is there |
| Compiling.LessThanSwapsOperands | src/compiler.ts:135-141 | `a < b` compiles as `b > a` |
| Compiling.RemovePopUndoesEmitPop | src/compiler.ts:293-346 | removing the pop just emitted restores the instructions |
| Compiling.LetThenLoadSameSlot | src/compiler.ts:211-224 | `let` stores into the next global slot, and loading the name reads that slot |
| Compiling.LoadSmallConstant | src/compiler.ts:171-173 | an integer literal adds a constant and emits OpConstant with its index |
| Compiling.CompileIntegerSum | src/compiler.ts:134-173 | `a + b` emits the two constants and OpAdd |
| Compiling.CompileSum | src/compiler.ts:142-170 | `+` compiles both sides in order, then emits OpAdd |
| Compiling.CompileOnePlusTwo | src/__tests__/compiler.test.ts:44-57 | "1 + 2" compiles to OpConstant 0, OpConstant 1, OpAdd, OpPop with constants [1, 2] |
| Compiling.LoadSpec | src/compiler.ts:94-113 | definition: `resolve` then `loadSymbol` in the root table; stated by `LoadOutcome` and `LetThenLoadSameSlot` |
| Compiling.LoadOutcome | src/compiler.ts:94-113 | a load compiles exactly for a root-table name that is not a function name (and, when global, has a non-negative index), and then changes only the current scope; a missing name throws `undefined variable: "name"` (src/compiler.ts:219-225) |
| Compiling.DefineSpec | src/compiler.ts:211-218 | definition: `define` then OpSetGlobal or OpSetLocal; stated by `DefineOutcome` and `LetThenLoadSameSlot` |
| Compiling.DefineOutcome | src/compiler.ts:211-218 | a compiled `let` names an identifier, bound to the next definition index, GLOBAL in the root and LOCAL elsewhere; the constants are kept |
| Compiling.CompileExpr | src/compiler.ts:115-291 | definition: `compile` of an expression, branch by branch; stated by `ExpressionShape`, `IfJumpsArePatched`, `LessThanSwapsOperands` and `CompileSum` |
| Compiling.CompileLeafExpr | src/compiler.ts:171-178 | definition: names are loaded, integers and strings go to the constant pool, booleans emit OpTrue or OpFalse, function and hash literals are `Unmodelled`; stated by `ExpressionShape` |
| Compiling.CompileStatement | src/compiler.ts:115-224 | definition: `compile` of a statement; stated by `StatementShape`, `ExpressionStatementEndsWithPop` and `LetThenLoadSameSlot` |
| Compiling.CompileStatements | src/compiler.ts:116-117 | definition: the statements compiled in order; stated by `StatementsShape` |
| Compiling.Compiler.constructor | src/compiler.ts:77-92 | one blank root scope over the given symbol table and constants |
| Compiling.Compiler.AddInstruction | src/compiler.ts:312-319 | appends to the current scope and returns the old length |
| Compiling.Compiler.SetLastInstruction | src/compiler.ts:302-310 | the last instruction becomes the previous one |
| Compiling.Compiler.Emit | src/compiler.ts:293-300 | the new state and position are `EmitSpec` of the old one |
| Compiling.Compiler.EmitOnly | src/compiler.ts:293-300 | `emit` whose position is not used |
| Compiling.Compiler.AddConstant | src/compiler.ts:321-324 | the constant is appended and its index returned |
| Compiling.Compiler.RemoveLastPop | src/compiler.ts:338-346 | the current scope becomes `WithoutLastPop` of it |
| Compiling.Compiler.ReplaceInstruction | src/compiler.ts:355-361 | the current instructions become the splice |
| Compiling.Compiler.ChangeOperand | src/compiler.ts:363-367 | the new state is `ChangeOperandSpec` of the old one |
| Compiling.Compiler.EnterScope | src/compiler.ts:369-373 | a blank scope is pushed and a new symbol table encloses the old |
| Compiling.Compiler.LeaveScope | src/compiler.ts:375-387 | pops the scope and returns its instructions; the root symbol table gives "can't leave root scope" |
| Compiling.Compiler.CompileOptionalNode | src/compiler.ts:115-291 | compiles a possibly missing node as `CompileOptional` |
| Compiling.Compiler.CompileExpression | src/compiler.ts:115-291 | the new state is `CompileExpr` of the old one |
| Compiling.Compiler.CompileOperator | src/compiler.ts:121-208 | prefix, infix and `if` expressions compile as `CompileExpr` |
| Compiling.Compiler.CompileCollection | src/compiler.ts:225-287 | array literals, index expressions and calls compile as `CompileExpr` |
| Compiling.Compiler.CompileLeaf | src/compiler.ts:171-178 | names and literals compile as `CompileLeafExpr` |
| Compiling.Compiler.CompileLiteral | src/compiler.ts:171-178 | integer, string and boolean literals compile as `CompileLeafExpr` |
| Compiling.Compiler.CompileIdentifier | src/compiler.ts:94-113 | resolving and loading a name is `LoadSpec` |
| Compiling.Compiler.CompileConstant | src/compiler.ts:171-176 | a literal adds a constant and emits OpConstant with its index |
| Compiling.Compiler.CompilePrefix | src/compiler.ts:121-133 | a prefix expression compiles as `CompileExpr` |
| Compiling.Compiler.CompileInfix | src/compiler.ts:134-170 | an infix expression compiles as `CompileExpr` |
| Compiling.Compiler.CompileIf | src/compiler.ts:179-208 | an `if` compiles as `CompileExpr` |
| Compiling.Compiler.CompileConsequenceOf | src/compiler.ts:185-189 | the consequence without its last pop, then the jumps, as `CompileConsequence` |
| Compiling.Compiler.CompileElseOf | src/compiler.ts:192-208 | the jumps and the patches as `CompileElse` |
| Compiling.Compiler.CompileAlternativeOf | src/compiler.ts:197-206 | OpNull, or the alternative without its last pop |
| Compiling.Compiler.CompileArray | src/compiler.ts:225-229 | the elements in order, then OpArray with their count |
| Compiling.Compiler.CompileIndex | src/compiler.ts:240-243 | the operand, the index, then OpIndex |
| Compiling.Compiler.CompileCall | src/compiler.ts:281-287 | the function, the arguments, then the call |
| Compiling.Compiler.CompileExpressionList | src/compiler.ts:225-229 | the expressions in order as `CompileExprs` |
| Compiling.Compiler.CompileStatementNode | src/compiler.ts:115-291 | the new state is `CompileStatement` of the old one |
| Compiling.Compiler.CompileStatementList | src/compiler.ts:116-117 | the statements in order as `CompileStatements` |
| Compiling.Compiler.CompileProgram | src/compiler.ts:116-117 | the program's statements as `CompileStatements` |
| Machine.PushSpec | src/vm.ts:61-67 | `push` fails with "stack overflow" exactly on a full stack; otherwise the value is on top and nothing below changes |
| Machine.Dropped | src/vm.ts:527-533 | popping keeps the stack invariant |
| Machine.PushPopRoundTrip | src/vm.ts:61-67 | popping what was pushed gives it back, restores the stack pointer and leaves it as the last popped value |
| Machine.BinaryEffect | src/vm.ts:69-124 | integer `+ - * /`, string concatenation, the unknown-string-operator error, and the unsupported-types error |
| Machine.ComparisonEffect | src/vm.ts:159-200 | integer `>`, identity for `==`/`!=`, and the unknown-operator error |
| Machine.BangEffect | src/vm.ts:202-206 | `!` is true exactly on false and null |
| Machine.IsTruthy | src/vm.ts:29-37 | definition: a boolean is its value, null is false, anything else true; stated by `BangEffect` and `JumpNotTruthyPopsAndBranches` |
| Machine.MinusEffect | src/vm.ts:208-216 | `-` negates integers and throws on anything else |
| Machine.ArrayIndex | src/vm.ts:136-145 | an index in range gives the element, else null |
| Machine.HashIndex | src/vm.ts:147-157 | an unhashable key throws; a hashable one gives its pair's value or null |
| Machine.IndexEffect | src/vm.ts:126-134 | only arrays with integer indexes and hashes can be indexed |
| Machine.Values | src/vm.ts:218-237 | reading stack cells gives their values in order |
| Machine.PairAt | src/vm.ts:222-237 | pair k of the hash literal is stack cells 2k and 2k + 1 |
| Machine.HashFrom | src/vm.ts:222-237 | definition: the pairs from pair k on, a later key replacing an earlier one, or the error for an unhashable key; stated by `HashThrowsOnUnhashableKey`, `HashKeepsUnnamedKey` and `HashLastPairWins` |
| Machine.Apply | src/vm.ts:61-67 | pushing an operation's result keeps the stack invariant and the instruction pointer |
| Machine.BinaryStep | src/vm.ts:69-86 | popping two operands and applying `BinaryEffect` keeps the stack invariant |
| Machine.ComparisonStep | src/vm.ts:159-180 | popping two operands and applying `ComparisonEffect` keeps the stack invariant |
| Machine.IndexStep | src/vm.ts:410-415 | popping the index and the operand and applying `IndexEffect` keeps the stack invariant |
| Machine.BangStep | src/vm.ts:202-206 | popping the operand and pushing `BangEffect` keeps the stack invariant |
| Machine.MinusStep | src/vm.ts:208-216 | popping the operand and applying `MinusEffect` keeps the stack invariant |
| Machine.SimpleStep | src/vm.ts:280-309 | an opcode without operands keeps the stack invariant and the instruction pointer |
| Machine.ConstantStep | src/vm.ts:270-279 | pushing a constant keeps the stack invariant |
| Machine.JumpNotTruthyStep | src/vm.ts:320-333 | the conditional jump keeps the stack invariant |
| Machine.SetGlobalStep | src/vm.ts:334-343 | storing a global keeps the stack invariant |
| Machine.GetGlobalStep | src/vm.ts:344-353 | loading a global keeps the stack invariant |
| Machine.ArrayStep | src/vm.ts:378-392 | building an array keeps the stack invariant |
| Machine.HashStep | src/vm.ts:393-409 | building a hash keeps the stack invariant |
| Machine.OperandStep | src/vm.ts:270-415 | reading the operand and dispatching keeps the stack invariant and a valid instruction pointer |
| Machine.OperandOpStep | src/vm.ts:270-415 | dispatch on an operand opcode keeps the stack invariant and a valid instruction pointer |
| Machine.RunOn | src/vm.ts:259-263 | continuing a run after a step ends, if normally, at the end of the instructions |
| Machine.Step | src/vm.ts:263-487 | one pass of the `run` loop keeps the stack invariant |
| Machine.RunSpec | src/vm.ts:254-489 | a run that ends normally ends at the end of the instructions |
| Machine.BuiltHash | src/vm.ts:222-237 | a hash literal that builds is a hash |
| Machine.PushedAll | src/vm.ts:61-67 | pushing several values puts them in order above the old stack |
| Machine.ArrayKeepsPushOrder | src/vm.ts:378-392 | OpArray n turns the top n values, in push order, into one array |
| Machine.PushedValues | src/vm.ts:218-220 | the pushed cells read back as the pushed values |
| Machine.HashThrowsOnUnhashableKey | src/vm.ts:222-237 | building a hash throws exactly when some key is unhashable |
| Machine.HashKeepsUnnamedKey | src/vm.ts:222-237 | a key not named in the literal keeps its old entry |
| Machine.HashLastPairWins | src/vm.ts:222-237 | for a repeated key the last pair wins |
| Machine.JumpLandsOnTarget | src/vm.ts:310-319 | OpJump makes the next instruction the target |
| Machine.JumpNotTruthyPopsAndBranches | src/vm.ts:320-333 | OpJumpNotTruthy pops the condition and falls through if truthy, else jumps |
| Machine.OperandPass | src/vm.ts:242-252 | an operand opcode reads its two-byte operand and skips it |
| Machine.RunMoreFuel | src/vm.ts:254-489 | a run that ends or throws within some fuel ends the same with more |
| Machine.ConstantPushes | src/vm.ts:270-279 | OpConstant k pushes constant k |
| Machine.RunStops | src/vm.ts:254-489 | a throwing step ends the run with that error |
| Machine.RunSteps | src/vm.ts:259-263 | a normal step continues the run from the new state |
| Machine.OnePlusTwo | src/__tests__/vm.test.ts:76-93 | the bytecode of "1 + 2" leaves 3 as the last popped value |
| Machine.VM.Snapshot | src/vm.ts:40-49 | the machine's fields as a state that keeps the stack invariant |
| Machine.VM.constructor | src/vm.ts:51-59 | an empty stack of STACK_SIZE, one main frame at ip -1 |
| Machine.VM.CurrentFrame | src/vm.ts:560-562 | the frame below the frame index, if any |
| Machine.VM.LastPoppedStackElement | src/vm.ts:537-539 | the cell just above the stack pointer |
| Machine.VM.PushFrame | src/vm.ts:564-567 | the frame becomes current and the ones below are kept |
| Machine.VM.PopFrame | src/vm.ts:569-575 | "Frame underflow" with no frame, else returns the current frame and lowers the index |
| Machine.VM.Push | src/vm.ts:61-67 | the new state is `PushSpec`; on overflow nothing changes |
| Machine.VM.Pop | src/vm.ts:527-533 | returns the top and drops it; an empty stack fails |
| Machine.VM.PopTwo | src/vm.ts:70-71 | returns the two top values, the right operand first popped |
| Machine.VM.ExecuteBinaryOperation | src/vm.ts:69-86 | the new state is `BinaryStep` |
| Machine.VM.ExecuteComparison | src/vm.ts:159-180 | the new state is `ComparisonStep` |
| Machine.VM.ExecuteIndexExpression | src/vm.ts:126-134 | the new state is `IndexStep` |
| Machine.VM.ExecuteBangOperator | src/vm.ts:202-206 | the new state is `BangStep` |
| Machine.VM.ExecuteMinusOperator | src/vm.ts:208-216 | the new state is `MinusStep` |
| Machine.VM.BuildArray | src/vm.ts:218-220 | the array holds the stack cells from start to end in order |
| Machine.VM.BuildHash | src/vm.ts:222-237 | the hash built from the stack cells from start to end is `BuiltHash` of their values |
| Machine.HashOfCells | src/vm.ts:222-237 | the loop over key-value pairs computes `BuiltHash` |
| Machine.VM.SetInstructionPointer | src/vm.ts:310-319 | only the current frame's ip changes |
| Machine.VM.ExecuteSimple | src/vm.ts:280-309 | an opcode without operands is `SimpleStep` |
| Machine.VM.ExecuteWithOperand | src/vm.ts:270-415 | an opcode with an operand is `OperandStep` |
| Machine.VM.ExecuteOperandOp | src/vm.ts:270-415 | dispatch on an operand opcode is `OperandOpStep` |
| Machine.VM.ExecuteConstant | src/vm.ts:270-279 | the new state is `ConstantStep` |
| Machine.VM.ExecuteJumpNotTruthy | src/vm.ts:320-333 | the new state is `JumpNotTruthyStep` |
| Machine.VM.ExecuteSetGlobal | src/vm.ts:334-343 | the new state is `SetGlobalStep` |
| Machine.VM.ExecuteGetGlobal | src/vm.ts:344-353 | the new state is `GetGlobalStep` |
| Machine.VM.ExecuteArray | src/vm.ts:378-392 | the new state is `ArrayStep` |
| Machine.VM.ExecuteHash | src/vm.ts:393-409 | the new state is `HashStep` |
| Machine.VM.Execute | src/vm.ts:263-487 | one pass of the loop is `Step` |
| Machine.VM.Run | src/vm.ts:254-489 | the loop computes `RunSpec` with the given fuel; no current frame stops it |
| Machine.VM.Pass | src/vm.ts:259-263 | one pass leaves the rest of the run unchanged |
| Agreement.OpcodeFor | src/compiler.ts:142-170 | the compiler's opcode for an operator is arithmetic exactly for the evaluator's arithmetic operators |
| Agreement.TruthinessAgrees | src/vm.ts:29-38 | the VM's and the evaluator's truthiness are the same |
| Agreement.BangAgrees | src/vm.ts:202-206 | `!` gives the same value in both |
| Agreement.MinusAgrees | src/vm.ts:208-216 | `-` on an integer gives the same value in both |
| Agreement.IntegerInfixAgrees | src/vm.ts:88-112 | every compiled integer operator gives in the VM what the evaluator gives |
| Agreement.LessThanAgrees | src/compiler.ts:135-141 | `a < b`, compiled as `b > a`, gives the evaluator's answer |
| Agreement.EqualityAgrees | src/vm.ts:159-180 | `==` and `!=` agree on every pair of values, or both leave the model |
| Agreement.CompiledOnePlusTwoRuns | src/__tests__/vm.test.ts:76-93 | compiling "1 + 2" and running it leaves 3 as the last popped value |

## Left out

- Console output in `t.go` (`fmt.Println`) and its `main` are not modelled: they only print.
- Division whose quotient is not a whole number, and division by zero, use JavaScript floating point. They give `Unmodelled`.
- Identity (`===`) of strings, arrays, hashes and functions depends on allocation. Comparing two of those gives `Unmodelled`.
- Strings are sequences of Unicode scalar values. JavaScript uses UTF-16 code units, so surrogate halves are not modelled.
- Evaluation.EvalNode: string, array, index and hash expressions evaluate to null in the model. The evaluator shown has no cases for them, so they reach the default branch.
- Evaluation.ApplyFunction: the call depth is bounded by a fuel parameter, which stands for the JavaScript stack limit. Running out of fuel gives `Unmodelled`.
- Machine.RunSpec: its own contract states only where a normal run ends; the steps are stated by `RunSteps`, `RunStops` and `RunMoreFuel`. The number of executed instructions is bounded by fuel, because bytecode can jump backwards. Running out of fuel gives `Unmodelled`.
- Machine.VM.Run: calls, returns, closures, locals, builtins and free variables are not executed. The VM stops on those opcodes as on an unimplemented one.
- Compiling.Compiler.CompileExpression: function literals and hash literals give `Unmodelled`.
- Compiling.Compiler.CompileExpression: call, return, local, builtin and free loads emit an opcode that `code.ts`'s table lacks, so no bytes are emitted.
- Compiling.Compiler.CompileIdentifier: resolving a name outside the root scope gives `Unmodelled`.
- Compiling.Compiler.constructor: the registration of the builtin functions in the symbol table is left out. It goes through a module import that is not part of this model.
- Compiling.Compiler.LeaveScope: it keeps the compiler's invariant only when it leaves a scope other than the root.
- Parsing.Parser.SkipToSemicolon: this is the corrected skip loop. The loop as written is modelled by `SkipAsWritten`.
- Ast.StatementStrings: printing is stated through its own definition and the examples. Only `Program`, `let`, `return`, expression statements, identifiers and integer literals are in `ast.ts`. The other nodes print as the Monkey book does.
- Integers are unbounded. JavaScript numbers are doubles, so `parseInt` (src/parser.ts:200-207) and `+`, `-`, `*` in the evaluator (src/evaluator.ts:105-140) and the VM (src/vm.ts:96-104) lose precision above 2^53; the model computes exactly.
- ParserTests: six of the twenty-one operator-precedence cases are proved. The others (comparisons, booleans, several statements) go through the same parse functions but are not stated.
- Tokens: `LBRACKET`, `RBRACKET` and `COLON` are used by the lexer but are missing from `token.ts`'s enum. They are added with the values `[`, `]` and `:`.
- Objects: `object.ts` defines only integers, booleans, null and return values. The other kinds, and the type names `INTEGER`, `BOOLEAN` and so on, follow their use in the evaluator, the VM and the tests.
- Machine.Step: its own contract states only that the stack invariant is kept; what the opcode does is stated by the `*Effect` functions and the step lemmas.
- Machine.Apply: its own contract states only that the stack invariant is kept; what the opcode does is stated by the `*Effect` functions and the step lemmas.
- Machine.BinaryStep: its own contract states only that the stack invariant is kept; what the opcode does is stated by the `*Effect` functions and the step lemmas.
- Machine.ComparisonStep: its own contract states only that the stack invariant is kept; what the opcode does is stated by the `*Effect` functions and the step lemmas.
- Machine.IndexStep: its own contract states only that the stack invariant is kept; what the opcode does is stated by the `*Effect` functions and the step lemmas.
- Machine.BangStep: its own contract states only that the stack invariant is kept; what the opcode does is stated by the `*Effect` functions and the step lemmas.
- Machine.MinusStep: its own contract states only that the stack invariant is kept; what the opcode does is stated by the `*Effect` functions and the step lemmas.
- Machine.SimpleStep: its own contract states only that the stack invariant is kept; what the opcode does is stated by the `*Effect` functions and the step lemmas.
- Machine.ConstantStep: its own contract states only that the stack invariant is kept; what the opcode does is stated by the `*Effect` functions and the step lemmas.
- Machine.JumpNotTruthyStep: its own contract states only that the stack invariant is kept; what the opcode does is stated by the `*Effect` functions and the step lemmas.
- Machine.SetGlobalStep: its own contract states only that the stack invariant is kept; what the opcode does is stated by the `*Effect` functions and the step lemmas.
- Machine.GetGlobalStep: its own contract states only that the stack invariant is kept; what the opcode does is stated by the `*Effect` functions and the step lemmas.
- Machine.ArrayStep: its own contract states only that the stack invariant is kept; what the opcode does is stated by the `*Effect` functions and the step lemmas.
- Machine.HashStep: its own contract states only that the stack invariant is kept; what the opcode does is stated by the `*Effect` functions and the step lemmas.
- Machine.OperandStep: its own contract states only that the stack invariant is kept; what the opcode does is stated by the `*Effect` functions and the step lemmas.
- Machine.OperandOpStep: its own contract states only that the stack invariant is kept; what the opcode does is stated by the `*Effect` functions and the step lemmas.
- Evaluation.EvalStatement: its own contract states only that the environment heap grows; behaviour is stated by the lemmas about it.
- Evaluation.EvalNode: its own contract states only that the environment heap grows; behaviour is stated by the lemmas about it.
- Evaluation.EvalOptional: its own contract states only that the environment heap grows; behaviour is stated by the lemmas about it.
- Evaluation.ProgramFrom: its own contract states only that the environment heap grows; behaviour is stated by the lemmas about it.
- Evaluation.BlockFrom: its own contract states only that the environment heap grows; behaviour is stated by the lemmas about it.
- Evaluation.ExpressionsFrom: its own contract states only that the environment heap grows; behaviour is stated by the lemmas about it.

- Boolean literals: one constructor, `Ast.BoolExpression`, stands for two classes. The compiler tests `instanceof BooleanLiteral` (src/compiler.ts:4, src/compiler.ts:177), while the parser builds, and the evaluator tests, `BoolExpression` (src/parser.ts:13, src/parser.ts:238, src/evaluator.ts:6, src/evaluator.ts:289). Neither class is in `ast.ts`, so in the code as written the compiler's boolean branch may never match what the parser builds; the model assumes they are the same node.
- Machine.ConstantStep: a constant index outside the pool gives `Unmodelled`. At src/vm.ts:276 the source pushes `undefined` and goes on.
- Machine.GetGlobalStep: reading a global that was never set gives `Unmodelled`. At src/vm.ts:344-352 the source pushes `undefined` and goes on.
- Machine.ArrayStep: a count larger than the stack pointer gives `Unmodelled`. At src/vm.ts:378-392 the source reads below the stack and goes on.
- Machine.HashStep: a count larger than the stack pointer, or an odd count, gives `Unmodelled`. At src/vm.ts:393-409 the source reads `undefined` cells and goes on.
- Tokens.LookupIdent and Environments.Get: `keywords` (src/token.ts:50-61) and `Environment.store` (src/environment.ts:8-19) are modelled as finite maps. As JavaScript object literals they also answer inherited names such as `toString` and `constructor`, which the model treats as absent.

## Findings

| source | as written | input that shows it | evidently intended | confidence | as-written member | corrected member |
|---|---|---|---|---|---|---|
| t.go:26-31 | after an undefined opcode, `continue` runs without advancing `i`, so the loop never ends | the single byte 1 | step past the undefined byte and go on | not executed | GoCode.BingStallsAsWritten | GoCode.Bing |
| src/parser.ts:139-141, src/parser.ts:152-154 | the skip loops in `parseLetStatement` and `parseReturnStatement` wait only for `;`, and the lexer returns EOF forever, so it never ends | `let x = 5` | stop at `;` or at EOF | not executed | Parsing.SkipAsWrittenNeverEnds | Parsing.Parser.SkipToSemicolon |
