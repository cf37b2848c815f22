# go-vtwin front end in Dafny

This project models the front end of the go-vtwin toolchain: the byte-cursor
tokenizer of `lex/lexer.go` and the one-token-lookahead parser of
`parser/parser.go`, with its ad-hoc precedence engine.

- **Tokenizer.** `Lex.Lexer` is a class whose fields are the ones the Go code
  updates in place: `position`, `readPosition` and `ch`, over an immutable
  byte input. Each of its methods (`ReadChar`, `SkipWhitespace`,
  `ReadIdentifier`, `ReadNumber`, `ReadString`, `NextToken`) is a loop or an
  update on those fields. Each is proved against a reference function of the
  cursor position. `Lex.Scan` is one `NextToken` call as such a function: it
  gives the lexeme and the position the cursor is left at. `LexProps` states
  what a sequence of calls yields:
  - the shape of each kind of lexeme;
  - EOF forever past the end;
  - literals that reassemble the input without its whitespace.
- **Parser.** `Parsing.Parser` is a class with `curToken`, `peekToken` and
  `topScope`, and it pulls from a `Lexer`. Every parsing method is proved
  equal to a reference definition in `ParserSpec`. That definition is a set
  of functions over a state made of the current lexeme, the peeked one, and
  the lexemes the lexer has still to hand out. The Go panics are modelled as
  the `Err` outcomes of a `Result`:
  - "Paren mismatch" is `ParenMismatch`;
  - "Invalid Let assignment" is `InvalidLet`;
  - the nil `Name` dereference of a `let` without an identifier is `NilName`.
- **Undefined helpers.** The parser's token package and AST package are not
  part of this model. `Token` and `Ast` define what the parser relies on:
  - token kinds, `IsOperator` and `Precedence`;
  - the keyword classification `Lookup`;
  - the `BinaryExpression` node with `completeNode` (`Complete`),
    `emptyNode` (`Empty`), `addSubnode` (`AddSubnode`) and `shiftNode`
    (`Shift`).

The expression engine `parseBinaryExpr` does not stop on every input. When
the end token never comes, the cursor stalls at EOF and operands pile up. So
the reference definition takes a `fuel` bound on loop iterations and nesting,
and reports `OutOfFuel` when it is spent. The methods take that bound as a
ghost parameter and require only that the reference definition does not run
out of it. The lemmas `LoopFuel`, `BinaryFuel`, `ExprFuel`, `ParenFuel`,
`LetFuel`, `StmtFuel`, `ProgramFuel` and `ParseFuel` show that the outcome of
each reference function, up to the whole `Parse`, does not depend on the
bound once it is large enough.

Where the code's behaviour may surprise a reader, the model follows the
code:
- A `(` that is never closed is accepted when no `)` is peeked after the
  inner expression. The final decrement of `parseParenExpr` brings the
  counter from 1 to 0, so `(1;` parses (`UnclosedParenAccepted`). The counter
  may also go negative without failing.
- A 0 byte inside the input yields EOF, but the stream does not end there:
  the next call goes on with the bytes after it (`NulInsideInput`). EOF is
  idempotent only once the cursor is past the end (`EofForever`).
- `newToken` builds its literal with Go's `string(byte)`. That is the UTF-8
  encoding of the byte as a code point, so a byte from 0x80 on becomes two
  bytes (`RuneBytes`, `IllegalLexeme`). The reassembly property is therefore
  stated on the text of the input (`LiteralsReassemble`), and it is stated
  on the bytes themselves for ASCII input (`AsciiLiteralsReassemble`).
- Precedence climbing reaches only two operators deep. In `a o1 b o2 c`
  the tree nests left or right by precedence (`LooserChainNestsLeft`,
  `TighterChainNestsRight`). When `o2` binds no tighter than `o1`, a third
  operator `o3` meets a node that already has its operator, and the
  `default` case hands it to `parseUnaryExpr`. What happens then depends
  on its kind:
  - A prefix kind (ADD, SUBT, XOR or AND) becomes the operator of a unary
    term over the next operand. So `1 - 2 - 3 - 4` puts `- 4` as a unary
    term beside `3` (`ThirdOperatorIsPrefix`).
  - Any other operator (`*`, `/` or a comparison) is taken as a bare
    operand itself, and the cursor does not move past it. The next operand
    then becomes the only operand of a fresh node with no operator. So
    `1 + 2 + 3 * 4` gives a node with no operator over `[4]`; its left
    slot holds `+` over `[3, *]`, whose left slot holds `1 + 2`
    (`ThirdOperatorIsOperand`).
- Expression statements start only at `(` or an integer. Every other
  lexeme, including `const`, `return` and ILLEGAL, yields no statement, and
  the loop steps past it.

## Model

| member | source | states |
|---|---|---|
| `Token.Precedence` | parser/parser.go:175-177 | only operators have a positive binding strength; every comparison has level 3, every additive operator 4, every multiplicative one 5 |
| `Token.IsOperator` | parser/parser.go:86 | reference definition: the comparison, additive and multiplicative kinds, the ones `IsOpertor` accepts; `Token.Precedence` states that exactly these have a positive level |
| `Token.Lookup` | lex/lexer.go:109 | reference definition: `let`, `const`, `return` are keywords, every other word IDENT; `LexProps.WordLexeme` states that identifiers take this kind |
| `Ast.AddSubnode` | parser/parser.go:84 | appends one operand after those already collected and leaves operator and left slot alone |
| `Ast.Shift` | parser/parser.go:78 | a fresh node with no operator and no operands whose left slot holds the completed node |
| `Ast.Complete` | parser/parser.go:74 | reference definition of `completeNode`: an operator and two operands; `ParserSpec.BinaryLoop` states that an rhs-mode parse ends on such a node |
| `Ast.Empty` | parser/parser.go:89 | reference definition of `emptyNode`: no operand yet; `ParserProps.LoopOperand` states the step that fills it |
| `Lex.IsLetter` | lex/lexer.go:183-185 | reference definition: `a`-`z`, `A`-`Z` and `_`; `Lex.LetterRunEnd` states the run it delimits |
| `Lex.IsDigit` | lex/lexer.go:179-181 | reference definition: `0`-`9`; `Lex.DigitRunEnd` states the run it delimits |
| `Lex.IsWhitespace` | lex/lexer.go:150 | reference definition: space, tab, LF, CR; `Lex.SkipWhitespaceFrom` states the run it delimits |
| `Lex.OperatorPair` | lex/lexer.go:42-83 | reference definition: for `:`, `!`, `<`, `>`, the kind alone and the kind followed by `=`; `LexProps.OperatorLexeme` states the lexemes they give |
| `Lex.PunctuationType` | lex/lexer.go:50-99 | reference definition: the single-byte cases of the switch; `LexProps.PunctuationLexeme` states the lexemes they give |
| `Lex.SkipWhitespaceFrom` | lex/lexer.go:149-153 | the cursor stops on a byte that is not space, tab, LF or CR, and only such bytes lie between the start and it |
| `Lex.LetterRunEnd` | lex/lexer.go:132-139 | the end of the maximal run of letters/underscores: all bytes before it are letters, the byte at it is not |
| `Lex.DigitRunEnd` | lex/lexer.go:141-147 | the end of the maximal run of digits: all bytes before it are digits, the byte at it is not |
| `Lex.ClosingQuote` | lex/lexer.go:155-165 | the first quote at or after a position, when one exists; no quote lies before it |
| `Lex.RuneBytes` | lex/lexer.go:170 | Go's `string(byte)`: the byte itself below 0x80, two bytes from 0x80 on |
| `Lex.RuneTextAppend` | lex/lexer.go:167-171 | the text of two byte sequences in a row is the text of each in turn |
| `Lex.RuneText` | lex/lexer.go:168-171 | reference definition of the text `newToken` accumulates, one byte's text after another; `Lex.RuneTextAppend`, `Lex.RuneTextAscii` and `Lex.NewToken` state its properties |
| `Lex.RuneTextAscii` | lex/lexer.go:167-171 | bytes below 0x80 are their own text |
| `Lex.NewToken` | lex/lexer.go:167-177 | the lexeme's kind is the one given and its literal is the text of the bytes, one after the other |
| `Lex.QuotesSkipped` | lex/lexer.go:155-165 | stepping over bytes that are not quotes leaves the count of quotes ahead unchanged |
| `Lex.Scan` | lex/lexer.go:36-122 | one `NextToken` call always advances the cursor, and stays within the input unless it returns EOF |
| `Lex.ScanAt` | lex/lexer.go:41-118 | the recognition switch advances past the byte under the cursor |
| `Lex.ScanOperator` | lex/lexer.go:42-83 | `:`, `!`, `<`, `>` take one byte, or two when `=` follows |
| `Lex.ScanString` | lex/lexer.go:100-102 | a string lexeme ends right after the first quote following the opening one |
| `Lex.ScanWord` | lex/lexer.go:106-110 | an identifier ends where the letter run ends, without consuming an extra byte |
| `Lex.ScanNumber` | lex/lexer.go:111-114 | an integer ends where the digit run ends, without consuming an extra byte |
| `Lex.NoQuoteStepped` | lex/lexer.go:36-122 | a lexeme other than a string steps over no quote |
| `Lex.ScanKeepsStringsClosed` | lex/lexer.go:36-122 | after any call every later string literal is still closed, so `readString` always finds its quote |
| `Lex.OpenQuoteIsClosed` | lex/lexer.go:155-165 | a quote the lexer opens has a closing quote later in the input |
| `Lex.Lexer.constructor` | lex/lexer.go:19-23 | the cursor starts on the first byte (or 0 for empty input) |
| `Lex.CharAt` | lex/lexer.go:26-30 | the byte `readChar` (and `peekChar`, lex/lexer.go:125-129) loads for a read position: the input byte, or 0 past the end; the `Lex.Lexer.ReadChar` and `Lex.Lexer.PeekChar` contracts state it |
| `Lex.Lexer.ReadChar` | lex/lexer.go:25-34 | `position` becomes the old `readPosition`, `readPosition` is `position + 1`, `ch` is the byte there or 0 past the end |
| `Lex.Lexer.PeekChar` | lex/lexer.go:124-130 | the byte after the cursor, or 0 past the end, reading and changing nothing |
| `Lex.Lexer.SkipWhitespace` | lex/lexer.go:149-153 | the loop leaves the cursor where `SkipWhitespaceFrom` says |
| `Lex.Lexer.ReadIdentifier` | lex/lexer.go:132-139 | the loop leaves the cursor at the end of the letter run and returns the bytes it stepped over |
| `Lex.Lexer.ReadNumber` | lex/lexer.go:141-147 | the loop leaves the cursor at the end of the digit run and returns the bytes it stepped over |
| `Lex.Lexer.ReadString` | lex/lexer.go:155-165 | the loop stops on the closing quote and returns the bytes strictly between the quotes |
| `Lex.Lexer.ReadOperator` | lex/lexer.go:42-83 | the two-byte operator with the cursor left on the `=`, or the one-byte token |
| `Lex.Lexer.NextToken` | lex/lexer.go:36-122 | the lexeme and the new cursor are those of `Scan`, and strings stay closed |
| `LexProps.Head` | lex/lexer.go:103-105 | the next lexeme of a stream, EOF once the stream is exhausted; `LexProps.StreamStep` states that one call gives it |
| `LexProps.Tail` | lex/lexer.go:103-105 | what follows it, the empty stream once exhausted; `LexProps.StreamStep` states that one call leaves it |
| `LexProps.Stream` | lex/lexer.go:36-122 | reference definition: the lexemes of successive calls while the cursor is within the input; `LexProps.StreamCons` and `LexProps.PullIsStream` state it is what the calls give |
| `LexProps.Tokens` | lex/lexer.go:36-122 | the calls up to the first EOF: it ends with EOF and holds no EOF before that |
| `LexProps.Pull` | lex/lexer.go:36-122 | `n` successive calls give `n` lexemes |
| `LexProps.StreamStep` | lex/lexer.go:36-122 | one call takes the head of the token stream and leaves its tail |
| `LexProps.StreamCons` | lex/lexer.go:36-122 | within the input, the stream is the next call's lexeme followed by the stream from where it leaves the cursor |
| `LexProps.PullIsStream` | lex/lexer.go:36-122 | `n` calls give the stream's first `n` lexemes, then EOF |
| `LexProps.PaddedCons` | lex/lexer.go:103-105 | a stream padded with EOF, as repeated calls past its end see it, is its head followed by its padded tail |
| `LexProps.OperatorLexeme` | lex/lexer.go:42-83 | `:=`, `!=`, `<=`, `>=` give ASSIGN/NEQ/LEQ/GEQ with the two-byte literal; otherwise COLON/NOT/LSS/GTR with one byte and the next byte left unconsumed |
| `LexProps.PunctuationLexeme` | lex/lexer.go:50-99 | single-byte punctuation gives its kind with that byte as literal, one byte on |
| `LexProps.WordLexeme` | lex/lexer.go:106-110 | an identifier is the maximal letter run: literal `input[q..e]`, all letters, the byte at `e` not a letter, kind `Lookup` of the literal |
| `LexProps.NumberLexeme` | lex/lexer.go:111-114 | an integer is the maximal digit run, with the same maximality statement |
| `LexProps.StringLexeme` | lex/lexer.go:100-102 | a string literal is exactly the bytes strictly between the opening quote and the next quote; the cursor ends just past it |
| `LexProps.EofLexeme` | lex/lexer.go:103-105 | a 0 byte (or the end) gives EOF with an empty literal |
| `LexProps.Unrecognised` | lex/lexer.go:115-117 | the bytes that no case of `NextToken` names and that reach the ILLEGAL branch; `LexProps.IllegalLexeme` states the lexeme they give |
| `LexProps.IllegalLexeme` | lex/lexer.go:115-117 | any other byte gives ILLEGAL whose literal is that byte (its UTF-8 text from 0x80 on), one byte on |
| `LexProps.EofForever` | lex/lexer.go:25-34 | past the end of the input, every call, however many, returns EOF with an empty literal |
| `LexProps.NulInsideInput` | lex/lexer.go:103-105 | a 0 byte inside the input yields EOF, and the next call still lexes the bytes after it |
| `LexProps.PlainLexeme` | lex/lexer.go:36-122 | on input without quotes or 0 bytes, a call gives EOF exactly when only whitespace is left; otherwise its literal is the text of the non-whitespace bytes it spans |
| `LexProps.AsciiRunSpans` | lex/lexer.go:106-114 | an identifier or integer run of ASCII bytes has as literal exactly the bytes it spans |
| `LexProps.LiteralsUnfold` | lex/lexer.go:36-122 | the literals of the calls from a position are the first call's literal followed by those of the rest |
| `LexProps.LiteralsReassemble` | lex/lexer.go:36-122 | without quotes and 0 bytes, the literals up to EOF concatenate to the text of the input with whitespace removed |
| `LexProps.AsciiLiteralsReassemble` | lex/lexer.go:167-177 | on ASCII input the literals concatenate to the input itself with whitespace removed |
| `LexProps.TokensUnfold` | lex/lexer.go:36-122 | a non-EOF call is followed by the calls from where it left the cursor |
| `LexProps.TokensOfScans` | lex/lexer.go:36-122 | five non-EOF calls, each starting where the previous left the cursor, then an EOF call, are all the calls up to EOF |
| `LexProps.StreamOfScans` | lex/lexer.go:36-122 | five calls that each start inside the input, the last leaving it, are the whole stream |
| `LexProps.LetLineHead` | lex/lexer.go:36-122 | the first three calls on `let y := 5;` give `let`, `y` and `:=` |
| `LexProps.LetLineKeyword` | lex/lexer.go:106-110 | the first call on `let y := 5;` reads the keyword `let` and leaves the cursor on the blank |
| `LexProps.LetLineName` | lex/lexer.go:36-122 | the second call skips the blank and reads the identifier `y` |
| `LexProps.LetLineAssign` | lex/lexer.go:42-46 | the third call skips the blank and reads `:=` as one ASSIGN lexeme |
| `LexProps.LetLineTail` | lex/lexer.go:36-122 | the last three calls on `let y := 5;` give `5`, `;` and EOF |
| `LexProps.LetLineInt` | lex/lexer.go:111-114 | the fourth call skips the blank and reads the integer `5` |
| `LexProps.LetLineSemicolon` | lex/lexer.go:84-85 | the fifth call reads `;` |
| `LexProps.LetLineEof` | lex/lexer.go:103-105 | the sixth call, past the end, gives EOF with an empty literal |
| `LexProps.LetLineTokens` | lex/lexer.go:36-122 | `let y := 5;` lexes to LET, IDENT, ASSIGN, INT, SEMICOLON, EOF with their literals |
| `ParserSpec.Advance` | parser/parser.go:32-35 | reference definition of `nextToken` on the state; `ParserProps.AdvancePullsOne` states it pulls exactly the next lexeme |
| `ParserSpec.Start` | parser/parser.go:18-30 | reference definition of `New`: two `nextToken` calls; `ParserProps.StartTakesTwo` states current and peek are the first two lexemes |
| `ParserSpec.IsPrefix` | parser/parser.go:40 | reference definition of the kinds `parseUnaryExpr` takes as the operator: ADD, SUBT, NOT, XOR and AND; `ParserProps.UnaryOperand` states the outcome in both cases |
| `ParserSpec.ParseUnary` | parser/parser.go:37-48 | reference definition of `parseUnaryExpr`; `ParserProps.UnaryOperand` states operator, operand and cursor |
| `ParserSpec.ParseParen` | parser/parser.go:49-69 | reference definition of `parseParenExpr`; `ParserProps.ParenVerdict` states when it fails and what the node holds |
| `ParserSpec.ParseExpr` | parser/parser.go:114-121 | reference definition of `parseExpression`; `ParserProps.ExprIsUnaryUnlessOperator` states which branch is taken |
| `ParserSpec.OpenRun` | parser/parser.go:52-56 | the first paren loop stops on a lexeme other than `(` |
| `ParserSpec.CloseRun` | parser/parser.go:58-61 | the second paren loop stops when the peek is not `)` |
| `ParserSpec.ParseBinary` | parser/parser.go:70-112 | a successful binary parse yields a binary node, ends on the end token or, in rhs mode, on a complete node |
| `ParserSpec.BinaryLoop` | parser/parser.go:73-110 | the loop ends on the end token or, in rhs mode, on a complete node |
| `ParserSpec.BinaryLoopStep` | parser/parser.go:73-110 | one loop iteration that neither ends nor returns: the loop goes on from the node and state the switch leaves |
| `ParserSpec.LoopEnds` | parser/parser.go:73-76 | a loop that stops at once (end token, or a complete rhs-mode node) hands back its node and state unchanged |
| `ParserSpec.BinaryOutcome` | parser/parser.go:70-112 | `parseBinaryExpr` succeeds with the loop's node, at the loop's state, or fails with the loop's error |
| `ParserSpec.Prepared` | parser/parser.go:74-80 | reference definition: a complete node is shifted left before the switch; `ParserProps.ChainNestsLeft` shows its effect |
| `ParserSpec.StepOn` | parser/parser.go:107-109 | reference definition of the advance after the switch; `Parsing.Parser.MoveOn` is proved against it |
| `ParserSpec.BinaryStep` | parser/parser.go:81-105 | reference definition of the switch, case for case; `ParserProps.LoopOperand`, `LoopOperator`, `LoopNested` and `LoopParen` state its cases |
| `ParserSpec.ParseLet` | parser/parser.go:123-142 | reference definition of `parseLetStatement`; `ParserProps.LetOutcome` states its failure and its name |
| `ParserSpec.ParseStmt` | parser/parser.go:143-162 | reference definition of `parseStatement` with the scope; `ParserProps.StatementShape` states what each lexeme kind gives |
| `ParserSpec.ProgramLoop` | parser/parser.go:164-174 | `ParseProgram` ends with EOF current |
| `ParserSpec.ProgramLoopStep` | parser/parser.go:166-172 | one iteration of `ParseProgram`: a statement, kept when there is one, then one `nextToken` |
| `ParserSpec.Kept` | parser/parser.go:168-170 | reference definition: a statement is appended when there is one; `ParserProps.ProgramCollects` states the order |
| `ParserSpec.ProgramResult` | parser/parser.go:164-173 | reference definition of the `Program` that wraps the collected statements, or the loop's error; `Parsing.Parser.ParseProgram` states that the method returns it |
| `ParserSpec.Parse` | parser/parser.go:164-174 | reference definition of a fresh parser over the input running `ParseProgram`; `ParserProps.ParseBindsLets` and `ParserProps.ParseFuel` state its scope and its independence from the bound |
| `Parsing.Parser.constructor` | parser/parser.go:18-30 | empty scope; current and peek are the first two lexemes of the lexer |
| `Parsing.Parser.NextToken` | parser/parser.go:32-35 | the old peek becomes current and exactly one new lexeme is pulled |
| `Parsing.Parser.TokenIs` | parser/parser.go:178-180 | whether the current lexeme has the kind; the paren loop of `Parsing.Parser.OpenParens` tests it |
| `Parsing.Parser.PeekTokenIs` | parser/parser.go:181-183 | whether the peeked lexeme has the kind; the loop of `Parsing.Parser.CloseParens` tests it |
| `Parsing.Parser.PeekPrecedence` | parser/parser.go:175-177 | the level of the peeked lexeme, as `Token.Precedence` states it |
| `Parsing.Parser.ParseUnaryExpr` | parser/parser.go:37-48 | follows the reference `ParseUnary` |
| `Parsing.Parser.OpenParens` | parser/parser.go:52-56 | the loop counts the leading `(` as `OpenRun` says |
| `Parsing.Parser.CloseParens` | parser/parser.go:58-61 | the loop uncounts the peeked `)` as `CloseRun` says |
| `Parsing.Parser.ParseParenExpr` | parser/parser.go:49-69 | follows `ParseParen`, including the mismatch failure |
| `Parsing.Parser.ParseBinaryExpr` | parser/parser.go:70-112 | follows `ParseBinary`: same node, same cursor, same failure |
| `Parsing.Parser.BinaryIteration` | parser/parser.go:74-109 | the loop body (shift, switch, advance) carries the loop's outcome over |
| `Parsing.Parser.MoveOn` | parser/parser.go:107-109 | advances unless the peek is EOF or an rhs-mode node has just become complete |
| `Parsing.Parser.ParseBinaryCase` | parser/parser.go:81-105 | the switch follows `BinaryStep`, case for case |
| `Parsing.Parser.ParseExpression` | parser/parser.go:114-121 | follows `ParseExpr` |
| `Parsing.Parser.ParseLetStatement` | parser/parser.go:123-142 | follows `ParseLet`, including the invalid-assignment failure |
| `Parsing.Parser.ParseStatement` | parser/parser.go:143-162 | follows `ParseStmt` on statement, scope and cursor |
| `Parsing.Parser.ProgramStep` | parser/parser.go:166-172 | one loop iteration carries the loop's outcome over |
| `Parsing.Parser.ParseProgram` | parser/parser.go:164-174 | follows `ProgramLoop`: statements, final scope and cursor |
| `ParserProps.StartTakesTwo` | parser/parser.go:18-30 | after `New` the current and peeked lexemes are the first two `NextToken` results |
| `ParserProps.AdvancePullsOne` | parser/parser.go:32-35 | `nextToken` makes the old peek current and peeks exactly the next `NextToken` result |
| `ParserProps.UnaryOperand` | parser/parser.go:37-48 | the operand is the lexeme left current; with a prefix ADD/SUBT/NOT/XOR/AND that token is the operator and the cursor moves once, otherwise the operator is `+` and nothing moves |
| `ParserProps.ExprIsUnaryUnlessOperator` | parser/parser.go:114-121 | a single unary term exactly when current is not `(` and peek is not an operator; else a binary node ending on the end token |
| `ParserProps.OpenRunCounts` | parser/parser.go:52-56 | the first loop counts every leading `(`, leaves the cursor past all of them, and remembers the last: the lexeme current after one `nextToken` fewer (the given one when there is none) |
| `ParserProps.CloseRunCounts` | parser/parser.go:58-61 | the second loop uncounts every peeked `)` |
| `ParserProps.ParenVerdict` | parser/parser.go:49-69 | the inner expression is parsed from just past the leading `(`; it fails exactly when opens > peeked closes + 1; `Lparen` is the last leading `(` (the zero token when none), `Rparen` whatever lexeme is current at the end |
| `ParserProps.UnclosedParenAccepted` | parser/parser.go:57-66 | `(1;` is accepted, with `1` recorded as the right parenthesis |
| `ParserProps.DoubleParenAccepted` | parser/parser.go:49-69 | `((1));` is accepted: the counter reaches 0 before the final decrement, and the cursor ends on the last `)` |
| `ParserProps.BinaryEndsAtEnd` | parser/parser.go:73-111 | a top-level parse ends on the end token; an rhs-mode one there or on a complete node |
| `ParserProps.ExprErrors` | parser/parser.go:114-121 | an expression only fails by a paren mismatch (or spent fuel), never as a statement does |
| `ParserProps.ParenErrors` | parser/parser.go:49-69 | a paren expression only fails by a mismatch (or spent fuel) |
| `ParserProps.BinaryErrors` | parser/parser.go:70-112 | a binary parse only fails by a mismatch (or spent fuel) |
| `ParserProps.LoopErrors` | parser/parser.go:73-110 | the loop only fails by a mismatch (or spent fuel) |
| `ParserProps.LoopStopsOrStarves` | parser/parser.go:73-80 | a loop that ends at once, or hands back a complete rhs-mode node, does not fail except for spent fuel |
| `ParserProps.StepErrors` | parser/parser.go:81-105 | the switch only fails by a mismatch (or spent fuel) |
| `ParserProps.ExprFuel` | parser/parser.go:114-121 | once an expression parse does not run out of fuel, more fuel gives the same outcome |
| `ParserProps.ParenFuel` | parser/parser.go:49-69 | as `ExprFuel`, for a paren expression |
| `ParserProps.BinaryFuel` | parser/parser.go:70-112 | as `ExprFuel`, for a binary parse |
| `ParserProps.LoopFuel` | parser/parser.go:73-110 | as `ExprFuel`, for the loop |
| `ParserProps.LetFuel` | parser/parser.go:123-142 | as `ExprFuel`, for a `let` statement |
| `ParserProps.StmtFuel` | parser/parser.go:143-162 | as `ExprFuel`, for one statement |
| `ParserProps.ProgramFuel` | parser/parser.go:164-174 | as `ExprFuel`, for the loop of `ParseProgram` |
| `ParserProps.ProgramFuelOn` | parser/parser.go:166-172 | as `ProgramFuel`, for a loop with an iteration left to run |
| `ParserProps.ProgramFuelStep` | parser/parser.go:166-172 | one iteration under two bounds leaves the same outcome to go on from |
| `ParserProps.ProgramUnfold` | parser/parser.go:166-172 | an iteration of `ParseProgram`: the statement's error, or the rest of the loop one lexeme on |
| `ParserProps.ParseFuel` | parser/parser.go:164-174 | once a whole parse does not run out of fuel, more fuel gives the same statements and scope |
| `ParserProps.LoopStops` | parser/parser.go:73-80 | a loop that ends before its first iteration gives the node and state unchanged under any bound |
| `ParserProps.LoopFuelStep` | parser/parser.go:81-110 | one iteration under two bounds fails the same way, or leaves the same node and state to go on from |
| `ParserProps.LoopUnfold` | parser/parser.go:81-110 | an iteration of the loop: the error of the switch, or the rest of the loop from the node and state it leaves |
| `ParserProps.StepFuel` | parser/parser.go:81-105 | as `ExprFuel`, for one switch |
| `ParserProps.LoopOperand` | parser/parser.go:89-104 | an iteration on any lexeme but `(` in the `emptyNode` or default case adds the `parseUnaryExpr` term, a bare term without moving when the lexeme is no prefix |
| `ParserProps.LoopOperator` | parser/parser.go:86-87 | an iteration on an operator, when the node has none, makes it the node's operator |
| `ParserProps.LoopNested` | parser/parser.go:98-100 | on any lexeme but `(`, when the peek binds tighter than the node's operator, the second operand is an rhs-mode parse bounded by that operator's precedence |
| `ParserProps.LoopParen` | parser/parser.go:82-84 | an iteration on `(` adds the parenthesised expression as an operand |
| `ParserProps.OperandStep` | parser/parser.go:89-104 | an iteration on a bare operand whose peek binds no tighter adds it as a term and moves on one lexeme |
| `ParserProps.OperandThen` | parser/parser.go:89-104 | the same iteration on a stream whose next lexeme is known: the cursor lands on the peek and the peek on that lexeme |
| `ParserProps.OperatorStep` | parser/parser.go:86-87 | an iteration on an operator gives it to a node without one and moves on one lexeme |
| `ParserProps.ShiftStep` | parser/parser.go:74-87 | at top level, an operator after a complete node starts a fresh node with that operator and the complete one in its left slot |
| `ParserProps.PrefixStep` | parser/parser.go:37-48 | a prefix operator met by a node that has its operator becomes the operator of a unary term over the next lexeme |
| `ParserProps.PrefixEnds` | parser/parser.go:37-48 | that unary term completes the node and the loop ends on the end token |
| `ParserProps.FirstOperand` | parser/parser.go:89-91 | from a zero node, the `emptyNode` case makes a bare operand the only operand and the cursor moves on |
| `ParserProps.OpenPair` | parser/parser.go:81-109 | from a zero node, `a o` gives the node `o` over `[a]` with the cursor on the next operand, in either mode |
| `ParserProps.FirstOperator` | parser/parser.go:86-87 | the operator after the first operand becomes the node's operator and the cursor moves onto the next operand |
| `ParserProps.RhsTakesPair` | parser/parser.go:73-109 | for any operands and operator, rhs mode returns `a o b` as soon as it is complete, the cursor on `b`, when the next lexeme binds no tighter |
| `ParserProps.RhsLoopTakesPair` | parser/parser.go:73-109 | the loop behind it, from the zero node, ends on the complete node `a o b` with the cursor on `b` |
| `ParserProps.RhsPairCloses` | parser/parser.go:73-109 | the second operand completes an rhs-mode node, which is handed back at once |
| `ParserProps.LooserChainNestsLeft` | parser/parser.go:73-112 | for any operands and operators with `o2` no tighter than `o1`, `a o1 b o2 c` gives `o2` over `[c]` with `a o1 b` in its left slot, the cursor on the end token |
| `ParserProps.SecondOperandCompletes` | parser/parser.go:74-109 | `b` completes `a o1 b` when `o2` binds no tighter, and the rest of the loop shifts it left |
| `ParserProps.SecondOperandStep` | parser/parser.go:101-109 | at a second operand whose peek binds no tighter than the node's operator, the default case completes the node and the cursor moves on |
| `ParserProps.ShiftedTakesOperand` | parser/parser.go:74-110 | the fresh node takes `o2` and `c` and the loop ends on the end token |
| `ParserProps.LastOperand` | parser/parser.go:74-110 | a node with no operand takes a bare operand and the loop ends on the end token after it |
| `ParserProps.TighterChainNestsRight` | parser/parser.go:73-112 | for any operands and operators with `o2` tighter than `o1`, `a o1 b o2 c` gives `o1` over `[a, b o2 c]`, the cursor on the end token |
| `ParserProps.SecondOperandNests` | parser/parser.go:98-110 | at `b` the rhs-mode parse of `b o2 c` becomes the second operand and the loop ends on the end token |
| `ParserProps.NestStep` | parser/parser.go:98-109 | the iteration at `b` takes the rhs-mode parse of `b o2 c` and moves past `c` |
| `ParserProps.NestedOperand` | parser/parser.go:98-109 | at top level, when the peek binds tighter than the node's operator, the rhs-mode parse bounded by that operator becomes the second operand and the cursor moves on |
| `ParserProps.ThirdOperatorIsPrefix` | parser/parser.go:81-109 | in `a o1 b o2 c o3 d` with `o2` no tighter than `o1`, a prefix `o3` becomes the operator of the unary term `o3 d` beside `c` |
| `ParserProps.ThirdOperatorFromB` | parser/parser.go:74-109 | from `b`, the rest of the loop gives `o2` over `[c, o3 d]` with `a o1 b` in the left slot |
| `ParserProps.ThirdOperatorFromO2` | parser/parser.go:74-109 | from `o2`, the complete node is shifted left and the rest of the loop gives `o2` over `[c, o3 d]` |
| `ParserProps.ThirdOperatorFromC` | parser/parser.go:86-109 | from `c`, the node takes `c`, then the default case reads `o3 d` as a unary term |
| `ParserProps.ThirdOperatorIsOperand` | parser/parser.go:81-109 | in `a o1 b o2 c o3 d` with `o2` no tighter than `o1`, an `o3` that is no prefix becomes the bare operand beside `c`; `d` is the only operand of a fresh node with no operator, whose left slot holds `o2` over `[c, o3]`, whose left slot holds `a o1 b` |
| `ParserProps.BareThirdFromB` | parser/parser.go:74-109 | from `b`, the rest of the loop gives that tree |
| `ParserProps.BareThirdFromO2` | parser/parser.go:74-109 | from `o2`, the complete node is shifted left and the rest of the loop gives that tree |
| `ParserProps.BareThirdFromC` | parser/parser.go:86-109 | from `c`, the node takes `c`, and the rest of the loop reads `o3` as an operand |
| `ParserProps.BareThirdFromO3` | parser/parser.go:74-109 | `o3` completes the node as its second operand, and `d` then starts a fresh node |
| `ParserProps.OperatorAsOperandStep` | parser/parser.go:102-104 | the `default` case on an operator that is no prefix adds it as a bare term `+ o`, without moving past it first; the step then moves on one lexeme |
| `ParserProps.ShiftedOperandEnds` | parser/parser.go:74-110 | after a complete node, a bare operand is shifted into a fresh node with no operator, and the loop ends on the end token |
| `ParserProps.RhsStopsOnLastOperand` | parser/parser.go:73-109 | rhs mode returns `2 * 3` as soon as it is complete, with the cursor still on `3` |
| `ParserProps.TighterOperatorNests` | parser/parser.go:98-100 | `1 + 2 * 3 ;` gives `+` over `[1, 2 * 3]` |
| `ParserProps.ChainNestsLeft` | parser/parser.go:77-79 | `1 + 2 + 3 ;` shifts `1 + 2` into the left slot of a node for `+ 3`: the chain nests to the left |
| `ParserProps.SumUpToClose` | parser/parser.go:70-112 | inside `(1 + 2) * 3`, the engine reads `1 + 2` and stops on `)` |
| `ParserProps.SumFromPlus` | parser/parser.go:86-87 | the `+` becomes the operator of the node holding `1` |
| `ParserProps.SumFromTwo` | parser/parser.go:101-104 | the `2` completes the sum and the `)` under the cursor ends the loop |
| `ParserProps.ParenSum` | parser/parser.go:49-69 | `(1 + 2)` parses to a paren node around the sum, the cursor on `)` |
| `ParserProps.ParenGroupsFirst` | parser/parser.go:70-112 | `(1 + 2) * 3 ;` gives `*` over `[(1 + 2), 3]` |
| `ParserProps.LetOutcome` | parser/parser.go:123-142 | fails as invalid exactly when the lexeme after `let` (or its identifier) is not ASSIGN; otherwise `Name` is the identifier when there is one and `Expr` the expression up to `;` |
| `ParserProps.NamelessLetFails` | parser/parser.go:147-150 | a `let` without identifier never gives a statement; reaching ASSIGN it fails at the scope insert |
| `ParserProps.StatementShape` | parser/parser.go:143-162 | CONST, RETURN and other lexemes give nothing and change nothing; a `let` updates the scope only by its own binding |
| `ParserProps.BindAllAppend` | parser/parser.go:149 | binding a list and then one more statement is binding the longer list |
| `ParserProps.ProgramCollects` | parser/parser.go:164-174 | the loop keeps earlier statements in front, in source order, and its scope is the statements' `let` bindings applied in order, later ones overwriting |
| `ParserProps.ProgramDone` | parser/parser.go:166 | at EOF the loop collects nothing more and leaves the scope as it is |
| `ParserProps.ParseBindsLets` | parser/parser.go:143-174 | a whole parse's scope is exactly its `let` statements bound in source order |
| `ParserProps.LetOfOneTermBinds` | parser/parser.go:123-150 | `let name := v` followed by a non-operator binds `name` to the term `v` in the scope |
| `ParserProps.ProgramLoopOn` | parser/parser.go:166-172 | a parsed statement is kept and the loop goes on one lexeme later |
| `ParserProps.SemicolonSkipped` | parser/parser.go:164-174 | a `;` left current is skipped and the loop stops at EOF |
| `ParserProps.LetLineLoop` | parser/parser.go:164-174 | the loop over `let name := v ;` appends that one statement and binds its name |
| `ParserProps.LetLineStream` | parser/parser.go:18-35 | the lexemes of `let y := 5;` the parser pulls |
| `ParserProps.LetOnlyParses` | parser/parser.go:143-174 | any input lexing to `let name := v ;` parses to that one statement and a scope binding the name to it |
| `ParserProps.LetLineParses` | parser/parser.go:143-174 | `let y := 5;` parses to one `let` with name `y` and expression `5`, and the scope maps `y` to it |

## Left out

- The `Name` field of a lexeme (`token.String()`), the token package's name table, and `Lookup`'s keyword table are not part of this model. `Lookup` recognises only the three keywords the parser dispatches on (`let`, `const`, `return`).
- `Token.Precedence` is given concrete values (comparisons 3, additive 4, multiplicative 5, everything else 0). The worked examples and the shape lemmas over any operators depend only on that ordering. `^` is placed with the additive operators and `&` with the multiplicative ones, as in Go's own token package.
- `fmt.Printf` diagnostics for `const` and `return` are I/O. Those branches return no statement.
- The unused `errors` slice of the parser and the `s ast.Stmt` field of the lexer are foreign and unused.
- Go `panic` as stack unwinding: the two panics and the nil `Name` dereference are `Err` results. After an error the parser's state is left unspecified.
- Termination of `parseBinaryExpr` when the end token never comes before EOF is not modelled: the engine and `ParseProgram` run on a fuel bound, and the methods require that the bound suffices.
- `Lex.Lexer.NextToken`: requires that every string the lexer may open is closed (an even number of quotes ahead). Without a closing quote `readString` loops forever, because past the end `readChar` keeps yielding 0 and never the quote (lex/lexer.go:26-27, 157-162). `StringsClosed` is a condition on the whole rest of the input, so it also excludes single calls that finish in Go: the first call on `a "` returns the identifier `a`, but the model does not promise it.
- The scope stores a statement value, where Go stores a pointer to a copy; nothing reads through the pointer.
- The lexer's cursor on the `string` input is modelled on a byte sequence. Go's `string` slicing of the input is the subsequence.
