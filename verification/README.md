# Kaleidoscope front end in Dafny

This project models the front end of the Kaleidoscope toy language. The
modelled parts are:

- the lexer `gettok`;
- the recursive-descent parser with operator-precedence climbing;
- the parse and error-recovery logic of the read–eval loop (`MainLoop` and
  the `Handle*` routines).

All of these come from `ch04/toy.cpp`. The project also models the lexer of
the earlier snapshot `ch02/toy.cpp`, together with its `getNextToken` and
`ParseNumberExpr`.

The model has two layers:

- **Functions over values.**
  - `Lexer` works over an explicit lexer state: the unread input plus the
    pending character `LastChar`.
  - `Grammar` works over the stream of tokens still to be read; its head is
    `Curtok`. Each parsing routine returns its node, or the message it logged,
    together with the stream it leaves. So "which error is raised" and "how
    many tokens are consumed" are part of its value.
  - `Driver` turns a token stream into the list of top-level forms the loop
    reports: a definition, an extern, an evaluated expression, or a skipped
    form with its message.
- **The source's own imperative form.**
  - `Toy.Parser` is a class. Its fields are the globals `LastChar`,
    `IdentifierStr`, the literal text behind `NumVal`, `Curtok` and
    `BinOpPrecedence`. Each routine is a method with the source's loops.
  - `Ch02.Lexer02` does the same for the earlier snapshot.
  - A ghost field `tokens` holds the current token followed by everything
    the lexer will still return. Every method is proved to leave the object
    exactly where the corresponding function says.

The properties are proved about the functions:

- `LexerFacts`:
  - whitespace, identifier, number and comment runs;
  - a lexing round trip for any spelled-out token sequence.
- `GrammarFacts`:
  - `ParseExpression` inverts the in-order token sequence of every
    precedence-canonical operator tree;
  - associativity and binding examples;
  - the round trips and error messages of parentheses, calls, prototypes,
    definitions and externs.
- `DriverFacts`:
  - a program of well-formed forms separated by `;` is reported back form by
    form;
  - every parse error, in a definition, an extern or a top-level
    expression, reports its message and skips exactly one token: the one
    where the parse stopped.
- `Ch02Facts`:
  - the `ch02` lexer agrees with the `ch04` one on input made only of
    whitespace, letters, digits, `.` and `#`;
  - it reads the same longest identifier and number runs whatever follows
    them;
  - it swallows everything else as a comment.

Numbers are kept as their literal text. The input is a finite byte
sequence, and `getchar` returns EOF (-1) once that sequence is exhausted.

## Model

| member | source | states |
|---|---|---|
| Syntax.Code | ch04/toy.cpp:23-31 | the reserved token kinds have the negative codes -1..-5; a character token has its own non-negative code, so the two never collide |
| Syntax.TokenOf | ch04/toy.cpp:23-35 | a code together with `IdentifierStr` and the number text determines the token: the code is preserved, and an identifier or number token carries that text |
| Lexer.Read | ch04/toy.cpp:43 | `getchar` consumes exactly one character, or yields EOF on exhausted input |
| Lexer.SkipSpace | ch04/toy.cpp:42-43 | the whitespace loop stops on a non-space character (or EOF) and never adds input |
| Lexer.ScanIdentifier | ch04/toy.cpp:47-54 | the identifier loop stops on the first non-alphanumeric character |
| Lexer.ScanNumber | ch04/toy.cpp:67-72 | the number loop stops on the first character that is neither a digit nor `.` |
| Lexer.SkipComment | ch04/toy.cpp:80-83 | the comment loop stops on `\n`, `\r` or EOF, which becomes the pending character |
| Lexer.Keyword | ch04/toy.cpp:56-62 | exactly `def` gives `tok_def` and exactly `extern` gives `tok_extern`; any other word is an identifier carrying its text |
| Lexer.GetTok | ch04/toy.cpp:38-97 | every call consumes input unless it returns `tok_eof`; `tok_eof` leaves the state at end of input; at EOF it returns `tok_eof` without moving |
| Lexer.TokensFrom | ch04/toy.cpp:38-97 | the token stream ends with exactly one `tok_eof` |
| Lexer.Tokenize | ch04/toy.cpp:40 | lexing starts with `LastChar` a space, and the stream ends with `tok_eof` |
| LexerFacts.SkipSpaceRun | ch04/toy.cpp:42-43 | a whole run of whitespace is skipped, for any length |
| LexerFacts.ScanIdentifierRun | ch04/toy.cpp:50-54 | the identifier loop takes the whole alphanumeric run and leaves `LastChar` on the character after it |
| LexerFacts.ScanNumberRun | ch04/toy.cpp:68-72 | the number loop takes the whole run of digits and `.` and leaves `LastChar` on the character after it |
| LexerFacts.SkipCommentRun | ch04/toy.cpp:80-83 | a comment body is skipped up to, but not past, the line terminator |
| LexerFacts.IdentifierToken | ch04/toy.cpp:42-62 | after whitespace, a letter starts the maximal alphanumeric run, which is returned as keyword or identifier; lexing resumes at the character after the run |
| LexerFacts.NumberToken | ch04/toy.cpp:65-76 | after whitespace, a digit or `.` starts the maximal run of digits and `.`, returned as a number with that text |
| LexerFacts.CharToken | ch04/toy.cpp:89-96 | any other character except `#` is returned as its own token, and exactly one character is consumed |
| LexerFacts.CommentSkipped | ch04/toy.cpp:78-86 | a `#` comment produces no token; lexing goes on from the line terminator |
| LexerFacts.CommentAtEnd | ch04/toy.cpp:78-90 | a comment that reaches the end of input yields `tok_eof` |
| LexerFacts.WhitespaceOnly | ch04/toy.cpp:42-43 | input of whitespace only yields `tok_eof` |
| LexerFacts.EofIsSticky | ch04/toy.cpp:89-90 | once at EOF, every further call returns `tok_eof` and nothing else follows |
| LexerFacts.SpellOne | ch04/toy.cpp:38-97 | one token written out and followed by a space lexes back to itself, leaving the lexer just past the space |
| LexerFacts.SpellAllFrom | ch04/toy.cpp:38-97 | lexing a space-separated spelling of any token sequence returns that sequence, then `tok_eof` |
| LexerFacts.TokenizeSpelling | ch04/toy.cpp:38-97 | the lexer inverts spelling from the initial state: `Tokenize(SpellAll(ts)) == ts + [tok_eof]` |
| Grammar.Advance | ch04/toy.cpp:196-201 | `getNextToken` drops the current token, except at `tok_eof`, which stays |
| Grammar.TokenPrecedence | ch04/toy.cpp:310-324 | -1 for every non-character token and for characters without an entry; otherwise the table's entry for that ASCII character |
| Grammar.ParseNumber | ch04/toy.cpp:226-232 | a number node with the current literal, and exactly one token consumed |
| Grammar.ParseParen | ch04/toy.cpp:235-249 | consumes at least the `(`, and never reads past the end of the stream |
| Grammar.ParseIdentifier | ch04/toy.cpp:252-287 | consumes at least the name, and never reads past the end of the stream |
| Grammar.ParseArgs | ch04/toy.cpp:265-286 | on success the result is a call to the given callee, and tokens were consumed |
| Grammar.ParsePrimary | ch04/toy.cpp:289-305 | success always consumes tokens; a current token that is neither an identifier, a number nor `(` fails with "Unknown Token" and consumes nothing, and conversely an attempt that consumes nothing is exactly that failure |
| Grammar.ParseExpr | ch04/toy.cpp:327-334 | success consumes tokens; consuming nothing means "Unknown Token" |
| Grammar.ParseBinOpRHS | ch04/toy.cpp:337-367 | returns the left operand unchanged, consuming nothing, when the current precedence is below `ExprPrec`; otherwise it consumes tokens |
| Grammar.ParseOperand | ch04/toy.cpp:349-360 | the right operand of an operator: success consumes tokens |
| Grammar.ParseParams | ch04/toy.cpp:382-384 | the parameter loop stops at the first non-identifier token, with one name per identifier consumed |
| Grammar.ParsePrototype | ch04/toy.cpp:371-394 | success consumes tokens, and the rest of the stream is well formed |
| Grammar.ParseDefinition | ch04/toy.cpp:397-411 | always consumes the `def` token |
| Grammar.ParseExtern | ch04/toy.cpp:413-417 | always consumes the `extern` token |
| Grammar.ParseTopLevel | ch04/toy.cpp:419-431 | a parsed expression is wrapped in the prototype `__anon__` with no parameters |
| GrammarFacts.Leftmost | ch04/toy.cpp:329 | the first operand of a canonical tree is a number or a variable |
| GrammarFacts.FlatBinary | ch04/toy.cpp:337-367 | the tokens of an operator tree are those of its left operand, the operator, then those of its right operand |
| GrammarFacts.OperatorPrecedence | ch04/toy.cpp:310-324 | an operator's token has its table precedence, and converting the token back to `char` gives the operator |
| GrammarFacts.TailStart | ch04/toy.cpp:341-354 | after the first leaf of an operator tree comes an operator at least as tight as the root |
| GrammarFacts.OperandOfLeaf | ch04/toy.cpp:349-360 | a leaf operand is taken alone unless the next operator binds tighter than the current one, which then takes it as its left operand |
| GrammarFacts.BinOpStep | ch04/toy.cpp:341-365 | one pass of the loop folds the operator and its right operand into `LHS` and continues from the token after the operand |
| GrammarFacts.ClimbTail | ch04/toy.cpp:337-367 | the loop reads every operator of a canonical tree, whatever the left operand, and builds the tree with that operand in place of its first leaf |
| GrammarFacts.OperandOf | ch04/toy.cpp:349-360 | a right operand whose root binds tighter than the current operator is read whole |
| GrammarFacts.OperandTree | ch04/toy.cpp:353-360 | when the next operator binds tighter, the recursive `ParseBinOpRHS(TokPrec+1, RHS)` reads the rest of the operand's tree |
| GrammarFacts.ClimbWhole | ch04/toy.cpp:353-360 | in `ParseBinOpRHS(TokPrec+1, RHS)`, the loop reads the rest of a tree whose root binds tighter than `TokPrec` |
| GrammarFacts.ParseFlat | ch04/toy.cpp:327-367 | `ParseExpression` inverts the in-order token sequence of every canonical operator tree, and stops at the first token that is neither an operator nor `(` |
| GrammarFacts.LeftAssociative | ch04/toy.cpp:337-367 | operators of equal precedence group to the left: `1+2+3` is `(1+2)+3` |
| GrammarFacts.TighterOnRight | ch04/toy.cpp:353-360 | a tighter operator on the right binds first: `1+2*3` is `1+(2*3)` |
| GrammarFacts.TighterOnLeft | ch04/toy.cpp:343-344 | a tighter operator on the left binds first: `1*2+3` is `(1*2)+3` |
| GrammarFacts.StandardTable | ch04/toy.cpp:694-697 | in the installed table, `*` binds tighter than `+` and `-` (equal), which bind tighter than `<`; the punctuation has no precedence |
| GrammarFacts.DanglingOperator | ch04/toy.cpp:302-303 | `1 +` followed by end of input fails with "Unknown Token" at `tok_eof` |
| GrammarFacts.ParenRoundTrip | ch04/toy.cpp:235-249 | `(` expression `)` parses to the expression itself and consumes the `)` |
| GrammarFacts.ParenOperand | ch04/toy.cpp:235-367 | a parenthesised expression followed by operators is read as one operand: the result is the operator tree with the parenthesised expression as its first operand, whatever the precedences inside and outside |
| GrammarFacts.ParenthesesOverride | ch04/toy.cpp:235-367 | under the installed table `(1+2)*3` parses as `(1+2)*3`, although `*` binds tighter than `+` |
| GrammarFacts.MissingCloseParen | ch04/toy.cpp:244-245 | a parenthesis not closed fails with "expected ')'" at the token found instead |
| GrammarFacts.ArgsRoundTrip | ch04/toy.cpp:265-286 | comma-separated arguments closed by `)` are collected in order and appended to those already parsed |
| GrammarFacts.EmptyCall | ch04/toy.cpp:266-286 | `f()` is a call with no arguments |
| GrammarFacts.CallRoundTrip | ch04/toy.cpp:252-287 | a name followed by parenthesised, comma-separated arguments parses to a call with exactly those arguments; their number is not checked |
| GrammarFacts.BadArgumentSeparator | ch04/toy.cpp:278-279 | any token other than `)` or `,` after an argument fails with "Expected ')' or ','" |
| GrammarFacts.ParamsSplit | ch04/toy.cpp:382-384 | the parameter loop reads exactly the run of identifiers at the front of the stream |
| GrammarFacts.ParamsRoundTrip | ch04/toy.cpp:382-384 | a run of identifier tokens is read back as those names, in order |
| GrammarFacts.PrototypeRoundTrip | ch04/toy.cpp:371-394 | name `(` parameters `)` parses to that prototype and consumes the `)` |
| GrammarFacts.PrototypeWithoutName | ch04/toy.cpp:373-374 | a prototype that does not start with a name fails with "Expected function name in prototype" and consumes nothing |
| GrammarFacts.PrototypeWithoutOpenParen | ch04/toy.cpp:379-380 | a name not followed by `(` fails with "Expected ( " at the token after the name |
| GrammarFacts.PrototypeWithoutCloseParen | ch04/toy.cpp:386-387 | parameters not closed by `)` fail with "Expected )" at the first token after them |
| GrammarFacts.DefinitionRoundTrip | ch04/toy.cpp:397-411 | `def` prototype body parses to the function with that prototype and body |
| GrammarFacts.ExternRoundTrip | ch04/toy.cpp:413-417 | `extern` prototype parses to that prototype |
| GrammarFacts.TopLevelRoundTrip | ch04/toy.cpp:419-431 | a bare expression becomes the body of a function with the anonymous prototype |
| Driver.HandleDefinition | ch04/toy.cpp:598-609 | reports exactly one form: the parsed definition, leaving the stream where `ParseDefinition` stopped, or on error its message, resuming one token past where the parse stopped; always consumes input |
| Driver.HandleExtern | ch04/toy.cpp:611-622 | reports exactly one form: the parsed prototype, leaving the stream where `ParseExtern` stopped, or on error its message, resuming one token past where the parse stopped; always consumes input |
| Driver.HandleTopLevel | ch04/toy.cpp:624-659 | reports exactly one form: the parsed expression as an anonymous function, leaving the stream where `ParseTopLevelExpr` stopped, or on error its message, resuming one token past where the parse stopped; consumes input unless at `tok_eof` |
| Driver.MainStep | ch04/toy.cpp:667-683 | each pass of the loop consumes at least one token and reports at most one form |
| Driver.Drive | ch04/toy.cpp:661-685 | the loop terminates, and reports fewer forms than there are tokens |
| DriverFacts.SeparatorSkipped | ch04/toy.cpp:669-673 | `tok_eof` ends the loop with nothing reported; `;` is consumed without a report |
| DriverFacts.StrayToken | ch04/toy.cpp:680-681 | a character token other than `;` and `(` is reported as "Unknown Token", and the loop resumes at the very next token |
| DriverFacts.DefinitionFails | ch04/toy.cpp:598-609 | any failed `def`, wherever in the prototype or body it fails, reports its message, skips exactly the one token where the parse stopped, and the loop resumes after it |
| DriverFacts.ExternFails | ch04/toy.cpp:611-622 | any failed `extern` reports its message and skips exactly the one token where the parse stopped |
| DriverFacts.TopLevelFails | ch04/toy.cpp:624-659 | any failed top-level expression reports its message and skips exactly the one token where the parse stopped |
| DriverFacts.DefinitionWithoutName | ch04/toy.cpp:598-609 | the instance of `DefinitionFails` where the token after `def` is not a name: that token is the one skipped, and the loop resumes right after it |
| DriverFacts.ExternWithoutName | ch04/toy.cpp:611-622 | the instance of `ExternFails` where the token after `extern` is not a name: that token is the one skipped |
| DriverFacts.DefinitionOfNumber | ch04/toy.cpp:598-609 | `def 1;` reports one prototype error; the `1` is skipped and the `;` consumed |
| DriverFacts.DanglingBeforeSeparator | ch04/toy.cpp:654-658 | `1 + ;` reports "Unknown Token", and the skipped token is the `;` itself |
| DriverFacts.FormStep | ch04/toy.cpp:661-685 | a well-formed form followed by `;` is reported as itself, and the loop resumes after the `;` |
| DriverFacts.ProgramStep | ch04/toy.cpp:661-685 | the first form of a program is reported as itself, and the loop goes on with the rest of the program |
| DriverFacts.ProgramRoundTrip | ch04/toy.cpp:661-685 | a program of well-formed definitions, externs and expressions separated by `;` is reported back as exactly those forms, in order |
| DriverFacts.RecoveryBeforeProgram | ch04/toy.cpp:654-658 | a stray character before a program costs one "Unknown Token" report, and every following form is still read |
| Toy.Parser.constructor | ch04/toy.cpp:34-308 | the static initial state of the globals: nothing read, `LastChar` a space and `IdentifierStr` empty (lines 34-40), `Curtok` 0 (line 196), `BinOpPrecedence` empty (line 308); the stream ahead is the tokenized input |
| Toy.Parser.InstallOperators | ch04/toy.cpp:694-697 | the four entries are installed |
| Toy.Parser.Getchar | ch04/toy.cpp:43 | reads one byte, or EOF at the end of input |
| Toy.Parser.SkipSpaces | ch04/toy.cpp:42-43 | the loop ends where `Lexer.SkipSpace` says |
| Toy.Parser.ScanIdentifierText | ch04/toy.cpp:47-54 | `IdentifierStr` and `LastChar` end as `Lexer.ScanIdentifier` says |
| Toy.Parser.ScanNumberText | ch04/toy.cpp:67-72 | the literal and `LastChar` end as `Lexer.ScanNumber` says |
| Toy.Parser.SkipCommentText | ch04/toy.cpp:80-83 | the loop ends where `Lexer.SkipComment` says |
| Toy.Parser.Gettok | ch04/toy.cpp:38-97 | returns the code of `Lexer.GetTok`'s token and leaves the lexer in its state |
| Toy.Parser.GetNextToken | ch04/toy.cpp:196-201 | `Curtok` becomes the next token and is returned; the stream ahead advances by one |
| Toy.Parser.GetTokenPrecedence | ch04/toy.cpp:310-324 | the precedence of the current token under the installed table |
| Toy.Parser.ParseNumberExpr | ch04/toy.cpp:226-232 | returns and consumes as `Grammar.ParseNumber` |
| Toy.Parser.ParseParenExpr | ch04/toy.cpp:235-249 | returns and consumes as `Grammar.ParseParen` |
| Toy.Parser.ParseIdentifierExpr | ch04/toy.cpp:252-287 | the argument loop returns and consumes as `Grammar.ParseIdentifier` |
| Toy.Parser.ParsePrimary | ch04/toy.cpp:289-305 | returns and consumes as `Grammar.ParsePrimary` |
| Toy.Parser.ParseExpression | ch04/toy.cpp:327-334 | returns and consumes as `Grammar.ParseExpr` |
| Toy.Parser.ParseBinOpRHS | ch04/toy.cpp:337-367 | the `while (true)` loop returns and consumes as `Grammar.ParseBinOpRHS` |
| Toy.Parser.ParseOperand | ch04/toy.cpp:349-360 | returns and consumes as `Grammar.ParseOperand` |
| Toy.Parser.ParsePrototype | ch04/toy.cpp:371-394 | the parameter loop returns and consumes as `Grammar.ParsePrototype` |
| Toy.Parser.ParseDefinition | ch04/toy.cpp:397-411 | returns and consumes as `Grammar.ParseDefinition` |
| Toy.Parser.ParseExtern | ch04/toy.cpp:413-417 | returns and consumes as `Grammar.ParseExtern` |
| Toy.Parser.ParseTopLevelExpr | ch04/toy.cpp:419-431 | returns and consumes as `Grammar.ParseTopLevel` |
| Toy.Parser.HandleDefinition | ch04/toy.cpp:598-609 | reports and consumes as `Driver.HandleDefinition` |
| Toy.Parser.HandleExtern | ch04/toy.cpp:611-622 | reports and consumes as `Driver.HandleExtern` |
| Toy.Parser.HandleTopLevelExpression | ch04/toy.cpp:624-659 | reports and consumes as `Driver.HandleTopLevel` |
| Toy.Parser.HandleForm | ch04/toy.cpp:667-683 | the loop body's switch on `;`, `def`, `extern` and anything else reports and consumes as `Driver.MainStep` |
| Toy.Parser.MainLoop | ch04/toy.cpp:661-685 | stops at `tok_eof`, having reported the forms `Driver.Drive` lists |
| Toy.RunFrontEnd | ch04/toy.cpp:688-711 | with the installed table, the forms reported for an input are `Driver.Drive` of its tokens |
| Ch02.GetTok | ch02/toy.cpp:22-81 | never returns a single-character token; consumes input unless it returns `tok_eof`; at EOF it returns `tok_eof` without moving |
| Ch02.TokensFrom | ch02/toy.cpp:22-81 | no token before the final `tok_eof` is a character token |
| Ch02.Tokenize | ch02/toy.cpp:22-173 | the token stream of a whole input, lexed from `LastChar` a space (line 24) by repeated `gettok` as `getNextToken` (lines 168-173) calls it: it ends with its only `tok_eof`, and no token before it is a character token |
| Ch02.Lexer02.constructor | ch02/toy.cpp:18-24 | initial state: nothing read and `LastChar` a space; the stream ahead is the tokenized input |
| Ch02.Lexer02.Getchar | ch02/toy.cpp:27 | reads one byte, or EOF at the end of input |
| Ch02.Lexer02.SkipSpaces | ch02/toy.cpp:26-27 | the loop ends where `Lexer.SkipSpace` says |
| Ch02.Lexer02.ScanIdentifierText | ch02/toy.cpp:29-38 | `IdentifierStr` and `LastChar` end as `Lexer.ScanIdentifier` says |
| Ch02.Lexer02.ScanNumberText | ch02/toy.cpp:49-56 | the literal and `LastChar` end as `Lexer.ScanNumber` says |
| Ch02.Lexer02.SkipCommentText | ch02/toy.cpp:62-67 | the loop ends where `Lexer.SkipComment` says |
| Ch02.Lexer02.Gettok | ch02/toy.cpp:22-81 | returns the code of `Ch02.GetTok`'s token, assigning `#` to `LastChar` before the comment loop |
| Ch02.Lexer02.GetNextToken | ch02/toy.cpp:168-173 | `Curtok` becomes the next token and is returned; the stream ahead advances by one |
| Ch02.Lexer02.ParseNumberExpr | ch02/toy.cpp:189-195 | a number node from the current literal; exactly one token consumed |
| Ch02Facts.GetTokAgrees | ch02/toy.cpp:22-81 | on whitespace, letters, digits, `.` and `#`, the two snapshots' `gettok` return the same token and state |
| Ch02Facts.TokensAgree | ch02/toy.cpp:22-81 | from such a state the two lexers return the same token stream |
| Ch02Facts.TokenizeAgrees | ch02/toy.cpp:22-81 | input without other characters is lexed alike by both snapshots |
| Ch02Facts.IdentifierToken | ch02/toy.cpp:26-47 | after whitespace, a letter starts the maximal alphanumeric run, returned as keyword or identifier whatever character follows; lexing resumes after the run |
| Ch02Facts.NumberToken | ch02/toy.cpp:49-60 | after whitespace, a digit or `.` starts the maximal run of digits and `.`, returned as a number with that text whatever follows |
| Ch02Facts.OtherCharStartsComment | ch02/toy.cpp:62-71 | any character that starts neither an identifier nor a number starts a comment, `#` or not |
| Ch02Facts.OtherCharAtEnd | ch02/toy.cpp:62-74 | on the last line such a character discards the rest of the input and yields `tok_eof` |
| Ch02Facts.PlusStartsComment | ch02/toy.cpp:62 | `a+b` lexes as `a`, `+`, `b` in the later snapshot but as `a` alone in this one |

## Left out

- Code generation: the `codegen` methods (ch04/toy.cpp:433-565), the JIT, the pass manager and the LLVM set-up in `main` (ch04/toy.cpp:570-596, 637-650, 688-711) are calls into LLVM. A successfully parsed form is reported as `Defined`, `Declared` or `Evaluated`; whatever the backend then does is not modelled. In the code, a backend failure after a successful parse does not skip a token: only a parse failure calls `getNextToken` (ch04/toy.cpp:605-607, 618-620, 654-657). The model follows the code here, not a reading in which backend failures also skip a token.
- `std::stod` and `NumVal` as a `double` (ch04/toy.cpp:74, ch02/toy.cpp:58): a number is kept as its literal text. The conversion, and its exception on text such as a lone `.`, are floating-point library behaviour.
- `getchar` and `fprintf`: the input is a finite byte sequence, after which `getchar` keeps returning EOF. Prompts, IR printing and the `LogError` output are not produced; each error message is returned as a value.
- `ParseParenExpr` of ch02/toy.cpp:198-202 falls off its end without a return value. It has no defined result.
- The parser's recursion depth and the stack it needs are not modelled.
- Grammar.ParseBinOpRHS: requires `ExprPrec >= 0`. Every call in the source passes 0 or `TokPrec + 1` with `TokPrec >= 0`.
- Toy.Parser.ParseNumberExpr: requires `Curtok` to be `tok_number`. `ParseParenExpr` and `ParseIdentifierExpr` likewise require `(` and `tok_identifier`. The source only reaches them from `ParsePrimary`'s switch on those tokens.
- Grammar.ParseOperand: this function is not a separate routine in the source. It is the part of the `ParseBinOpRHS` loop that reads a right operand (ch04/toy.cpp:349-360), factored out so that the loop can be a tail call.
- GrammarFacts.ParseFlat: the parser round trip covers trees of numbers, variables and table operators. A parenthesised expression is covered as a whole primary (`ParenRoundTrip`) and as the first operand of an operator tree (`ParenOperand`), but not as a later operand or nested inside another parenthesised operand; calls are covered as a whole primary (`CallRoundTrip`) but not as operands.
- DriverFacts.ProgramRoundTrip: the round trip is stated for tables that give `(`, `)`, `,` and `;` no precedence. The installed table satisfies this (`StandardSeparates`).

## Findings

| source | as written | input that shows it | evidently intended | confidence | as-written member | corrected member |
|---|---|---|---|---|---|---|
| ch02/toy.cpp:62 | `if (LastChar = '#')` assigns `#` to `LastChar`, and the test is always true, so every character that starts neither an identifier nor a number starts a comment, and the single-character branch (lines 75-80) cannot be reached | `a+b`: the tokens are `a` and then `tok_eof`, since `+b` is taken for a comment | compare with `==`, as ch04/toy.cpp:78 does, so that `+` is returned as its own token (proved as `LexerFacts.CharToken`) | high, not executed | Ch02Facts.PlusStartsComment | Lexer.GetTok |
