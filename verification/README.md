# pyInterpreterInGo core, modelled in Dafny

A model of the interpreter pipeline of a small Python-flavoured language written in Go:
the byte-at-a-time tokenizer, the Pratt parser with its precedence table and handler
tables, the AST, the object model with its `Type()` tags and `Inspect()` rendering, the
scope chain of environments, the tree-walking evaluator, the integer power helper and the
`len`/`pow` builtins. Every part is a pure function:

- the tokenizer works on the source text as a `string` (one `char` per byte) and a
  position; an illegal character is an `Illegal` scan instead of a panic;
- the parser works on the token sequence (ending in EOF) plus the indentation depth the
  lexer reports after each token, and threads a state of current-token index, depth and
  recorded errors; a Go `nil` expression is `Missing`, a nil `*FunctionStatement` is
  `FailedFuncDef`;
- objects are the `Value` datatype; a Go `Object` that may be nil, a list element included, is `Option<Value>`;
  TRUE, FALSE and NULL are the values `Boolean(true)`, `Boolean(false)` and `Null`, which
  makes pointer comparison of the singletons value comparison;
- environments are frames of a store (`map<FrameId, Frame>`) threaded through evaluation;
  a closure holds the id of the frame it captured;
- Go runtime panics (nil dereference, index out of range, failed type assertion,
  division by zero) are a `Crash` outcome carrying a `Fault`, or a `Failure` of a builtin;
- int64 arithmetic wraps explicitly (module `Int64`), and `/` truncates toward zero.

Modules: `Wrappers`, `Int64`, `Decimal` (`%d` and `strconv.ParseInt` on digit strings),
`Tokens`, `Lexer` and `TokenStream`, `Ast`, `Parser`, `ParserProps` and `ParserRuns` (the
parser's loops described by their runs), `FrontEndProps` (lexing and parsing together),
`Object`, `Env`,
`Helpers` (eval/helpers.go and eval/eval_helpers.go), `Builtins`, `Eval` and `EvalProps`.

Behaviour modelled as the code has it, including where the code works against its own
evident intent:

- The lexer skips `\n` with the other blanks before every token, so no NEWL token is ever
  produced, although `NextToken` has a NEWL case (lexer/lexer.go:127-128) that this makes
  unreachable; the inline-block paths are the
  ones every real token stream takes.
- `Env.Set` on a frame that does not bind the name hands the write to its parent, so a new
  binding lands in the root frame of the chain, not in the current frame. Parameters bound
  on a call's fresh frame therefore land in the captured frame (or its root): the call's
  own frame stays empty, and each parameter still looks up to its argument from it. In the
  worked call `id(5)`, `x` stays visible in the root frame after the call.
- A function body that ends without a `ReturnValue` (an empty body, a body whose last
  statement is not `return`, or one that stops at an Error) panics on the failed type
  assertion; it does not yield its last value.
- Calling a non-function gives the Error `expected type Function, got: FUNCTION` whatever
  the callee is, because the message reads the type of the nil `*Function`.
- There is no float arithmetic, string concatenation, list indexing or `sum` builtin;
  float, string and list literals and index expressions evaluate to NULL. `len` of a List
  is an Error. `**` with a negative exponent panics instead of promoting to float.
- The `pow` builtin panics for `(Float, Int)` as well as for `(Int, Float)`.
- A list literal needs a comma right after its first element, so `[1]` is nil.
- An inline `if` body starts at the colon itself, which has no prefix handler: `if a: b`
  records an error and its body holds a nil statement before `b`.

## Model

| member | source | states |
|---|---|---|
| Lexer.SkipSpace | lexer/lexer.go:217-221 | stops on the first byte that is not space, tab, CR or LF, and every byte skipped is one of those four |
| Lexer.LetterRunEnd | lexer/lexer.go:165-172 | a name is the maximal run of ASCII letters and `_` |
| Lexer.StringEnd | lexer/lexer.go:196-207 | a string ends at the first `"`, newline or 0 byte, none of which occurs before it |
| Lexer.NumberEnd | lexer/lexer.go:174-194 | a number is digits and dots, the flag is set iff a dot was consumed, and a second dot is consumed and ends the number |
| Lexer.NextToken | lexer/lexer.go:32-159 | illegal exactly on a byte no token starts with; otherwise the position strictly advances, no NEWL is produced, EOF exactly on a 0 byte with an empty literal, and every other non-string token's literal is the text it covers |
| Lexer.ScanAt | lexer/lexer.go:37-154 | the switch on the current byte: NEWL exactly on `\n`, EOF exactly on 0, illegal exactly on a byte no token starts with, position strictly advances |
| Lexer.ScanOperator | lexer/lexer.go:38-123 | a two-character operator exactly when the lookahead byte completes one, else the one-character token whose literal is that character |
| Lexer.AssignIsEquals | lexer/lexer.go:38-45 | an ASSIGN token is always the single character `=` |
| Lexer.ScanString | lexer/lexer.go:124-126 | the literal is the text after the opening quote up to the terminator, which is consumed and is a `"`, newline or 0 byte |
| Lexer.ScanName | lexer/lexer.go:132-136 | the literal is the maximal letter run, not followed by a letter, and its kind is the keyword lookup of it |
| Lexer.ScanNumber | lexer/lexer.go:137-145 | the literal is a digit-and-dot run, FLOAT exactly when it contains a dot, and only a second dot ends it before another digit or dot |
| Tokens.LookupKeyword | lexer/lexer.go:132-136 | an identifier is NAME exactly when it is not one of def/if/else/for/return/true/false |
| TokenStream.Tokenize | lexer/lexer.go:16-30 | the token stream up to the first illegal character: without one it ends with one EOF; the illegal character occurs in the input and starts no token; no NEWL is produced and every ASSIGN token is spelled `=` |
| TokenStream.EofForever | lexer/lexer.go:22-30 | past the end of the input every call answers EOF with an empty literal |
| TokenStream.NulReadsAsEof | lexer/lexer.go:129-131 | a 0 byte reads as EOF |
| TokenStream.TokenizeClean | lexer/lexer.go:32-159 | a text made only of token-starting characters and blanks never reaches an illegal character |
| Decimal.IntRoundTrip | object/object.go:39-41 | the `%d` rendering reads back as the same integer, with a `-` exactly for negatives |
| Decimal.ParseIntLiteral | parser/parser.go:220-237 | base-0 parsing of a digit string: decimal, or octal after a leading 0, an error on a non-octal digit there or on a value above the int64 maximum |
| Decimal.LiteralRoundTrip | parser/parser.go:220-237 | every non-negative int64 rendered in decimal parses back to itself |
| Parser.Advance | parser/parser.go:119-123 | the peek token becomes current and the depth is re-read; the parser stays on the final EOF |
| Parser.ExpectPeek | parser/parser.go:559-567 | advances iff the peek token has the wanted kind, else records exactly one error naming both kinds and stays |
| Parser.ExpectColon | parser/parser.go:339-341 | succeeds iff the current or the peek token is a colon, and then sits on a colon |
| Parser.ParseStatement | parser/parser.go:125-136 | NAME then `=` is an assignment carrying the `=` token and the name whose value is its literal; `def` a function or the nil statement; `return` a return; anything else an expression statement |
| Parser.ParseAssign | parser/parser.go:138-156 | the assignment carries the `=` token and the name token with its literal as value |
| Parser.ParseReturn | parser/parser.go:158-170 | a return statement carrying the `return` token |
| Parser.ParseExpressionStatement | parser/parser.go:172-182 | an expression statement carrying the current token |
| Parser.ParseLiteral | parser/parser.go:216-279 | a name is an identifier whose value is its literal; an integer literal its base-0 value, or nil with one bad-integer error; a float literal exactly when `strconv.ParseFloat` accepts it: one dot at most, a digit, and a value below the float64 overflow bound 2^1024 - 2^970; a string its literal; a boolean its truth value; nil comes with exactly one error and the parser does not move |
| Parser.ParseGrouped | parser/parser.go:308-319 | `( e )` is the inner expression, ending on `)`; without the `)` it is nil with one expected-`)` error |
| Parser.ParseIndex | parser/parser.go:527-541 | `left [ e ]` is the index expression of `left` by the inner expression, ending on `]`; without the `]` it is nil with one expected-`]` error |
| Parser.ParseFunction | parser/parser.go:409-437 | a function statement or nil; a function carries the `def` token and the NAME after it |
| Parser.ParseParameters | parser/parser.go:439-464 | an immediate `)` gives the empty list; nil always comes with exactly one new error; a list ends on `)` with no new error |
| Parser.ParseNameTail | parser/parser.go:452-457 | the comma loop stops before a token that is not a comma and records nothing |
| Parser.ParseBlock | parser/parser.go:370-391 | the block carries the token it started on and the parser never moves back |
| Parser.BlockLoop | parser/parser.go:376-387 | the loop ends on EOF or on a depth below the block's |
| Parser.ParseInline | parser/parser.go:393-407 | an inline block ends on EOF or NEWL |
| Parser.InlineLoop | parser/parser.go:397-404 | the loop ends on EOF or NEWL |
| Parser.ParseExpression | parser/parser.go:184-209 | a token without a prefix handler records exactly one error and gives nil without moving; otherwise parsing stops before NEWL, before a token binding no tighter than the given strength or without an infix handler, or on EOF |
| Parser.InfixLoop | parser/parser.go:193-206 | the loop stops where the expression cannot continue |
| Parser.ParsePrefixOperator | parser/parser.go:281-292 | a prefix expression whose operator is the current token's literal |
| Parser.ParseIf | parser/parser.go:321-368 | an if expression carrying the `if` token, or nil |
| Parser.ParseIfBranches | parser/parser.go:345-367 | nil, or an if expression carrying the given `if` token and condition |
| Parser.ParseList | parser/parser.go:505-525 | without a comma right after the first token the result is nil with no error; a list has at least one element |
| Parser.ParseCommaTail | parser/parser.go:490-496 | empty exactly when the peek token is not a comma, and it stops before a non-comma |
| Parser.ParseBinary | parser/parser.go:294-306 | an infix expression with the given left operand and the operator's token |
| Parser.ParseCall | parser/parser.go:466-475 | a call of the given left operand carrying the `(` token |
| Parser.ParseCallArguments | parser/parser.go:477-503 | an immediate `)` gives the empty list; nil always comes with a new error; a list ends on `)` |
| Parser.ParseProgram | parser/parser.go:577-590 | the program is empty exactly when the first token is EOF; the parser stops on an EOF, and on the very first one with no error when the program is empty |
| Parser.ProgramLoop | parser/parser.go:581-587 | statements are read until the current token is EOF |
| Parser.StreamTokens | parser/parser.go:119-123 | the tokens the parser can read: the lexed ones, then an EOF standing for the panic when lexing stopped on an illegal character |
| Parser.Parse | parser/parser.go:63-70 | lexing on demand then parsing: a lexer panic names a character of the source that starts no token and happens exactly when the parser's last lookahead reaches it; a text that lexes cleanly always parses, to the program and errors of its token stream |
| ParserProps.PrecedenceLadder | parser/parser.go:12-44 | binding strength runs `== !=` < `< > <= >=` < `+ -` < `* /` < `**` < prefix < call < index, and everything else binds weakest |
| ParserProps.BinaryGroupsLeft | parser/parser.go:294-306 | `a op b op c` is `(a op b) op c` for every binary operator, `**` included |
| ParserProps.BinaryStep | parser/parser.go:294-306 | the right operand of a binary operator stops before an operator that binds no tighter |
| ParserProps.PrefixBindsTighter | parser/parser.go:281-292 | `-a op b` is `(-a) op b` for every prefix and every binary operator |
| ParserProps.PrefixTakesOperandOnly | parser/parser.go:281-292 | a prefix operator applies to a following name alone when nothing binding tighter than prefix follows |
| ParserProps.PrefixAppliesToCall | parser/parser.go:281-292 | `-f(x)` is `-(f(x))` |
| ParserProps.StopsBeforeLessEqual | parser/parser.go:87-98 | an expression ends in front of `<=` or `>=` and leaves it unconsumed |
| ParserProps.InfixLoopStops | parser/parser.go:193-197 | the loop ends at once before NEWL, a weaker token or one without an infix handler |
| ParserProps.NoPrefixStatement | parser/parser.go:184-189 | a statement starting on a token without a prefix handler is a nil expression statement with one error |
| ParserProps.NameAlone | parser/parser.go:216-218 | a name that cannot be continued is parsed alone, in place, with its literal as value |
| ParserProps.IntegerAlone | parser/parser.go:220-237 | an integer literal that cannot be continued is parsed alone with its value |
| ParserProps.NameStatementAlone | parser/parser.go:172-182 | a lone name is an expression statement of its own |
| ParserProps.ArgumentsOfParts | parser/parser.go:477-503 | call arguments are the first expression, the comma-separated tail and the closing `)` |
| ParserProps.ArgumentsUnclosed | parser/parser.go:498-500 | arguments not closed by `)` are nil with one expected-`)` error |
| ParserProps.UnclosedCallHasNoArguments | parser/parser.go:477-503 | `f(x` records one expected-`)` error and is a call on no arguments |
| ParserProps.CallOfArguments | parser/parser.go:466-475 | a call is the callee applied to the parsed argument list |
| ParserProps.ListOfParts | parser/parser.go:505-521 | a list is the first expression, the comma-separated tail and the closing `]` |
| ParserProps.SingletonListIsNil | parser/parser.go:505-525 | `[1]` is nil with no error |
| ParserProps.PairListParses | parser/parser.go:505-525 | `[1, 2]` is the list of both literals, ending on `]` |
| ParserProps.AssignmentParses | parser/parser.go:138-156 | `x = 5` is one assignment with the `=` token, the name `x` and the literal 5, and no error |
| ParserProps.InlineIfStartsAtColon | parser/parser.go:339-350 | `if a: b` records a missing-prefix error for `:` and its body is a nil statement then `b` |
| ParserRuns.InlineLoopRun | parser/parser.go:397-404 | the statements of an inline body are those of the unique run of statements from its start to NEWL or EOF |
| ParserRuns.BlockLoopRun | parser/parser.go:376-387 | the statements of a block are those of its run until EOF or a token shallower than the block |
| ParserRuns.ProgramLoopRun | parser/parser.go:581-587 | the statements of a program are those of its run until EOF |
| ParserRuns.StatementRunIsUnique | parser/parser.go:376-404 | a statement loop has only one run from a given state |
| ParserRuns.InlineBodyIsRun | parser/parser.go:393-407 | an inline block carries the token it starts on and the statements of its run |
| ParserRuns.BlockIsRun | parser/parser.go:370-391 | a block carries its NEWL token and the statements of the run from the next token at that token's depth |
| ParserRuns.ProgramIsRun | parser/parser.go:577-590 | a program is the statements of its run from the first token; its errors and stopping point are the run's last state's |
| ParserRuns.CommaTailRun | parser/parser.go:490-496 | the comma loop yields one expression per comma, each read after its comma, and stops before the first non-comma |
| ParserRuns.CommaRunIsUnique | parser/parser.go:490-496 | the comma loop has only one run from a given state |
| ParserRuns.ListIsRun | parser/parser.go:505-525 | a list is its first element and the comma run after it, built exactly when `]` follows; otherwise nil with one expected-`]` error |
| ParserRuns.ArgumentsAreRun | parser/parser.go:477-503 | call arguments are the first expression and the comma run after it, a list exactly when `)` follows; otherwise nil with one expected-`)` error |
| ParserRuns.NameTailRun | parser/parser.go:452-457 | the parameter loop reads the token after each comma as a name and stops before the first non-comma |
| ParserRuns.NameRunIsUnique | parser/parser.go:452-457 | the parameter loop has only one run from a given state |
| ParserRuns.NameRunKeepsErrors | parser/parser.go:452-457 | reading parameter names records no error |
| ParserRuns.ParametersAreRun | parser/parser.go:439-464 | parameters are the names at the states of their run, each name's text its token's literal, a list exactly when `)` follows; otherwise nil with one expected-`)` error |
| ParserRuns.InlineBodyOpensWithNil | parser/parser.go:393-407 | an inline body entered on a colon is a block on the colon whose first statement is nil, with the no-prefix error for `:` recorded |
| ParserRuns.InlineConsequenceOpensWithNil | parser/parser.go:321-368 | for every stream, an `if` whose colon is followed on the same line has a consequence opening with that nil statement, records the no-prefix error for `:`, and never has an alternative |
| FrontEndProps.StopsAtLeadingEof | parser/parser.go:63-70 | a text whose first token is EOF is the empty program, and panics exactly when the one lookahead token read is illegal |
| FrontEndProps.CleanSourceParses | lexer/lexer.go:32-159 | a text of token-starting characters and blanks always parses |
| FrontEndProps.IllegalAfterEofIsNeverRead | parser/parser.go:68-69 | `"\x00a$"` is the empty program: the `$` past the lookahead is never scanned |
| FrontEndProps.IllegalLookaheadPanics | parser/parser.go:68-69 | `"\x00$"` panics on `$`, the lookahead read at start |
| FrontEndProps.ProgramAssignmentsTokened | parser/parser.go:577-590 | over every stream, every top-level assignment carries an ASSIGN token of the stream and a name whose text is its token's literal |
| FrontEndProps.AssignmentsReadBackLexed | ast/ast.go:40-54 | over every token stream the lexer can hand out, each top-level assignment's token literal is `=` and its name's token literal is the name |
| FrontEndProps.ParsedAssignmentsReadBack | ast/ast.go:40-54 | for every text that parses, each top-level assignment's token literal is `=` and its name's token literal is the name |
| FrontEndProps.ProgramLiteralOfStream | ast/ast.go:23-29 | a program's token literal is "" when empty, the `=` token's literal when it opens with an assignment, a panic or the `def` literal when it opens with `def`, and the first token's literal otherwise |
| FrontEndProps.ProgramLiteralOfLexed | ast/ast.go:23-29 | over every token stream the lexer can hand out: "" for an empty program, `=` for one opening with an assignment, the first token's literal otherwise (or a panic after a failed `def`) |
| FrontEndProps.ProgramLiteralOfFirstToken | ast/ast.go:23-29 | over source texts: "" for an empty program, `=` for one opening with an assignment, the first token's literal otherwise (or a panic after a failed `def`) |
| Object.TypeOf | object/object.go:11-22 | each variant has its fixed tag, the string one spelled `STIRNG` |
| Object.TagsDistinct | object/object.go:11-22 | two values share a tag exactly when they are of the same variant |
| Object.Inspect | object/object.go:162-176 | rendering fails exactly when a nil object is wrapped inside, as a ReturnValue's payload or a list element; an Integer renders with a `-` exactly when negative; a list renders inside `list([` and `])` |
| Object.InspectObj | object/object.go:167-171 | an element that may be nil: nil panics, otherwise its rendering, which fails exactly when it wraps nil |
| Object.InspectAll | object/object.go:167-171 | one rendering per element, each that element's rendering, or failure exactly when some element is nil or wraps nil |
| Object.InspectListWithNil | object/object.go:167-171 | a list with a nil element panics when rendered, wherever the nil sits |
| Object.JoinSnoc | object/object.go:173 | joining one more part appends the separator and the part |
| Object.InspectScalars | object/object.go:63-152 | Booleans render as true/false, NULL as null, a String as its raw text, an Error as its message, a builtin as `builtin function` |
| Object.InspectIntegerReadsBack | object/object.go:39-41 | an Integer renders as a decimal that reads back as the same number |
| Object.InspectReturnValue | object/object.go:98-100 | a ReturnValue renders as the value it wraps |
| Object.InspectListSnoc | object/object.go:162-176 | appending an element adds `, ` and its rendering inside the brackets |
| Env.NewEnv | object/env.go:9-12 | a new empty frame with no parent, unused before |
| Env.NewNestedEnv | object/env.go:3-7 | a new empty frame whose parent is the given frame |
| Env.Get | object/env.go:19-26 | nothing for an unknown frame; a frame's own binding wins; any result is the binding of some frame |
| Env.Target | object/env.go:28-34 | the write goes to a frame that binds the name or has no parent, and to the frame itself when it binds the name |
| Env.Set | object/env.go:28-37 | returns the value given, adds no frame, and changes only the binding of the name in the target frame |
| Env.GetFindsFirstBinding | object/env.go:19-26 | lookup returns the binding of the innermost frame of the chain that has the name, and nothing exactly when no frame has it |
| Env.TargetIsFirstBinderOrRoot | object/env.go:28-34 | the write goes to the innermost frame binding the name, or to the root of the chain when none does |
| Env.GetAfterSet | object/env.go:19-37 | after `Set(n, v)` on a frame, `Get(n)` on it returns `v` |
| Env.SetChangesOneBinding | object/env.go:28-37 | every other frame, every other name and every parent link is unchanged |
| Env.SetKeepsValid | object/env.go:28-37 | the store stays well formed |
| Env.NestedFrameNeverGains | object/env.go:28-34 | a frame with a parent and no bindings never receives one |
| Env.GetAfterSetOther | object/env.go:19-34 | `Set` of one name leaves every lookup of another name, from any frame, unchanged |
| Env.GetThroughOtherWrite | object/env.go:19-26 | lookups of a name agree in two stores that differ only in another name's binding in one frame |
| Int64.Neg | eval/eval.go:160 | int64 negation, with the most negative value negating to itself |
| Int64.Wrap | eval/eval.go:190-198 | int64 wrap-around: congruent to the exact value modulo 2^64, and the exact value when it fits |
| Int64.Add | eval/eval.go:191-192 | int64 `+`: congruent to the sum modulo 2^64, the sum itself when it fits |
| Int64.Sub | eval/eval.go:193-194 | int64 `-`: congruent to the difference modulo 2^64, the difference itself when it fits |
| Int64.Mul | eval/eval.go:195-196 | int64 `*`: congruent to the product modulo 2^64, the product itself when it fits |
| Int64.Div | eval/eval.go:197-198 | int64 `/` truncates toward zero: the remainder is smaller than the divisor in magnitude and zero or of the dividend's sign; the most negative value divided by -1 wraps to itself |
| Int64.TruncatedQuotient | eval/eval.go:197-198 | the truncated quotient fits in int64 except for the most negative value divided by -1 |
| Helpers.Pow | eval/helpers.go:3-16 | NULL exactly for a negative exponent |
| Helpers.PowLoopComputesPower | eval/helpers.go:10-14 | the loop ends with the wrapped power |
| Helpers.PowIsWrappedPower | eval/helpers.go:9-14 | for a positive exponent the result is the mathematical power wrapped to int64 |
| Helpers.PowZero | eval/helpers.go:5-6 | `pow(a, 0)` is 1 for every `a` |
| Helpers.PowOne | eval/helpers.go:9-14 | `pow(a, 1)` is `a` |
| Helpers.PowStep | eval/helpers.go:10-14 | `pow(a, b+1) == pow(a, b) * a` under wrap-around |
| Helpers.CheckInt | eval/eval_helpers.go:7-13 | returns its argument or nil |
| Helpers.CheckFloat | eval/eval_helpers.go:15-21 | returns its argument or nil |
| Helpers.NumericIffChecked | eval/eval_helpers.go:7-31 | numeric iff one check returns the value, never both; CheckInt exactly for Integers and CheckFloat exactly for Floats |
| Builtins.Length | eval/builtins.go:21-41 | more than one argument is an Error naming the count; none panics; an Integer exactly for a single String, its byte length; any other single argument an Error, a nil one a panic |
| Builtins.NotNumeric | eval/builtins.go:58-62 | the Error panics exactly when an argument is nil |
| Builtins.PowBuiltin | eval/builtins.go:43-49 | an argument count other than 2 is an Error naming the count |
| Builtins.PowT | eval/builtins.go:89-110 | 1 for exponent 0, 0 for a negative exponent, and the mathematical power wrapped to int64 for a positive one |
| Builtins.PowTAgreesWithPow | eval/builtins.go:89-104 | `powT` on int64 is 1 for exponent 0, 0 for a negative one, the wrapped power for a positive one, and agrees with `pow` where that returns an int64 |
| Builtins.PowBuiltinOnIntegers | eval/builtins.go:78-86 | two Integers give the Integer `powT` of them |
| Builtins.PowBuiltinOnFloats | eval/builtins.go:65-81 | Integer with Float panics in both orders; two Floats give 0 |
| Builtins.PowBuiltinRejectsNonNumeric | eval/builtins.go:55-76 | a non-numeric argument in either place gives the Error naming both types |
| Eval.EvalExpr | eval/eval.go:15-91 | evaluation only adds frames |
| Eval.BindParams | eval/eval.go:317-319 | fails with an index panic exactly when there are fewer arguments than parameters, and adds no frame |
| EvalProps.BindParamsBindsEach | eval/eval.go:315-319 | with enough arguments binding succeeds, and every parameter looks up from the frame to the argument at its position, the later of two same-named parameters winning |
| EvalProps.BindParamsKeepsOthers | eval/eval.go:315-319 | binding parameters leaves the lookup of every other name unchanged |
| EvalProps.BindParamsKeepsNestedFrameEmpty | eval/eval.go:315-319 | binding parameters never writes into an empty frame with a parent, and keeps the store well formed |
| EvalProps.CallFrameSeesArguments | eval/eval.go:315-319 | on the call's fresh frame, binding succeeds, the frame stays empty with the closure as parent, and each parameter looks up from it to its argument |
| Eval.EvalPrefixOp | eval/eval.go:129-138 | `!` and `-` go to their handlers; any other operator panics on a nil operand and is an Error otherwise |
| Eval.EvalBang | eval/eval.go:140-151 | TRUE exactly for FALSE, FALSE otherwise |
| Eval.EvalMinus | eval/eval.go:153-161 | a nil operand panics; an Integer gives its int64 additive inverse; any other type an Error |
| Eval.EvalInfixOp | eval/eval.go:163-183 | a nil left operand panics; two Integers go to the integer handler; a Boolean on either side to the boolean handler; other pairs are Errors; only nil operands and integer arithmetic can panic |
| Eval.EvalIntegerInfix | eval/eval.go:185-244 | wrapped `+ - *`, truncating `/`, wrapped `**`; a panic exactly for division by zero or a negative exponent; each comparison TRUE exactly when it holds, else FALSE; any other operator an Error |
| Eval.EvalBoolInfix | eval/eval.go:246-264 | `==` TRUE exactly for equal objects, `!=` exactly for different ones, NULL for any other operator |
| Eval.Truthy | eval/eval.go:326-337 | false exactly for FALSE and NULL |
| Eval.EvalName | eval/eval.go:281-288 | the innermost binding of the chain, and the Name is not declared Error when no frame of the chain binds the name |
| Eval.EvalIf | eval/eval.go:266-279 | an Error condition is the result; a truthy one runs the consequence, a falsy one the alternative or gives NULL without one |
| Eval.EvalExprs | eval/eval.go:290-305 | the values in order after those already evaluated, or a single Error |
| Eval.RunFunction | eval/eval.go:307-324 | a non-function callee gives an Error and changes nothing; too few arguments panic on the index |
| Eval.EvalStmt | eval/eval.go:47-70 | a failed `def` panics; `def` gives NULL and binds a Function capturing the current frame; return wraps a non-Error value; assignment and `def` give NULL or an Error |
| Eval.EvalBlock | eval/eval.go:110-127 | evaluation only adds frames |
| Eval.EvalProgram | eval/eval.go:93-108 | evaluation only adds frames |
| EvalProps.IntegerLiterals | eval/eval.go:21-34 | an integer literal is an Integer of its value; a negated literal its int64 negation |
| EvalProps.BooleanLiterals | eval/eval.go:23-28 | a boolean literal is the TRUE or FALSE singleton |
| EvalProps.UnhandledKindsGiveNull | eval/eval.go:88-90 | float, string and list literals, index and nil expressions give NULL |
| EvalProps.MinusNegatesIntegersOnly | eval/eval.go:153-161 | `-x` is the additive inverse of an Integer, and an Error naming the type otherwise |
| EvalProps.OtherPrefixOperatorsAreErrors | eval/eval.go:129-138 | other prefix operators give the Unknown operator Error |
| EvalProps.IntegerArithmetic | eval/eval.go:190-196 | `+ - *` on Integers are the exact results wrapped to int64 |
| EvalProps.IntegerDivision | eval/eval.go:197-198 | `/` panics on 0 and otherwise truncates toward zero |
| EvalProps.IntegerPower | eval/eval.go:199-200 | `**` is the wrapped power, 1 for exponent 0, and panics on a negative exponent |
| EvalProps.IntegerComparisons | eval/eval.go:201-236 | comparisons give TRUE exactly when the relation holds, else FALSE |
| EvalProps.IntegerUnknownOperator | eval/eval.go:237-243 | any other operator on Integers is an Error |
| EvalProps.BooleanOperands | eval/eval.go:246-264 | with a Boolean operand `==`/`!=` compare the objects and any other operator gives NULL |
| EvalProps.BooleanEquality | eval/eval.go:249-254 | two Booleans are `==` exactly when their truth values agree |
| EvalProps.MismatchedOperands | eval/eval.go:163-183 | differing types give Type mismatch, equal non-Integer types Unknown operator |
| EvalProps.PrefixOperandError | eval/eval.go:29-34 | an Error operand is the result |
| EvalProps.InfixLeftError | eval/eval.go:35-40 | an Error left operand is the result and the right operand does not matter |
| EvalProps.InfixRightError | eval/eval.go:41-46 | an Error right operand is the result |
| EvalProps.IfConditionError | eval/eval.go:266-270 | an Error condition is the result |
| EvalProps.CalleeError | eval/eval.go:77-80 | an Error callee is the result |
| EvalProps.ArgumentError | eval/eval.go:82-85 | an Error among the arguments is the call's result |
| EvalProps.ArgumentErrorStops | eval/eval.go:290-305 | the first Error argument ends the list, alone |
| EvalProps.ReturnError | eval/eval.go:51-57 | an Error return value is not wrapped |
| EvalProps.AssignError | eval/eval.go:58-62 | an Error assigned value is the result |
| EvalProps.IfWithoutAlternative | eval/eval.go:266-279 | a falsy condition without alternative gives NULL, a truthy one runs the consequence |
| EvalProps.ProgramStopsAtReturn | eval/eval.go:93-108 | a program ends at the first ReturnValue with its payload |
| EvalProps.ProgramStopsAtError | eval/eval.go:93-108 | a program ends at the first Error with that Error |
| EvalProps.ProgramContinues | eval/eval.go:93-108 | any other result is carried on and is the final one when nothing follows; an empty program gives nil |
| EvalProps.BlockStopsWithoutUnwrapping | eval/eval.go:110-127 | a block ends at the first ReturnValue or Error and gives it unchanged |
| EvalProps.ReturnWraps | eval/eval.go:51-57 | return wraps its value once and the program unwraps it |
| EvalProps.UndeclaredName | eval/eval.go:281-288 | a name bound by no frame of the chain gives Name is not declared |
| EvalProps.AssignmentBinds | eval/eval.go:58-64 | an assignment gives NULL and the name then looks up to the value |
| EvalProps.CallingNonFunction | eval/eval.go:310-313 | calling a non-function gives the Error naming FUNCTION |
| EvalProps.BodyWithoutReturnPanics | eval/eval.go:321-323 | a body not ending in a ReturnValue panics |
| EvalProps.CallReturnsPayload | eval/eval.go:307-324 | a call returns the payload of the body's ReturnValue |
| EvalProps.ParameterLeaksIntoClosureFrame | eval/eval.go:315-319 | after `id(5)` the call's frame is empty and `x` is bound to 5 in the captured frame |

## Left out

- The REPL, the file reader and `main` (stdin/stdout loops, file reading, printing), and
  the helpers of parser/parser_stuff.go.
- `Lexer.GetDepth` is called by the parser but is not part of this model's sources: the
  depth after each token is an input of the parser's token stream, and `Parser.Parse` uses
  depth 0 throughout.
- token/token.go is incomplete: the token kinds are reconstructed from their uses, and the
  keyword set of `LookupKey` from the lexer's tests.
- The lexer is run to the first illegal character up front; the panic is then taken to
  happen exactly when the parser's furthest lookahead reaches that character, which is when
  Go's on-demand lexer would scan it.
- Floating point: `strconv.ParseFloat` is modelled by the digit-and-dot spellings it reads
  and its ErrRange overflow bound, not by its rounding; a Float carries a `real`, and Float
  rendering (`FormatFloat`) is not modelled.
- `Function.Inspect`: it depends on AST `String()` methods that are not in this model.
- `Decimal.ParseIntLiteral`: models `strconv.ParseInt(lit, 0, 64)` only on plain digit
  strings (the only INT literals the lexer makes), so the `0x`, `0b`, `0o` and `_` forms
  are not modelled.
- Parse error messages are structured values; their text, which prints token type names
  that token/token.go does not define, is not rendered.
- The debug prints at parser/parser.go:343 and 386.
- The `builtin` and `aliases` tables of eval/builtins.go are never consulted by the
  evaluator, so builtins are modelled as functions of their argument lists only; the name
  clash between the two `pow` functions and the undefined `object.BltinFn` are ignored.
- Eval.EvalExpr: a call spends one unit of fuel and gives `OutOfFuel` when none is left;
  the source has no such bound, so results are stated for evaluations that finish.
- Eval.EvalExpr: its own contract states only that evaluation keeps every existing frame;
  what each expression evaluates to is stated by the EvalProps lemmas.
- Builtins.PowBuiltin: its own contract states only the arity Error; the numeric cases are
  stated by PowBuiltinOnIntegers, PowBuiltinOnFloats and PowBuiltinRejectsNonNumeric.
- Builtins.Length: a string longer than the int64 maximum would wrap; the contract states
  the length only up to that bound.
- Ast.StmtTokenLiteral: ast/ast.go defines `TokenLiteral` only for assignments; the other
  statement kinds are taken to return their own token's literal the same way, and a failed
  `def` (a nil `*FunctionStatement`) gives `None` for the nil-dereference panic.
- Eval.EvalBlock, Eval.EvalProgram, Eval.Run: their own contracts state only
  that evaluation keeps every existing frame; how blocks and programs stop is stated by
  EvalProps.ProgramStopsAtReturn, ProgramStopsAtError, ProgramContinues and
  BlockStopsWithoutUnwrapping.
