# lunae: a Dafny model of the language core

This project models the core of **lunae**, a small indentation-sensitive
language written in Python, and proves properties of that model. It covers
four pieces:

- **Parser.** The token reader (`ParserReader`) and the recursive-descent
  parser. The parser runs statement → expr → binary → unary → primary →
  (parenthesised expr | control construct → block → statement). It builds a
  closed set of syntax-tree nodes.
- **Printer.** The syntax tree's indented pretty printer (the `__str__`
  methods, built on `indent`).
- **Scopes.** The untyped `Environment` of the interpreters and the typed
  `Environment` of the lunae copy, with its `Cell`s and mutable-flagged
  `Binding`s.
- **Types and evaluation.** The structural type lattice with variance, and the
  tree-walking evaluator.

The repository carries the language three times. The copies are the top level
(`parser/`, `language/`, `interpreter/`, `utils/`), `luma/` and `lunae/`. The
parsing routines of the copies agree line for line except in how a literal
token's value is read (see Left out and Findings), so one parser model stands
for all of them. The top-level file is cited for each routine, except
`for`, whose parser exists only in the luma copy here. The matching luma lines
for the other routines are:

- `parse_block`/`parse_reader`: luma/parser/parsers/base/block.py:14-57;
- `parse_statement`: statement.py:12-29;
- `parse_expr`: expr.py:11-26;
- `parse_binary`: binary.py:13-35;
- `parse_primary`: primary.py:17-54;
- `parse_func_call`: funccall.py:12-34;
- `parse_var`: var.py:11-25;
- `parse_number`/`parse_string`: number.py:10-21, string.py:10-21;
- `parse_while_expr`: whileexpr.py:12-26.

The lunae entry point lunae/parser/__init__.py:12-24 is the same `parse` as
parser/__init__.py:13-25. The two evaluators (interpreter/interpreter.py and
luma/interpreter/__init__.py) differ only in:

- dispatch spelling: class name versus lower-cased class name;
- the luma constructor's optional global environment, modelled by
  `Interpreter.NewInterp`.

Both are covered by one `Interpreter.Eval`.

## Layout

| file | module | what it models |
|---|---|---|
| wrappers.dfy | Wrappers | `Option` and `Result` with `:-` support |
| tokens.dfy | Tokens | token kinds, tokens with opaque positions, the quote stripping of STRING lexemes |
| syntax.dfy | Syntax | keywords, the binary and unary operator tables, `Operator.dict` |
| reader.dfy | TokenReader | `ParserReader` as a value: `peek`, `skip`, `is_followed`, `match`, `expect`, and the parse errors |
| ast.dfy | Ast | the syntax-tree nodes and the Statement/Expr placement of each class |
| parser.dfy | Parser | every parsing routine, as mutually recursive functions |
| parser_facts.dfy | ParserFacts | the steps and error cases of each routine, and the literal tree shapes |
| parser_lists.dfy | ParserLists | the languages the argument, program and body loops accept; operator chains and prefix runs |
| indentation.dfy | Indentation | `str.split("\n")`, `sep.join`, `indent` and their laws |
| printer.dfy | Printer | `repr` of names, the `__str__` layouts, and a line-by-line reference layout |
| scopes.dfy | Scopes | a scope arena, with chains of parent links and the nearest-binding lookup |
| environment.dfy | Environment | the untyped `get`/`set`/`define` |
| typed_environment.dfy | TypedEnvironment | `Cell`, `Binding`, `define`/`resolve`/`set`/`get` |
| typesystem.dfy | TypeSystem | `Type`, `Variance`, `is_subtype_of` (as written and corrected), subscription, `repr`, the predefined types |
| typesystem_facts.dfy | TypeFacts | shape of the subtype check, supertype chains, variance examples |
| interpreter.dfy | Interpreter | values, the global environment, `eval` and every `eval_*` handler |
| interpreter_facts.dfy | InterpreterFacts | what each construct evaluates to, evaluation order, blocks, calls |

Environments are frames of an arena (`seq<Frame<V>>`). Each frame has a
parent index smaller than its own index. A Python object reference to an
environment becomes an index into the arena. The evaluator threads the arena
through evaluation. Its `fuel` argument bounds the depth of evaluation, so a
program that does not stop ends in `OutOfFuel`.

## Model

| member | source | states |
|---|---|---|
| Tokens.Unquote | tokenizer/token.py:41 | the STRING payload is the lexeme without its first and last character (`match[1:-1]`), and empty for a lexeme shorter than two |
| Syntax.OperatorDict | language/syntax.py:15-17 | every key of `Operator.dict` maps to an operator whose own lexeme is that key |
| Syntax.OperatorDictKeys | language/syntax.py:16-17 | the keys of `Operator.dict` are exactly the lexemes of its entries |
| Syntax.OperatorDictLastWins | language/syntax.py:16-17 | a lexeme maps to the last entry that carries it |
| Syntax.OperatorDictStep | language/syntax.py:16-17 | building the dict entry by entry: each entry overwrites the key of its lexeme |
| Syntax.BinaryTable | language/syntax.py:21-32 | the binary table holds exactly `+ - * / % == > <`, with priorities 1,1,2,2,2,0,0,0 and functions add, sub, mul, div, mod, is, more, less |
| Syntax.BinaryPriorities | language/syntax.py:21-32 | every binary priority lies in 0..2 |
| Syntax.UnaryTable | language/syntax.py:33-38 | the unary table holds exactly `-` → neg and `!` → not |
| Syntax.BinaryLookups | language/syntax.py:21-32 | `+`, `-`, `*`, `==`, `<` map to add/1, sub/1, mul/2, is/0, less/0, and `^` is not a binary operator |
| Syntax.UnaryLookups | language/syntax.py:33-38 | `-` maps to neg and `!` to not, while `+` and `*` are not prefix operators |
| Syntax.SharedOperators | language/syntax.py:21-38 | `-` is the only lexeme in both tables |
| TokenReader.Skip | parser/reader.py:21-22 | `skip` moves the cursor exactly one token on over the same list, even past the end: one fewer token remains while any remain |
| TokenReader.IsFollowed | parser/reader.py:28-30 | `is_followed` holds exactly when a token exists `offset` places ahead, has the kind, and has the literal when one is given |
| TokenReader.Peek | parser/reader.py:24-26 | there is a token exactly when `pos + offset` is inside the list, and it is the token at that index |
| TokenReader.SkipRemaining | parser/reader.py:21-22 | skipping moves the cursor one token on over the same list, so one fewer token remains, and none remain once past the end |
| TokenReader.FollowedIffMatch | parser/reader.py:28-37 | `is_followed` at offset 0 holds exactly when `match` would consume, and looking further ahead equals looking from the next token |
| TokenReader.Match | parser/reader.py:32-37 | the token is returned and the cursor advanced by one iff the kind matches and the literal, when given, equals the lexeme; otherwise None and an unchanged reader |
| TokenReader.Expect | parser/reader.py:39-48 | succeeds exactly when `match` would, with the same token and cursor; otherwise a ParserError naming the expected kind and literal and the actual kind, with the current token's span, or no span at end of input |
| TokenReader.ExpectHere | parser/reader.py:28-40 | when `is_followed` holds at the cursor, `expect` returns the current token and advances by one |
| TokenReader.ExpectFollowed | parser/reader.py:28-40 | when `is_followed` holds `k` tokens ahead, `expect` from that position returns that token and advances past it |
| Parser.ParseNumber | parser/parsers/values/number.py:21-22 | succeeds iff the current token is NUMBER, consuming exactly it and giving a Number of its lexeme; otherwise `expect`'s error |
| Parser.ParseNumberAsWritten | parser/parsers/values/number.py:21-22 | as written it never succeeds: a NUMBER token fails with AttributeError on `number_value`, any other token with `expect`'s error |
| ParserFacts.NumberValueMissing | parser/parsers/values/number.py:21-22 | the routine as written fails with that AttributeError exactly where the corrected one succeeds, and gives the same error everywhere else |
| Parser.ParseString | parser/parsers/values/string.py:8-9 | succeeds iff the current token is STRING, consuming exactly it and giving a String of the unquoted lexeme; otherwise `expect`'s error |
| Parser.ParseParams | parser/parsers/functions/funcdef.py:14-18 | the parameter loop consumes at least one token and stays within the list |
| ParserFacts.ParamsSound | parser/parsers/functions/funcdef.py:14-18 | whatever the parameter loop accepts is IDENT (COMMA IDENT)* RPAREN, naming exactly the parameters it answers, in order |
| ParserFacts.ParamsComplete | parser/parsers/functions/funcdef.py:14-18 | every IDENT (COMMA IDENT)* RPAREN list is accepted, answering its names in order (duplicates kept) and consuming 2·n tokens |
| ParserFacts.ParamsLast | parser/parsers/functions/funcdef.py:15-17 | a name followed by `)` is the last parameter, and the `)` is consumed |
| ParserFacts.ParamsNext | parser/parsers/functions/funcdef.py:15-18 | a name followed by `,` is followed by the remaining parameters |
| Parser.ParseBlock | parser/parsers/base/block.py:16-41 | a block consumes at least one token and stays within the list |
| Parser.ParseBlockBody | parser/parsers/base/block.py:29-32 | the body loop consumes at least one token (its DEDENT at least) |
| Parser.ParseStatement | parser/parsers/base/statement.py:13-30 | a statement consumes at least one token and begins with a token that can start an expression; after `func` it is a FuncDef, otherwise a node whose class derives from Expr (luma hierarchy) |
| Parser.ParseExpr | parser/parsers/base/expr.py:12-27 | an expression consumes at least one token, begins with an operand or prefix-operator token, and is never a FuncDef; after IDENT `=` it is an Assign to that identifier |
| Parser.ParseAssign | parser/parsers/values/assign.py:12-25 | an assignment consumes at least one token and is an Assign to the identifier at the cursor |
| Parser.ParseBinary | parser/parsers/operations/binary.py:14-25 | a binary expression consumes at least one token, begins with an operand or operator token, and is never a FuncDef |
| Parser.BinaryLoop | parser/parsers/operations/binary.py:26-36 | the operator loop never moves the cursor back, stays within the list when it moves, and answers either its left operand with the cursor unmoved or a call of an operator function |
| Parser.ParseUnary | parser/parsers/operations/unary.py:14-30 | a unary expression consumes at least one token and is never a FuncDef |
| Parser.ParsePrimary | parser/parsers/base/primary.py:13-50 | a primary consumes at least one token, begins with NUMBER, STRING, IDENT, LPAREN or KEYWORD, and is never a FuncDef (`func` is not a primary) |
| Parser.ParseVar | parser/parsers/values/var.py:8-13 | a name alone is a Var of that name consuming one token; otherwise the result is a FuncCall of that name |
| Parser.ParseFuncCall | parser/parsers/functions/funccall.py:9-21 | a call consumes at least one token and is a FuncCall of the given name |
| Parser.ParseArgs | parser/parsers/functions/funccall.py:15-19 | the argument loop consumes at least one token |
| Parser.ParseFuncDef | parser/parsers/functions/funcdef.py:8-21 | a definition consumes at least one token and is a FuncDef named by the identifier after `func` |
| Parser.ParseFuncHeader | parser/parsers/functions/funcdef.py:9-20 | the header up to the COLON consumes at least one token and names the definition after the identifier that follows `func` |
| Parser.ParseParamList | parser/parsers/functions/funcdef.py:12-18 | an immediate `)` is the empty parameter list, consuming it; anything else is what the parameter loop reads |
| Parser.ParseIf | parser/parsers/controls/ifexpr.py:16-34 | an if-expression consumes at least one token and is an IfExpr |
| Parser.ParseWhile | parser/parsers/controls/whileexpr.py:13-27 | a while-expression consumes at least one token and is a WhileExpr |
| Parser.ParseFor | luma/parser/parsers/controls/forexpr.py:12-28 | a for-expression consumes at least one token and is a ForExpr over the identifier after `for` |
| Parser.ParseProgramBody | parser/parsers/base/block.py:54-59 | on success the program loop has consumed the whole token list |
| Parser.Parse | parser/__init__.py:13-25 | a successful parse is always a Block |
| ParserFacts.AtomOperand | parser/parsers/base/primary.py:28-33 | a NUMBER, or an IDENT not followed by `(`, is one operand of exactly one token |
| ParserFacts.AtomBinary | parser/parsers/operations/binary.py:25-29 | such an operand followed by a non-OP token is a whole binary expression |
| ParserFacts.AtomExpr | parser/parsers/base/expr.py:23-27 | ... and a whole expression unless `=` follows it |
| ParserFacts.BinaryAfterOperand | parser/parsers/operations/binary.py:25-26 | a binary expression is one unary operand followed by the operator loop |
| ParserFacts.UnaryPrefix | parser/parsers/operations/unary.py:24-29 | a prefix `-` or `!` consumes one token and wraps the following unary operand as `FuncCall(neg or not, [operand])` |
| ParserFacts.PrefixAtom | parser/parsers/operations/unary.py:24-29 | a prefix operator directly before a NUMBER or IDENT operand gives `FuncCall(func, [operand])` and consumes both tokens |
| ParserFacts.UnaryRejectsOtherOperators | parser/parsers/operations/unary.py:25-30 | any other OP in operand position falls through to the primary parser and fails with that token's span |
| ParserFacts.LoopStops | parser/parsers/operations/binary.py:27-29 | the loop ends without consuming at end of input or at a non-OP token |
| ParserFacts.LoopUnknownOperator | parser/parsers/operations/binary.py:30 | an OP lexeme that is not a binary operator raises a KeyError, not a ParserError |
| ParserFacts.LoopBelowMinimum | parser/parsers/operations/binary.py:31-32 | an operator below the minimum precedence ends the loop unconsumed |
| ParserFacts.LoopFolds | parser/parsers/operations/binary.py:33-35 | otherwise the operator is consumed, the right side parsed at `min_prec + 1`, and the loop continues with `FuncCall(op.function, [left, right])` |
| ParserFacts.LoopFailure | parser/parsers/operations/binary.py:34 | a failing right operand fails the loop with its error |
| ParserFacts.OperatorAfter | parser/parsers/operations/binary.py:25-36 | one operand, one operator at or above the minimum precedence and a right side with no OP after it give `FuncCall(op.function, [left, right])` |
| ParserFacts.OperatorThen | parser/parsers/operations/binary.py:25-36 | the same when the left operand is a single NUMBER or IDENT |
| ParserFacts.OneOperator | parser/parsers/operations/binary.py:25-36 | `OPERAND OP OPERAND` with no OP after it is one call of the operator's function on the two operands |
| ParserFacts.OneOperatorExpr | parser/parsers/base/expr.py:27 | ... and that call is a whole expression |
| ParserFacts.RightNested | parser/parsers/operations/binary.py:31-35 | `a OP b OP' c` nests to the right, OP(a, OP'(b, c)), whenever OP' has priority 1 or more, whatever OP's priority |
| ParserFacts.LeftNested | parser/parsers/operations/binary.py:31-35 | it nests to the left, OP'(OP(a, b), c), when OP' has priority 0 |
| ParserFacts.HighPrecedenceSingleOperand | parser/parsers/operations/binary.py:31-32 | at a minimum precedence of 3 or more, parsing gives just one unary operand, or a KeyError |
| ParserFacts.AddThenMul | parser/parsers/operations/binary.py:34 | `2 + 3 * 4` parses to add(2, mul(3, 4)) |
| ParserFacts.MulThenAdd | parser/parsers/operations/binary.py:31-35 | example, an instance of RightNested: `2 * 3 + 4` parses to mul(2, add(3, 4)) |
| ParserFacts.SubThenSub | parser/parsers/operations/binary.py:33-35 | example, an instance of RightNested: `1 - 2 - 3` parses to sub(1, sub(2, 3)) |
| ParserFacts.LessThenIs | parser/parsers/operations/binary.py:30-35 | `1 < 2 == 1` parses to is(less(1, 2), 1) |
| ParserFacts.NegThenAdd | parser/parsers/operations/unary.py:28-30 | `-a + b` parses to add(neg(a), b) |
| ParserFacts.NotNot | parser/parsers/operations/unary.py:28 | `!!x` parses to not(not(x)) |
| ParserFacts.OperandMissing | parser/parsers/base/primary.py:50 | `1 + * 2` fails at `*` with an unexpected-token error carrying its span |
| ParserFacts.UnknownOperator | parser/parsers/operations/binary.py:30 | `1 ^ 2` fails with KeyError("^") |
| ParserFacts.ExprAtEnd | parser/parsers/base/primary.py:24-26 | an expression at end of input fails with an end-of-file error that has no span |
| ParserFacts.OperandFailure | parser/parsers/operations/binary.py:25 | a failing first operand fails the enclosing expression statement with the same error |
| ParserFacts.OperandExpr | parser/parsers/base/expr.py:27 | a complete operand not followed by an OP is the whole expression |
| ParserFacts.Parenthesised | parser/parsers/base/primary.py:36-40 | `( e )` gives the inner node itself and consumes the closing parenthesis |
| ParserFacts.ParenthesisedAtom | parser/parsers/base/primary.py:36-40 | `( OPERAND )` is the operand itself and consumes all three tokens |
| ParserFacts.NonControlKeyword | parser/parsers/base/primary.py:42-46 | a keyword outside the control table fails with an unexpected-keyword error carrying its span |
| ParserFacts.NonControlKeywords | parser/parsers/controls/__init__.py:5-9 | the control table's keys are keywords, and the keywords outside it are exactly else, in and func |
| ParserFacts.ControlDispatch | parser/parsers/base/primary.py:47-48 | `if`, `while` and `for` hand the whole construct, keyword included, to their parser |
| ParserFacts.UnexpectedTokenKind | parser/parsers/base/primary.py:50 | a token of any other kind fails with its kind, lexeme and span |
| ParserFacts.AssignmentExpr | parser/parsers/values/assign.py:22-25 | IDENT `=` gives Assign(name, value) with the value parsed by `parse_expr`, or the value's error |
| ParserFacts.AssignProgram | parser/parsers/values/assign.py:22-25 | an input `NAME = VALUE` parses to a Block holding Assign(name, value) |
| ParserFacts.AssignmentChain | parser/parsers/values/assign.py:24 | `a = b = 1` parses to Assign(a, Assign(b, 1)) |
| ParserFacts.AssignmentOfSum | parser/parsers/values/assign.py:24 | `x = 1 + 2` assigns the whole sum |
| ParserFacts.ParenthesisedTarget | parser/parsers/base/expr.py:23-27 | `(a) = 1` fails at `=`: only a bare IDENT directly before `=` is an assignment |
| ParserFacts.CallWithoutArguments | parser/parsers/functions/funccall.py:14 | `f()` parses to FuncCall(f, []) |
| ParserFacts.CallWithArguments | parser/parsers/functions/funccall.py:15-19 | `f(1, x)` passes its arguments in source order |
| ParserFacts.CallTrailingComma | parser/parsers/functions/funccall.py:16-19 | `f(1,)` fails at the `)` after the comma |
| ParserFacts.NameCall | parser/parsers/values/var.py:9-12 | an IDENT followed by `(` starts a call of that name |
| ParserFacts.CallStep | parser/parsers/functions/funccall.py:10-21 | `(` followed by a non-empty argument list gives FuncCall(name, args) |
| ParserFacts.CallEmptyStep | parser/parsers/functions/funccall.py:10-21 | `(` directly followed by `)` gives FuncCall(name, []) and consumes both tokens |
| ParserFacts.CallSound | parser/parsers/functions/funccall.py:9-21 | every call that parses opened with `(`, and is either `()` with no arguments or `(` then the argument list: the converse of CallEmptyStep and CallStep |
| ParserFacts.AssignmentNotTopLevelExpr | parser/parsers/base/expr.py:12-26 | an assignment returned by `parse_expr` is an Expr in the luma class hierarchy but not in the top-level one, where Assign derives from Statement |
| ParserFacts.ArgsLast | parser/parsers/functions/funccall.py:16-18 | an argument followed by `)` is the last one, and the `)` is consumed |
| ParserFacts.ArgsNext | parser/parsers/functions/funccall.py:16-19 | an argument followed by `,` is followed by the remaining arguments |
| ParserFacts.TwoArguments | parser/parsers/functions/funccall.py:15-19 | `OPERAND , OPERAND )` is a list of those two arguments in order, consuming four tokens |
| ParserFacts.CallProgram | parser/parsers/functions/funccall.py:9-21 | an input `NAME ( ARGS` whose arguments end it parses to a Block holding FuncCall(name, args) |
| ParserFacts.FuncDefStep | parser/parsers/functions/funcdef.py:9-21 | `func NAME ( PARAMS ) : BLOCK` gives FuncDef(name, params, body) |
| ParserFacts.FuncDefEmptyStep | parser/parsers/functions/funcdef.py:9-21 | `func NAME ( ) : BLOCK` gives FuncDef(name, [], body) |
| ParserFacts.FuncHeaderEmpty | parser/parsers/functions/funcdef.py:9-20 | the header `func NAME ( ) :` reads the name and no parameters, consuming five tokens |
| ParserFacts.FuncHeaderSound | parser/parsers/functions/funcdef.py:9-20 | every header that parses is `func`, IDENT, `(`, a parameter list and a COLON |
| ParserFacts.FuncDefSound | parser/parsers/functions/funcdef.py:8-21 | every definition that parses is `func NAME (` followed by `)` and no parameters or by a parameter list, then a COLON and a block: the converse of FuncDefEmptyStep and FuncDefStep |
| ParserFacts.DefineAdd | parser/parsers/functions/funcdef.py:8-21 | `func add(a, b):` over an indented `a + b` parses to a FuncDef with parameters a, b and body add(a, b) |
| ParserFacts.SingleStatementBlock | parser/parsers/base/block.py:35-36 | an indented block of exactly one statement is that statement, unwrapped |
| ParserFacts.IndentedBlock | parser/parsers/base/block.py:26-37 | NEWLINE INDENT starts an indented block; one statement comes out bare, any other number as a Block |
| ParserFacts.BodyStatement | parser/parsers/base/block.py:29-32 | inside an indented block, a statement is followed by the rest of the block |
| ParserFacts.StatementsBlock | parser/parsers/base/block.py:37 | zero or several statements come out as a Block in source order |
| ParserFacts.InlineBlock | parser/parsers/base/block.py:26-41 | without NEWLINE INDENT, a leading NEWLINE is still consumed, then one expression and at most one NEWLINE |
| ParserFacts.UnterminatedBlock | parser/parsers/base/block.py:29-32 | running out of tokens before the DEDENT fails with an end-of-file error |
| ParserFacts.InlineBlockStep | parser/parsers/base/block.py:39-41 | a one-line block is the expression on that line |
| ParserFacts.AtomBlock | parser/parsers/base/block.py:39-41 | a NUMBER or IDENT alone on its line is a one-line block consuming only that token |
| ParserFacts.StatementNewline | parser/parsers/base/statement.py:28-30 | an expression statement consumes the NEWLINE that follows it |
| ParserFacts.BlankLineInBlock | parser/parsers/base/block.py:30-31 | a blank NEWLINE inside an indented block is skipped |
| ParserFacts.StatementKinds | parser/parsers/base/statement.py:26-30 | the keyword `func` starts a definition, decided by lookahead alone; anything else is an expression followed by at most one NEWLINE |
| ParserFacts.IfStep | parser/parsers/controls/ifexpr.py:26-34 | `if COND : BLOCK` not followed by `else` has no else branch |
| ParserFacts.IfElseStep | parser/parsers/controls/ifexpr.py:31-34 | `else : BLOCK` right after the then block is the else branch |
| ParserFacts.WhileStep | parser/parsers/controls/whileexpr.py:23-27 | `while COND : BLOCK` gives WhileExpr(cond, body) |
| ParserFacts.ForStep | luma/parser/parsers/controls/forexpr.py:22-28 | `for NAME in ITERABLE : BLOCK` gives ForExpr(name, iterable, body) |
| ParserFacts.PrimarySound | parser/parsers/base/primary.py:13-50 | every primary that parses is a NUMBER, a STRING, a name or call, `( e )` with its closing parenthesis consumed, or an `if`, `while` or `for` construct handed over with its keyword |
| ParserFacts.ExprSound | parser/parsers/base/expr.py:12-27 | every expression that parses is, after IDENT `=`, the Assign of the value read there, and otherwise the binary expression at minimum precedence 0 |
| ParserFacts.StatementSound | parser/parsers/base/statement.py:13-30 | every statement that parses is the definition after `func`, and otherwise an expression with at most one following NEWLINE consumed |
| ParserFacts.WhileSound | parser/parsers/controls/whileexpr.py:13-27 | conversely, every `while` that parses is the keyword, a condition, a COLON and a block, giving WhileExpr of those two |
| ParserFacts.IfSound | parser/parsers/controls/ifexpr.py:16-34 | every `if` that parses is the keyword, a condition, a COLON and the then block, followed by `else : BLOCK` exactly when the keyword `else` comes next, giving IfExpr of those parts |
| ParserFacts.ForSound | luma/parser/parsers/controls/forexpr.py:12-28 | every `for` that parses is `for NAME in ITERABLE : BLOCK`, giving ForExpr(name, iterable, body) |
| ParserFacts.ControlProgram | parser/parsers/base/block.py:54-59 | a control construct that spans the whole input is the program's only statement |
| ParserFacts.IfOnly | parser/parsers/base/primary.py:47-48 | an `if` construct spanning the whole input is the program's only statement |
| ParserFacts.WhileOnly | parser/parsers/base/primary.py:47-48 | so is a whole-input `while` construct |
| ParserFacts.ForOnly | parser/parsers/base/primary.py:47-48 | so is a whole-input `for` construct |
| ParserFacts.IfElseOneLine | parser/parsers/controls/ifexpr.py:26-34 | `if x: 1 else: 2` parses to IfExpr(x, 1, 2) |
| ParserFacts.IfWithoutElse | parser/parsers/controls/ifexpr.py:30-34 | `if x: 1` has no else branch |
| ParserFacts.IfWithoutColon | parser/parsers/controls/ifexpr.py:28 | `if x 1` fails: a COLON is expected after the condition |
| ParserFacts.WhileOneLine | parser/parsers/controls/whileexpr.py:23-27 | `while x: x = 0` parses to WhileExpr(x, Assign(x, 0)) |
| ParserFacts.ForOneLine | luma/parser/parsers/controls/forexpr.py:22-28 | `for i in xs: i` parses to ForExpr(i, xs, i) |
| ParserFacts.ExprStatement | parser/parsers/base/statement.py:28-30 | an expression not followed by NEWLINE is a whole statement |
| ParserFacts.BinaryExpr | parser/parsers/base/expr.py:27 | an expression not starting with IDENT `=` is a binary expression at minimum precedence 0 |
| ParserFacts.SingleStatementProgram | parser/parsers/base/block.py:54-59 | a token list that is one statement parses to a Block of that one statement, not collapsed |
| ParserFacts.ExprProgram | parser/parsers/base/block.py:54-59 | an expression that spans the whole input, not starting with `func`, parses to a Block of that one expression |
| ParserFacts.BinaryProgram | parser/parsers/base/expr.py:27 | ... and so does a whole-input binary expression that does not start with IDENT `=` |
| ParserFacts.ProgramFailure | parser/parsers/base/block.py:58 | a failing statement fails the program with its error |
| ParserFacts.ExprFailure | parser/parsers/base/statement.py:28 | a failing expression fails its statement with the same error |
| ParserFacts.ParseFailure | parser/__init__.py:23-25 | a failing program gives the error and no partial Block |
| ParserFacts.ProgramFailureLater | parser/parsers/base/block.py:55-58 | a failure after successful statements still fails the whole program |
| ParserFacts.ProgramStatement | parser/parsers/base/block.py:55-58 | the program is its first statement followed by the rest |
| ParserFacts.FirstStatement | parser/parsers/base/block.py:55-58 | a first statement followed by the rest of the program parses to a Block of that statement and then the rest |
| ParserFacts.LastStatement | parser/parsers/base/block.py:54-59 | a statement that ends the input is the last statement of the program |
| ParserFacts.ProgramBlankLine | parser/parsers/base/block.py:56-57 | a NEWLINE between statements is skipped |
| ParserFacts.BlankProgramBody | parser/parsers/base/block.py:54-59 | a program of NEWLINEs only yields no statements and consumes every token |
| ParserFacts.BlankProgram | parser/__init__.py:23-24 | an empty or all-NEWLINE token list parses to the empty Block |
| ParserFacts.TwoStatements | parser/parsers/base/block.py:55-59 | statements separated by NEWLINE come out in source order |
| ParserLists.ArgsComplete | parser/parsers/functions/funccall.py:15-19 | every run of one or more expressions, each ended by a COMMA and the last by an RPAREN, is accepted: its expressions in order, the reader just past the `)` |
| ParserLists.ArgsSound | parser/parsers/functions/funccall.py:15-19 | whatever the argument loop accepts is such a run, starting where the loop started and ending where it stopped |
| ParserLists.ArgsAccepted | parser/parsers/functions/funccall.py:15-19 | the argument loop answers `args` and stops at `close` exactly when the tokens from `start` to `close` are such a run of `args` |
| ParserLists.ProgramComplete | parser/parsers/base/block.py:54-59 | every sequence of blank NEWLINEs and statements that runs to the end of the input is read as its statements in order, consuming every token |
| ParserLists.ProgramSound | parser/parsers/base/block.py:54-59 | whatever the program loop accepts is such a sequence, holding exactly the statements it answers |
| ParserLists.ParseAccepted | parser/__init__.py:13-25 | `parse` gives Block(ss) exactly when the whole token list splits into blank NEWLINEs and statements whose statements, in order, are `ss` |
| ParserLists.BodyComplete | parser/parsers/base/block.py:29-32 | every sequence of blank NEWLINEs and statements closed by a DEDENT is read as its statements in order, the DEDENT consumed |
| ParserLists.BodySound | parser/parsers/base/block.py:29-32 | whatever the body loop accepts is such a sequence, ending just past its DEDENT |
| ParserLists.BodyAccepted | parser/parsers/base/block.py:29-32 | the body loop answers `ss` and stops at `close` exactly when the tokens from `start` are such a sequence of `ss` whose DEDENT is just before `close` |
| ParserLists.ChainLeft | parser/parsers/operations/binary.py:26-35 | at the priority of a chain's operators the loop folds every remaining operand onto the left operand, stopping after the last one |
| ParserLists.ChainNesting | parser/parsers/operations/binary.py:25-36 | a chain `OPERAND OP ... OP OPERAND` whose operators share priority `p`, read at minimum precedence `k <= p`, is consumed whole: each level below `p` takes one operand and nests the rest to its right, and at `p` the rest folds to the left |
| ParserLists.UnaryRun | parser/parsers/operations/unary.py:24-30 | `parse_unary` reads the whole run of prefix `-`/`!` and then one primary, giving the primary under those operators (leftmost outermost), or the primary's error |
| Indentation.Split | utils/indent.py:19 | `split("\n")` gives at least one line, and no line holds a newline |
| Indentation.SplitSingleLine | utils/indent.py:19 | a text without a newline splits into itself alone |
| Indentation.SplitAtNewline | utils/indent.py:19 | splitting at a newline gives the lines before it followed by the lines after it |
| Indentation.SplitCount | utils/indent.py:19 | there is one line more than there are newlines |
| Indentation.JoinSplit | utils/indent.py:19 | joining the lines of a text with newlines gives the text back |
| Indentation.SplitJoin | utils/indent.py:19 | splitting newline-joined texts gives the lines of each, in order |
| Indentation.Join | utils/indent.py:19 | `sep.join` of no texts is empty; of one or more it starts with the first text |
| Indentation.JoinCons | utils/indent.py:19 | joining a text in front of one or more others puts it, then the separator, then the join of the rest |
| Indentation.Indent | utils/indent.py:8-19 | an indented text starts with the prefix, and the empty text indents to the prefix alone |
| Indentation.IndentLines | utils/indent.py:19 | the lines of an indented text are the text's lines with the prefix in front |
| Indentation.IndentShape | utils/indent.py:8-19 | indenting keeps the number of lines and of newlines, and every line begins with the prefix |
| Indentation.IndentEmpty | utils/indent.py:19 | the empty text indents to the prefix alone |
| Indentation.DedentIndent | utils/indent.py:19 | removing the prefix length from every line undoes `indent` |
| Printer.Repr | language/ast/functions/funcdef.py:30 | `repr` of a name is one line, between matching single or double quotes |
| Printer.EscapeChar | language/ast/values/assign.py:22 | backslash, the chosen quote, newline, carriage return and tab become a backslash and a character that reads back (EscapeCode) as the original; every other character, the other quote included, is kept as it is |
| Printer.ReprList | language/ast/functions/funcdef.py:30 | `repr` of the parameter list is one line between `[` and `]` |
| Printer.ReprPlain | language/ast/values/assign.py:22 | a name without special characters is printed between single quotes, unchanged |
| Printer.EscapeRoundTrip | language/ast/values/assign.py:22 | escaped text reads back, by the string-literal escapes, as the original text |
| Printer.ReprRoundTrip | language/ast/values/assign.py:22 | every repr reads back as the string it was made from |
| Printer.ReprListJoin | language/ast/functions/funcdef.py:30 | `repr` of a list is `[`, the items' reprs joined by ", ", and `]` |
| Printer.RenderOutline | language/ast/base/block.py:19-20 | the lines `__str__` prints are the header line followed by the lines of every child with two spaces in front; an empty Block has one empty line under its header |
| Printer.RenderJoin | language/ast/controls/ifexpr.py:31 | the printed text is those lines joined by newlines, with no leading or trailing newline |
| Printer.HeaderLines | language/ast/base/block.py:20 | a header followed by a newline and a body splits into the header line and the body's lines |
| Printer.BlockOutline | language/ast/base/block.py:19-20 | a Block prints `BLOCK` over each statement indented by two spaces |
| Printer.IfOutline | language/ast/controls/ifexpr.py:31 | an IfExpr prints `IF` over its indented condition, branch and else text |
| Printer.OutlineIndented | language/ast/functions/funcdef.py:30 | every line after the header starts with the two-space indentation |
| Printer.RenderNested | language/ast/functions/funcdef.py:30 | the header is the first line, and every later line starts with two spaces (except the empty line of an empty Block) |
| Printer.LineCounts | language/ast/base/block.py:20 | a non-empty Block prints 1 + the lines of its statements; an IfExpr 1 + cond + then + else; a FuncDef or Assign 1 + body or value |
| Printer.EmptyBlock | language/ast/base/block.py:20 | an empty Block renders exactly as `"BLOCK\n"` |
| Printer.ElseText | language/ast/controls/ifexpr.py:31 | a missing else branch prints as Python's `None`, a present one as its node's text |
| Printer.RenderHeader | language/ast/base/block.py:19-20 | a Block, IfExpr, FuncDef or Assign prints its header first, ended by a newline |
| Printer.SingleChildOutline | luma/language/ast/values/assign.py:25 | Assign prints `ASSIGN <repr name>` over the indented value, and FuncDef `FUNC <repr name> <repr params>:` over the indented body |
| Scopes.Chain | interpreter/environement.py:10-16 | a lookup visits the environment, then its parent, and so on up to a root |
| Scopes.Find | lunae/interpreter/environment.py:35-42 | the frame answering a lookup is on the chain and binds the name |
| Scopes.FindNone | lunae/interpreter/environment.py:38-42 | the lookup fails exactly when no frame of the chain binds the name |
| Scopes.FindFirst | lunae/interpreter/environment.py:38-40 | otherwise it answers with the first frame of the chain that binds it |
| Scopes.FindAfterWrite | interpreter/environement.py:18-19 | writing a frame changes no lookup of another name, nor any lookup whose chain does not pass that frame |
| Scopes.NewFrame | interpreter/environement.py:6-8 | a new environment is an empty frame with the given parent, and the older frames are unchanged |
| Scopes.Write | interpreter/environement.py:18-19 | writing binds the name in one frame, keeps its parent and every other frame, and the arena's size |
| Scopes.AncestorChain | interpreter/environement.py:10-16 | a frame never appears on the chain of an older frame, so a lookup from its ancestors never reaches it |
| Scopes.FindSameKeys | lunae/interpreter/environment.py:44-49 | replacing a binding without adding names leaves every lookup answering the same frame |
| Environment.Get | interpreter/environement.py:10-16 | `get` answers the binding of the first frame of the chain that has the name, or NameError(name) when none has it |
| Environment.Set | interpreter/environement.py:18-22 | `set` (and `define`) bind the name in the current frame alone, after which `get` of it answers the value, and the frame's names gain only that name |
| Environment.NewEnvironment | interpreter/environement.py:6-8 | lookups in a new environment are its parent's, and fail without a parent |
| Environment.FindPrefix | interpreter/environement.py:10-16 | creating environments does not change the lookups of existing ones |
| Environment.SetOtherName | interpreter/environement.py:18-19 | `set` changes no other name, seen from any environment |
| Environment.SetShadows | interpreter/environement.py:18-19 | `set` never writes an ancestor: environments whose chain does not pass the current one see no change |
| Environment.SetKeepsParent | interpreter/environement.py:18-19 | in particular the parent keeps its own binding of the name |
| TypedEnvironment.NewBinding | lunae/interpreter/environment.py:18-21 | a Binding is mutable by default |
| TypedEnvironment.Define | lunae/interpreter/environment.py:29-33 | `define` fails with a NameError exactly when this very scope has the name; otherwise it adds the binding here and changes no other scope |
| TypedEnvironment.Resolve | lunae/interpreter/environment.py:35-42 | `resolve` answers the binding of the nearest scope of the chain with the name, or a NameError when none has it |
| TypedEnvironment.Set | lunae/interpreter/environment.py:44-49 | `set` fails when the name is unbound, and fails with TypeError when the binding is immutable; otherwise it replaces the resolved binding's cell without checking its type and creates no name |
| TypedEnvironment.Get | lunae/interpreter/environment.py:51-53 | `get` is the cell of `resolve`, and fails exactly when `resolve` does |
| TypedEnvironment.DefineThenResolve | lunae/interpreter/environment.py:29-42 | a name just defined resolves to its binding and its cell |
| TypedEnvironment.DefineKeepsOthers | lunae/interpreter/environment.py:29-33 | `define` in an inner scope shadows: scopes whose chain does not pass it resolve as before |
| TypedEnvironment.GetAfterSet | lunae/interpreter/environment.py:44-53 | after a successful `set`, `get` answers the new cell |
| TypedEnvironment.SetOtherName | lunae/interpreter/environment.py:44-49 | `set` changes the resolution of no other name, from any scope, as long as no Binding object is shared between names (see "## Left out") |
| TypeSystem.Subscript | lunae/language/typesystem.py:56-68 | subscription fails with TypeError iff the argument count differs from the parameter count; otherwise it keeps name, supertype and each variance and substitutes the arguments in order |
| TypeSystem.Repr | lunae/language/typesystem.py:70-74 | `repr` is the bare name for a type without parameters, and otherwise the name followed by the parameters' reprs, joined by `, `, in brackets |
| TypeSystem.ParamReprs | lunae/language/typesystem.py:72 | one repr per parameter from index `i` on, each the repr of that parameter's type, in order |
| TypeSystem.IsSubtypeOf | lunae/language/typesystem.py:25-54 | the check as written: equal types are related; one name with different parameter counts never is; a yes between different names is the supertype's yes |
| TypeSystem.IsSubtypeOfAllParams | lunae/language/typesystem.py:25-54 | the corrected check keeps the same three facts |
| TypeFacts.AllParamsStricter | lunae/language/typesystem.py:35-48 | whatever the corrected check accepts, the check as written accepts too |
| TypeFacts.ReprSubscript | lunae/language/typesystem.py:56-74 | a subscripted type displays as its name over the reprs of the arguments, in order |
| TypeFacts.PredefinedNames | lunae/language/typesystem.py:89-109 | the eleven predefined types in order; `any` is the root, `int`'s supertype is `float`, every other one's is `any` |
| TypeFacts.TypeReprPlain | lunae/language/typesystem.py:70-74 | a type without parameters displays as its bare name, `int` |
| TypeFacts.TypeReprList | lunae/language/typesystem.py:70-74 | a generic type lists its parameter types in brackets, `list[int]` |
| TypeFacts.TypeReprDict | lunae/language/typesystem.py:70-74 | several parameter types are separated by a comma and a space, `dict[int, float]` |
| TypeFacts.Reflexive | lunae/language/typesystem.py:26-27 | every type is a subtype of itself |
| TypeFacts.ParameterCountMismatch | lunae/language/typesystem.py:29-32 | one name with different parameter counts gives false |
| TypeFacts.FirstPairDecides | lunae/language/typesystem.py:35-48 | one name and equal non-zero counts: the first parameter pair alone decides, under the variance of the left type |
| TypeFacts.ParameterlessSameName | lunae/language/typesystem.py:29-54 | distinct types of one name without parameters are related only through the left type's supertype chain |
| TypeFacts.AllParamsChecked | lunae/language/typesystem.py:35-48 | the corrected check accepts exactly when every parameter pair agrees |
| TypeFacts.SubtypeIsAncestor | lunae/language/typesystem.py:50-54 | when no other ancestor shares the target's name, both checks hold exactly when the target is on the supertype chain |
| TypeFacts.PredefinedBelowAny | lunae/language/typesystem.py:89-109 | every predefined type is below `any`; `int` is below `float` and not the reverse |
| TypeFacts.Subscripted | lunae/language/typesystem.py:56-68 | `list[int]`, `list[float]`, `dict[int, int]`, `dict[int, float]` and `dict[float, int]` are the subscriptions they name |
| TypeFacts.Variances | lunae/language/typesystem.py:38-46 | `list[int]` is below `list[float]` and not the reverse; `dict[int, int]` is not below `dict[float, int]` |
| TypeFacts.FirstPairOnly | lunae/language/typesystem.py:48 | the check as written accepts `dict[int, int]` as a `dict[int, float]`; the corrected check refuses it |
| TypeFacts.SubscriptOwnParams | lunae/language/typesystem.py:56-68 | subscribing a type with its own parameter types gives it back |
| TypeFacts.Resubscript | lunae/language/typesystem.py:56-68 | subscribing again replaces the earlier arguments |
| Interpreter.CreateGlobalEnv | interpreter/interpreter.py:19-39 | the global environment is one root frame binding exactly the ten operator names, each to its builtin |
| InterpreterFacts.GlobalLookups | luma/interpreter/__init__.py:30-56 | looking a name up globally gives its builtin for the ten operator names and NameError for every other name |
| Interpreter.NewInterp | luma/interpreter/__init__.py:71 | the supplied global environment when one is given, else a fresh one |
| Interpreter.Items | interpreter/interpreter.py:208 | a list iterates over its items, a string over its one-character strings, and any other value is not iterable |
| Interpreter.Eval | interpreter/interpreter.py:68-90 | evaluation never changes a frame other than the current one; the current frame keeps its parent and its names only grow |
| Interpreter.EvalArgs | interpreter/interpreter.py:158 | one value per argument, and no frame but the caller's changes |
| Interpreter.Call | interpreter/interpreter.py:225-232 | a call changes no existing frame except through the body's own writes to frames it reaches |
| Interpreter.BindParams | interpreter/interpreter.py:227-228 | binding parameters changes the local frame alone and keeps its parent |
| Interpreter.Loop | interpreter/interpreter.py:190-193 | a `while` loop writes only into the current frame |
| Interpreter.EvalFor | interpreter/interpreter.py:208-210 | one body value per item, written only into the current frame |
| Interpreter.EvalBlock | interpreter/interpreter.py:245-248 | the statements run in the same environment, which alone changes |
| Interpreter.EvalIn | luma/interpreter/__init__.py:102-103 | the environment defaults to the global one |
| InterpreterFacts.EvalInDefault | luma/interpreter/__init__.py:102-103 | without an environment `eval` runs in the global frame, the same as passing the global environment; a given environment is used as it is |
| InterpreterFacts.Leaves | interpreter/interpreter.py:92-129 | Number gives the host's float of its numeral, String its text, Var the nearest binding or NameError; none of them changes the environment |
| InterpreterFacts.AssignBinds | interpreter/interpreter.py:142-144 | Assign evaluates the value, binds it in the current environment, and answers it |
| InterpreterFacts.FuncDefBinds | interpreter/interpreter.py:225-232 | FuncDef binds a closure over the defining environment under its name and answers it |
| InterpreterFacts.CalleeFirst | interpreter/interpreter.py:157-158 | the callee is looked up before any argument is evaluated: an unbound callee fails with NameError whatever the arguments |
| InterpreterFacts.ArgsInOrder | luma/interpreter/__init__.py:177-178 | arguments are evaluated left to right, each in the environment the previous ones left |
| InterpreterFacts.BindParamsZip | interpreter/interpreter.py:226-228 | the local frame holds its earlier bindings updated by `zip(params, args)` |
| InterpreterFacts.ZipMapKeys | interpreter/interpreter.py:227 | `zip` binds the first min(#params, #args) parameters: extra arguments are ignored, missing parameters stay unbound |
| InterpreterFacts.ZipMapValues | interpreter/interpreter.py:227-228 | with distinct parameter names each bound parameter holds its own argument |
| InterpreterFacts.CallFrame | luma/interpreter/__init__.py:245-249 | calling a closure runs its body in a fresh frame whose parent is the defining environment and whose bindings are exactly `zip(params, args)` |
| InterpreterFacts.IfBranches | interpreter/interpreter.py:172-177 | after the condition, the then branch when it is truthy, else the else branch, else None |
| InterpreterFacts.WhileStops | interpreter/interpreter.py:190-193 | a falsy condition ends the loop with the value of the last body run, keeping the condition's effects |
| InterpreterFacts.WhileContinues | interpreter/interpreter.py:190-193 | a truthy condition runs the body in the environment the condition left, then re-checks with the body's value as the last value |
| InterpreterFacts.WhileEntry | interpreter/interpreter.py:190 | `while` starts with None as its value, so a loop that never runs answers None |
| InterpreterFacts.ForResults | interpreter/interpreter.py:206-211 | `for` evaluates the iterable, then the rounds over its items; it answers the list of the round values with the arena the last round left, or the first failing round's error |
| InterpreterFacts.ForRound | interpreter/interpreter.py:208-210 | one round sets the variable to the first item in the current environment, runs the body, and puts its value in front of the results of the rest; a failing body fails the loop |
| InterpreterFacts.ForOne | interpreter/interpreter.py:208-210 | a `for` over one item is one run of the body with the variable set to it |
| InterpreterFacts.ForInOrder | interpreter/interpreter.py:208-210 | the items of `xs + ys` run as those of `xs`, then those of `ys` from the arena `xs` left, with the results concatenated |
| InterpreterFacts.ForItem | interpreter/interpreter.py:206-211 | the `i`-th result is the body's value for the `i`-th item, run from the arena the first `i` items left and leaving the arena the next round starts from |
| InterpreterFacts.LoopEndsFalsy | interpreter/interpreter.py:191 | a `while` that finishes ends on a falsy condition, and the arena that condition leaves is the one the loop answers |
| InterpreterFacts.LoopValue | interpreter/interpreter.py:190-193 | a finished `while` answers its entry value or the value of some run of the body |
| InterpreterFacts.ForBindsVariable | luma/interpreter/__init__.py:228-229 | after a `for` over at least one item, the loop variable stays bound in the current environment |
| InterpreterFacts.BlockInOrder | interpreter/interpreter.py:246-247 | the statements of a block run in order, each from where the previous one left off |
| InterpreterFacts.BlockValues | luma/interpreter/__init__.py:265-268 | an empty block answers None; a one-statement block answers that statement |
| InterpreterFacts.NoFuel | interpreter/interpreter.py:68 | without fuel nothing is evaluated |
| InterpreterFacts.EvalFuel | interpreter/interpreter.py:68-90 | an evaluation that does not run out of fuel gives the same value, arena or error with any larger fuel, so the bound only cuts off evaluations that would not finish within it |
| InterpreterFacts.LoopFuel | interpreter/interpreter.py:190-193 | the same for the rounds of a `while` |

## Left out

- The tokenizer (`tokenize`, token positions as text). Tokens arrive as a list with opaque positions. The tokenizer package is not part of this model.
- Literal token values. The top-level `parse_number` and the luma one both read `token.number_value`, and the luma `parse_string` reads `token.string_value`; the luma token class is not part of this model. The top-level `parse_string` reads `Token.value` (tokenizer/token.py:29-49), whose `unicode_escape` decoding is not modelled: a String node keeps the text between the quotes undecoded. The Number node keeps its lexeme, and the host's `numeral` function turns it into a value, as `float()` of `Token.value` would.
- The operator functions' arithmetic, comparison and negation, and Python truthiness, which are float and object semantics of the host. The evaluator takes them as the `Host` parameters `builtin` and `truthy`.
- Python's error messages and `SourceError` position rendering. Errors carry their kind, the offending token or name, and the span.
- `repl.py`, `repl/__init__.py`, `main.py`, `Interpreter.execute` and the module-level `execute`: these are I/O and the tokenizer pipeline.
- luma/interpreter/environement.py is not part of this model. The untyped environment of interpreter/environement.py stands for it.
- parser/parsers/controls/forexpr.py is not part of this model. The `for` parser follows the luma copy.
- The `__str__` of Number, String, Var, FuncCall, WhileExpr and ForExpr: their files are not part of this model. `Printer.Render` takes their text as a parameter `leaf`.
- Python's float `repr`, `Variance.__repr__`, and `repr` of non-printable characters. Names are identifiers, and only the escapes `\\`, `\'`, `\n`, `\r`, `\t` are modelled.
- `Type.__getitem__` with a single non-tuple argument: it is wrapped into a tuple in Python. `TypeSystem.Subscript` always takes a sequence of arguments.
- `Type.__hash__`: it does not affect any result.
- The identity of `Binding` objects. `set` assigns `binding.cell` in place (lunae/interpreter/environment.py:44-49), and `define` stores the Binding object it is given (lines 29-33). The model writes a new binding into the one frame that resolves the name. The two agree only while no Binding object is defined under two names or in two scopes: with a shared Binding, Python's `set` is seen through every alias, and TypedEnvironment.Set and TypedEnvironment.SetOtherName do not reflect that.
- Interpreter.Eval: contract states frame preservation (which frames may change), not a full functional specification; the per-construct behaviour is stated by the InterpreterFacts lemmas.
- Interpreter.Call: a closure whose defining frame is not in the arena fails with DanglingScope. Python's references rule this case out, so it has no counterpart in the source.
- Interpreter.Eval: the `fuel` bound turns non-terminating loops and recursion into `OutOfFuel` and limits evaluation depth, where Python would loop forever or exhaust its stack.
- Unknown node classes (`InterpreterError`) cannot arise: the node datatype is closed.
- The ten operator functions returned as Python callables and closures as Python functions: values are `Builtin(op)` and `Closure(...)`, and calling anything else fails with NotCallable.
- The identity of Python function objects. Every evaluation of a definition creates a new `function` (interpreter/interpreter.py:225-232), and `is` compares with `==` (line 25), which for functions is identity. In the model a closure is plain data, so two definitions with the same name, parameters, body and defining environment give one and the same value, and `is` cannot tell them apart: after `func f(): 1`, `a = f`, `func f(): 1`, Python answers False for `is(a, f)` where the model's values are equal.
- Parser.ParseParams: its own contract states only progress; the accepted language is stated by ParserFacts.ParamsSound and ParserFacts.ParamsComplete.
- Parser.ParseArgs: its own contract states only progress; the accepted language is stated by ParserLists.ArgsAccepted.
- Parser.ParseBlockBody: its own contract states only progress; the accepted language is stated by ParserLists.BodyAccepted.
- Parser.ParseProgramBody: its own contract states only that it consumes every token; the accepted language is stated by ParserLists.ProgramComplete, ParserLists.ProgramSound and ParserLists.ParseAccepted.
- Parser.ParseBinary: its own contract states only progress; the trees are stated by ParserFacts.LoopFolds and its neighbours, and for a chain of one priority by ParserLists.ChainNesting. No lemma gives the tree of a chain that mixes priorities in general.
- Parser.ParseUnary: its own contract states only progress; the tree is stated by ParserLists.UnaryRun.
- Interpreter.EvalFor: its own contract states the length of the result and which frames change; the contents are stated by InterpreterFacts.ForItem and InterpreterFacts.ForInOrder.
- Parser.ParseBlock: its own contract states only progress; the three block forms are stated by ParserFacts.IndentedBlock, ParserFacts.InlineBlock and ParserFacts.SingleStatementBlock.
- Parser.ParseStatement: its own contract states progress, the first token and the kind of node; the statement forms are stated by ParserFacts.StatementSound and ParserFacts.StatementKinds.
- Parser.ParseExpr: its own contract states progress, the first token and the kind of node; the two forms are stated by ParserFacts.ExprSound, ParserFacts.AssignmentExpr and ParserFacts.BinaryExpr.
- Parser.ParseAssign: its own contract states progress and the assigned name; the value is stated by ParserFacts.AssignmentExpr.
- Parser.BinaryLoop: its own contract states the cursor and the shape of the result; the folding is stated by ParserFacts.LoopStops, ParserFacts.LoopUnknownOperator, ParserFacts.LoopBelowMinimum, ParserFacts.LoopFolds and ParserFacts.LoopFailure.
- Parser.ParsePrimary: its own contract states progress, the first token and the kind of node; the forms are stated by ParserFacts.PrimarySound with the per-form lemmas AtomOperand, Parenthesised, ControlDispatch, NameCall and UnexpectedTokenKind.
- Parser.ParseVar: its own contract states the name and the kind of node; the call form is stated by ParserFacts.NameCall and the bare name by ParserFacts.AtomOperand.
- Parser.ParseFuncCall: its own contract states progress and the called name; the arguments are stated by ParserFacts.CallEmptyStep, ParserFacts.CallStep and ParserFacts.CallSound.
- Parser.ParseFuncHeader: its own contract states progress and the defined name; the parameter list and the COLON are stated by ParserFacts.FuncHeaderSound and ParserFacts.FuncHeaderEmpty.
- Parser.ParseFuncDef: its own contract states progress and the defined name; the parameters and body are stated by ParserFacts.FuncDefEmptyStep, ParserFacts.FuncDefStep and ParserFacts.FuncDefSound.
- Parser.ParseIf: its own contract states progress and the kind of node; the parts are stated by ParserFacts.IfStep, ParserFacts.IfElseStep and ParserFacts.IfSound.
- Parser.ParseWhile: its own contract states progress and the kind of node; the parts are stated by ParserFacts.WhileStep and ParserFacts.WhileSound.
- Parser.ParseFor: its own contract states progress, the kind of node and the variable; the iterable and body are stated by ParserFacts.ForStep and ParserFacts.ForSound.
- Parser.Parse: its own contract states only that the result is a Block; the accepted programs and their statements are stated by ParserLists.ParseAccepted.
- Indentation.Split: its own contract states the count and that no line holds a newline; that the lines are the text cut at each newline is stated by Indentation.JoinSplit, Indentation.SplitJoin and Indentation.SplitAtNewline.
- Indentation.Join: its own contract states the empty case and the first text; the whole result is stated by Indentation.JoinCons.
- Indentation.Indent: its own contract states the prefix at the start and the empty case; every line is stated by Indentation.IndentLines and Indentation.IndentShape.
- Printer.Repr: its own contract states one line between matching quotes; that it reads back as the string is stated by Printer.ReprRoundTrip, and the plain case by Printer.ReprPlain. The choice of quote is stated only by the definition.
- Printer.ReprList: its own contract states the brackets; the items are stated by Printer.ReprListJoin.
- Scopes.Find: its own contract states that the answer is on the chain and binds the name; that it is the first such frame, and that it fails only when none binds it, is stated by Scopes.FindFirst and Scopes.FindNone.
- Interpreter.EvalArgs: its own contract states the number of values and which frames change; the order and the values are stated by InterpreterFacts.ArgsInOrder.
- Interpreter.Call: its own contract states which frames change; the frame a closure's body runs in is stated by InterpreterFacts.CallFrame.
- Interpreter.BindParams: its own contract states which frame changes; its bindings are stated by InterpreterFacts.BindParamsZip.
- Interpreter.Loop: its own contract states which frames change; the rounds are stated by InterpreterFacts.WhileStops, InterpreterFacts.WhileContinues, InterpreterFacts.LoopEndsFalsy and InterpreterFacts.LoopValue.
- Interpreter.EvalBlock: its own contract states which frames change; the order and the value are stated by InterpreterFacts.BlockInOrder and InterpreterFacts.BlockValues.
- Interpreter.EvalIn: its own contract states which frames change; the defaulting of the environment is stated by InterpreterFacts.EvalInDefault.

## Findings

| source | as written | input that shows it | evidently intended | confidence | as-written member | corrected member |
|---|---|---|---|---|---|---|
| parser/parsers/values/number.py:22 | `parse_number` reads `token.number_value`, but the token class of tokenizer/token.py defines only `value` (lines 29-49) | any NUMBER token, such as the program `1`: the attribute lookup raises AttributeError | the numeric value, `token.value`, as `parse_string` reads it | medium, not executed | Parser.ParseNumberAsWritten, with ParserFacts.NumberValueMissing | Parser.ParseNumber |
| lunae/language/typesystem.py:48 | `return True` sits inside the parameter loop, so after the first pair agrees the remaining pairs are never examined | `dict[int, int]` against `dict[int, float]`: the first pair is equal, and the check answers true although the second (invariant) pair differs | every parameter pair checked, `return True` after the loop | high, not executed | TypeFacts.FirstPairOnly (on TypeSystem.IsSubtypeOf) | TypeSystem.IsSubtypeOfAllParams, with TypeFacts.AllParamsChecked |
