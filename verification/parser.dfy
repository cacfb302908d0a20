/** The recursive-descent parser: statement -> expr -> binary -> unary ->
    primary -> (parenthesised expr | control construct -> block -> statement).

    Every function takes the reader at its current position and returns the
    node together with the advanced reader, or the error that aborts the whole
    parse. Termination: every re-entry at the same position goes to a function
    of lower rank (the second component of each `decreases`), and every other
    re-entry happens after at least one token has been consumed. */
module Parser {
  import opened Wrappers
  import opened Tokens
  import opened Syntax
  import opened TokenReader
  import opened Ast

  type PResult<T> = Result<(T, Reader), Error>

  /** On success at least one token was consumed and the cursor is still
      within the token list. */
  ghost predicate Progress<T>(r: Reader, res: PResult<T>) {
    res.Ok? ==> Advanced(r, res.value.1)
  }

  /** The keyword table of control constructs. */
  datatype Control = IfControl | WhileControl | ForControl

  const ControlExpressions: map<string, Control> :=
    map["for" := ForControl, "if" := IfControl, "while" := WhileControl]

  const Func: Option<string> := Some("func")

  /** The token kinds an operand can begin with. */
  predicate StartsOperand(k: TokenKind) {
    k in {NUMBER, STRING, IDENT, LPAREN, KEYWORD}
  }

  /** The token kinds an expression can begin with: an operand or a prefix
      operator. */
  predicate StartsExpression(k: TokenKind) {
    StartsOperand(k) || k == OP
  }

  // ----- literals and names -------------------------------------------------

  function ParseNumber(r: Reader): (res: PResult<Node>)
    ensures res.Ok? <==> r.pos < |r.tokens| && r.tokens[r.pos].kind == NUMBER
    ensures res.Ok? ==> res.value == (Number(r.tokens[r.pos].lexeme), Skip(r))
    ensures res.Err? ==> res.error == Expect(r, NUMBER, None).error
  {
    var (t, r1) :- Expect(r, NUMBER, None);
    Ok((Number(t.lexeme), r1))
  }

  /** The top-level parse_number as written: after `expect` it reads the
      token's `number_value`, an attribute the top-level token class does not
      define, so every NUMBER raises an AttributeError. ParseNumber is the
      intended behaviour and the one the parser uses. */
  function ParseNumberAsWritten(r: Reader): (res: PResult<Node>)
    ensures res.Err?
    ensures r.pos < |r.tokens| && r.tokens[r.pos].kind == NUMBER ==> res.error == AttributeError("number_value")
    ensures !(r.pos < |r.tokens| && r.tokens[r.pos].kind == NUMBER) ==> res.error == Expect(r, NUMBER, None).error
  {
    var (_, _) :- Expect(r, NUMBER, None);
    Err(AttributeError("number_value"))
  }

  function ParseString(r: Reader): (res: PResult<Node>)
    ensures res.Ok? <==> r.pos < |r.tokens| && r.tokens[r.pos].kind == STRING
    ensures res.Ok? ==> res.value == (Str(Unquote(r.tokens[r.pos].lexeme)), Skip(r))
    ensures res.Err? ==> res.error == Expect(r, STRING, None).error
  {
    var (t, r1) :- Expect(r, STRING, None);
    Ok((Str(Unquote(t.lexeme)), r1))
  }

  /** Function-definition parameters after the opening parenthesis: IDENT
      lexemes separated by COMMA and closed by RPAREN. */
  function ParseParams(r: Reader): (res: PResult<seq<string>>)
    ensures Progress(r, res)
    decreases Remaining(r)
  {
    var (name, r1) :- Expect(r, IDENT, None);
    var (close, r2) := Match(r1, RPAREN, None);
    if close.Some? then Ok(([name.lexeme], r2))
    else
      var (_, r3) :- Expect(r1, COMMA, None);
      var (rest, r4) :- ParseParams(r3);
      Ok(([name.lexeme] + rest, r4))
  }

  // ----- the mutually recursive core ----------------------------------------

  /** parse_block: an indented block (NEWLINE INDENT statements DEDENT, a
      single statement returned bare) or a single-line expression. */
  function ParseBlock(r: Reader): (res: PResult<Node>)
    ensures Progress(r, res)
    decreases Remaining(r), 6
  {
    var (nl, r1) := Match(r, NEWLINE, None);
    if nl.Some? && IsFollowed(r1, INDENT, None, 0) then
      // expect(INDENT) cannot fail here: the INDENT was just seen
      var r2 := Skip(r1);
      var (statements, r3) :- ParseBlockBody(r2);
      if |statements| == 1 then Ok((statements[0], r3)) else Ok((Block(statements), r3))
    else
      var (e, r2) :- ParseExpr(r1);
      var (_, r3) := Match(r2, NEWLINE, None);
      Ok((e, r3))
  }

  /** The statements of an indented block up to and including its DEDENT;
      blank NEWLINEs in between are skipped. */
  function ParseBlockBody(r: Reader): (res: PResult<seq<Node>>)
    ensures Progress(r, res)
    decreases Remaining(r), 7
  {
    var (dedent, r1) := Match(r, DEDENT, None);
    if dedent.Some? then Ok(([], r1))
    else
      var (nl, r2) := Match(r, NEWLINE, None);
      if nl.Some? then ParseBlockBody(r2)
      else
        var (s, r3) :- ParseStatement(r);
        var (rest, r4) :- ParseBlockBody(r3);
        Ok(([s] + rest, r4))
  }

  /** parse_statement: a function definition when the current token is the
      keyword `func`, otherwise an expression and at most one NEWLINE. */
  function ParseStatement(r: Reader): (res: PResult<Node>)
    ensures Progress(r, res)
    ensures res.Ok? ==> r.pos < |r.tokens| && StartsExpression(r.tokens[r.pos].kind)
    ensures res.Ok? && IsFollowed(r, KEYWORD, Func, 0) ==> res.value.0.FuncDef?
    ensures res.Ok? && !IsFollowed(r, KEYWORD, Func, 0) ==> IsExpr(res.value.0, Luma)
    decreases Remaining(r), 6
  {
    if IsFollowed(r, KEYWORD, Func, 0) then ParseFuncDef(r)
    else
      var (e, r1) :- ParseExpr(r);
      var (_, r2) := Match(r1, NEWLINE, None);
      Ok((e, r2))
  }

  /** parse_expr: IDENT directly followed by ASSIGN starts an assignment;
      anything else is a binary expression at minimum precedence 0. */
  function ParseExpr(r: Reader): (res: PResult<Node>)
    ensures Progress(r, res)
    ensures res.Ok? ==> r.pos < |r.tokens| && StartsExpression(r.tokens[r.pos].kind)
    ensures res.Ok? ==> IsExpr(res.value.0, Luma)
    ensures res.Ok? && IsFollowed(r, IDENT, None, 0) && IsFollowed(r, ASSIGN, None, 1) ==>
      res.value.0.Assign? && res.value.0.name == r.tokens[r.pos].lexeme
    decreases Remaining(r), 5
  {
    if IsFollowed(r, IDENT, None, 0) && IsFollowed(r, ASSIGN, None, 1) then ParseAssign(r)
    else ParseBinary(r, 0)
  }

  function ParseAssign(r: Reader): (res: PResult<Node>)
    ensures Progress(r, res)
    ensures res.Ok? ==> r.pos < |r.tokens| && res.value.0.Assign? && res.value.0.name == r.tokens[r.pos].lexeme
    decreases Remaining(r), 1
  {
    var (name, r1) :- Expect(r, IDENT, None);
    var (_, r2) :- Expect(r1, ASSIGN, None);
    var (value, r3) :- ParseExpr(r2);
    Ok((Assign(name.lexeme, value), r3))
  }

  /** parse_binary: one unary operand, then the operator loop. */
  function ParseBinary(r: Reader, minPrec: int): (res: PResult<Node>)
    ensures Progress(r, res)
    ensures res.Ok? ==> r.pos < |r.tokens| && StartsExpression(r.tokens[r.pos].kind)
    ensures res.Ok? ==> IsExpr(res.value.0, Luma)
    decreases Remaining(r), 4
  {
    var (left, r1) :- ParseUnary(r);
    BinaryLoop(left, r1, minPrec)
  }

  /** The `while True` loop of parse_binary. It stops, consuming nothing, at
      end of input, at a non-OP token or at an operator whose priority is
      below `minPrec`; an OP lexeme that is not a binary operator raises a
      KeyError. The right operand is parsed at `minPrec + 1`. */
  function BinaryLoop(left: Node, r: Reader, minPrec: int): (res: PResult<Node>)
    ensures res.Ok? ==> res.value.1.tokens == r.tokens && r.pos <= res.value.1.pos
    ensures res.Ok? && res.value.1.pos != r.pos ==> res.value.1.pos <= |r.tokens|
    ensures res.Ok? ==> (res.value.0 == left && res.value.1 == r) || res.value.0.FuncCall?
    decreases Remaining(r), 1
  {
    var t := Peek(r, 0);
    if t.None? || t.value.kind != OP then Ok((left, r))
    else if t.value.lexeme !in BinaryOperators then Err(KeyError(t.value.lexeme))
    else
      var op := BinaryOperators[t.value.lexeme];
      if op.priority < minPrec then Ok((left, r))
      else
        var (right, r2) :- ParseBinary(Skip(r), minPrec + 1);
        BinaryLoop(FuncCall(op.func, [left, right]), r2, minPrec)
  }

  /** parse_unary: a prefix `-` or `!` applies to another unary operand. */
  function ParseUnary(r: Reader): (res: PResult<Node>)
    ensures Progress(r, res)
    ensures res.Ok? ==> r.pos < |r.tokens| && StartsExpression(r.tokens[r.pos].kind)
    ensures res.Ok? ==> IsExpr(res.value.0, Luma)
    decreases Remaining(r), 3
  {
    var t := Peek(r, 0);
    if t.Some? && t.value.kind == OP && t.value.lexeme in UnaryOperators then
      var op := UnaryOperators[t.value.lexeme];
      var (operand, r1) :- ParseUnary(Skip(r));
      Ok((FuncCall(op.func, [operand]), r1))
    else ParsePrimary(r)
  }

  /** parse_primary: dispatch on the kind of the current token. */
  function ParsePrimary(r: Reader): (res: PResult<Node>)
    ensures Progress(r, res)
    ensures res.Ok? ==> r.pos < |r.tokens| && StartsOperand(r.tokens[r.pos].kind)
    ensures res.Ok? ==> IsExpr(res.value.0, Luma)
    decreases Remaining(r), 2
  {
    match Peek(r, 0)
    case None => Err(ParserError(UnexpectedEof, None, None))
    case Some(t) =>
      if t.kind == NUMBER then ParseNumber(r)
      else if t.kind == STRING then ParseString(r)
      else if t.kind == IDENT then ParseVar(r)
      else if t.kind == LPAREN then
        var (_, r1) :- Expect(r, LPAREN, None);
        var (e, r2) :- ParseExpr(r1);
        var (_, r3) :- Expect(r2, RPAREN, None);
        Ok((e, r3))
      else if t.kind == KEYWORD then
        if t.lexeme !in ControlExpressions then
          Err(ParserError(UnexpectedKeyword(t.lexeme), Some(t.start), Some(t.end)))
        else
          match ControlExpressions[t.lexeme]
          case IfControl => ParseIf(r)
          case WhileControl => ParseWhile(r)
          case ForControl => ParseFor(r)
      else Err(ParserError(UnexpectedToken(t.kind, t.lexeme), Some(t.start), Some(t.end)))
  }

  /** parse_var: an IDENT, and a call when LPAREN follows it. */
  function ParseVar(r: Reader): (res: PResult<Node>)
    ensures Progress(r, res)
    ensures res.Ok? ==> r.pos < |r.tokens|
    ensures res.Ok? ==>
      (res.value.0 == Var(r.tokens[r.pos].lexeme) && res.value.1 == Skip(r)) ||
      (res.value.0.FuncCall? && res.value.0.func == r.tokens[r.pos].lexeme)
    decreases Remaining(r), 1
  {
    var (name, r1) :- Expect(r, IDENT, None);
    if IsFollowed(r1, LPAREN, None, 0) then ParseFuncCall(r1, name.lexeme)
    else Ok((Var(name.lexeme), r1))
  }

  /** parse_func_call: a parenthesised, comma-separated, possibly empty
      argument list. */
  function ParseFuncCall(r: Reader, name: string): (res: PResult<Node>)
    ensures Progress(r, res)
    ensures res.Ok? ==> res.value.0.FuncCall? && res.value.0.func == name
    decreases Remaining(r), 1
  {
    var (_, r1) :- Expect(r, LPAREN, None);
    var (close, r2) := Match(r1, RPAREN, None);
    if close.Some? then Ok((FuncCall(name, []), r2))
    else
      var (args, r3) :- ParseArgs(r1);
      Ok((FuncCall(name, args), r3))
  }

  /** The argument loop of parse_func_call: expressions separated by COMMA,
      closed by RPAREN. */
  function ParseArgs(r: Reader): (res: PResult<seq<Node>>)
    ensures Progress(r, res)
    decreases Remaining(r), 6
  {
    var (e, r1) :- ParseExpr(r);
    var (close, r2) := Match(r1, RPAREN, None);
    if close.Some? then Ok(([e], r2))
    else
      var (_, r3) :- Expect(r1, COMMA, None);
      var (rest, r4) :- ParseArgs(r3);
      Ok(([e] + rest, r4))
  }

  /** parse_func_def: `func NAME ( PARAMS ) : BLOCK`. */
  function ParseFuncDef(r: Reader): (res: PResult<Node>)
    ensures Progress(r, res)
    ensures res.Ok? ==> r.pos + 1 < |r.tokens| && res.value.0.FuncDef? && res.value.0.name == r.tokens[r.pos + 1].lexeme
    decreases Remaining(r), 1
  {
    var (header, r6) :- ParseFuncHeader(r);
    var (body, r7) :- ParseBlock(r6);
    Ok((FuncDef(header.0, header.1, body), r7))
  }

  /** The part of parse_func_def before the body: `func NAME ( PARAMS ) :`,
      giving the name and the parameter names. */
  function ParseFuncHeader(r: Reader): (res: PResult<(string, seq<string>)>)
    ensures Progress(r, res)
    ensures res.Ok? ==> r.pos + 1 < |r.tokens| && res.value.0.0 == r.tokens[r.pos + 1].lexeme
  {
    var (_, r1) :- Expect(r, KEYWORD, Func);
    var (name, r2) :- Expect(r1, IDENT, None);
    var (_, r3) :- Expect(r2, LPAREN, None);
    var (params, r5) :- ParseParamList(r3);
    var (_, r6) :- Expect(r5, COLON, None);
    Ok(((name.lexeme, params), r6))
  }

  /** The parameter list after `(`: an immediate `)` is the empty list,
      anything else goes to parse_params. */
  function ParseParamList(r: Reader): (res: PResult<seq<string>>)
    ensures Progress(r, res)
    ensures IsFollowed(r, RPAREN, None, 0) ==> res == Ok(([], Skip(r)))
    ensures !IsFollowed(r, RPAREN, None, 0) ==> res == ParseParams(r)
  {
    var (close, r1) := Match(r, RPAREN, None);
    if close.Some? then Ok(([], r1)) else ParseParams(r)
  }

  /** parse_if_expr: `if COND : BLOCK [else : BLOCK]`. */
  function ParseIf(r: Reader): (res: PResult<Node>)
    ensures Progress(r, res)
    ensures res.Ok? ==> res.value.0.IfExpr?
    decreases Remaining(r), 1
  {
    var (_, r1) :- Expect(r, KEYWORD, Some("if"));
    var (cond, r2) :- ParseExpr(r1);
    var (_, r3) :- Expect(r2, COLON, None);
    var (thenBranch, r4) :- ParseBlock(r3);
    var (els, r5) := Match(r4, KEYWORD, Some("else"));
    if els.None? then Ok((IfExpr(cond, thenBranch, None), r4))
    else
      var (_, r6) :- Expect(r5, COLON, None);
      var (elseBranch, r7) :- ParseBlock(r6);
      Ok((IfExpr(cond, thenBranch, Some(elseBranch)), r7))
  }

  /** parse_while_expr: `while COND : BLOCK`. */
  function ParseWhile(r: Reader): (res: PResult<Node>)
    ensures Progress(r, res)
    ensures res.Ok? ==> res.value.0.WhileExpr?
    decreases Remaining(r), 1
  {
    var (_, r1) :- Expect(r, KEYWORD, Some("while"));
    var (cond, r2) :- ParseExpr(r1);
    var (_, r3) :- Expect(r2, COLON, None);
    var (body, r4) :- ParseBlock(r3);
    Ok((WhileExpr(cond, body), r4))
  }

  /** parse_for_expr: `for NAME in ITERABLE : BLOCK`. */
  function ParseFor(r: Reader): (res: PResult<Node>)
    ensures Progress(r, res)
    ensures res.Ok? ==> r.pos + 1 < |r.tokens| && res.value.0.ForExpr? && res.value.0.variable == r.tokens[r.pos + 1].lexeme
    decreases Remaining(r), 1
  {
    var (_, r1) :- Expect(r, KEYWORD, Some("for"));
    var (name, r2) :- Expect(r1, IDENT, None);
    var (_, r3) :- Expect(r2, KEYWORD, Some("in"));
    var (iterable, r4) :- ParseExpr(r3);
    var (_, r5) :- Expect(r4, COLON, None);
    var (body, r6) :- ParseBlock(r5);
    Ok((ForExpr(name.lexeme, iterable, body), r6))
  }

  // ----- the whole program --------------------------------------------------

  /** The loop of parse_reader: statements until the tokens run out, blank
      NEWLINEs skipped. */
  function ParseProgramBody(r: Reader): (res: PResult<seq<Node>>)
    ensures res.Ok? ==> res.value.1.tokens == r.tokens
    ensures res.Ok? && r.pos <= |r.tokens| ==> res.value.1.pos == |r.tokens|
    decreases Remaining(r)
  {
    if Peek(r, 0).None? then Ok(([], r))
    else
      var (nl, r1) := Match(r, NEWLINE, None);
      if nl.Some? then ParseProgramBody(r1)
      else
        var (s, r2) :- ParseStatement(r);
        var (rest, r3) :- ParseProgramBody(r2);
        Ok(([s] + rest, r3))
  }

  /** parse / parse_reader: the whole token list as one Block, read from
      index 0. */
  function Parse(tokens: seq<Token>): (res: Result<Node, Error>)
    ensures res.Ok? ==> res.value.Block?
  {
    var (statements, _) :- ParseProgramBody(Reader(tokens, 0));
    Ok(Block(statements))
  }
}
