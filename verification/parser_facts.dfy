/** Properties of the parser: the individual steps of each parsing routine,
    the trees produced for representative inputs (operator precedence and
    associativity, assignment chains, calls, control constructs, blocks) and
    the error raised for representative malformed inputs. */
module ParserFacts {
  import opened Wrappers
  import opened Tokens
  import opened Syntax
  import opened TokenReader
  import opened Ast
  import opened Parser

  /** The kinds of a token list, in order. */
  function Kinds(ts: seq<Token>): (ks: seq<TokenKind>)
    ensures |ks| == |ts| && forall i :: 0 <= i < |ts| ==> ks[i] == ts[i].kind
  {
    seq(|ts|, i requires 0 <= i < |ts| => ts[i].kind)
  }

  /** The lexemes of a token list, in order. */
  function Lexemes(ts: seq<Token>): (ls: seq<string>)
    ensures |ls| == |ts| && forall i :: 0 <= i < |ts| ==> ls[i] == ts[i].lexeme
  {
    seq(|ts|, i requires 0 <= i < |ts| => ts[i].lexeme)
  }

  /** The kind and lexeme of the token at `i`, read back from the two lists. */
  lemma TokenAt(ts: seq<Token>, i: nat)
    requires i < |ts|
    ensures ts[i].kind == Kinds(ts)[i] && ts[i].lexeme == Lexemes(ts)[i]
  {
  }

  /** The same for every token of a short list. */
  lemma TokensAt(ts: seq<Token>, n: nat)
    requires n <= |ts| <= 8
    ensures n > 0 ==> ts[0].kind == Kinds(ts)[0] && ts[0].lexeme == Lexemes(ts)[0]
    ensures n > 1 ==> ts[1].kind == Kinds(ts)[1] && ts[1].lexeme == Lexemes(ts)[1]
    ensures n > 2 ==> ts[2].kind == Kinds(ts)[2] && ts[2].lexeme == Lexemes(ts)[2]
    ensures n > 3 ==> ts[3].kind == Kinds(ts)[3] && ts[3].lexeme == Lexemes(ts)[3]
    ensures n > 4 ==> ts[4].kind == Kinds(ts)[4] && ts[4].lexeme == Lexemes(ts)[4]
    ensures n > 5 ==> ts[5].kind == Kinds(ts)[5] && ts[5].lexeme == Lexemes(ts)[5]
    ensures n > 6 ==> ts[6].kind == Kinds(ts)[6] && ts[6].lexeme == Lexemes(ts)[6]
    ensures n > 7 ==> ts[7].kind == Kinds(ts)[7] && ts[7].lexeme == Lexemes(ts)[7]
  {
  }

  // ----- operands ------------------------------------------------------------

  /** The leaf a NUMBER or IDENT token denotes when it stands alone. */
  function Atom(t: Token): Node {
    if t.kind == NUMBER then Number(t.lexeme) else Var(t.lexeme)
  }

  /** A NUMBER, or an IDENT not followed by `(`, is a complete operand. */
  predicate AtomAt(r: Reader) {
    r.pos < |r.tokens|
    && (r.tokens[r.pos].kind == NUMBER
        || (r.tokens[r.pos].kind == IDENT && !IsFollowed(r, LPAREN, None, 1)))
  }

  lemma AtomOperand(r: Reader)
    requires AtomAt(r)
    ensures ParseUnary(r) == Ok((Atom(r.tokens[r.pos]), Skip(r)))
  {
    if r.tokens[r.pos].kind == IDENT {
      assert ParseVar(r) == Ok((Var(r.tokens[r.pos].lexeme), Skip(r)));
    }
    assert ParsePrimary(r) == Ok((Atom(r.tokens[r.pos]), Skip(r)));
  }

  /** An atom followed by anything but an OP is a whole binary expression at
      any minimum precedence. */
  lemma AtomBinary(r: Reader, minPrec: int)
    requires AtomAt(r)
    requires !IsFollowed(r, OP, None, 1)
    ensures ParseBinary(r, minPrec) == Ok((Atom(r.tokens[r.pos]), Skip(r)))
  {
    AtomOperand(r);
  }

  /** ... and a whole expression, unless it is the target of an assignment. */
  lemma AtomExpr(r: Reader)
    requires AtomAt(r)
    requires !IsFollowed(r, OP, None, 1) && !IsFollowed(r, ASSIGN, None, 1)
    ensures ParseExpr(r) == Ok((Atom(r.tokens[r.pos]), Skip(r)))
  {
    AtomBinary(r, 0);
  }

  /** The operator loop starts after the first operand. */
  lemma BinaryAfterOperand(r: Reader, minPrec: int, left: Node, r1: Reader)
    requires ParseUnary(r) == Ok((left, r1))
    ensures ParseBinary(r, minPrec) == BinaryLoop(left, r1, minPrec)
  {
  }

  /** A prefix operator applies to the unary operand that follows it. */
  lemma UnaryPrefix(r: Reader, operand: Node, r1: Reader)
    requires r.pos < |r.tokens| && r.tokens[r.pos].kind == OP
    requires r.tokens[r.pos].lexeme in UnaryOperators
    requires ParseUnary(Skip(r)) == Ok((operand, r1))
    ensures ParseUnary(r) == Ok((FuncCall(UnaryOperators[r.tokens[r.pos].lexeme].func, [operand]), r1))
  {
  }

  /** An OP that is not a prefix operator cannot start an operand: it is an
      unexpected token for parse_primary. */
  lemma UnaryRejectsOtherOperators(r: Reader)
    requires r.pos < |r.tokens| && r.tokens[r.pos].kind == OP
    requires r.tokens[r.pos].lexeme !in UnaryOperators
    ensures ParseUnary(r) == Err(ParserError(UnexpectedToken(OP, r.tokens[r.pos].lexeme),
                                             Some(r.tokens[r.pos].start), Some(r.tokens[r.pos].end)))
  {
  }

  // ----- the operator loop ---------------------------------------------------

  /** The loop ends, consuming nothing, at end of input or at a non-OP token. */
  lemma LoopStops(left: Node, r: Reader, minPrec: int)
    requires r.pos >= |r.tokens| || r.tokens[r.pos].kind != OP
    ensures BinaryLoop(left, r, minPrec) == Ok((left, r))
  {
  }

  /** An OP lexeme in operator position that is not a binary operator raises
      a KeyError (the lookup in BINARY_OPERATORS). */
  lemma LoopUnknownOperator(left: Node, r: Reader, minPrec: int)
    requires r.pos < |r.tokens| && r.tokens[r.pos].kind == OP
    requires r.tokens[r.pos].lexeme !in BinaryOperators
    ensures BinaryLoop(left, r, minPrec) == Err(KeyError(r.tokens[r.pos].lexeme))
  {
  }

  /** An operator below the minimum precedence ends the loop unconsumed. */
  lemma LoopBelowMinimum(left: Node, r: Reader, minPrec: int)
    requires r.pos < |r.tokens| && r.tokens[r.pos].kind == OP
    requires r.tokens[r.pos].lexeme in BinaryOperators
    requires BinaryOperators[r.tokens[r.pos].lexeme].priority < minPrec
    ensures BinaryLoop(left, r, minPrec) == Ok((left, r))
  {
  }

  /** Otherwise the operator is consumed, the right operand is parsed at
      `minPrec + 1` and the loop continues with the combined call. */
  lemma LoopFolds(left: Node, r: Reader, minPrec: int, right: Node, r2: Reader)
    requires r.pos < |r.tokens| && r.tokens[r.pos].kind == OP
    requires r.tokens[r.pos].lexeme in BinaryOperators
    requires BinaryOperators[r.tokens[r.pos].lexeme].priority >= minPrec
    requires ParseBinary(Skip(r), minPrec + 1) == Ok((right, r2))
    ensures BinaryLoop(left, r, minPrec) ==
            BinaryLoop(FuncCall(BinaryOperators[r.tokens[r.pos].lexeme].func, [left, right]), r2, minPrec)
  {
  }

  /** A right operand that fails fails the loop with its error. */
  lemma LoopFailure(left: Node, r: Reader, minPrec: int)
    requires r.pos < |r.tokens| && r.tokens[r.pos].kind == OP
    requires r.tokens[r.pos].lexeme in BinaryOperators
    requires BinaryOperators[r.tokens[r.pos].lexeme].priority >= minPrec
    requires ParseBinary(Skip(r), minPrec + 1).Err?
    ensures BinaryLoop(left, r, minPrec) == ParseBinary(Skip(r), minPrec + 1)
  {
  }

  /** Above the highest priority (2) no operator is ever consumed: the result
      is the single unary operand, or the KeyError of an unknown OP lexeme. */
  lemma HighPrecedenceSingleOperand(r: Reader, minPrec: int)
    requires minPrec >= 3
    ensures ParseBinary(r, minPrec) == ParseUnary(r)
            || (ParseBinary(r, minPrec).Err? && ParseBinary(r, minPrec).error.KeyError?)
  {
    BinaryPriorities();
    var u := ParseUnary(r);
    if u.Ok? {
      var (left, r1) := u.value;
      var t := Peek(r1, 0);
      if t.Some? && t.value.kind == OP && t.value.lexeme in BinaryOperators {
        assert BinaryOperators[t.value.lexeme].priority < minPrec;
        LoopBelowMinimum(left, r1, minPrec);
      }
    }
  }

  // ----- precedence and associativity ----------------------------------------

  /** `OPERAND OP OPERAND OP OPERAND` nests to the right when the second
      operator reaches minimum precedence 1. */
  lemma RightNested(ts: seq<Token>)
    requires |ts| == 5 && AtomAt(Reader(ts, 0)) && AtomAt(Reader(ts, 2)) && AtomAt(Reader(ts, 4))
    requires ts[1].kind == OP && ts[3].kind == OP
    requires ts[1].lexeme in BinaryOperators && ts[3].lexeme in BinaryOperators
    requires BinaryOperators[ts[1].lexeme].priority >= 0 && BinaryOperators[ts[3].lexeme].priority >= 1
    ensures Parse(ts) == Ok(Block([FuncCall(BinaryOperators[ts[1].lexeme].func,
      [Atom(ts[0]), FuncCall(BinaryOperators[ts[3].lexeme].func, [Atom(ts[2]), Atom(ts[4])])])]))
  {
    var inner := FuncCall(BinaryOperators[ts[3].lexeme].func, [Atom(ts[2]), Atom(ts[4])]);
    OneOperator(Reader(ts, 2), 1);
    OperatorThen(Reader(ts, 0), 0, inner, Reader(ts, 5));
    BinaryProgram(ts, FuncCall(BinaryOperators[ts[1].lexeme].func, [Atom(ts[0]), inner]));
  }

  /** Example, an instance of RightNested: `2 + 3 * 4` is add(2, mul(3, 4)). */
  lemma AddThenMul(ts: seq<Token>)
    requires Kinds(ts) == [NUMBER, OP, NUMBER, OP, NUMBER]
    requires Lexemes(ts) == ["2", "+", "3", "*", "4"]
    ensures Parse(ts)
         == Ok(Block([FuncCall("add", [Number("2"), FuncCall("mul", [Number("3"), Number("4")])])]))
  {
    BinaryLookups();
    TokensAt(ts, 5);
    RightNested(ts);
  }

  /** Example, an instance of RightNested: `2 * 3 + 4` is mul(2, add(3, 4)),
      because the right operand of `*` is parsed at minimum precedence 1,
      which still admits `+`. */
  lemma MulThenAdd(ts: seq<Token>)
    requires Kinds(ts) == [NUMBER, OP, NUMBER, OP, NUMBER]
    requires Lexemes(ts) == ["2", "*", "3", "+", "4"]
    ensures Parse(ts)
         == Ok(Block([FuncCall("mul", [Number("2"), FuncCall("add", [Number("3"), Number("4")])])]))
  {
    BinaryLookups();
    TokensAt(ts, 5);
    RightNested(ts);
  }

  /** Example, an instance of RightNested: `1 - 2 - 3` is sub(1, sub(2, 3)),
      because operators of priority 1 nest to the right. */
  lemma SubThenSub(ts: seq<Token>)
    requires Kinds(ts) == [NUMBER, OP, NUMBER, OP, NUMBER]
    requires Lexemes(ts) == ["1", "-", "2", "-", "3"]
    ensures Parse(ts)
         == Ok(Block([FuncCall("sub", [Number("1"), FuncCall("sub", [Number("2"), Number("3")])])]))
  {
    BinaryLookups();
    TokensAt(ts, 5);
    RightNested(ts);
  }

  /** `OPERAND OP OPERAND OP OPERAND` nests to the left when the second
      operator is below minimum precedence 1. */
  lemma LeftNested(ts: seq<Token>)
    requires |ts| == 5 && AtomAt(Reader(ts, 0)) && AtomAt(Reader(ts, 2)) && AtomAt(Reader(ts, 4))
    requires ts[1].kind == OP && ts[3].kind == OP
    requires ts[1].lexeme in BinaryOperators && ts[3].lexeme in BinaryOperators
    requires BinaryOperators[ts[1].lexeme].priority >= 0
    requires 0 <= BinaryOperators[ts[3].lexeme].priority < 1
    ensures Parse(ts) == Ok(Block([FuncCall(BinaryOperators[ts[3].lexeme].func,
      [FuncCall(BinaryOperators[ts[1].lexeme].func, [Atom(ts[0]), Atom(ts[2])]), Atom(ts[4])])]))
  {
    var inner := FuncCall(BinaryOperators[ts[1].lexeme].func, [Atom(ts[0]), Atom(ts[2])]);
    LeftNestedLoop(ts);
    LoopFolds(inner, Reader(ts, 3), 0, Atom(ts[4]), Reader(ts, 5));
    LoopStops(FuncCall(BinaryOperators[ts[3].lexeme].func, [inner, Atom(ts[4])]), Reader(ts, 5), 0);
    BinaryProgram(ts, FuncCall(BinaryOperators[ts[3].lexeme].func, [inner, Atom(ts[4])]));
  }

  /** The first operator of a left-nested pair folds its operands, and the
      last operand stands alone at minimum precedence 1. */
  lemma LeftNestedLoop(ts: seq<Token>)
    requires |ts| == 5 && AtomAt(Reader(ts, 0)) && AtomAt(Reader(ts, 2)) && AtomAt(Reader(ts, 4))
    requires ts[1].kind == OP && ts[3].kind == OP
    requires ts[1].lexeme in BinaryOperators && ts[3].lexeme in BinaryOperators
    requires BinaryOperators[ts[1].lexeme].priority >= 0
    requires BinaryOperators[ts[3].lexeme].priority < 1
    ensures ParseBinary(Reader(ts, 0), 0) ==
      BinaryLoop(FuncCall(BinaryOperators[ts[1].lexeme].func, [Atom(ts[0]), Atom(ts[2])]), Reader(ts, 3), 0)
    ensures ParseBinary(Reader(ts, 4), 1) == Ok((Atom(ts[4]), Reader(ts, 5)))
  {
    AtomOperand(Reader(ts, 2));
    LoopBelowMinimum(Atom(ts[2]), Reader(ts, 3), 1);
    BinaryAfterOperand(Reader(ts, 2), 1, Atom(ts[2]), Reader(ts, 3));
    AtomOperand(Reader(ts, 0));
    BinaryAfterOperand(Reader(ts, 0), 0, Atom(ts[0]), Reader(ts, 1));
    LoopFolds(Atom(ts[0]), Reader(ts, 1), 0, Atom(ts[2]), Reader(ts, 3));
    AtomBinary(Reader(ts, 4), 1);
  }

  /** `1 < 2 == 1` is is(less(1, 2), 1): operators of priority 0 nest to the
      left, because their right operand is parsed at minimum precedence 1. */
  lemma LessThenIs(ts: seq<Token>)
    requires Kinds(ts) == [NUMBER, OP, NUMBER, OP, NUMBER]
    requires Lexemes(ts) == ["1", "<", "2", "==", "1"]
    ensures Parse(ts)
         == Ok(Block([FuncCall("is", [FuncCall("less", [Number("1"), Number("2")]), Number("1")])]))
  {
    BinaryLookups();
    TokensAt(ts, 5);
    LeftNested(ts);
  }

  /** `-a + b` is add(neg(a), b): a prefix operator binds to one operand. */
  lemma NegThenAdd(ts: seq<Token>)
    requires Kinds(ts) == [OP, IDENT, OP, IDENT]
    requires Lexemes(ts) == ["-", "a", "+", "b"]
    ensures Parse(ts)
         == Ok(Block([FuncCall("add", [FuncCall("neg", [Var("a")]), Var("b")])]))
  {
    TokensAt(ts, 4);
    NegThenAddBinary(ts);
    BinaryProgram(ts, FuncCall("add", [FuncCall("neg", [Var("a")]), Var("b")]));
  }

  lemma NegThenAddBinary(ts: seq<Token>)
    requires Kinds(ts) == [OP, IDENT, OP, IDENT]
    requires Lexemes(ts) == ["-", "a", "+", "b"]
    ensures ParseBinary(Reader(ts, 0), 0)
         == Ok((FuncCall("add", [FuncCall("neg", [Var("a")]), Var("b")]), Reader(ts, 4)))
  {
    NegThenAddOperands(ts);
    BinaryLookups();
    TokensAt(ts, 4);
    OperatorAfter(Reader(ts, 0), 0, FuncCall("neg", [Var("a")]), Reader(ts, 2), Var("b"), Reader(ts, 4));
  }

  lemma NegThenAddOperands(ts: seq<Token>)
    requires Kinds(ts) == [OP, IDENT, OP, IDENT]
    requires Lexemes(ts) == ["-", "a", "+", "b"]
    ensures ParseUnary(Reader(ts, 0)) == Ok((FuncCall("neg", [Var("a")]), Reader(ts, 2)))
    ensures ParseBinary(Reader(ts, 3), 1) == Ok((Var("b"), Reader(ts, 4)))
  {
    UnaryLookups();
    TokensAt(ts, 4);
    PrefixAtom(Reader(ts, 0));
    AtomBinary(Reader(ts, 3), 1);
  }

  /** A prefix operator directly before a complete operand. */
  lemma PrefixAtom(r: Reader)
    requires r.pos < |r.tokens| && r.tokens[r.pos].kind == OP
    requires r.tokens[r.pos].lexeme in UnaryOperators
    requires AtomAt(Skip(r))
    ensures ParseUnary(r) == Ok((FuncCall(UnaryOperators[r.tokens[r.pos].lexeme].func, [Atom(r.tokens[r.pos + 1])]),
                                 Reader(r.tokens, r.pos + 2)))
  {
    AtomOperand(Skip(r));
    UnaryPrefix(r, Atom(r.tokens[r.pos + 1]), Skip(Skip(r)));
  }

  /** `UNARY OP RIGHT`, where RIGHT is what the right-hand side parses to and
      no OP follows it. */
  lemma OperatorAfter(r: Reader, minPrec: int, left: Node, r1: Reader, right: Node, r2: Reader)
    requires ParseUnary(r) == Ok((left, r1))
    requires r1.pos < |r1.tokens| && r1.tokens[r1.pos].kind == OP
    requires r1.tokens[r1.pos].lexeme in BinaryOperators
    requires BinaryOperators[r1.tokens[r1.pos].lexeme].priority >= minPrec
    requires ParseBinary(Skip(r1), minPrec + 1) == Ok((right, r2))
    requires r2.pos >= |r2.tokens| || r2.tokens[r2.pos].kind != OP
    ensures ParseBinary(r, minPrec) ==
      Ok((FuncCall(BinaryOperators[r1.tokens[r1.pos].lexeme].func, [left, right]), r2))
  {
    BinaryAfterOperand(r, minPrec, left, r1);
    LoopFolds(left, r1, minPrec, right, r2);
    LoopStops(FuncCall(BinaryOperators[r1.tokens[r1.pos].lexeme].func, [left, right]), r2, minPrec);
  }

  /** `!!x` is not(not(x)): prefix operators nest. */
  lemma NotNot(ts: seq<Token>)
    requires Kinds(ts) == [OP, OP, IDENT]
    requires Lexemes(ts) == ["!", "!", "x"]
    ensures Parse(ts)
         == Ok(Block([FuncCall("not", [FuncCall("not", [Var("x")])])]))
  {
    UnaryLookups();
    TokensAt(ts, 3);
    var inner := FuncCall("not", [Var("x")]);
    var outer := FuncCall("not", [inner]);
    AtomOperand(Reader(ts, 2));
    UnaryPrefix(Reader(ts, 1), Var("x"), Reader(ts, 3));
    UnaryPrefix(Reader(ts, 0), inner, Reader(ts, 3));
    LoopStops(outer, Reader(ts, 3), 0);
    assert ParseBinary(Reader(ts, 0), 0) == Ok((outer, Reader(ts, 3)));
    BinaryExpr(Reader(ts, 0), outer, Reader(ts, 3));
    ExprStatement(Reader(ts, 0), outer, Reader(ts, 3));
    SingleStatementProgram(ts, outer);
  }

  /** `1 + * 2` fails: `*` cannot start an operand. */
  lemma OperandMissing(ts: seq<Token>)
    requires Kinds(ts) == [NUMBER, OP, OP, NUMBER]
    requires Lexemes(ts) == ["1", "+", "*", "2"]
    ensures Parse(ts)
         == Err(ParserError(UnexpectedToken(OP, "*"), Some(ts[2].start), Some(ts[2].end)))
  {
    BinaryLookups();
    UnaryLookups();
    TokensAt(ts, 4);
    var err := Err(ParserError(UnexpectedToken(OP, "*"), Some(ts[2].start), Some(ts[2].end)));
    UnaryRejectsOtherOperators(Reader(ts, 2));
    assert ParseBinary(Reader(ts, 2), 1) == err;
    LoopFailure(Number("1"), Reader(ts, 1), 0);
    AtomOperand(Reader(ts, 0));
    BinaryAfterOperand(Reader(ts, 0), 0, Number("1"), Reader(ts, 1));
    assert ParseExpr(Reader(ts, 0)) == err;
    ExprFailure(Reader(ts, 0));
    ProgramFailure(Reader(ts, 0));
    ParseFailure(ts);
  }

  /** `1 ^ 2` fails with a KeyError: `^` is an OP lexeme of no table. */
  lemma UnknownOperator(ts: seq<Token>)
    requires Kinds(ts) == [NUMBER, OP, NUMBER]
    requires Lexemes(ts) == ["1", "^", "2"]
    ensures Parse(ts) == Err(KeyError("^"))
  {
    BinaryLookups();
    TokensAt(ts, 3);
    AtomOperand(Reader(ts, 0));
    LoopUnknownOperator(Number("1"), Reader(ts, 1), 0);
    BinaryAfterOperand(Reader(ts, 0), 0, Number("1"), Reader(ts, 1));
    assert ParseExpr(Reader(ts, 0)) == Err(KeyError("^"));
    ExprFailure(Reader(ts, 0));
    ProgramFailure(Reader(ts, 0));
    ParseFailure(ts);
  }

  // ----- primaries -----------------------------------------------------------

  /** Running out of tokens where an operand is needed. */
  lemma ExprAtEnd(r: Reader)
    requires r.pos >= |r.tokens|
    ensures ParseExpr(r) == Err(ParserError(UnexpectedEof, None, None))
  {
    var eof := Err(ParserError(UnexpectedEof, None, None));
    assert ParsePrimary(r) == eof;
    assert ParseUnary(r) == eof;
    assert ParseBinary(r, 0) == eof;
  }

  /** A failing operand makes the whole expression statement fail with the
      same error, unless it starts an assignment or a definition. */
  lemma OperandFailure(r: Reader)
    requires ParseUnary(r).Err?
    requires !IsFollowed(r, KEYWORD, Func, 0)
    requires !(IsFollowed(r, IDENT, None, 0) && IsFollowed(r, ASSIGN, None, 1))
    ensures ParseStatement(r) == ParseUnary(r)
  {
    assert ParseBinary(r, 0) == ParseUnary(r);
    assert ParseExpr(r) == ParseUnary(r);
  }

  /** A complete operand that is neither a name nor a prefix operator and is
      not followed by an OP is a whole expression. */
  lemma OperandExpr(r: Reader, node: Node, r1: Reader)
    requires r.pos < |r.tokens| && r.tokens[r.pos].kind != IDENT && r.tokens[r.pos].kind != OP
    requires ParsePrimary(r) == Ok((node, r1))
    requires !IsFollowed(r1, OP, None, 0)
    ensures ParseExpr(r) == Ok((node, r1))
  {
    assert ParseUnary(r) == ParsePrimary(r);
    assert BinaryLoop(node, r1, 0) == Ok((node, r1));
    assert ParseBinary(r, 0) == Ok((node, r1));
  }

  /** A parenthesised expression yields the inner node itself. */
  lemma Parenthesised(r: Reader, e: Node, r2: Reader)
    requires r.pos < |r.tokens| && r.tokens[r.pos].kind == LPAREN
    requires ParseExpr(Skip(r)) == Ok((e, r2))
    requires r2.pos < |r2.tokens| && r2.tokens[r2.pos].kind == RPAREN
    ensures ParsePrimary(r) == Ok((e, Skip(r2)))
  {
  }

  /** A keyword other than for/if/while cannot start an operand. */
  lemma NonControlKeyword(r: Reader)
    requires r.pos < |r.tokens| && r.tokens[r.pos].kind == KEYWORD
    requires r.tokens[r.pos].lexeme !in ControlExpressions
    ensures ParsePrimary(r) == Err(ParserError(UnexpectedKeyword(r.tokens[r.pos].lexeme),
                                               Some(r.tokens[r.pos].start), Some(r.tokens[r.pos].end)))
  {
  }

  /** The keywords that cannot start an operand are exactly else, in, func. */
  lemma NonControlKeywords()
    ensures Keywords - ControlExpressions.Keys == {"else", "in", "func"}
    ensures ControlExpressions.Keys <= Keywords
  {
  }

  /** A control keyword hands the whole construct to its parser. */
  lemma ControlDispatch(r: Reader)
    requires r.pos < |r.tokens| && r.tokens[r.pos].kind == KEYWORD
    ensures r.tokens[r.pos].lexeme == "if" ==> ParsePrimary(r) == ParseIf(r)
    ensures r.tokens[r.pos].lexeme == "while" ==> ParsePrimary(r) == ParseWhile(r)
    ensures r.tokens[r.pos].lexeme == "for" ==> ParsePrimary(r) == ParseFor(r)
  {
  }

  /** Tokens that start no operand are reported with their kind and span. */
  lemma UnexpectedTokenKind(r: Reader)
    requires r.pos < |r.tokens| && !StartsOperand(r.tokens[r.pos].kind)
    ensures ParsePrimary(r) == Err(ParserError(UnexpectedToken(r.tokens[r.pos].kind, r.tokens[r.pos].lexeme),
                                               Some(r.tokens[r.pos].start), Some(r.tokens[r.pos].end)))
  {
  }

  // ----- assignment ----------------------------------------------------------

  /** IDENT directly followed by `=` is an assignment whose value is the
      expression after `=`; it binds looser than every operator. */
  lemma AssignmentExpr(r: Reader)
    requires IsFollowed(r, IDENT, None, 0) && IsFollowed(r, ASSIGN, None, 1)
    ensures ParseExpr(Skip(Skip(r))).Ok? ==>
      ParseExpr(r) == Ok((Assign(r.tokens[r.pos].lexeme, ParseExpr(Skip(Skip(r))).value.0),
                          ParseExpr(Skip(Skip(r))).value.1))
    ensures ParseExpr(Skip(Skip(r))).Err? ==> ParseExpr(r) == ParseExpr(Skip(Skip(r)))
  {
    ExpectHere(r, IDENT, None);
    ExpectFollowed(r, ASSIGN, None, 1);
    assert Skip(Skip(r)) == Reader(r.tokens, r.pos + 2);
    assert ParseExpr(r) == ParseAssign(r);
  }

  /** `a = b = 1` is Assign(a, Assign(b, 1)). */
  lemma AssignmentChain(ts: seq<Token>)
    requires Kinds(ts) == [IDENT, ASSIGN, IDENT, ASSIGN, NUMBER]
    requires Lexemes(ts) == ["a", "=", "b", "=", "1"]
    ensures Parse(ts)
         == Ok(Block([Assign("a", Assign("b", Number("1")))]))
  {
    var outer := Assign("a", Assign("b", Number("1")));
    AssignmentChainExpr(ts);
    ExprStatement(Reader(ts, 0), outer, Reader(ts, 5));
    SingleStatementProgram(ts, outer);
  }

  lemma AssignmentChainExpr(ts: seq<Token>)
    requires Kinds(ts) == [IDENT, ASSIGN, IDENT, ASSIGN, NUMBER]
    requires Lexemes(ts) == ["a", "=", "b", "=", "1"]
    ensures ParseExpr(Reader(ts, 0)) == Ok((Assign("a", Assign("b", Number("1"))), Reader(ts, 5)))
    ensures !IsFollowed(Reader(ts, 0), KEYWORD, Func, 0)
  {
    TokensAt(ts, 5);
    var inner := Assign("b", Number("1"));
    AtomExpr(Reader(ts, 4));
    assert Skip(Skip(Reader(ts, 2))) == Reader(ts, 4);
    AssignmentExpr(Reader(ts, 2));
    assert ParseExpr(Reader(ts, 2)) == Ok((inner, Reader(ts, 5)));
    assert Skip(Skip(Reader(ts, 0))) == Reader(ts, 2);
    AssignmentExpr(Reader(ts, 0));
  }

  /** `x = 1 + 2` assigns the whole sum. */
  lemma AssignmentOfSum(ts: seq<Token>)
    requires Kinds(ts) == [IDENT, ASSIGN, NUMBER, OP, NUMBER]
    requires Lexemes(ts) == ["x", "=", "1", "+", "2"]
    ensures Parse(ts)
         == Ok(Block([Assign("x", FuncCall("add", [Number("1"), Number("2")]))]))
  {
    BinaryLookups();
    TokensAt(ts, 5);
    OneOperatorExpr(Reader(ts, 2));
    AssignProgram(ts, FuncCall("add", [Number("1"), Number("2")]));
  }

  /** `OPERAND OP OPERAND` with no OP after it is a whole expression. */
  lemma OneOperatorExpr(r: Reader)
    requires AtomAt(r) && AtomAt(Reader(r.tokens, r.pos + 2))
    requires r.tokens[r.pos + 1].kind == OP && r.tokens[r.pos + 1].lexeme in BinaryOperators
    requires BinaryOperators[r.tokens[r.pos + 1].lexeme].priority >= 0
    requires !IsFollowed(r, OP, None, 3)
    ensures ParseExpr(r) ==
      Ok((FuncCall(BinaryOperators[r.tokens[r.pos + 1].lexeme].func, [Atom(r.tokens[r.pos]), Atom(r.tokens[r.pos + 2])]),
          Reader(r.tokens, r.pos + 3)))
  {
    OneOperator(r, 0);
    BinaryExpr(r, FuncCall(BinaryOperators[r.tokens[r.pos + 1].lexeme].func, [Atom(r.tokens[r.pos]), Atom(r.tokens[r.pos + 2])]),
               Reader(r.tokens, r.pos + 3));
  }

  /** A whole input `NAME = VALUE` is one assignment statement. */
  lemma AssignProgram(tokens: seq<Token>, value: Node)
    requires |tokens| > 2 && tokens[0].kind == IDENT && tokens[1].kind == ASSIGN
    requires ParseExpr(Reader(tokens, 2)) == Ok((value, Reader(tokens, |tokens|)))
    ensures Parse(tokens) == Ok(Block([Assign(tokens[0].lexeme, value)]))
  {
    AssignmentExpr(Reader(tokens, 0));
    ExprProgram(tokens, Assign(tokens[0].lexeme, value));
  }

  /** `(a) = 1` fails: only a bare IDENT can be assigned, and the `=` left
      over after `(a)` starts no operand. */
  lemma ParenthesisedTarget(ts: seq<Token>)
    requires Kinds(ts) == [LPAREN, IDENT, RPAREN, ASSIGN, NUMBER]
    requires Lexemes(ts) == ["(", "a", ")", "=", "1"]
    ensures Parse(ts)
         == Err(ParserError(UnexpectedToken(ASSIGN, "="), Some(ts[3].start), Some(ts[3].end)))
  {
    TokensAt(ts, 5);
    ParenthesisedTargetStatement(ts);
    ParenthesisedTargetRest(ts);
    ProgramFailureLater(Reader(ts, 0), Var("a"), Reader(ts, 3));
  }

  lemma ParenthesisedTargetStatement(ts: seq<Token>)
    requires Kinds(ts) == [LPAREN, IDENT, RPAREN, ASSIGN, NUMBER]
    requires Lexemes(ts) == ["(", "a", ")", "=", "1"]
    ensures ParseStatement(Reader(ts, 0)) == Ok((Var("a"), Reader(ts, 3)))
  {
    TokensAt(ts, 5);
    ParenthesisedAtom(Reader(ts, 0));
    OperandExpr(Reader(ts, 0), Var("a"), Reader(ts, 3));
    ExprStatement(Reader(ts, 0), Var("a"), Reader(ts, 3));
  }

  lemma ParenthesisedTargetRest(ts: seq<Token>)
    requires Kinds(ts) == [LPAREN, IDENT, RPAREN, ASSIGN, NUMBER]
    requires Lexemes(ts) == ["(", "a", ")", "=", "1"]
    ensures ParseProgramBody(Reader(ts, 3)).Err?
    ensures ParseProgramBody(Reader(ts, 3)).error == ParserError(UnexpectedToken(ASSIGN, "="), Some(ts[3].start), Some(ts[3].end))
  {
    TokensAt(ts, 5);
    UnexpectedTokenKind(Reader(ts, 3));
    assert ParseUnary(Reader(ts, 3)) == ParsePrimary(Reader(ts, 3));
    OperandFailure(Reader(ts, 3));
    ProgramFailure(Reader(ts, 3));
  }

  /** `( OPERAND )` is the operand itself. */
  lemma ParenthesisedAtom(r: Reader)
    requires r.pos < |r.tokens| && r.tokens[r.pos].kind == LPAREN
    requires AtomAt(Skip(r)) && IsFollowed(r, RPAREN, None, 2)
    ensures ParsePrimary(r) == Ok((Atom(r.tokens[r.pos + 1]), Reader(r.tokens, r.pos + 3)))
  {
    assert Peek(Skip(r), 1) == Peek(r, 2);
    AtomExpr(Skip(r));
    Parenthesised(r, Atom(r.tokens[r.pos + 1]), Skip(Skip(r)));
  }

  // ----- calls ---------------------------------------------------------------

  /** `f()` is a call with no arguments. */
  lemma CallWithoutArguments(ts: seq<Token>)
    requires Kinds(ts) == [IDENT, LPAREN, RPAREN]
    requires Lexemes(ts) == ["f", "(", ")"]
    ensures Parse(ts) == Ok(Block([FuncCall("f", [])]))
  {
    TokensAt(ts, 3);
    var call := FuncCall("f", []);
    assert ParseFuncCall(Reader(ts, 1), "f") == Ok((call, Reader(ts, 3)));
    NameCall(Reader(ts, 0));
    LoopStops(call, Reader(ts, 3), 0);
    assert ParseBinary(Reader(ts, 0), 0) == Ok((call, Reader(ts, 3)));
    BinaryExpr(Reader(ts, 0), call, Reader(ts, 3));
    ExprStatement(Reader(ts, 0), call, Reader(ts, 3));
    SingleStatementProgram(ts, call);
  }

  /** `f(1, x)` passes its arguments in order. */
  lemma CallWithArguments(ts: seq<Token>)
    requires Kinds(ts) == [IDENT, LPAREN, NUMBER, COMMA, IDENT, RPAREN]
    requires Lexemes(ts) == ["f", "(", "1", ",", "x", ")"]
    ensures Parse(ts)
         == Ok(Block([FuncCall("f", [Number("1"), Var("x")])]))
  {
    TokensAt(ts, 6);
    TwoArguments(Reader(ts, 2));
    CallProgram(ts, [Number("1"), Var("x")]);
  }

  /** `OPERAND , OPERAND )` is a list of two arguments. */
  lemma TwoArguments(r: Reader)
    requires AtomAt(r) && IsFollowed(r, COMMA, None, 1)
    requires AtomAt(Reader(r.tokens, r.pos + 2)) && IsFollowed(r, RPAREN, None, 3)
    ensures ParseArgs(r) == Ok(([Atom(r.tokens[r.pos]), Atom(r.tokens[r.pos + 2])], Reader(r.tokens, r.pos + 4)))
  {
    var r2 := Reader(r.tokens, r.pos + 2);
    var second := Atom(r.tokens[r.pos + 2]);
    assert Peek(r2, 1) == Peek(r, 3);
    AtomExpr(r2);
    ArgsLast(r2, second, Skip(r2));
    AtomExpr(r);
    ArgsNext(r, Atom(r.tokens[r.pos]), Skip(r), [second], Skip(Skip(r2)));
    assert [Atom(r.tokens[r.pos])] + [second] == [Atom(r.tokens[r.pos]), second];
  }

  /** A whole input `NAME ( ARGS` whose arguments end the input is one call. */
  lemma CallProgram(tokens: seq<Token>, args: seq<Node>)
    requires |tokens| > 2 && tokens[0].kind == IDENT && tokens[1].kind == LPAREN && tokens[2].kind != RPAREN
    requires ParseArgs(Reader(tokens, 2)) == Ok((args, Reader(tokens, |tokens|)))
    ensures Parse(tokens) == Ok(Block([FuncCall(tokens[0].lexeme, args)]))
  {
    var call := FuncCall(tokens[0].lexeme, args);
    var end := Reader(tokens, |tokens|);
    CallStep(Reader(tokens, 1), tokens[0].lexeme, args, end);
    NameCall(Reader(tokens, 0));
    LoopStops(call, end, 0);
    BinaryAfterOperand(Reader(tokens, 0), 0, call, end);
    BinaryProgram(tokens, call);
  }

  /** `f(1,)` fails: a trailing comma must be followed by an argument. */
  lemma CallTrailingComma(ts: seq<Token>)
    requires Kinds(ts) == [IDENT, LPAREN, NUMBER, COMMA, RPAREN]
    requires Lexemes(ts) == ["f", "(", "1", ",", ")"]
    ensures Parse(ts)
         == Err(ParserError(UnexpectedToken(RPAREN, ")"), Some(ts[4].start), Some(ts[4].end)))
  {
    TokensAt(ts, 5);
    CallTrailingCommaCall(ts);
    OperandFailure(Reader(ts, 0));
    ProgramFailure(Reader(ts, 0));
  }

  lemma CallTrailingCommaCall(ts: seq<Token>)
    requires Kinds(ts) == [IDENT, LPAREN, NUMBER, COMMA, RPAREN]
    requires Lexemes(ts) == ["f", "(", "1", ",", ")"]
    ensures ParseUnary(Reader(ts, 0))
         == Err(ParserError(UnexpectedToken(RPAREN, ")"), Some(ts[4].start), Some(ts[4].end)))
  {
    TokensAt(ts, 5);
    CallTrailingCommaArgs(ts);
    assert ParseFuncCall(Reader(ts, 1), "f") == ParseUnary(Reader(ts, 4));
    NameCall(Reader(ts, 0));
  }

  lemma CallTrailingCommaArgs(ts: seq<Token>)
    requires Kinds(ts) == [IDENT, LPAREN, NUMBER, COMMA, RPAREN]
    requires Lexemes(ts) == ["f", "(", "1", ",", ")"]
    ensures ParseUnary(Reader(ts, 4))
         == Err(ParserError(UnexpectedToken(RPAREN, ")"), Some(ts[4].start), Some(ts[4].end)))
    ensures ParseArgs(Reader(ts, 2)).Err? && ParseArgs(Reader(ts, 2)).error == ParseUnary(Reader(ts, 4)).error
  {
    TokensAt(ts, 5);
    UnexpectedTokenKind(Reader(ts, 4));
    assert ParseUnary(Reader(ts, 4)) == ParsePrimary(Reader(ts, 4));
    assert ParseExpr(Reader(ts, 4)) == ParseUnary(Reader(ts, 4));
    AtomExpr(Reader(ts, 2));
  }

  /** An IDENT followed by `(` starts a call of that name. */
  lemma NameCall(r: Reader)
    requires IsFollowed(r, IDENT, None, 0) && IsFollowed(r, LPAREN, None, 1)
    ensures ParseUnary(r) == ParseFuncCall(Skip(r), r.tokens[r.pos].lexeme)
  {
    ExpectHere(r, IDENT, None);
    FollowedIffMatch(r, LPAREN, None, 0);
    assert ParseVar(r) == ParseFuncCall(Skip(r), r.tokens[r.pos].lexeme);
    assert ParsePrimary(r) == ParseVar(r);
  }

  /** A call with at least one argument. */
  lemma CallStep(r: Reader, name: string, args: seq<Node>, r3: Reader)
    requires IsFollowed(r, LPAREN, None, 0) && !IsFollowed(r, RPAREN, None, 1)
    requires ParseArgs(Skip(r)) == Ok((args, r3))
    ensures ParseFuncCall(r, name) == Ok((FuncCall(name, args), r3))
  {
  }

  /** The expression parser's `-> Expr` holds for the luma class hierarchy
      only: in the top-level one an assignment it returns is an Assign, which
      derives from Statement and not from Expr. */
  lemma AssignmentNotTopLevelExpr(r: Reader)
    requires IsFollowed(r, IDENT, None, 0) && IsFollowed(r, ASSIGN, None, 1)
    requires ParseExpr(r).Ok?
    ensures IsExpr(ParseExpr(r).value.0, Luma) && !IsExpr(ParseExpr(r).value.0, TopLevel)
  {
  }

  /** A call with no arguments: `(` directly followed by `)`. */
  lemma CallEmptyStep(r: Reader, name: string)
    requires IsFollowed(r, LPAREN, None, 0) && IsFollowed(r, RPAREN, None, 1)
    ensures ParseFuncCall(r, name) == Ok((FuncCall(name, []), Reader(r.tokens, r.pos + 2)))
  {
    ExpectHere(r, LPAREN, None);
    FollowedIffMatch(r, RPAREN, None, 0);
  }

  /** Conversely, every call that parses opened with `(` and went through
      CallEmptyStep or CallStep. */
  lemma CallSound(r: Reader, name: string)
    requires ParseFuncCall(r, name).Ok?
    ensures IsFollowed(r, LPAREN, None, 0)
    ensures IsFollowed(r, RPAREN, None, 1) ==>
      ParseFuncCall(r, name) == Ok((FuncCall(name, []), Reader(r.tokens, r.pos + 2)))
    ensures !IsFollowed(r, RPAREN, None, 1) ==>
      ParseArgs(Skip(r)).Ok? && ParseFuncCall(r, name) == Ok((FuncCall(name, ParseArgs(Skip(r)).value.0), ParseArgs(Skip(r)).value.1))
  {
    FollowedIffMatch(r, RPAREN, None, 0);
  }

  /** The last argument is followed by `)`. */
  lemma ArgsLast(r: Reader, e: Node, r1: Reader)
    requires ParseExpr(r) == Ok((e, r1))
    requires IsFollowed(r1, RPAREN, None, 0)
    ensures ParseArgs(r) == Ok(([e], Skip(r1)))
  {
  }

  /** Any other argument is followed by `,` and the remaining arguments. */
  lemma ArgsNext(r: Reader, e: Node, r1: Reader, rest: seq<Node>, r4: Reader)
    requires ParseExpr(r) == Ok((e, r1))
    requires IsFollowed(r1, COMMA, None, 0)
    requires ParseArgs(Skip(r1)) == Ok((rest, r4))
    ensures ParseArgs(r) == Ok(([e] + rest, r4))
  {
  }

  // ----- function definitions -------------------------------------------------

  /** The tokens of a parameter list after `(`: IDENT followed by the closing
      RPAREN, or IDENT COMMA followed by the rest of the list. */
  predicate ParamTokens(ts: seq<Token>, names: seq<string>)
    decreases |names|
  {
    |names| >= 1 && |ts| == 2 * |names| && ts[0].kind == IDENT && ts[0].lexeme == names[0]
    && if |names| == 1 then ts[1].kind == RPAREN
       else ts[1].kind == COMMA && ParamTokens(ts[2..], names[1..])
  }

  lemma ParamTokensCons(t0: Token, t1: Token, ts: seq<Token>, names: seq<string>)
    requires ParamTokens(ts, names)
    requires t0.kind == IDENT && t1.kind == COMMA
    ensures ParamTokens([t0, t1] + ts, [t0.lexeme] + names)
  {
    assert ([t0, t1] + ts)[2..] == ts;
    assert ([t0.lexeme] + names)[1..] == names;
  }

  /** Whatever ParseParams accepts is a parameter list naming its result. */
  lemma {:induction false} ParamsSound(r: Reader)
    requires ParseParams(r).Ok?
    ensures ParamTokens(r.tokens[r.pos..ParseParams(r).value.1.pos], ParseParams(r).value.0)
    decreases Remaining(r)
  {
    if IsFollowed(r, RPAREN, None, 1) {
      ParamsSoundLast(r);
    } else {
      ParamsSoundTail(r);
      ParamsSound(Reader(r.tokens, r.pos + 2));
      ParamsSoundStep(r);
    }
  }

  lemma ParamsSoundLast(r: Reader)
    requires ParseParams(r).Ok? && IsFollowed(r, RPAREN, None, 1)
    ensures ParamTokens(r.tokens[r.pos..ParseParams(r).value.1.pos], ParseParams(r).value.0)
  {
    var (names, r4) := ParseParams(r).value;
    assert names == [r.tokens[r.pos].lexeme] && r4.pos == r.pos + 2;
  }

  /** Past a name and a comma, the remaining parameters were accepted too. */
  lemma ParamsSoundTail(r: Reader)
    requires ParseParams(r).Ok? && !IsFollowed(r, RPAREN, None, 1)
    ensures Remaining(Reader(r.tokens, r.pos + 2)) < Remaining(r)
    ensures ParseParams(Reader(r.tokens, r.pos + 2)).Ok?
  {
  }

  /** An accepted list of two or more parameters: a name, a comma and the
      accepted rest. */
  lemma ParamsSoundShape(r: Reader)
    requires ParseParams(r).Ok? && !IsFollowed(r, RPAREN, None, 1)
    ensures r.pos + 2 <= |r.tokens| && r.tokens[r.pos].kind == IDENT && r.tokens[r.pos + 1].kind == COMMA
    ensures ParseParams(Reader(r.tokens, r.pos + 2)).Ok?
    ensures ParseParams(r).value.1 == ParseParams(Reader(r.tokens, r.pos + 2)).value.1
    ensures ParseParams(r).value.0 == [r.tokens[r.pos].lexeme] + ParseParams(Reader(r.tokens, r.pos + 2)).value.0
  {
  }

  lemma ParamsSoundStep(r: Reader)
    requires ParseParams(r).Ok? && !IsFollowed(r, RPAREN, None, 1)
    requires ParseParams(Reader(r.tokens, r.pos + 2)).Ok?
    requires var r3 := Reader(r.tokens, r.pos + 2);
      ParamTokens(r.tokens[r3.pos..ParseParams(r3).value.1.pos], ParseParams(r3).value.0)
    ensures ParamTokens(r.tokens[r.pos..ParseParams(r).value.1.pos], ParseParams(r).value.0)
  {
    var (names, r4) := ParseParams(r).value;
    var t0 := r.tokens[r.pos];
    var r3 := Reader(r.tokens, r.pos + 2);
    var (rest, r5) := ParseParams(r3).value;
    ParamsSoundShape(r);
    var ts := r.tokens[r.pos..r4.pos];
    assert ts == [t0, r.tokens[r.pos + 1]] + r.tokens[r3.pos..r4.pos];
    ParamTokensCons(t0, r.tokens[r.pos + 1], r.tokens[r3.pos..r4.pos], rest);
  }

  /** The last parameter: a name and the closing `)`. */
  lemma ParamsLast(r: Reader)
    requires r.pos + 1 < |r.tokens|
    requires Expect(r, IDENT, None) == Ok((r.tokens[r.pos], Skip(r)))
    requires Match(Skip(r), RPAREN, None) == (Some(r.tokens[r.pos + 1]), Reader(r.tokens, r.pos + 2))
    ensures ParseParams(r) == Ok(([r.tokens[r.pos].lexeme], Reader(r.tokens, r.pos + 2)))
  {
  }

  /** A name and a comma, then the remaining parameters. */
  lemma ParamsNext(r: Reader, rest: seq<string>, r4: Reader)
    requires r.pos + 1 < |r.tokens|
    requires Expect(r, IDENT, None) == Ok((r.tokens[r.pos], Skip(r)))
    requires Match(Skip(r), RPAREN, None) == (None, Skip(r))
    requires Expect(Skip(r), COMMA, None) == Ok((r.tokens[r.pos + 1], Reader(r.tokens, r.pos + 2)))
    requires ParseParams(Reader(r.tokens, r.pos + 2)) == Ok((rest, r4))
    ensures ParseParams(r) == Ok(([r.tokens[r.pos].lexeme] + rest, r4))
  {
  }

  /** Every parameter list is accepted, naming its IDENTs in order and
      consuming exactly its tokens. */
  lemma {:induction false} ParamsComplete(r: Reader, names: seq<string>)
    requires r.pos + 2 * |names| <= |r.tokens|
    requires ParamTokens(r.tokens[r.pos..r.pos + 2 * |names|], names)
    ensures ParseParams(r) == Ok((names, Reader(r.tokens, r.pos + 2 * |names|)))
    decreases |names|
  {
    if |names| == 1 {
      ParamsCompleteLast(r, names);
    } else {
      ParamsCompleteTail(r, names);
      ParamsComplete(Reader(r.tokens, r.pos + 2), names[1..]);
      ParamsCompleteStep(r, names);
    }
  }

  lemma ParamsCompleteLast(r: Reader, names: seq<string>)
    requires r.pos + 2 * |names| <= |r.tokens| && |names| == 1
    requires ParamTokens(r.tokens[r.pos..r.pos + 2 * |names|], names)
    ensures ParseParams(r) == Ok((names, Reader(r.tokens, r.pos + 2 * |names|)))
  {
    var ts := r.tokens[r.pos..r.pos + 2];
    assert ts[0] == r.tokens[r.pos] && ts[1] == r.tokens[r.pos + 1];
    ExpectHere(r, IDENT, None);
    ParamsLast(r);
    assert names == [names[0]];
  }

  /** A list of two or more parameters starts with a name and a comma, and
      the rest of it is a parameter list. */
  lemma ParamsCompleteTail(r: Reader, names: seq<string>)
    requires r.pos + 2 * |names| <= |r.tokens| && |names| > 1
    requires ParamTokens(r.tokens[r.pos..r.pos + 2 * |names|], names)
    ensures r.tokens[r.pos].kind == IDENT && r.tokens[r.pos].lexeme == names[0]
    ensures r.tokens[r.pos + 1].kind == COMMA
    ensures r.pos + 2 + 2 * |names[1..]| <= |r.tokens|
    ensures ParamTokens(r.tokens[r.pos + 2..r.pos + 2 + 2 * |names[1..]|], names[1..])
  {
    var ts := r.tokens[r.pos..r.pos + 2 * |names|];
    assert ts[0] == r.tokens[r.pos] && ts[1] == r.tokens[r.pos + 1];
    assert ts[2..] == r.tokens[r.pos + 2..r.pos + 2 + 2 * |names[1..]|];
  }

  lemma ParamsCompleteStep(r: Reader, names: seq<string>)
    requires r.pos + 2 * |names| <= |r.tokens| && |names| > 1
    requires r.tokens[r.pos].kind == IDENT && r.tokens[r.pos].lexeme == names[0]
    requires r.tokens[r.pos + 1].kind == COMMA
    requires ParseParams(Reader(r.tokens, r.pos + 2)) == Ok((names[1..], Reader(r.tokens, r.pos + 2 * |names|)))
    ensures ParseParams(r) == Ok((names, Reader(r.tokens, r.pos + 2 * |names|)))
  {
    ExpectHere(r, IDENT, None);
    ExpectHere(Skip(r), COMMA, None);
    ParamsNext(r, names[1..], Reader(r.tokens, r.pos + 2 * |names|));
    assert [names[0]] + names[1..] == names;
  }

  /** The keyword, name, `(` and `:` of a definition, found by lookahead, are
      what its `expect` calls consume, and a non-`)` token is not matched. */
  lemma FuncDefExpects(r: Reader, r5: Reader)
    requires IsFollowed(r, KEYWORD, Func, 0) && IsFollowed(r, IDENT, None, 1) && IsFollowed(r, LPAREN, None, 2)
    requires !IsFollowed(r, RPAREN, None, 3)
    requires IsFollowed(r5, COLON, None, 0)
    ensures Expect(r, KEYWORD, Func) == Ok((r.tokens[r.pos], Skip(r)))
    ensures Expect(Reader(r.tokens, r.pos + 1), IDENT, None) == Ok((r.tokens[r.pos + 1], Reader(r.tokens, r.pos + 2)))
    ensures Expect(Reader(r.tokens, r.pos + 2), LPAREN, None) == Ok((r.tokens[r.pos + 2], Reader(r.tokens, r.pos + 3)))
    ensures Match(Reader(r.tokens, r.pos + 3), RPAREN, None) == (None, Reader(r.tokens, r.pos + 3))
    ensures Expect(r5, COLON, None) == Ok((r5.tokens[r5.pos], Skip(r5)))
  {
    ExpectHere(r, KEYWORD, Func);
    ExpectFollowed(r, IDENT, None, 1);
    ExpectFollowed(r, LPAREN, None, 2);
    ExpectHere(r5, COLON, None);
  }

  /** A definition once its `expect` calls are known to succeed and no `)`
      closes the parameter list at once. */
  lemma FuncDefAfterExpects(r: Reader, params: seq<string>, r5: Reader, body: Node, r7: Reader)
    requires r.pos + 3 <= |r.tokens|
    requires Expect(r, KEYWORD, Func) == Ok((r.tokens[r.pos], Skip(r)))
    requires Expect(Reader(r.tokens, r.pos + 1), IDENT, None) == Ok((r.tokens[r.pos + 1], Reader(r.tokens, r.pos + 2)))
    requires Expect(Reader(r.tokens, r.pos + 2), LPAREN, None) == Ok((r.tokens[r.pos + 2], Reader(r.tokens, r.pos + 3)))
    requires Match(Reader(r.tokens, r.pos + 3), RPAREN, None) == (None, Reader(r.tokens, r.pos + 3))
    requires ParseParams(Reader(r.tokens, r.pos + 3)) == Ok((params, r5))
    requires r5.pos < |r5.tokens|
    requires Expect(r5, COLON, None) == Ok((r5.tokens[r5.pos], Skip(r5)))
    requires ParseBlock(Skip(r5)) == Ok((body, r7))
    ensures ParseFuncDef(r) == Ok((FuncDef(r.tokens[r.pos + 1].lexeme, params, body), r7))
  {
  }

  /** `func NAME ( PARAMS ) : BLOCK` with at least one parameter. */
  lemma FuncDefStep(r: Reader, params: seq<string>, r5: Reader, body: Node, r7: Reader)
    requires IsFollowed(r, KEYWORD, Func, 0) && IsFollowed(r, IDENT, None, 1) && IsFollowed(r, LPAREN, None, 2)
    requires !IsFollowed(r, RPAREN, None, 3)
    requires ParseParams(Reader(r.tokens, r.pos + 3)) == Ok((params, r5))
    requires IsFollowed(r5, COLON, None, 0)
    requires ParseBlock(Skip(r5)) == Ok((body, r7))
    ensures ParseFuncDef(r) == Ok((FuncDef(r.tokens[r.pos + 1].lexeme, params, body), r7))
  {
    FuncDefExpects(r, r5);
    FuncDefAfterExpects(r, params, r5, body, r7);
  }

  /** `func NAME ( ) : BLOCK`: an empty parameter list. */
  lemma FuncDefEmptyStep(r: Reader, body: Node, r7: Reader)
    requires IsFollowed(r, KEYWORD, Func, 0) && IsFollowed(r, IDENT, None, 1) && IsFollowed(r, LPAREN, None, 2)
    requires IsFollowed(r, RPAREN, None, 3) && IsFollowed(r, COLON, None, 4)
    requires ParseBlock(Reader(r.tokens, r.pos + 5)) == Ok((body, r7))
    ensures ParseFuncDef(r) == Ok((FuncDef(r.tokens[r.pos + 1].lexeme, [], body), r7))
  {
    FuncHeaderEmpty(r);
  }

  /** The header `func NAME ( ) :` reads the name, no parameters, and five
      tokens. */
  lemma FuncHeaderEmpty(r: Reader)
    requires IsFollowed(r, KEYWORD, Func, 0) && IsFollowed(r, IDENT, None, 1) && IsFollowed(r, LPAREN, None, 2)
    requires IsFollowed(r, RPAREN, None, 3) && IsFollowed(r, COLON, None, 4)
    ensures ParseFuncHeader(r) == Ok(((r.tokens[r.pos + 1].lexeme, []), Reader(r.tokens, r.pos + 5)))
  {
    ExpectHere(r, KEYWORD, Func);
    ExpectFollowed(r, IDENT, None, 1);
    ExpectFollowed(r, LPAREN, None, 2);
    ExpectFollowed(r, COLON, None, 4);
  }

  /** What follows the parameter list of a definition at `r`: a COLON after
      `r5`, a block after it, and the definition built from them. */
  predicate FuncDefRest(r: Reader, params: seq<string>, r5: Reader) {
    r.pos + 1 < |r.tokens|
    && IsFollowed(r5, COLON, None, 0)
    && ParseBlock(Skip(r5)).Ok?
    && ParseFuncDef(r) == Ok((FuncDef(r.tokens[r.pos + 1].lexeme, params, ParseBlock(Skip(r5)).value.0), ParseBlock(Skip(r5)).value.1))
  }

  /** Conversely, every definition that parses went through FuncDefEmptyStep
      or FuncDefStep. */
  lemma FuncDefSound(r: Reader)
    requires ParseFuncDef(r).Ok?
    ensures IsFollowed(r, KEYWORD, Func, 0) && IsFollowed(r, IDENT, None, 1) && IsFollowed(r, LPAREN, None, 2)
    ensures IsFollowed(r, RPAREN, None, 3) ==> FuncDefRest(r, [], Reader(r.tokens, r.pos + 4))
    ensures !IsFollowed(r, RPAREN, None, 3) ==>
      ParseParams(Reader(r.tokens, r.pos + 3)).Ok?
      && FuncDefRest(r, ParseParams(Reader(r.tokens, r.pos + 3)).value.0, ParseParams(Reader(r.tokens, r.pos + 3)).value.1)
  {
    FuncHeaderSound(r);
    var r3 := Reader(r.tokens, r.pos + 3);
    var ps := ParseParamList(r3);
    FuncDefUnfold(r, ps.value.0, ps.value.1);
    if IsFollowed(r, RPAREN, None, 3) {
      assert IsFollowed(r3, RPAREN, None, 0);
    } else {
      assert !IsFollowed(r3, RPAREN, None, 0);
    }
  }

  /** A definition whose header reads `params` up to `r5` is the block after
      the COLON that follows. */
  lemma FuncDefUnfold(r: Reader, params: seq<string>, r5: Reader)
    requires r.pos + 1 < |r.tokens| && IsFollowed(r5, COLON, None, 0)
    requires ParseFuncHeader(r) == Ok(((r.tokens[r.pos + 1].lexeme, params), Skip(r5)))
    requires ParseFuncDef(r).Ok?
    ensures FuncDefRest(r, params, r5)
  {
  }

  /** Every header that parses is `func NAME (`, a parameter list and a
      COLON. */
  lemma FuncHeaderSound(r: Reader)
    requires ParseFuncHeader(r).Ok?
    ensures IsFollowed(r, KEYWORD, Func, 0) && IsFollowed(r, IDENT, None, 1) && IsFollowed(r, LPAREN, None, 2)
    ensures var ps := ParseParamList(Reader(r.tokens, r.pos + 3));
            ps.Ok? && IsFollowed(ps.value.1, COLON, None, 0)
            && ParseFuncHeader(r) == Ok(((r.tokens[r.pos + 1].lexeme, ps.value.0), Skip(ps.value.1)))
  {
  }

  /** A token of the given kind and lexeme. */
  predicate TokenIs(t: Token, kind: TokenKind, lexeme: string) {
    t.kind == kind && t.lexeme == lexeme
  }

  /** `func add(a, b):`, NEWLINE, INDENT, `a + b`, NEWLINE, DEDENT, token by
      token (a list this long is stated per token rather than through Kinds and
      Lexemes). */
  predicate AddDefinition(ts: seq<Token>) {
    |ts| == 15
    && TokenIs(ts[0], KEYWORD, "func")
    && TokenIs(ts[1], IDENT, "add")
    && TokenIs(ts[2], LPAREN, "(")
    && TokenIs(ts[3], IDENT, "a")
    && TokenIs(ts[4], COMMA, ",")
    && TokenIs(ts[5], IDENT, "b")
    && TokenIs(ts[6], RPAREN, ")")
    && TokenIs(ts[7], COLON, ":")
    && TokenIs(ts[8], NEWLINE, "\n")
    && TokenIs(ts[9], INDENT, "")
    && TokenIs(ts[10], IDENT, "a")
    && TokenIs(ts[11], OP, "+")
    && TokenIs(ts[12], IDENT, "b")
    && TokenIs(ts[13], NEWLINE, "\n")
    && TokenIs(ts[14], DEDENT, "")
  }

  lemma AddDefinitionParams(ts: seq<Token>)
    requires AddDefinition(ts)
    ensures ParseParams(Reader(ts, 3)) == Ok((["a", "b"], Reader(ts, 7)))
  {
    var ps := ts[3..7];
    assert ps[0] == ts[3] && ps[1] == ts[4] && ps[2] == ts[5] && ps[3] == ts[6];
    assert ParamTokens(ps, ["a", "b"]);
    ParamsComplete(Reader(ts, 3), ["a", "b"]);
  }

  lemma AddDefinitionBody(ts: seq<Token>)
    requires AddDefinition(ts)
    ensures ParseBlock(Reader(ts, 8)) == Ok((FuncCall("add", [Var("a"), Var("b")]), Reader(ts, 15)))
  {
    BinaryLookups();
    var sum := FuncCall("add", [Var("a"), Var("b")]);
    OneOperator(Reader(ts, 10), 0);
    BinaryExpr(Reader(ts, 10), sum, Reader(ts, 13));
    StatementNewline(Reader(ts, 10), sum, Reader(ts, 13));
    SingleStatementBlock(Reader(ts, 8), sum, Reader(ts, 14));
  }

  /** The definition of add parses to a FuncDef with parameters a and b
      whose one-statement indented body is collapsed to the sum itself. */
  lemma DefineAdd(ts: seq<Token>)
    requires AddDefinition(ts)
    ensures Parse(ts) == Ok(Block([FuncDef("add", ["a", "b"], FuncCall("add", [Var("a"), Var("b")]))]))
  {
    AddStatement(ts);
    SingleStatementProgram(ts, FuncDef("add", ["a", "b"], FuncCall("add", [Var("a"), Var("b")])));
  }

  lemma AddStatement(ts: seq<Token>)
    requires AddDefinition(ts)
    ensures |ts| == 15 && ts[0].kind != NEWLINE
    ensures ParseStatement(Reader(ts, 0)) == Ok((FuncDef("add", ["a", "b"], FuncCall("add", [Var("a"), Var("b")])), Reader(ts, 15)))
  {
    var sum := FuncCall("add", [Var("a"), Var("b")]);
    AddDefinitionParams(ts);
    AddDefinitionBody(ts);
    FuncDefStep(Reader(ts, 0), ["a", "b"], Reader(ts, 7), sum, Reader(ts, 15));
  }

  // ----- blocks ----------------------------------------------------------------

  /** An expression followed by NEWLINE is a statement that consumes it. */
  lemma StatementNewline(r: Reader, e: Node, r1: Reader)
    requires !IsFollowed(r, KEYWORD, Func, 0)
    requires ParseExpr(r) == Ok((e, r1))
    requires IsFollowed(r1, NEWLINE, None, 0)
    ensures ParseStatement(r) == Ok((e, Skip(r1)))
  {
  }

  /** An indented block of exactly one statement is that statement itself. */
  lemma SingleStatementBlock(r: Reader, s: Node, r3: Reader)
    requires r.pos + 1 < |r.tokens| && r.tokens[r.pos].kind == NEWLINE && r.tokens[r.pos + 1].kind == INDENT
    requires ParseStatement(Reader(r.tokens, r.pos + 2)) == Ok((s, r3))
    requires r3.pos < |r3.tokens| && r3.tokens[r3.pos].kind == DEDENT
    ensures ParseBlock(r) == Ok((s, Skip(r3)))
  {
    var r2 := Reader(r.tokens, r.pos + 2);
    assert StartsExpression(r.tokens[r2.pos].kind);
    BodyStatement(r2, s, r3, [], Skip(r3));
    assert [s] + [] == [s];
    IndentedBlock(r, [s], Skip(r3));
  }

  /** NEWLINE INDENT starts an indented block; one statement comes out bare. */
  lemma IndentedBlock(r: Reader, statements: seq<Node>, r3: Reader)
    requires r.pos + 1 < |r.tokens| && r.tokens[r.pos].kind == NEWLINE && r.tokens[r.pos + 1].kind == INDENT
    requires ParseBlockBody(Reader(r.tokens, r.pos + 2)) == Ok((statements, r3))
    ensures ParseBlock(r) == Ok((if |statements| == 1 then statements[0] else Block(statements), r3))
  {
    assert Match(r, NEWLINE, None) == (Some(r.tokens[r.pos]), Skip(r));
    assert IsFollowed(Skip(r), INDENT, None, 0);
    assert Skip(Skip(r)) == Reader(r.tokens, r.pos + 2);
  }

  /** A statement inside an indented block, followed by the rest of it. */
  lemma BodyStatement(r: Reader, s: Node, r3: Reader, rest: seq<Node>, r4: Reader)
    requires r.pos < |r.tokens| && r.tokens[r.pos].kind != DEDENT && r.tokens[r.pos].kind != NEWLINE
    requires ParseStatement(r) == Ok((s, r3))
    requires ParseBlockBody(r3) == Ok((rest, r4))
    ensures ParseBlockBody(r) == Ok(([s] + rest, r4))
  {
  }

  /** An indented block of any other number of statements is a Block of
      them in source order. */
  lemma StatementsBlock(r: Reader, statements: seq<Node>, r3: Reader)
    requires r.pos + 1 < |r.tokens| && r.tokens[r.pos].kind == NEWLINE && r.tokens[r.pos + 1].kind == INDENT
    requires ParseBlockBody(Reader(r.tokens, r.pos + 2)) == Ok((statements, r3))
    requires |statements| != 1
    ensures ParseBlock(r) == Ok((Block(statements), r3))
  {
    IndentedBlock(r, statements, r3);
  }

  /** Without NEWLINE INDENT the block is one expression on the same line (a
      lone NEWLINE before it is consumed), ended by at most one NEWLINE. */
  lemma InlineBlock(r: Reader)
    requires !(IsFollowed(r, NEWLINE, None, 0) && IsFollowed(r, INDENT, None, 1))
    ensures var r1 := if IsFollowed(r, NEWLINE, None, 0) then Skip(r) else r;
            ParseExpr(r1).Err? ==> ParseBlock(r) == ParseExpr(r1)
    ensures var r1 := if IsFollowed(r, NEWLINE, None, 0) then Skip(r) else r;
            ParseExpr(r1).Ok? ==> ParseBlock(r) == Ok((ParseExpr(r1).value.0, Match(ParseExpr(r1).value.1, NEWLINE, None).1))
  {
    if IsFollowed(r, NEWLINE, None, 0) {
      assert Match(r, NEWLINE, None) == (Some(r.tokens[r.pos]), Skip(r));
      assert !IsFollowed(Skip(r), INDENT, None, 0);
    } else {
      assert Match(r, NEWLINE, None) == (None, r);
    }
  }

  /** An indented block must end with its DEDENT: running out of tokens
      inside it is an unexpected end of file. */
  lemma UnterminatedBlock(r: Reader)
    requires r.pos >= |r.tokens|
    ensures ParseBlockBody(r) == Err(ParserError(UnexpectedEof, None, None))
  {
    ExprAtEnd(r);
    assert ParseStatement(r) == Err(ParserError(UnexpectedEof, None, None));
  }

  /** A one-line block: an expression not followed by NEWLINE. */
  lemma InlineBlockStep(r: Reader, e: Node, r1: Reader)
    requires !IsFollowed(r, NEWLINE, None, 0)
    requires ParseExpr(r) == Ok((e, r1))
    requires !IsFollowed(r1, NEWLINE, None, 0)
    ensures ParseBlock(r) == Ok((e, r1))
  {
  }

  /** Blank lines inside an indented block are skipped. */
  lemma BlankLineInBlock(r: Reader)
    requires r.pos < |r.tokens| && r.tokens[r.pos].kind == NEWLINE
    ensures ParseBlockBody(r) == ParseBlockBody(Skip(r))
  {
  }

  // ----- statements and control constructs -------------------------------------

  /** The keyword `func` starts a function definition; anything else is an
      expression statement ended by at most one NEWLINE. */
  lemma StatementKinds(r: Reader)
    ensures IsFollowed(r, KEYWORD, Func, 0) ==> ParseStatement(r) == ParseFuncDef(r)
    ensures !IsFollowed(r, KEYWORD, Func, 0) && ParseExpr(r).Ok? ==>
      ParseStatement(r) == Ok((ParseExpr(r).value.0, Match(ParseExpr(r).value.1, NEWLINE, None).1))
  {
  }

  /** `if COND : BLOCK` not followed by `else`. */
  lemma IfStep(r: Reader, cond: Node, r2: Reader, thenBranch: Node, r4: Reader)
    requires IsFollowed(r, KEYWORD, Some("if"), 0)
    requires ParseExpr(Skip(r)) == Ok((cond, r2))
    requires IsFollowed(r2, COLON, None, 0)
    requires ParseBlock(Skip(r2)) == Ok((thenBranch, r4))
    requires !IsFollowed(r4, KEYWORD, Some("else"), 0)
    ensures ParseIf(r) == Ok((IfExpr(cond, thenBranch, None), r4))
  {
  }

  /** `if COND : BLOCK else : BLOCK`. */
  lemma IfElseStep(r: Reader, cond: Node, r2: Reader, thenBranch: Node, r4: Reader, elseBranch: Node, r7: Reader)
    requires IsFollowed(r, KEYWORD, Some("if"), 0)
    requires ParseExpr(Skip(r)) == Ok((cond, r2))
    requires IsFollowed(r2, COLON, None, 0)
    requires ParseBlock(Skip(r2)) == Ok((thenBranch, r4))
    requires IsFollowed(r4, KEYWORD, Some("else"), 0) && IsFollowed(r4, COLON, None, 1)
    requires ParseBlock(Skip(Skip(r4))) == Ok((elseBranch, r7))
    ensures ParseIf(r) == Ok((IfExpr(cond, thenBranch, Some(elseBranch)), r7))
  {
  }

  /** `while COND : BLOCK`. */
  lemma WhileStep(r: Reader, cond: Node, r2: Reader, body: Node, r4: Reader)
    requires IsFollowed(r, KEYWORD, Some("while"), 0)
    requires ParseExpr(Skip(r)) == Ok((cond, r2))
    requires IsFollowed(r2, COLON, None, 0)
    requires ParseBlock(Skip(r2)) == Ok((body, r4))
    ensures ParseWhile(r) == Ok((WhileExpr(cond, body), r4))
  {
  }

  /** The keyword, name, `in` and `:` of a `for`, found by lookahead, are
      what its `expect` calls consume. */
  lemma ForExpects(r: Reader, r4: Reader)
    requires IsFollowed(r, KEYWORD, Some("for"), 0) && IsFollowed(r, IDENT, None, 1)
    requires IsFollowed(r, KEYWORD, Some("in"), 2)
    requires IsFollowed(r4, COLON, None, 0)
    ensures Expect(r, KEYWORD, Some("for")) == Ok((r.tokens[r.pos], Skip(r)))
    ensures Expect(Reader(r.tokens, r.pos + 1), IDENT, None) == Ok((r.tokens[r.pos + 1], Reader(r.tokens, r.pos + 2)))
    ensures Expect(Reader(r.tokens, r.pos + 2), KEYWORD, Some("in")) == Ok((r.tokens[r.pos + 2], Reader(r.tokens, r.pos + 3)))
    ensures Expect(r4, COLON, None) == Ok((r4.tokens[r4.pos], Skip(r4)))
  {
    ExpectHere(r, KEYWORD, Some("for"));
    ExpectFollowed(r, IDENT, None, 1);
    ExpectFollowed(r, KEYWORD, Some("in"), 2);
    ExpectHere(r4, COLON, None);
  }

  /** `for` once its four `expect` calls are known to succeed. */
  lemma ForAfterExpects(r: Reader, iterable: Node, r4: Reader, body: Node, r6: Reader)
    requires r.pos + 3 <= |r.tokens|
    requires Expect(r, KEYWORD, Some("for")) == Ok((r.tokens[r.pos], Skip(r)))
    requires Expect(Reader(r.tokens, r.pos + 1), IDENT, None) == Ok((r.tokens[r.pos + 1], Reader(r.tokens, r.pos + 2)))
    requires Expect(Reader(r.tokens, r.pos + 2), KEYWORD, Some("in")) == Ok((r.tokens[r.pos + 2], Reader(r.tokens, r.pos + 3)))
    requires ParseExpr(Reader(r.tokens, r.pos + 3)) == Ok((iterable, r4))
    requires r4.pos < |r4.tokens|
    requires Expect(r4, COLON, None) == Ok((r4.tokens[r4.pos], Skip(r4)))
    requires ParseBlock(Skip(r4)) == Ok((body, r6))
    ensures ParseFor(r) == Ok((ForExpr(r.tokens[r.pos + 1].lexeme, iterable, body), r6))
  {
  }

  /** `for NAME in ITERABLE : BLOCK`. */
  lemma ForStep(r: Reader, iterable: Node, r4: Reader, body: Node, r6: Reader)
    requires IsFollowed(r, KEYWORD, Some("for"), 0) && IsFollowed(r, IDENT, None, 1)
    requires IsFollowed(r, KEYWORD, Some("in"), 2)
    requires ParseExpr(Reader(r.tokens, r.pos + 3)) == Ok((iterable, r4))
    requires IsFollowed(r4, COLON, None, 0)
    requires ParseBlock(Skip(r4)) == Ok((body, r6))
    ensures ParseFor(r) == Ok((ForExpr(r.tokens[r.pos + 1].lexeme, iterable, body), r6))
  {
    ForExpects(r, r4);
    ForAfterExpects(r, iterable, r4, body, r6);
  }

  /** The top-level parse_number fails on exactly the tokens ParseNumber
      accepts: `1` is a number to ParseNumber and an AttributeError to the
      code as written. */
  lemma NumberValueMissing(r: Reader)
    ensures ParseNumber(r).Ok? <==> ParseNumberAsWritten(r) == Err(AttributeError("number_value"))
    ensures ParseNumber(r).Err? ==> ParseNumberAsWritten(r) == ParseNumber(r)
  {
  }

  /** Every primary that parses is one of the five operand forms: a NUMBER,
      a STRING, a name or call, a parenthesised expression, or a control
      construct handed over with its keyword. */
  lemma PrimarySound(r: Reader)
    requires ParsePrimary(r).Ok?
    ensures r.pos < |r.tokens| && StartsOperand(r.tokens[r.pos].kind)
    ensures r.tokens[r.pos].kind == NUMBER ==> ParsePrimary(r).value == (Number(r.tokens[r.pos].lexeme), Skip(r))
    ensures r.tokens[r.pos].kind == STRING ==> ParsePrimary(r).value == (Str(Unquote(r.tokens[r.pos].lexeme)), Skip(r))
    ensures r.tokens[r.pos].kind == IDENT ==> ParseVar(r) == ParsePrimary(r)
    ensures r.tokens[r.pos].kind == LPAREN ==>
      ParseExpr(Skip(r)).Ok? && IsFollowed(ParseExpr(Skip(r)).value.1, RPAREN, None, 0)
      && ParsePrimary(r).value == (ParseExpr(Skip(r)).value.0, Skip(ParseExpr(Skip(r)).value.1))
    ensures r.tokens[r.pos].kind == KEYWORD ==> r.tokens[r.pos].lexeme in ControlExpressions
    ensures r.tokens[r.pos].kind == KEYWORD && r.tokens[r.pos].lexeme == "if" ==> ParseIf(r) == ParsePrimary(r)
    ensures r.tokens[r.pos].kind == KEYWORD && r.tokens[r.pos].lexeme == "while" ==> ParseWhile(r) == ParsePrimary(r)
    ensures r.tokens[r.pos].kind == KEYWORD && r.tokens[r.pos].lexeme == "for" ==> ParseFor(r) == ParsePrimary(r)
  {
    var t := r.tokens[r.pos];
    if t.kind == LPAREN {
      var r1 := Skip(r);
      assert Expect(r, LPAREN, None) == Ok((t, r1));
      var r2 := ParseExpr(r1).value.1;
      FollowedIffMatch(r2, RPAREN, None, 0);
    } else if t.kind == KEYWORD {
      ControlDispatch(r);
    }
  }

  /** Every expression that parses is an assignment, IDENT `=` and a value
      read by the expression parser, or else a binary expression at minimum
      precedence 0. */
  lemma ExprSound(r: Reader)
    requires ParseExpr(r).Ok?
    ensures var e := ParseExpr(r).value;
            if IsFollowed(r, IDENT, None, 0) && IsFollowed(r, ASSIGN, None, 1) then
              ParseExpr(Skip(Skip(r))).Ok?
              && e == (Assign(r.tokens[r.pos].lexeme, ParseExpr(Skip(Skip(r))).value.0), ParseExpr(Skip(Skip(r))).value.1)
            else
              ParseBinary(r, 0) == Ok(e)
  {
    if IsFollowed(r, IDENT, None, 0) && IsFollowed(r, ASSIGN, None, 1) {
      AssignmentExpr(r);
    }
  }

  /** Every statement that parses is a definition, or an expression followed
      by at most one NEWLINE, which it consumes. */
  lemma StatementSound(r: Reader)
    requires ParseStatement(r).Ok?
    ensures IsFollowed(r, KEYWORD, Func, 0) ==> ParseFuncDef(r) == ParseStatement(r)
    ensures !IsFollowed(r, KEYWORD, Func, 0) ==>
      ParseExpr(r).Ok? && ParseStatement(r).value == (ParseExpr(r).value.0, Match(ParseExpr(r).value.1, NEWLINE, None).1)
  {
  }

  /** Conversely, every `while` that parses went through WhileStep: the
      keyword, a condition, a COLON and a block, nothing else. */
  lemma WhileSound(r: Reader)
    requires ParseWhile(r).Ok?
    ensures IsFollowed(r, KEYWORD, Some("while"), 0)
    ensures ParseExpr(Skip(r)).Ok? && IsFollowed(ParseExpr(Skip(r)).value.1, COLON, None, 0)
    ensures var c := ParseExpr(Skip(r)).value;
            var b := ParseBlock(Skip(c.1));
            b.Ok? && ParseWhile(r) == Ok((WhileExpr(c.0, b.value.0), b.value.1))
  {
  }

  /** Every `if` that parses went through IfStep or IfElseStep. */
  lemma IfSound(r: Reader)
    requires ParseIf(r).Ok?
    ensures IsFollowed(r, KEYWORD, Some("if"), 0)
    ensures ParseExpr(Skip(r)).Ok? && IsFollowed(ParseExpr(Skip(r)).value.1, COLON, None, 0)
    ensures var c := ParseExpr(Skip(r)).value;
            var t := ParseBlock(Skip(c.1));
            t.Ok? &&
            if !IsFollowed(t.value.1, KEYWORD, Some("else"), 0) then
              ParseIf(r) == Ok((IfExpr(c.0, t.value.0, None), t.value.1))
            else
              IsFollowed(t.value.1, COLON, None, 1)
              && var e := ParseBlock(Skip(Skip(t.value.1)));
                 e.Ok? && ParseIf(r) == Ok((IfExpr(c.0, t.value.0, Some(e.value.0)), e.value.1))
  {
  }

  /** Every `for` that parses went through ForStep. */
  lemma ForSound(r: Reader)
    requires ParseFor(r).Ok?
    ensures IsFollowed(r, KEYWORD, Some("for"), 0) && IsFollowed(r, IDENT, None, 1)
    ensures IsFollowed(r, KEYWORD, Some("in"), 2)
    ensures var it := ParseExpr(Reader(r.tokens, r.pos + 3));
            it.Ok? && IsFollowed(it.value.1, COLON, None, 0)
            && var b := ParseBlock(Skip(it.value.1));
               b.Ok? && ParseFor(r) == Ok((ForExpr(r.tokens[r.pos + 1].lexeme, it.value.0, b.value.0), b.value.1))
  {
  }

  /** `OPERAND OP RIGHT`, where RIGHT is what the right-hand side parses to
      and no OP follows it. */
  lemma OperatorThen(r: Reader, minPrec: int, right: Node, r2: Reader)
    requires AtomAt(r) && r.pos + 1 < |r.tokens|
    requires r.tokens[r.pos + 1].kind == OP && r.tokens[r.pos + 1].lexeme in BinaryOperators
    requires BinaryOperators[r.tokens[r.pos + 1].lexeme].priority >= minPrec
    requires ParseBinary(Reader(r.tokens, r.pos + 2), minPrec + 1) == Ok((right, r2))
    requires r2.pos >= |r2.tokens| || r2.tokens[r2.pos].kind != OP
    ensures ParseBinary(r, minPrec) ==
      Ok((FuncCall(BinaryOperators[r.tokens[r.pos + 1].lexeme].func, [Atom(r.tokens[r.pos]), right]), r2))
  {
    var call := FuncCall(BinaryOperators[r.tokens[r.pos + 1].lexeme].func, [Atom(r.tokens[r.pos]), right]);
    AtomOperand(r);
    BinaryAfterOperand(r, minPrec, Atom(r.tokens[r.pos]), Skip(r));
    LoopFolds(Atom(r.tokens[r.pos]), Skip(r), minPrec, right, r2);
    LoopStops(call, r2, minPrec);
  }

  /** `OPERAND OP OPERAND` with no OP after it. */
  lemma OneOperator(r: Reader, minPrec: int)
    requires AtomAt(r) && AtomAt(Reader(r.tokens, r.pos + 2))
    requires r.tokens[r.pos + 1].kind == OP && r.tokens[r.pos + 1].lexeme in BinaryOperators
    requires BinaryOperators[r.tokens[r.pos + 1].lexeme].priority >= minPrec
    requires !IsFollowed(r, OP, None, 3)
    ensures ParseBinary(r, minPrec) ==
      Ok((FuncCall(BinaryOperators[r.tokens[r.pos + 1].lexeme].func, [Atom(r.tokens[r.pos]), Atom(r.tokens[r.pos + 2])]),
          Reader(r.tokens, r.pos + 3)))
  {
    var r2 := Reader(r.tokens, r.pos + 2);
    assert Peek(r2, 1) == Peek(r, 3);
    AtomBinary(r2, minPrec + 1);
    OperatorThen(r, minPrec, Atom(r.tokens[r.pos + 2]), Skip(r2));
  }

  /** An operand that is a whole expression, and a later operand alone on its
      line that is a whole block. */
  lemma AtomExprAndBlock(r: Reader, r1: Reader)
    requires AtomAt(r) && !IsFollowed(r, OP, None, 1) && !IsFollowed(r, ASSIGN, None, 1)
    requires AtomAt(r1)
    requires !IsFollowed(r1, OP, None, 1) && !IsFollowed(r1, ASSIGN, None, 1) && !IsFollowed(r1, NEWLINE, None, 1)
    ensures ParseExpr(r) == Ok((Atom(r.tokens[r.pos]), Skip(r)))
    ensures ParseBlock(r1) == Ok((Atom(r1.tokens[r1.pos]), Skip(r1)))
  {
    AtomExpr(r);
    AtomBlock(r1);
  }

  /** An operand alone on its line is a one-line block. */
  lemma AtomBlock(r: Reader)
    requires AtomAt(r)
    requires !IsFollowed(r, OP, None, 1) && !IsFollowed(r, ASSIGN, None, 1) && !IsFollowed(r, NEWLINE, None, 1)
    ensures ParseBlock(r) == Ok((Atom(r.tokens[r.pos]), Skip(r)))
  {
    AtomExpr(r);
    assert Peek(Skip(r), 0) == Peek(r, 1);
    InlineBlockStep(r, Atom(r.tokens[r.pos]), Skip(r));
  }

  /** An expression that is the whole input, not starting with `func`, is the
      program's only statement. */
  lemma ExprProgram(tokens: seq<Token>, e: Node)
    requires |tokens| > 0 && tokens[0].kind != NEWLINE && tokens[0].kind != KEYWORD
    requires ParseExpr(Reader(tokens, 0)) == Ok((e, Reader(tokens, |tokens|)))
    ensures Parse(tokens) == Ok(Block([e]))
  {
    ExprStatement(Reader(tokens, 0), e, Reader(tokens, |tokens|));
    SingleStatementProgram(tokens, e);
  }

  /** ... and so is a binary expression that is not an assignment. */
  lemma BinaryProgram(tokens: seq<Token>, e: Node)
    requires |tokens| > 0 && tokens[0].kind != NEWLINE && tokens[0].kind != KEYWORD
    requires !(|tokens| > 1 && tokens[0].kind == IDENT && tokens[1].kind == ASSIGN)
    requires ParseBinary(Reader(tokens, 0), 0) == Ok((e, Reader(tokens, |tokens|)))
    ensures Parse(tokens) == Ok(Block([e]))
  {
    BinaryExpr(Reader(tokens, 0), e, Reader(tokens, |tokens|));
    ExprProgram(tokens, e);
  }

  /** A whole-input `if` is the program's only statement. */
  lemma IfOnly(tokens: seq<Token>, node: Node)
    requires |tokens| > 0 && tokens[0].kind == KEYWORD && tokens[0].lexeme == "if"
    requires ParseIf(Reader(tokens, 0)) == Ok((node, Reader(tokens, |tokens|)))
    ensures Parse(tokens) == Ok(Block([node]))
  {
    ControlDispatch(Reader(tokens, 0));
    ControlProgram(tokens, node);
  }

  /** ... and so is a whole-input `while` ... */
  lemma WhileOnly(tokens: seq<Token>, node: Node)
    requires |tokens| > 0 && tokens[0].kind == KEYWORD && tokens[0].lexeme == "while"
    requires ParseWhile(Reader(tokens, 0)) == Ok((node, Reader(tokens, |tokens|)))
    ensures Parse(tokens) == Ok(Block([node]))
  {
    ControlDispatch(Reader(tokens, 0));
    ControlProgram(tokens, node);
  }

  /** ... and a whole-input `for`. */
  lemma ForOnly(tokens: seq<Token>, node: Node)
    requires |tokens| > 0 && tokens[0].kind == KEYWORD && tokens[0].lexeme == "for"
    requires ParseFor(Reader(tokens, 0)) == Ok((node, Reader(tokens, |tokens|)))
    ensures Parse(tokens) == Ok(Block([node]))
  {
    ControlDispatch(Reader(tokens, 0));
    ControlProgram(tokens, node);
  }

  /** A control construct that ends the input is the only statement. */
  lemma ControlProgram(tokens: seq<Token>, node: Node)
    requires |tokens| > 0 && tokens[0].kind == KEYWORD && tokens[0].lexeme != "func"
    requires ParsePrimary(Reader(tokens, 0)) == Ok((node, Reader(tokens, |tokens|)))
    ensures Parse(tokens) == Ok(Block([node]))
  {
    var end := Reader(tokens, |tokens|);
    OperandExpr(Reader(tokens, 0), node, end);
    ExprStatement(Reader(tokens, 0), node, end);
    SingleStatementProgram(tokens, node);
  }

  /** `if x: 1 else: 2` on one line. */
  lemma IfElseOneLine(ts: seq<Token>)
    requires Kinds(ts) == [KEYWORD, IDENT, COLON, NUMBER, KEYWORD, COLON, NUMBER]
    requires Lexemes(ts) == ["if", "x", ":", "1", "else", ":", "2"]
    ensures Parse(ts)
         == Ok(Block([IfExpr(Var("x"), Number("1"), Some(Number("2")))]))
  {
    TokensAt(ts, 7);
    AtomExpr(Reader(ts, 1));
    AtomBlock(Reader(ts, 3));
    AtomBlock(Reader(ts, 6));
    IfElseStep(Reader(ts, 0), Var("x"), Reader(ts, 2), Number("1"), Reader(ts, 4), Number("2"), Reader(ts, 7));
    IfOnly(ts, IfExpr(Var("x"), Number("1"), Some(Number("2"))));
  }

  /** `if x: 1` has no else branch. */
  lemma IfWithoutElse(ts: seq<Token>)
    requires Kinds(ts) == [KEYWORD, IDENT, COLON, NUMBER]
    requires Lexemes(ts) == ["if", "x", ":", "1"]
    ensures Parse(ts)
         == Ok(Block([IfExpr(Var("x"), Number("1"), None)]))
  {
    TokensAt(ts, 4);
    IfWithoutElseParts(ts);
    IfOnly(ts, IfExpr(Var("x"), Number("1"), None));
  }

  lemma IfWithoutElseParts(ts: seq<Token>)
    requires Kinds(ts) == [KEYWORD, IDENT, COLON, NUMBER]
    requires Lexemes(ts) == ["if", "x", ":", "1"]
    ensures ParseIf(Reader(ts, 0)) == Ok((IfExpr(Var("x"), Number("1"), None), Reader(ts, 4)))
  {
    TokensAt(ts, 4);
    AtomExprAndBlock(Reader(ts, 1), Reader(ts, 3));
    IfStep(Reader(ts, 0), Var("x"), Reader(ts, 2), Number("1"), Reader(ts, 4));
  }

  /** `if x 1` fails: the condition must be followed by a colon. */
  lemma IfWithoutColon(ts: seq<Token>)
    requires Kinds(ts) == [KEYWORD, IDENT, NUMBER]
    requires Lexemes(ts) == ["if", "x", "1"]
    ensures Parse(ts)
         == Err(ParserError(Expected(COLON, None, Some(NUMBER)), Some(ts[2].start), Some(ts[2].end)))
  {
    TokensAt(ts, 3);
    IfWithoutColonIf(ts);
    OperandFailure(Reader(ts, 0));
    ProgramFailure(Reader(ts, 0));
  }

  lemma IfWithoutColonIf(ts: seq<Token>)
    requires Kinds(ts) == [KEYWORD, IDENT, NUMBER]
    requires Lexemes(ts) == ["if", "x", "1"]
    ensures ParseUnary(Reader(ts, 0))
         == Err(ParserError(Expected(COLON, None, Some(NUMBER)), Some(ts[2].start), Some(ts[2].end)))
  {
    TokensAt(ts, 3);
    AtomExpr(Reader(ts, 1));
    ControlDispatch(Reader(ts, 0));
    assert ParseUnary(Reader(ts, 0)) == ParseIf(Reader(ts, 0));
  }

  /** `while x: x = 0`. */
  lemma WhileOneLine(ts: seq<Token>)
    requires Kinds(ts) == [KEYWORD, IDENT, COLON, IDENT, ASSIGN, NUMBER]
    requires Lexemes(ts) == ["while", "x", ":", "x", "=", "0"]
    ensures Parse(ts)
         == Ok(Block([WhileExpr(Var("x"), Assign("x", Number("0")))]))
  {
    TokensAt(ts, 6);
    AtomExpr(Reader(ts, 1));
    AtomExpr(Reader(ts, 5));
    AssignmentExpr(Reader(ts, 3));
    InlineBlockStep(Reader(ts, 3), Assign("x", Number("0")), Reader(ts, 6));
    WhileStep(Reader(ts, 0), Var("x"), Reader(ts, 2), Assign("x", Number("0")), Reader(ts, 6));
    WhileOnly(ts, WhileExpr(Var("x"), Assign("x", Number("0"))));
  }

  /** `for i in xs: i`. */
  lemma ForOneLine(ts: seq<Token>)
    requires Kinds(ts) == [KEYWORD, IDENT, KEYWORD, IDENT, COLON, IDENT]
    requires Lexemes(ts) == ["for", "i", "in", "xs", ":", "i"]
    ensures Parse(ts)
         == Ok(Block([ForExpr("i", Var("xs"), Var("i"))]))
  {
    TokensAt(ts, 6);
    AtomExpr(Reader(ts, 3));
    AtomBlock(Reader(ts, 5));
    ForStep(Reader(ts, 0), Var("xs"), Reader(ts, 4), Var("i"), Reader(ts, 6));
    ForOnly(ts, ForExpr("i", Var("xs"), Var("i")));
  }

  // ----- the whole program -------------------------------------------------------

  /** An expression not followed by NEWLINE is a whole statement. */
  lemma ExprStatement(r: Reader, e: Node, r1: Reader)
    requires !IsFollowed(r, KEYWORD, Func, 0)
    requires ParseExpr(r) == Ok((e, r1))
    requires !IsFollowed(r1, NEWLINE, None, 0)
    ensures ParseStatement(r) == Ok((e, r1))
  {
  }

  /** A binary expression not starting with `IDENT =` is a whole expression. */
  lemma BinaryExpr(r: Reader, e: Node, r1: Reader)
    requires !(IsFollowed(r, IDENT, None, 0) && IsFollowed(r, ASSIGN, None, 1))
    requires ParseBinary(r, 0) == Ok((e, r1))
    ensures ParseExpr(r) == Ok((e, r1))
  {
  }

  /** A token list that is one statement is a Block of that statement. */
  lemma SingleStatementProgram(tokens: seq<Token>, s: Node)
    requires |tokens| > 0 && tokens[0].kind != NEWLINE
    requires ParseStatement(Reader(tokens, 0)) == Ok((s, Reader(tokens, |tokens|)))
    ensures Parse(tokens) == Ok(Block([s]))
  {
    LastStatement(Reader(tokens, 0), s);
  }

  /** A statement that ends the input is the last one of the program. */
  lemma LastStatement(r: Reader, s: Node)
    requires r.pos < |r.tokens| && r.tokens[r.pos].kind != NEWLINE
    requires ParseStatement(r) == Ok((s, Reader(r.tokens, |r.tokens|)))
    ensures ParseProgramBody(r) == Ok(([s], Reader(r.tokens, |r.tokens|)))
  {
    var end := Reader(r.tokens, |r.tokens|);
    assert ParseProgramBody(end) == Ok(([], end));
    ProgramStatement(r, s, end, [], end);
    assert [s] + [] == [s];
  }

  /** A failing statement fails the program with its error. */
  lemma ProgramFailure(r: Reader)
    requires r.pos < |r.tokens| && r.tokens[r.pos].kind != NEWLINE
    requires ParseStatement(r).Err?
    ensures ParseProgramBody(r).Err? && ParseProgramBody(r).error == ParseStatement(r).error
  {
  }

  /** A failing expression statement fails with the expression's error. */
  lemma ExprFailure(r: Reader)
    requires !IsFollowed(r, KEYWORD, Func, 0)
    requires ParseExpr(r).Err?
    ensures ParseStatement(r) == ParseExpr(r)
  {
  }

  /** A failing program body fails the whole parse with its error. */
  lemma ParseFailure(tokens: seq<Token>)
    requires ParseProgramBody(Reader(tokens, 0)).Err?
    ensures Parse(tokens) == Err(ParseProgramBody(Reader(tokens, 0)).error)
  {
  }

  /** A failure after a successful statement fails the program. */
  lemma ProgramFailureLater(r: Reader, s: Node, r2: Reader)
    requires r.pos < |r.tokens| && r.tokens[r.pos].kind != NEWLINE
    requires ParseStatement(r) == Ok((s, r2))
    requires ParseProgramBody(r2).Err?
    ensures ParseProgramBody(r).Err? && ParseProgramBody(r).error == ParseProgramBody(r2).error
  {
  }

  lemma ProgramStatement(r: Reader, s: Node, r2: Reader, rest: seq<Node>, r3: Reader)
    requires r.pos < |r.tokens| && r.tokens[r.pos].kind != NEWLINE
    requires ParseStatement(r) == Ok((s, r2))
    requires ParseProgramBody(r2) == Ok((rest, r3))
    ensures ParseProgramBody(r) == Ok(([s] + rest, r3))
  {
  }

  /** Blank NEWLINE tokens between statements are skipped. */
  lemma ProgramBlankLine(r: Reader)
    requires r.pos < |r.tokens| && r.tokens[r.pos].kind == NEWLINE
    ensures ParseProgramBody(r) == ParseProgramBody(Skip(r))
  {
  }

  /** A program of NEWLINE tokens only (or of none) is the empty Block. */
  lemma {:induction false} BlankProgramBody(r: Reader)
    requires forall i :: r.pos <= i < |r.tokens| ==> r.tokens[i].kind == NEWLINE
    ensures ParseProgramBody(r) == Ok(([], if r.pos <= |r.tokens| then Reader(r.tokens, |r.tokens|) else r))
    decreases Remaining(r)
  {
    if r.pos < |r.tokens| {
      ProgramBlankLine(r);
      BlankProgramBody(Skip(r));
    }
  }

  lemma BlankProgram(tokens: seq<Token>)
    requires forall i :: 0 <= i < |tokens| ==> tokens[i].kind == NEWLINE
    ensures Parse(tokens) == Ok(Block([]))
  {
    BlankProgramBody(Reader(tokens, 0));
  }

  /** Statements separated by NEWLINEs come out in source order. */
  lemma TwoStatements(ts: seq<Token>)
    requires Kinds(ts) == [IDENT, ASSIGN, NUMBER, NEWLINE, NEWLINE, IDENT]
    requires Lexemes(ts) == ["x", "=", "1", "\n", "\n", "x"]
    ensures Parse(ts)
         == Ok(Block([Assign("x", Number("1")), Var("x")]))
  {
    TokenAt(ts, 0);
    TwoStatementsFirst(ts);
    TwoStatementsRest(ts);
    FirstStatement(ts, Assign("x", Number("1")), Reader(ts, 4), [Var("x")]);
    assert [Assign("x", Number("1"))] + [Var("x")] == [Assign("x", Number("1")), Var("x")];
  }

  /** A first statement followed by the rest of the program. */
  lemma FirstStatement(tokens: seq<Token>, s: Node, r2: Reader, rest: seq<Node>)
    requires |tokens| > 0 && tokens[0].kind != NEWLINE
    requires ParseStatement(Reader(tokens, 0)) == Ok((s, r2))
    requires ParseProgramBody(r2) == Ok((rest, Reader(tokens, |tokens|)))
    ensures Parse(tokens) == Ok(Block([s] + rest))
  {
    ProgramStatement(Reader(tokens, 0), s, r2, rest, Reader(tokens, |tokens|));
  }

  lemma TwoStatementsFirst(ts: seq<Token>)
    requires Kinds(ts) == [IDENT, ASSIGN, NUMBER, NEWLINE, NEWLINE, IDENT]
    requires Lexemes(ts) == ["x", "=", "1", "\n", "\n", "x"]
    ensures ParseStatement(Reader(ts, 0)) == Ok((Assign("x", Number("1")), Reader(ts, 4)))
  {
    TwoStatementsAssign(ts);
    StatementNewline(Reader(ts, 0), Assign("x", Number("1")), Reader(ts, 3));
  }

  lemma TwoStatementsAssign(ts: seq<Token>)
    requires Kinds(ts) == [IDENT, ASSIGN, NUMBER, NEWLINE, NEWLINE, IDENT]
    requires Lexemes(ts) == ["x", "=", "1", "\n", "\n", "x"]
    ensures ParseExpr(Reader(ts, 0)) == Ok((Assign("x", Number("1")), Reader(ts, 3)))
    ensures !IsFollowed(Reader(ts, 0), KEYWORD, Func, 0) && IsFollowed(Reader(ts, 3), NEWLINE, None, 0)
  {
    TokensAt(ts, 6);
    AtomExpr(Reader(ts, 2));
    assert Skip(Skip(Reader(ts, 0))) == Reader(ts, 2);
    AssignmentExpr(Reader(ts, 0));
  }

  lemma TwoStatementsRest(ts: seq<Token>)
    requires Kinds(ts) == [IDENT, ASSIGN, NUMBER, NEWLINE, NEWLINE, IDENT]
    requires Lexemes(ts) == ["x", "=", "1", "\n", "\n", "x"]
    ensures ParseProgramBody(Reader(ts, 4)) == Ok(([Var("x")], Reader(ts, 6)))
  {
    TokensAt(ts, 6);
    AtomExpr(Reader(ts, 5));
    ExprStatement(Reader(ts, 5), Var("x"), Reader(ts, 6));
    LastStatement(Reader(ts, 5), Var("x"));
    ProgramBlankLine(Reader(ts, 4));
  }

}
