/** Properties of the parser over whole lists: which token sequences the
    argument loop, the program loop and the block-body loop accept, and the
    tree the operator loop builds for a chain of operators of one priority
    and the unary parser for a run of prefix operators. Expressions and
    statements inside a list are the spans that the expression and statement
    parsers read, so each list is described by the positions that cut it. */
module ParserLists {
  import opened Wrappers
  import opened Tokens
  import opened Syntax
  import opened TokenReader
  import opened Ast
  import opened Parser
  import opened ParserFacts

  // ----- argument lists --------------------------------------------------------

  /** Argument `i` is the expression parse_expr reads from `cuts[i]`, and the
      token just before `cuts[i + 1]` is the COMMA after it, or the RPAREN
      after the last argument. */
  predicate ArgAt(ts: seq<Token>, cuts: seq<nat>, args: seq<Node>, i: nat)
    requires i < |args| && |cuts| == |args| + 1
  {
    cuts[i] < cuts[i + 1] <= |ts|
    && ParseExpr(Reader(ts, cuts[i])) == Ok((args[i], Reader(ts, cuts[i + 1] - 1)))
    && ts[cuts[i + 1] - 1].kind == (if i == |args| - 1 then RPAREN else COMMA)
  }

  /** `cuts` splits the tokens after a call's `(` into its arguments. */
  predicate ArgSpans(ts: seq<Token>, cuts: seq<nat>, args: seq<Node>) {
    |args| >= 1 && |cuts| == |args| + 1
    && forall i :: 0 <= i < |args| ==> ArgAt(ts, cuts, args, i)
  }

  lemma ArgSpansTail(ts: seq<Token>, cuts: seq<nat>, args: seq<Node>)
    requires ArgSpans(ts, cuts, args) && |args| > 1
    ensures ArgSpans(ts, cuts[1..], args[1..])
  {
    forall i | 0 <= i < |args| - 1
      ensures ArgAt(ts, cuts[1..], args[1..], i)
    {
      assert ArgAt(ts, cuts, args, i + 1);
      assert cuts[1..][i] == cuts[i + 1] && cuts[1..][i + 1] == cuts[i + 2] && args[1..][i] == args[i + 1];
    }
  }

  lemma ArgSpansCons(ts: seq<Token>, c: nat, e: Node, cuts: seq<nat>, args: seq<Node>)
    requires ArgSpans(ts, cuts, args)
    requires c < cuts[0] <= |ts| && ParseExpr(Reader(ts, c)) == Ok((e, Reader(ts, cuts[0] - 1)))
    requires ts[cuts[0] - 1].kind == COMMA
    ensures ArgSpans(ts, [c] + cuts, [e] + args)
  {
    var cs, es := [c] + cuts, [e] + args;
    forall i | 0 <= i < |es|
      ensures ArgAt(ts, cs, es, i)
    {
      assert ArgAt(ts, cuts, args, 0);
      if i > 0 {
        assert ArgAt(ts, cuts, args, i - 1);
        assert cs[i] == cuts[i - 1] && cs[i + 1] == cuts[i] && es[i] == args[i - 1];
      }
    }
  }

  /** Every argument list is accepted: the arguments in order, and the reader
      just past the closing `)`. */
  lemma {:induction false} ArgsComplete(ts: seq<Token>, cuts: seq<nat>, args: seq<Node>)
    requires ArgSpans(ts, cuts, args)
    ensures ParseArgs(Reader(ts, cuts[0])) == Ok((args, Reader(ts, cuts[|args|])))
    decreases |args|
  {
    assert ArgAt(ts, cuts, args, 0);
    var r, r1 := Reader(ts, cuts[0]), Reader(ts, cuts[1] - 1);
    if |args| == 1 {
      ArgsLast(r, args[0], r1);
      assert [args[0]] == args && Skip(r1) == Reader(ts, cuts[1]);
    } else {
      ArgSpansTail(ts, cuts, args);
      ArgsComplete(ts, cuts[1..], args[1..]);
      ArgsCompleteStep(ts, cuts, args);
    }
  }

  lemma ArgsCompleteStep(ts: seq<Token>, cuts: seq<nat>, args: seq<Node>)
    requires ArgSpans(ts, cuts, args) && |args| > 1
    requires ParseArgs(Reader(ts, cuts[1])) == Ok((args[1..], Reader(ts, cuts[|args|])))
    ensures ParseArgs(Reader(ts, cuts[0])) == Ok((args, Reader(ts, cuts[|args|])))
  {
    assert ArgAt(ts, cuts, args, 0);
    ArgsNextAt(ts, cuts[0], args[0], cuts[1] - 1, cuts[1], args[1..], Reader(ts, cuts[|args|]));
    assert [args[0]] + args[1..] == args;
  }

  /** ArgsNext with the positions spelled out. */
  lemma ArgsNextAt(ts: seq<Token>, start: nat, e: Node, end: nat, next: nat, rest: seq<Node>, close: Reader)
    requires ParseExpr(Reader(ts, start)) == Ok((e, Reader(ts, end)))
    requires end < |ts| && ts[end].kind == COMMA && next == end + 1
    requires ParseArgs(Reader(ts, next)) == Ok((rest, close))
    ensures ParseArgs(Reader(ts, start)) == Ok(([e] + rest, close))
  {
    ArgsNext(Reader(ts, start), e, Reader(ts, end), rest, close);
  }

  /** The arguments `args` run from `start`, and the list closes just
      before `close`. */
  predicate ArgShape(ts: seq<Token>, cuts: seq<nat>, args: seq<Node>, start: nat, close: nat) {
    ArgSpans(ts, cuts, args) && cuts[0] == start && cuts[|args|] == close
  }

  /** One turn of the argument loop, read backwards from its result: the
      first argument and the token after it. */
  lemma ArgsInv(ts: seq<Token>, start: nat, args: seq<Node>, close: nat) returns (e: Node, end: nat)
    requires ParseArgs(Reader(ts, start)) == Ok((args, Reader(ts, close)))
    ensures ParseExpr(Reader(ts, start)) == Ok((e, Reader(ts, end))) && start < end < |ts|
    ensures |args| >= 1 && args[0] == e
    ensures ts[end].kind == RPAREN ==> |args| == 1 && close == end + 1
    ensures ts[end].kind != RPAREN ==>
      ts[end].kind == COMMA && |args| > 1 && ParseArgs(Reader(ts, end + 1)) == Ok((args[1..], Reader(ts, close)))
  {
    var r1 := ParseExpr(Reader(ts, start)).value.1;
    e, end := ParseExpr(Reader(ts, start)).value.0, r1.pos;
    assert r1 == Reader(ts, end);
  }

  lemma ArgShapeOne(ts: seq<Token>, start: nat, e: Node, end: nat)
    requires ParseExpr(Reader(ts, start)) == Ok((e, Reader(ts, end))) && start < end < |ts|
    requires ts[end].kind == RPAREN
    ensures ArgShape(ts, [start, end + 1], [e], start, end + 1)
  {
    assert ArgAt(ts, [start, end + 1], [e], 0);
  }

  lemma ArgShapeCons(ts: seq<Token>, start: nat, e: Node, end: nat, cuts: seq<nat>, args: seq<Node>, close: nat)
    requires ParseExpr(Reader(ts, start)) == Ok((e, Reader(ts, end))) && start < end < |ts|
    requires ts[end].kind == COMMA
    requires |args| > 1 && args[0] == e
    requires ArgShape(ts, cuts, args[1..], end + 1, close)
    ensures ArgShape(ts, [start] + cuts, args, start, close)
  {
    assert ArgAt(ts, cuts, args[1..], 0);
    ArgSpansCons(ts, start, e, cuts, args[1..]);
    assert [e] + args[1..] == args;
  }

  /** Whatever the argument loop accepts is an argument list ending where the
      loop stopped. */
  lemma {:induction false} ArgsSound(ts: seq<Token>, start: nat, args: seq<Node>, close: nat)
    requires ParseArgs(Reader(ts, start)) == Ok((args, Reader(ts, close)))
    ensures exists cuts :: ArgShape(ts, cuts, args, start, close)
    decreases |ts| - start
  {
    var e, end := ArgsInv(ts, start, args, close);
    if ts[end].kind == RPAREN {
      ArgShapeOne(ts, start, e, end);
      assert args == [e];
    } else {
      ArgsSound(ts, end + 1, args[1..], close);
      var cuts :| ArgShape(ts, cuts, args[1..], end + 1, close);
      ArgShapeCons(ts, start, e, end, cuts, args, close);
    }
  }

  /** The argument loop reads exactly the argument lists. */
  lemma ArgsAccepted(ts: seq<Token>, start: nat, args: seq<Node>, close: nat)
    ensures ParseArgs(Reader(ts, start)) == Ok((args, Reader(ts, close))) <==>
            exists cuts :: ArgShape(ts, cuts, args, start, close)
  {
    if ParseArgs(Reader(ts, start)) == Ok((args, Reader(ts, close))) {
      ArgsSound(ts, start, args, close);
    }
    if exists cuts :: ArgShape(ts, cuts, args, start, close) {
      var cuts :| ArgShape(ts, cuts, args, start, close);
      ArgsComplete(ts, cuts, args);
    }
  }

  // ----- statement sequences ---------------------------------------------------

  /** Piece `i` runs from `cuts[i]` to `cuts[i + 1]`: a blank line (one
      NEWLINE, `None`) or the statement parse_statement reads there. */
  predicate PieceAt(ts: seq<Token>, cuts: seq<nat>, items: seq<Option<Node>>, i: nat)
    requires i < |items| && |cuts| == |items| + 1
  {
    cuts[i] < cuts[i + 1] <= |ts|
    && match items[i]
       case None => cuts[i + 1] == cuts[i] + 1 && ts[cuts[i]].kind == NEWLINE
       case Some(s) => ParseStatement(Reader(ts, cuts[i])) == Ok((s, Reader(ts, cuts[i + 1])))
  }

  /** `cuts` splits the tokens from `cuts[0]` to `cuts[|items|]` into blank
      lines and statements. */
  predicate Pieces(ts: seq<Token>, cuts: seq<nat>, items: seq<Option<Node>>) {
    |cuts| == |items| + 1 && forall i :: 0 <= i < |items| ==> PieceAt(ts, cuts, items, i)
  }

  /** The statements among the pieces, in order. */
  function Present(items: seq<Option<Node>>): (ss: seq<Node>)
    ensures |ss| <= |items|
  {
    if |items| == 0 then []
    else (if items[0].Some? then [items[0].value] else []) + Present(items[1..])
  }

  lemma PiecesTail(ts: seq<Token>, cuts: seq<nat>, items: seq<Option<Node>>)
    requires Pieces(ts, cuts, items) && |items| > 0
    ensures Pieces(ts, cuts[1..], items[1..])
  {
    forall i | 0 <= i < |items| - 1
      ensures PieceAt(ts, cuts[1..], items[1..], i)
    {
      assert PieceAt(ts, cuts, items, i + 1);
      assert cuts[1..][i] == cuts[i + 1] && cuts[1..][i + 1] == cuts[i + 2] && items[1..][i] == items[i + 1];
    }
  }

  lemma PiecesCons(ts: seq<Token>, c: nat, item: Option<Node>, cuts: seq<nat>, items: seq<Option<Node>>)
    requires Pieces(ts, cuts, items) && PieceAt(ts, [c, cuts[0]], [item], 0)
    ensures Pieces(ts, [c] + cuts, [item] + items)
  {
    var cs, xs := [c] + cuts, [item] + items;
    forall i | 0 <= i < |xs|
      ensures PieceAt(ts, cs, xs, i)
    {
      if i > 0 {
        assert PieceAt(ts, cuts, items, i - 1);
        assert cs[i] == cuts[i - 1] && cs[i + 1] == cuts[i] && xs[i] == items[i - 1];
      }
    }
  }

  /** Every program, a sequence of blank lines and statements running to the
      end of the input, is read as its statements in order. */
  lemma {:induction false} ProgramComplete(ts: seq<Token>, cuts: seq<nat>, items: seq<Option<Node>>)
    requires Pieces(ts, cuts, items) && cuts[|items|] == |ts|
    ensures ParseProgramBody(Reader(ts, cuts[0])) == Ok((Present(items), Reader(ts, |ts|)))
    decreases |items|
  {
    var r := Reader(ts, cuts[0]);
    if |items| > 0 {
      assert PieceAt(ts, cuts, items, 0);
      PiecesTail(ts, cuts, items);
      ProgramComplete(ts, cuts[1..], items[1..]);
      if items[0].None? {
        ProgramBlankLine(r);
        assert Skip(r) == Reader(ts, cuts[1..][0]) && Present(items) == Present(items[1..]);
      } else {
        ProgramStatement(r, items[0].value, Reader(ts, cuts[1]), Present(items[1..]), Reader(ts, |ts|));
      }
    }
  }

  /** The pieces run from `start` to the end of the input and hold the
      statements `ss`. */
  predicate ProgramShape(ts: seq<Token>, cuts: seq<nat>, items: seq<Option<Node>>, start: nat, ss: seq<Node>) {
    Pieces(ts, cuts, items) && cuts[0] == start && cuts[|items|] == |ts| && Present(items) == ss
  }

  /** A piece put in front of a split extends it. */
  lemma ConsPiece(ts: seq<Token>, start: nat, next: nat, item: Option<Node>, cuts: seq<nat>, items: seq<Option<Node>>)
    requires Pieces(ts, cuts, items) && cuts[0] == next && PieceAt(ts, [start, next], [item], 0)
    ensures Pieces(ts, [start] + cuts, [item] + items)
    ensures ([start] + cuts)[0] == start && ([start] + cuts)[|[item] + items|] == cuts[|items|]
    ensures Present([item] + items) == (if item.Some? then [item.value] else []) + Present(items)
  {
    PiecesCons(ts, start, item, cuts, items);
    assert ([item] + items)[1..] == items;
  }

  lemma ProgramShapeCons(ts: seq<Token>, start: nat, next: nat, item: Option<Node>, cuts: seq<nat>, items: seq<Option<Node>>, rest: seq<Node>)
    requires ProgramShape(ts, cuts, items, next, rest) && PieceAt(ts, [start, next], [item], 0)
    ensures ProgramShape(ts, [start] + cuts, [item] + items, start, (if item.Some? then [item.value] else []) + rest)
  {
    ConsPiece(ts, start, next, item, cuts, items);
  }

  /** One turn of the program loop, read backwards from its result. */
  lemma ProgramInv(ts: seq<Token>, start: nat, ss: seq<Node>) returns (item: Option<Node>, next: nat, rest: seq<Node>)
    requires start < |ts| && ParseProgramBody(Reader(ts, start)) == Ok((ss, Reader(ts, |ts|)))
    ensures PieceAt(ts, [start, next], [item], 0)
    ensures ParseProgramBody(Reader(ts, next)) == Ok((rest, Reader(ts, |ts|)))
    ensures ss == (if item.Some? then [item.value] else []) + rest
  {
    var r := Reader(ts, start);
    if ts[start].kind == NEWLINE {
      ProgramBlankLine(r);
      item, next, rest := None, start + 1, ss;
    } else {
      var r2 := ParseStatement(r).value.1;
      item, next, rest := Some(ParseStatement(r).value.0), r2.pos, ParseProgramBody(r2).value.0;
      assert r2 == Reader(ts, next);
    }
  }

  /** Whatever the program loop accepts is such a sequence. */
  lemma {:induction false} ProgramSound(ts: seq<Token>, start: nat, ss: seq<Node>)
    requires ParseProgramBody(Reader(ts, start)) == Ok((ss, Reader(ts, |ts|)))
    ensures exists cuts, items :: ProgramShape(ts, cuts, items, start, ss)
    decreases |ts| - start
  {
    if start >= |ts| {
      var cuts: seq<nat>, items: seq<Option<Node>> := [start], [];
      assert ProgramShape(ts, cuts, items, start, ss);
    } else {
      var item, next, rest := ProgramInv(ts, start, ss);
      ProgramSound(ts, next, rest);
      var cuts, items :| ProgramShape(ts, cuts, items, next, rest);
      ProgramShapeCons(ts, start, next, item, cuts, items, rest);
    }
  }

  /** A token list is a program of statements `ss` exactly when it splits
      into blank lines and the statements `ss`, and then the parse is the
      Block of them. */
  lemma ParseAccepted(ts: seq<Token>, ss: seq<Node>)
    ensures Parse(ts) == Ok(Block(ss)) <==> exists cuts, items :: ProgramShape(ts, cuts, items, 0, ss)
  {
    if Parse(ts) == Ok(Block(ss)) {
      ProgramSound(ts, 0, ss);
    }
    if exists cuts, items :: ProgramShape(ts, cuts, items, 0, ss) {
      var cuts, items :| ProgramShape(ts, cuts, items, 0, ss);
      ProgramComplete(ts, cuts, items);
    }
  }

  /** Every indented body, a sequence of blank lines and statements closed by
      a DEDENT, is read as its statements in order, consuming the DEDENT. */
  lemma {:induction false} BodyComplete(ts: seq<Token>, cuts: seq<nat>, items: seq<Option<Node>>)
    requires Pieces(ts, cuts, items) && cuts[|items|] < |ts| && ts[cuts[|items|]].kind == DEDENT
    ensures ParseBlockBody(Reader(ts, cuts[0])) == Ok((Present(items), Reader(ts, cuts[|items|] + 1)))
    decreases |items|
  {
    if |items| == 0 {
      BodyEnd(Reader(ts, cuts[0]));
    } else {
      PiecesTail(ts, cuts, items);
      BodyComplete(ts, cuts[1..], items[1..]);
      BodyCompleteStep(ts, cuts, items);
    }
  }

  /** The DEDENT ends the body. */
  lemma BodyEnd(r: Reader)
    requires r.pos < |r.tokens| && r.tokens[r.pos].kind == DEDENT
    ensures ParseBlockBody(r) == Ok(([], Skip(r)))
  {
  }

  lemma BodyCompleteStep(ts: seq<Token>, cuts: seq<nat>, items: seq<Option<Node>>)
    requires Pieces(ts, cuts, items) && |items| > 0
    requires ParseBlockBody(Reader(ts, cuts[1])) == Ok((Present(items[1..]), Reader(ts, cuts[|items|] + 1)))
    ensures ParseBlockBody(Reader(ts, cuts[0])) == Ok((Present(items), Reader(ts, cuts[|items|] + 1)))
  {
    FirstPiece(ts, cuts, items);
    var rest, close := Present(items[1..]), Reader(ts, cuts[|items|] + 1);
    if items[0].None? {
      BodyBlank(ts, cuts[0], cuts[1], rest, close);
    } else {
      BodyStatementStep(Reader(ts, cuts[0]), items[0].value, Reader(ts, cuts[1]), rest, close);
    }
  }

  /** The first piece, and what it adds to the statements. */
  lemma FirstPiece(ts: seq<Token>, cuts: seq<nat>, items: seq<Option<Node>>)
    requires Pieces(ts, cuts, items) && |items| > 0
    ensures cuts[0] < cuts[1] <= |ts|
    ensures items[0].None? ==> cuts[1] == cuts[0] + 1 && ts[cuts[0]].kind == NEWLINE && Present(items) == Present(items[1..])
    ensures items[0].Some? ==> ParseStatement(Reader(ts, cuts[0])) == Ok((items[0].value, Reader(ts, cuts[1])))
                               && Present(items) == [items[0].value] + Present(items[1..])
  {
    assert PieceAt(ts, cuts, items, 0);
  }

  lemma BodyBlank(ts: seq<Token>, c: nat, next: nat, rest: seq<Node>, close: Reader)
    requires c < |ts| && ts[c].kind == NEWLINE && next == c + 1
    requires ParseBlockBody(Reader(ts, next)) == Ok((rest, close))
    ensures ParseBlockBody(Reader(ts, c)) == Ok((rest, close))
  {
    BlankLineInBlock(Reader(ts, c));
  }

  lemma BodyStatementStep(r: Reader, s: Node, r3: Reader, rest: seq<Node>, close: Reader)
    requires ParseStatement(r) == Ok((s, r3))
    requires ParseBlockBody(r3) == Ok((rest, close))
    ensures ParseBlockBody(r) == Ok(([s] + rest, close))
  {
    BodyStatement(r, s, r3, rest, close);
  }

  /** The pieces run from `start` to a DEDENT just before `close` and hold
      the statements `ss`. */
  predicate BodyShape(ts: seq<Token>, cuts: seq<nat>, items: seq<Option<Node>>, start: nat, ss: seq<Node>, close: nat) {
    Pieces(ts, cuts, items) && cuts[0] == start && cuts[|items|] < |ts| && ts[cuts[|items|]].kind == DEDENT
    && cuts[|items|] + 1 == close && Present(items) == ss
  }

  lemma BodyShapeCons(ts: seq<Token>, start: nat, next: nat, item: Option<Node>, cuts: seq<nat>, items: seq<Option<Node>>, rest: seq<Node>, close: nat)
    requires BodyShape(ts, cuts, items, next, rest, close) && PieceAt(ts, [start, next], [item], 0)
    ensures BodyShape(ts, [start] + cuts, [item] + items, start, (if item.Some? then [item.value] else []) + rest, close)
  {
    ConsPiece(ts, start, next, item, cuts, items);
  }

  /** The end of the body loop, read backwards from its result. */
  lemma BodyInvEnd(ts: seq<Token>, start: nat, ss: seq<Node>, close: nat)
    requires ParseBlockBody(Reader(ts, start)) == Ok((ss, Reader(ts, close)))
    requires start < |ts| && ts[start].kind == DEDENT
    ensures ss == [] && close == start + 1
  {
  }

  /** One turn of the body loop, read backwards from its result. */
  lemma BodyInv(ts: seq<Token>, start: nat, ss: seq<Node>, close: nat) returns (item: Option<Node>, next: nat, rest: seq<Node>)
    requires ParseBlockBody(Reader(ts, start)) == Ok((ss, Reader(ts, close)))
    requires start < |ts| && ts[start].kind != DEDENT
    ensures PieceAt(ts, [start, next], [item], 0)
    ensures ParseBlockBody(Reader(ts, next)) == Ok((rest, Reader(ts, close)))
    ensures ss == (if item.Some? then [item.value] else []) + rest
  {
    var r := Reader(ts, start);
    if ts[start].kind == NEWLINE {
      BlankLineInBlock(r);
      item, next, rest := None, start + 1, ss;
    } else {
      var r3 := ParseStatement(r).value.1;
      item, next, rest := Some(ParseStatement(r).value.0), r3.pos, ParseBlockBody(r3).value.0;
      assert r3 == Reader(ts, next);
    }
  }

  /** Whatever the body loop accepts is such a sequence. */
  lemma {:induction false} BodySound(ts: seq<Token>, start: nat, ss: seq<Node>, close: nat)
    requires ParseBlockBody(Reader(ts, start)) == Ok((ss, Reader(ts, close)))
    ensures exists cuts, items :: BodyShape(ts, cuts, items, start, ss, close)
    decreases |ts| - start
  {
    if ts[start].kind == DEDENT {
      BodyInvEnd(ts, start, ss, close);
      var cuts: seq<nat>, items: seq<Option<Node>> := [start], [];
      assert BodyShape(ts, cuts, items, start, ss, close);
    } else {
      var item, next, rest := BodyInv(ts, start, ss, close);
      BodySound(ts, next, rest, close);
      var cuts, items :| BodyShape(ts, cuts, items, next, rest, close);
      BodyShapeCons(ts, start, next, item, cuts, items, rest, close);
    }
  }

  /** The body loop reads exactly the DEDENT-closed sequences of blank lines
      and statements. */
  lemma BodyAccepted(ts: seq<Token>, start: nat, ss: seq<Node>, close: nat)
    ensures ParseBlockBody(Reader(ts, start)) == Ok((ss, Reader(ts, close))) <==>
            exists cuts, items :: BodyShape(ts, cuts, items, start, ss, close)
  {
    if ParseBlockBody(Reader(ts, start)) == Ok((ss, Reader(ts, close))) {
      BodySound(ts, start, ss, close);
    }
    if exists cuts, items :: BodyShape(ts, cuts, items, start, ss, close) {
      var cuts, items :| BodyShape(ts, cuts, items, start, ss, close);
      BodyComplete(ts, cuts, items);
    }
  }

  // ----- operator chains -------------------------------------------------------

  /** The function of the binary operator at position `j`. */
  function OpFunc(ts: seq<Token>, j: nat): string {
    if j < |ts| && ts[j].lexeme in BinaryOperators then BinaryOperators[ts[j].lexeme].func else ""
  }

  /** Where operand `i` of a chain starts: at `start`, or just past the
      operator that ends operand `i - 1`. */
  function OperandStart(start: nat, ends: seq<nat>, i: nat): nat
    requires i < |ends|
  {
    if i == 0 then start else ends[i - 1] + 1
  }

  /** Operand `i` is the unary operand parse_unary reads from its start up to
      `ends[i]`; there stands an operator of priority `p`, or, after the last
      operand, the end of the input or a token that is not an operator. */
  predicate ChainAt(ts: seq<Token>, start: nat, ends: seq<nat>, os: seq<Node>, p: int, i: nat)
    requires i < |os| && |ends| == |os|
  {
    ParseUnary(Reader(ts, OperandStart(start, ends, i))) == Ok((os[i], Reader(ts, ends[i])))
    && if i < |os| - 1 then
         ends[i] < |ts| && ts[ends[i]].kind == OP && ts[ends[i]].lexeme in BinaryOperators
         && BinaryOperators[ts[ends[i]].lexeme].priority == p
       else
         ends[i] >= |ts| || ts[ends[i]].kind != OP
  }

  /** `OPERAND OP OPERAND ... OP OPERAND` from `start`, every operator of
      priority `p`. */
  predicate Chain(ts: seq<Token>, start: nat, ends: seq<nat>, os: seq<Node>, p: int) {
    |os| >= 1 && |ends| == |os| && forall i :: 0 <= i < |os| ==> ChainAt(ts, start, ends, os, p, i)
  }

  /** The operands after `i` folded onto `acc` from the left. */
  function LeftFold(ts: seq<Token>, ends: seq<nat>, os: seq<Node>, acc: Node, i: nat): Node
    requires i < |os| && |ends| == |os|
    decreases |os| - i
  {
    if i == |os| - 1 then acc
    else LeftFold(ts, ends, os, FuncCall(OpFunc(ts, ends[i]), [acc, os[i + 1]]), i + 1)
  }

  /** The tree of the chain from operand `i` on, read at minimum precedence
      `k`: each level below `p` takes one operand and nests the rest to its
      right (the right side is read at `k + 1`); at `k == p` the rest folds to
      the left. */
  function Nested(ts: seq<Token>, ends: seq<nat>, os: seq<Node>, p: int, k: int, i: nat): Node
    requires i < |os| && |ends| == |os| && k <= p
    decreases p - k
  {
    if i == |os| - 1 then os[i]
    else if k == p then LeftFold(ts, ends, os, os[i], i)
    else FuncCall(OpFunc(ts, ends[i]), [os[i], Nested(ts, ends, os, p, k + 1, i + 1)])
  }

  /** Read at precedence `p + 1`, an operand of the chain stands alone. */
  lemma ChainOperand(ts: seq<Token>, start: nat, ends: seq<nat>, os: seq<Node>, p: int, i: nat)
    requires Chain(ts, start, ends, os, p) && i < |os|
    ensures ParseBinary(Reader(ts, OperandStart(start, ends, i)), p + 1) == Ok((os[i], Reader(ts, ends[i])))
  {
    assert ChainAt(ts, start, ends, os, p, i);
    var r1 := Reader(ts, ends[i]);
    BinaryAfterOperand(Reader(ts, OperandStart(start, ends, i)), p + 1, os[i], r1);
    if i == |os| - 1 {
      LoopStops(os[i], r1, p + 1);
    } else {
      LoopBelowMinimum(os[i], r1, p + 1);
    }
  }

  /** At precedence `p` the operator loop folds the rest of the chain onto
      `acc` from the left. */
  lemma {:induction false} ChainLeft(ts: seq<Token>, start: nat, ends: seq<nat>, os: seq<Node>, p: int, acc: Node, i: nat)
    requires Chain(ts, start, ends, os, p) && i < |os|
    ensures BinaryLoop(acc, Reader(ts, ends[i]), p) == Ok((LeftFold(ts, ends, os, acc, i), Reader(ts, ends[|os| - 1])))
    decreases |os| - i
  {
    assert ChainAt(ts, start, ends, os, p, i);
    var r := Reader(ts, ends[i]);
    if i == |os| - 1 {
      LoopStops(acc, r, p);
    } else {
      ChainOperand(ts, start, ends, os, p, i + 1);
      assert Skip(r) == Reader(ts, OperandStart(start, ends, i + 1));
      LoopFolds(acc, r, p, os[i + 1], Reader(ts, ends[i + 1]));
      ChainLeft(ts, start, ends, os, p, FuncCall(OpFunc(ts, ends[i]), [acc, os[i + 1]]), i + 1);
    }
  }

  /** A chain of operators of one priority `p`, read at any minimum
      precedence `k <= p`, is consumed whole and gives the Nested tree. */
  lemma {:induction false} ChainNesting(ts: seq<Token>, start: nat, ends: seq<nat>, os: seq<Node>, p: int, k: int, i: nat)
    requires Chain(ts, start, ends, os, p) && k <= p && i < |os|
    ensures ParseBinary(Reader(ts, OperandStart(start, ends, i)), k) == Ok((Nested(ts, ends, os, p, k, i), Reader(ts, ends[|os| - 1])))
    decreases p - k
  {
    assert ChainAt(ts, start, ends, os, p, i);
    var r1 := Reader(ts, ends[i]);
    if i == |os| - 1 {
      LoopStops(os[i], r1, k);
    } else if k == p {
      ChainLeft(ts, start, ends, os, p, os[i], i);
    } else {
      ChainNesting(ts, start, ends, os, p, k + 1, i + 1);
      ChainRight(ts, start, ends, os, p, k, i);
    }
    ChainOperandFirst(ts, start, ends, os, p, k, i, Nested(ts, ends, os, p, k, i));
  }

  /** parse_binary at operand `i` is the loop after that operand. */
  lemma ChainOperandFirst(ts: seq<Token>, start: nat, ends: seq<nat>, os: seq<Node>, p: int, k: int, i: nat, t: Node)
    requires Chain(ts, start, ends, os, p) && i < |os|
    requires BinaryLoop(os[i], Reader(ts, ends[i]), k) == Ok((t, Reader(ts, ends[|os| - 1])))
    ensures ParseBinary(Reader(ts, OperandStart(start, ends, i)), k) == Ok((t, Reader(ts, ends[|os| - 1])))
  {
    assert ChainAt(ts, start, ends, os, p, i);
    BinaryAfterOperand(Reader(ts, OperandStart(start, ends, i)), k, os[i], Reader(ts, ends[i]));
  }

  /** Below `p` the right side, read at `k + 1`, takes the rest of the chain. */
  lemma ChainRight(ts: seq<Token>, start: nat, ends: seq<nat>, os: seq<Node>, p: int, k: int, i: nat)
    requires Chain(ts, start, ends, os, p) && k < p && i < |os| - 1
    requires ParseBinary(Reader(ts, OperandStart(start, ends, i + 1)), k + 1) ==
             Ok((Nested(ts, ends, os, p, k + 1, i + 1), Reader(ts, ends[|os| - 1])))
    ensures BinaryLoop(os[i], Reader(ts, ends[i]), k) == Ok((Nested(ts, ends, os, p, k, i), Reader(ts, ends[|os| - 1])))
  {
    assert ChainAt(ts, start, ends, os, p, i);
    var r1 := Reader(ts, ends[i]);
    assert Skip(r1) == Reader(ts, OperandStart(start, ends, i + 1));
    var right := Nested(ts, ends, os, p, k + 1, i + 1);
    var stop := Reader(ts, ends[|os| - 1]);
    LoopFolds(os[i], r1, k, right, stop);
    assert ChainAt(ts, start, ends, os, p, |os| - 1);
    LoopStops(FuncCall(OpFunc(ts, ends[i]), [os[i], right]), stop, k);
  }

  // ----- prefix operators ------------------------------------------------------

  /** The number of prefix operators (`-`, `!`) in a row from position `i`. */
  function PrefixRun(ts: seq<Token>, i: nat): (n: nat)
    ensures n > 0 ==> i < |ts| && ts[i].kind == OP && ts[i].lexeme in UnaryOperators
    ensures i + n <= |ts| || n == 0
    decreases |ts| - i
  {
    if i < |ts| && ts[i].kind == OP && ts[i].lexeme in UnaryOperators then 1 + PrefixRun(ts, i + 1) else 0
  }

  /** `e` under the prefix operators from position `i` up to `at`, the
      leftmost outermost. */
  function Prefixed(ts: seq<Token>, i: nat, at: nat, e: Node): Node
    requires i <= at <= i + PrefixRun(ts, i)
    decreases at - i
  {
    if i == at then e
    else FuncCall(UnaryOperators[ts[i].lexeme].func, [Prefixed(ts, i + 1, at, e)])
  }

  /** parse_unary reads the whole run of prefix operators and then one
      primary: it answers the primary under those operators, or the
      primary's error. */
  lemma UnaryRun(ts: seq<Token>, i: nat)
    ensures var at := i + PrefixRun(ts, i);
            var e := ParsePrimary(Reader(ts, at));
            ParseUnary(Reader(ts, i)) == if e.Err? then Err(e.error) else Ok((Prefixed(ts, i, at, e.value.0), e.value.1))
  {
    UnaryRunAt(ts, i, i + PrefixRun(ts, i));
  }

  lemma {:induction false} UnaryRunAt(ts: seq<Token>, i: nat, at: nat)
    requires at == i + PrefixRun(ts, i)
    ensures var e := ParsePrimary(Reader(ts, at));
            ParseUnary(Reader(ts, i)) == if e.Err? then Err(e.error) else Ok((Prefixed(ts, i, at, e.value.0), e.value.1))
    decreases at - i
  {
    if i < at {
      UnaryRunAt(ts, i + 1, at);
      assert Skip(Reader(ts, i)) == Reader(ts, i + 1);
    }
  }
}
