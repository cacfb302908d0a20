/** The parser's cursor over the token list (ParserReader) and the errors the
    parser raises. The reader is a value: every consuming operation returns the
    advanced reader. */
module TokenReader {
  import opened Wrappers
  import opened Tokens

  /** Why a parse failed; the message text of the source is not modelled. */
  datatype Reason =
    | Expected(kind: TokenKind, literal: Option<string>, actual: Option<TokenKind>)
    | UnexpectedEof
    | UnexpectedKeyword(keyword: string)
    | UnexpectedToken(kind: TokenKind, lexeme: string)

  /** A ParserError carries the offending token's span, or none at end of input.
      A KeyError is raised when an OP lexeme in operator position is not a
      binary operator; it is not a ParserError. An AttributeError names a
      token attribute that the token class does not define. */
  datatype Error =
    | ParserError(reason: Reason, start: Option<Position>, end: Option<Position>)
    | KeyError(key: string)
    | AttributeError(attribute: string)

  /** `literal` is compared only when one is given. */
  predicate Accepts(t: Token, kind: TokenKind, literal: Option<string>) {
    t.kind == kind && (literal.None? || t.lexeme == literal.value)
  }

  datatype Reader = Reader(tokens: seq<Token>, pos: nat)

  /** Tokens not yet consumed; zero once the cursor is at or past the end. */
  function Remaining(r: Reader): nat {
    if r.pos < |r.tokens| then |r.tokens| - r.pos else 0
  }

  /** Advances the cursor by one, unconditionally, even past the end. */
  function Skip(r: Reader): (r2: Reader)
    ensures r2.tokens == r.tokens && r2.pos == r.pos + 1
    ensures Remaining(r) > 0 ==> Remaining(r2) == Remaining(r) - 1
    ensures Remaining(r) == 0 ==> Remaining(r2) == 0
  {
    Reader(r.tokens, r.pos + 1)
  }

  /** The token `offset` places ahead of the cursor, if there is one. */
  function Peek(r: Reader, offset: nat): (t: Option<Token>)
    ensures t.Some? <==> r.pos + offset < |r.tokens|
    ensures t.Some? ==> t.value == r.tokens[r.pos + offset]
  {
    if r.pos + offset < |r.tokens| then Some(r.tokens[r.pos + offset]) else None
  }

  /** Lookahead only: answers without consuming anything. */
  predicate IsFollowed(r: Reader, kind: TokenKind, literal: Option<string>, offset: nat): (b: bool)
    ensures b <==> (r.pos + offset < |r.tokens| && r.tokens[r.pos + offset].kind == kind &&
      (literal.None? || r.tokens[r.pos + offset].lexeme == literal.value))
  {
    var t := Peek(r, offset);
    t.Some? && Accepts(t.value, kind, literal)
  }

  /** Consumes and returns the current token when it is accepted; otherwise
      returns None and the reader unchanged. */
  function Match(r: Reader, kind: TokenKind, literal: Option<string>): (res: (Option<Token>, Reader))
    ensures res.0.Some? <==> r.pos < |r.tokens| && Accepts(r.tokens[r.pos], kind, literal)
    ensures res.0.Some? ==> res.0.value == r.tokens[r.pos] && res.1 == Reader(r.tokens, r.pos + 1)
    ensures res.0.None? ==> res.1 == r
  {
    var t := Peek(r, 0);
    if t.Some? && Accepts(t.value, kind, literal) then (t, Skip(r)) else (None, r)
  }

  /** Skipping keeps the token list; one fewer token remains, and none once
      the cursor is past the end. */
  lemma SkipRemaining(r: Reader)
    ensures Skip(r).tokens == r.tokens
    ensures Remaining(r) > 0 ==> Remaining(Skip(r)) == Remaining(r) - 1
    ensures Remaining(r) == 0 ==> Remaining(Skip(r)) == 0
  {
  }

  /** Lookahead at offset 0 answers exactly whether `match` would consume,
      and at a larger offset it looks past the tokens `match` would consume. */
  lemma FollowedIffMatch(r: Reader, kind: TokenKind, literal: Option<string>, offset: nat)
    ensures IsFollowed(r, kind, literal, 0) <==> Match(r, kind, literal).0.Some?
    ensures IsFollowed(r, kind, literal, offset + 1) <==> IsFollowed(Skip(r), kind, literal, offset)
  {
  }

  /** The span of the current token, or (None, None) at end of input. */
  function Span(r: Reader): (Option<Position>, Option<Position>) {
    match Peek(r, 0)
    case Some(t) => (Some(t.start), Some(t.end))
    case None => (None, None)
  }

  /** Like Match, but failing with a ParserError at the current token's span. */
  function Expect(r: Reader, kind: TokenKind, literal: Option<string>): (res: Result<(Token, Reader), Error>)
    ensures res.Ok? <==> r.pos < |r.tokens| && Accepts(r.tokens[r.pos], kind, literal)
    ensures res.Ok? ==> res.value == (r.tokens[r.pos], Reader(r.tokens, r.pos + 1))
    ensures res.Err? && r.pos < |r.tokens| ==>
      res.error == ParserError(Expected(kind, literal, Some(r.tokens[r.pos].kind)), Some(r.tokens[r.pos].start), Some(r.tokens[r.pos].end))
    ensures res.Err? && r.pos >= |r.tokens| ==>
      res.error == ParserError(Expected(kind, literal, None), None, None)
  {
    var (t, r1) := Match(r, kind, literal);
    if t.Some? then Ok((t.value, r1))
    else
      var actual := Peek(r, 0);
      var (s, e) := Span(r);
      Err(ParserError(Expected(kind, literal, if actual.Some? then Some(actual.value.kind) else None), s, e))
  }

  /** A token found by lookahead `k` places on is what `expect` consumes once
      the cursor has moved there. */
  lemma ExpectFollowed(r: Reader, kind: TokenKind, literal: Option<string>, k: nat)
    requires IsFollowed(r, kind, literal, k)
    ensures Expect(Reader(r.tokens, r.pos + k), kind, literal) == Ok((r.tokens[r.pos + k], Reader(r.tokens, r.pos + k + 1)))
  {
  }

  /** The same at the cursor itself. */
  lemma ExpectHere(r: Reader, kind: TokenKind, literal: Option<string>)
    requires IsFollowed(r, kind, literal, 0)
    ensures Expect(r, kind, literal) == Ok((r.tokens[r.pos], Skip(r)))
  {
  }

  /** `r2` is `r1` after consuming at least one token, still within the list. */
  ghost predicate Advanced(r1: Reader, r2: Reader) {
    r2.tokens == r1.tokens && r1.pos < r2.pos <= |r1.tokens|
  }
}
