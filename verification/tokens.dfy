/** Tokens as produced by the (external) tokenizer: a kind, the matched text and
    a source span. Positions are carried through to errors and never inspected. */
module Tokens {

  datatype TokenKind =
    | NUMBER | STRING | IDENT | KEYWORD | OP | ASSIGN
    | LPAREN | RPAREN | COMMA | COLON | NEWLINE | INDENT | DEDENT

  /** Opaque source position (the tokenizer's SourcePosition). */
  datatype Position = Position(line: nat, column: nat)

  /** `lexeme` is the token's `match` field. */
  datatype Token = Token(kind: TokenKind, lexeme: string, start: Position, end: Position)

  /** Python's `match[1:-1]`: the text between the quotes of a STRING lexeme,
      and the empty string when the lexeme is shorter than two characters. */
  function Unquote(lexeme: string): (s: string)
    ensures |lexeme| >= 2 ==> [lexeme[0]] + s + [lexeme[|lexeme| - 1]] == lexeme
    ensures |lexeme| < 2 ==> s == ""
  {
    if |lexeme| < 2 then "" else lexeme[1..|lexeme| - 1]
  }
}
