/** The closed set of syntax-tree nodes built by the parser. A Number keeps the
    lexeme of its NUMBER token: the conversion to a float is left to the host
    (see Interpreter.Host). */
module Ast {
  import opened Wrappers

  datatype Node =
    | Number(literal: string)
    | Str(text: string)
    | Var(name: string)
    | Assign(name: string, value: Node)
    | FuncCall(func: string, args: seq<Node>)
    | FuncDef(name: string, params: seq<string>, body: Node)
    | IfExpr(cond: Node, thenBranch: Node, elseBranch: Option<Node>)
    | WhileExpr(cond: Node, body: Node)
    | ForExpr(variable: string, iterable: Node, body: Node)
    | Block(statements: seq<Node>)

  /** The two copies of the language place Assign differently in the class
      hierarchy: a Statement in the top-level copy, an Expr in the luma copy. */
  datatype Copy = TopLevel | Luma

  /** Whether the node's class derives from Expr (every Expr is a Statement). */
  predicate IsExpr(n: Node, copy: Copy) {
    match n
    case FuncDef(_, _, _) => false
    case Assign(_, _) => copy == Luma
    case _ => true
  }
}
