// Expression and statement trees built by the parser.

module Ast {
  import opened Wrappers
  import opened Values
  import opened Tokens

  /** Expression nodes: the seven generated variants plus the call node the parser builds.
      A literal holds a runtime value (the parser stores true, false, nil or the token's
      literal). */
  datatype Expr =
    | Assign(name: Token, value: Expr)
    | Binary(left: Expr, operator: Token, right: Expr)
    | Grouping(expression: Expr)
    | Literal(literal: Value)
    | Logical(left: Expr, operator: Token, right: Expr)
    | Unary(operator: Token, right: Expr)
    | Variable(name: Token)
    | Call(callee: Expr, paren: Token, arguments: seq<Expr>)

  /** The number of nodes of an expression. */
  function Size(e: Expr): (n: nat)
    ensures n >= 1
  {
    match e
    case Assign(_, v) => 1 + Size(v)
    case Binary(l, _, r) => 1 + Size(l) + Size(r)
    case Grouping(x) => 1 + Size(x)
    case Literal(_) => 1
    case Logical(l, _, r) => 1 + Size(l) + Size(r)
    case Unary(_, r) => 1 + Size(r)
    case Variable(_) => 1
    case Call(c, _, args) => 1 + Size(c) + SizeOf(args)
  }

  /** The number of nodes of a list of expressions. */
  function SizeOf(es: seq<Expr>): nat {
    if es == [] then 0 else Size(es[0]) + SizeOf(es[1..])
  }

  /** The optional else list of an if statement; NoElse is the null the parser passes
      when there is no else. */
  datatype ElseBranch = NoElse | Else(statements: seq<Option<Stmt>>)

  /** Statement nodes. A statement list entry is None where a declaration failed to
      parse and left null in the list. If, Block, Expression, Print, Var and Reassign are
      the declared variants; While, Function and Return are the nodes the parser builds
      besides them. An absent initializer, re-initializer or return value is None. */
  datatype Stmt =
    | If(condition: Expr, thenBranches: seq<Option<Stmt>>, elseBranches: ElseBranch)
    | Block(statements: seq<Option<Stmt>>)
    | Expression(expression: Expr)
    | Print(expression: Expr)
    | Var(name: Token, initializer: Option<Expr>)
    | Reassign(name: Token, reInitializer: Option<Expr>)
    | While(condition: Expr, body: seq<Option<Stmt>>, loopInitializer: Option<Stmt>)
    | Function(name: Token, params: seq<Token>, body: seq<Option<Stmt>>)
    | Return(keyword: Token, value: Option<Expr>)
  {
    /** Whether this is one of the six variants the statement visitor declares. */
    predicate Declared() {
      If? || Block? || Expression? || Print? || Var? || Reassign?
    }
  }
}
