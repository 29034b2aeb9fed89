// The prefix printer for expression trees.

module AstPrinting {
  import opened Values
  import opened Tokens
  import opened Ast

  /** The expressions the printer has a visitor for: binary, grouping, literal and unary
      nodes, all the way down. */
  predicate Printable(e: Expr) {
    match e
    case Binary(l, _, r) => Printable(l) && Printable(r)
    case Grouping(x) => Printable(x)
    case Literal(_) => true
    case Unary(_, r) => Printable(r)
    case _ => false
  }

  /** The text of a literal value: "nil" for nil, otherwise the value's own toString,
      with numberText standing for the number rendering. */
  function LiteralText(v: Value, numberText: real -> string): string {
    match v
    case Nil => "nil"
    case Bool(b) => if b then "true" else "false"
    case Num(n) => numberText(n)
    case Str(s) => s
  }

  /** The printed form of an expression (print and the four visitors). */
  function Printed(e: Expr, numberText: real -> string): string
    requires Printable(e)
    decreases Size(e), 0
  {
    match e
    case Binary(l, op, r) =>
      assert SizeOf([l, r]) == Size(l) + Size(r) by {
        assert [l, r][1..] == [r] && [r][1..] == [];
      }
      Parenthesize(op.lexeme, [l, r], numberText)
    case Grouping(x) =>
      assert SizeOf([x]) == Size(x) by { assert [x][1..] == []; }
      Parenthesize("group", [x], numberText)
    case Literal(v) => LiteralText(v, numberText)
    case Unary(op, r) =>
      assert SizeOf([r]) == Size(r) by { assert [r][1..] == []; }
      Parenthesize(op.lexeme, [r], numberText)
  }

  /** parenthesize: an opening parenthesis and the name, then each child after a space,
      then a closing parenthesis. */
  function Parenthesize(name: string, children: seq<Expr>, numberText: real -> string): string
    requires forall k :: 0 <= k < |children| ==> Printable(children[k])
    decreases SizeOf(children), 2
  {
    "(" + name + Spaced(children, numberText) + ")"
  }

  /** The loop of parenthesize as a fold: each child's text preceded by a space. */
  function Spaced(children: seq<Expr>, numberText: real -> string): string
    requires forall k :: 0 <= k < |children| ==> Printable(children[k])
    decreases SizeOf(children), 1
  {
    if children == [] then ""
    else " " + Printed(children[0], numberText) + Spaced(children[1..], numberText)
  }
}
