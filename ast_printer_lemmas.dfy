// What the printed form of an expression looks like, and why its parentheses balance.

module PrinterProperties {
  import opened Wrappers
  import opened Values
  import opened Tokens
  import opened Ast
  import opened AstPrinting

  /** Binary, grouping and unary nodes print as a parenthesised prefix form with their
      children's texts separated by single spaces; a nil literal prints as "nil". */
  lemma PrintShapes(e: Expr, numberText: real -> string)
    requires Printable(e)
    ensures e.Binary? ==>
      Printed(e, numberText) == "(" + e.operator.lexeme + " " + Printed(e.left, numberText) + " " + Printed(e.right, numberText) + ")"
    ensures e.Grouping? ==> Printed(e, numberText) == "(group " + Printed(e.expression, numberText) + ")"
    ensures e.Unary? ==> Printed(e, numberText) == "(" + e.operator.lexeme + " " + Printed(e.right, numberText) + ")"
    ensures e == Literal(Nil) ==> Printed(e, numberText) == "nil"
    ensures e.Literal? && e.literal.Bool? ==> Printed(e, numberText) == (if e.literal.b then "true" else "false")
    ensures e.Literal? && e.literal.Num? ==> Printed(e, numberText) == numberText(e.literal.n)
    ensures e.Literal? && e.literal.Str? ==> Printed(e, numberText) == e.literal.s
  {
    match e
    case Binary(l, op, r) =>
      var a, b := Printed(l, numberText), Printed(r, numberText);
      assert [l, r][1..] == [r] && [r][1..] == [];
      assert Spaced([r], numberText) == " " + b + "";
      assert Spaced([l, r], numberText) == (" " + a) + (" " + b);
      var x := "(" + op.lexeme;
      Associative(x, " " + a, " " + b);
      Associative(x, " ", a);
      Associative(x + " " + a, " ", b);
    case Grouping(x) =>
      var a := Printed(x, numberText);
      assert [x][1..] == [];
      assert Spaced([x], numberText) == " " + a + "";
      Associative("(" + "group", " ", a);
    case Unary(op, r) =>
      var a := Printed(r, numberText);
      assert [r][1..] == [];
      assert Spaced([r], numberText) == " " + a + "";
      Associative("(" + op.lexeme, " ", a);
    case Literal(_) =>
  }

  /** The documented example: minus 123 times the grouping of 45.67, given that the two
      numbers render as "123" and "45.67". */
  lemma Example(numberText: real -> string)
    requires numberText(123.0) == "123" && numberText(45.67) == "45.67"
    ensures Printed(Binary(Unary(Token(MINUS, "-", Nil, 1), Literal(Num(123.0))),
                         Token(STAR, "*", Nil, 1),
                         Grouping(Literal(Num(45.67)))), numberText)
            == "(* (- 123) (group 45.67))"
  {
    var u := Unary(Token(MINUS, "-", Nil, 1), Literal(Num(123.0)));
    var g := Grouping(Literal(Num(45.67)));
    assert "(" + "-" + " " + "123" + ")" == "(- 123)";
    assert "(group " + "45.67" + ")" == "(group 45.67)";
    assert "(" + "*" + " " + "(- 123)" + " " + "(group 45.67)" + ")" == "(* (- 123) (group 45.67))";
    PrintShapes(u, numberText);
    PrintShapes(g, numberText);
    PrintShapes(Binary(u, Token(STAR, "*", Nil, 1), g), numberText);
  }

  /** The number of occurrences of c in s. */
  function Count(c: char, s: string): nat {
    if s == [] then 0 else Count(c, s[..|s| - 1]) + (if s[|s| - 1] == c then 1 else 0)
  }

  lemma {:induction false} CountConcat(c: char, a: string, b: string)
    ensures Count(c, a + b) == Count(c, a) + Count(c, b)
    decreases |b|
  {
    if b == [] {
      assert a + b == a;
    } else {
      var s := a + b;
      assert s[..|s| - 1] == a + b[..|b| - 1];
      assert s[|s| - 1] == b[|b| - 1];
      CountConcat(c, a, b[..|b| - 1]);
    }
  }

  /** Every prefix of s closes no more parentheses than it opens, and s closes all it opens. */
  predicate Balanced(s: string) {
    && (forall k :: 0 <= k <= |s| ==> Count(')', s[..k]) <= Count('(', s[..k]))
    && Count(')', s) == Count('(', s)
  }

  /** A text with no parentheses. */
  predicate ParenFree(s: string) {
    forall k :: 0 <= k < |s| ==> s[k] != '(' && s[k] != ')'
  }

  /** A text with no closing parenthesis. */
  predicate CloseFree(s: string) {
    forall k :: 0 <= k < |s| ==> s[k] != ')'
  }

  lemma {:induction false} CloseFreeCount(s: string)
    requires CloseFree(s)
    ensures Count(')', s) == 0
    decreases |s|
  {
    if s != [] {
      CloseFreeCount(s[..|s| - 1]);
    }
  }

  lemma {:induction false} ParenFreeCounts(s: string)
    requires ParenFree(s)
    ensures Count('(', s) == 0 && Count(')', s) == 0
    decreases |s|
  {
    if s != [] {
      ParenFreeCounts(s[..|s| - 1]);
    }
  }

  lemma BalancedConcat(a: string, b: string)
    requires Balanced(a) && Balanced(b)
    ensures Balanced(a + b)
  {
    forall k | 0 <= k <= |a + b| ensures Count(')', (a + b)[..k]) <= Count('(', (a + b)[..k]) {
      if k <= |a| {
        assert (a + b)[..k] == a[..k];
      } else {
        assert (a + b)[..k] == a + b[..k - |a|];
        CountConcat('(', a, b[..k - |a|]);
        CountConcat(')', a, b[..k - |a|]);
        assert a[..|a|] == a;
      }
    }
    CountConcat('(', a, b);
    CountConcat(')', a, b);
  }

  /** A parenthesis-free name after an opening parenthesis, then a balanced text, then a
      closing parenthesis: balanced, with one more parenthesis of each kind. */
  lemma Wrap(name: string, s: string)
    requires ParenFree(name) && Balanced(s)
    ensures var w := "(" + name + s + ")";
      && Balanced(w)
      && Count('(', w) == 1 + Count('(', s)
      && Count(')', w) == 1 + Count(')', s)
  {
    var p := "(" + name;
    assert CloseFree(p);
    CountConcat('(', "(", name);
    ParenFreeCounts(name);
    assert Count('(', "(") == 1 by { assert "("[..0] == []; }
    CloseFreeCount(p);
    var w := p + s + ")";
    forall k | 0 <= k <= |w| ensures Count(')', w[..k]) <= Count('(', w[..k]) {
      if k <= |p| {
        assert w[..k] == p[..k];
        assert CloseFree(p[..k]);
        CloseFreeCount(p[..k]);
      } else if k <= |p| + |s| {
        assert w[..k] == p + s[..k - |p|];
        CountConcat('(', p, s[..k - |p|]);
        CountConcat(')', p, s[..k - |p|]);
      } else {
        assert k == |w| && w[..k] == w;
        assert w[..|w| - 1] == p + s;
        CountConcat('(', p, s);
        CountConcat(')', p, s);
      }
    }
    assert w[..|w| - 1] == p + s;
    CountConcat('(', p, s);
    CountConcat(')', p, s);
  }

  /** Every operator lexeme and literal text in e is free of parentheses. */
  predicate AtomsParenFree(e: Expr, numberText: real -> string)
    requires Printable(e)
  {
    match e
    case Binary(l, op, r) => ParenFree(op.lexeme) && AtomsParenFree(l, numberText) && AtomsParenFree(r, numberText)
    case Grouping(x) => AtomsParenFree(x, numberText)
    case Literal(v) => ParenFree(LiteralText(v, numberText))
    case Unary(op, r) => ParenFree(op.lexeme) && AtomsParenFree(r, numberText)
  }

  /** The number of binary, grouping and unary nodes in e: the parenthesize calls. */
  function Interior(e: Expr): nat
    requires Printable(e)
  {
    match e
    case Binary(l, _, r) => 1 + Interior(l) + Interior(r)
    case Grouping(x) => 1 + Interior(x)
    case Literal(_) => 0
    case Unary(_, r) => 1 + Interior(r)
  }

  /** When the atoms hold no parentheses, the printed text is balanced and holds exactly
      one opening and one closing parenthesis per parenthesize call. */
  lemma {:induction false} PrintBalanced(e: Expr, numberText: real -> string)
    requires Printable(e) && AtomsParenFree(e, numberText)
    ensures Balanced(Printed(e, numberText))
    ensures Count('(', Printed(e, numberText)) == Interior(e) == Count(')', Printed(e, numberText))
    decreases Size(e), 0
  {
    match e
    case Literal(v) =>
      var t := LiteralText(v, numberText);
      ParenFreeCounts(t);
      forall k | 0 <= k <= |t| ensures Count(')', t[..k]) <= Count('(', t[..k]) {
        assert ParenFree(t[..k]);
        ParenFreeCounts(t[..k]);
      }
    case Grouping(x) =>
      assert SizeOf([x]) == Size(x) by { assert [x][1..] == []; }
      SpacedBalanced([x], numberText);
      Wrap("group", Spaced([x], numberText));
    case Unary(op, r) =>
      assert SizeOf([r]) == Size(r) by { assert [r][1..] == []; }
      SpacedBalanced([r], numberText);
      Wrap(op.lexeme, Spaced([r], numberText));
    case Binary(l, op, r) =>
      assert SizeOf([l, r]) == Size(l) + Size(r) by {
        assert [l, r][1..] == [r] && [r][1..] == [];
      }
      SpacedBalanced([l, r], numberText);
      assert [l, r][1..] == [r] && [r][1..] == [];
      Wrap(op.lexeme, Spaced([l, r], numberText));
  }

  /** The spaced texts of children whose atoms hold no parentheses are balanced, with as
      many parentheses of each kind as the children have interior nodes. */
  lemma {:induction false} SpacedBalanced(children: seq<Expr>, numberText: real -> string)
    requires forall k :: 0 <= k < |children| ==> Printable(children[k]) && AtomsParenFree(children[k], numberText)
    ensures Balanced(Spaced(children, numberText))
    ensures Count('(', Spaced(children, numberText)) == InteriorOf(children)
    ensures Count(')', Spaced(children, numberText)) == InteriorOf(children)
    decreases SizeOf(children), 1
  {
    if children == [] {
      assert Count('(', "") == 0 && Count(')', "") == 0;
      assert forall k :: 0 <= k <= 0 ==> ""[..k] == "";
    } else {
      var p := Printed(children[0], numberText);
      PrintBalanced(children[0], numberText);
      SpacedBalanced(children[1..], numberText);
      ParenFreeCounts(" ");
      assert forall k :: 0 <= k <= 1 ==> ParenFree(" "[..k]);
      forall k | 0 <= k <= 1 ensures Count(')', " "[..k]) <= Count('(', " "[..k]) {
        ParenFreeCounts(" "[..k]);
      }
      BalancedConcat(" ", p);
      CountConcat('(', " ", p);
      CountConcat(')', " ", p);
      BalancedConcat(" " + p, Spaced(children[1..], numberText));
      CountConcat('(', " " + p, Spaced(children[1..], numberText));
      CountConcat(')', " " + p, Spaced(children[1..], numberText));
    }
  }

  /** The interior nodes of a list of printable expressions. */
  function InteriorOf(children: seq<Expr>): nat
    requires forall k :: 0 <= k < |children| ==> Printable(children[k])
  {
    if children == [] then 0 else Interior(children[0]) + InteriorOf(children[1..])
  }
}
