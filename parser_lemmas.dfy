// Properties of the parser productions: the shapes the precedence levels build, the
// assignment and reassignment rules, error recovery, and what parse returns.

module ParserProperties {
  import opened Wrappers
  import opened Values
  import opened Tokens
  import opened Ast
  import opened ParserSpec

  // ---- the shapes of the precedence levels ----

  /** An expression with no binary, logical or assignment node on top: what unary and the
      levels below it build. */
  predicate Atomic(e: Expr) {
    !(e.Binary? || e.Logical? || e.Assign?)
  }

  /** A binary node whose operator is one of the kinds. */
  predicate BinaryOver(e: Expr, kinds: seq<TokenType>) {
    e.Binary? && e.operator.tokenType in kinds
  }

  /** What factor builds: atomic operands joined by "/" and "*", nested to the right. */
  predicate FactorLevel(e: Expr) {
    Atomic(e) || (BinaryOver(e, [SLASH, STAR]) && Atomic(e.left) && FactorLevel(e.right))
  }

  /** What term builds: factor-level operands joined by "-" and "+", nested to the left. */
  predicate TermLevel(e: Expr) {
    FactorLevel(e) || (BinaryOver(e, [MINUS, PLUS]) && TermLevel(e.left) && FactorLevel(e.right))
  }

  /** What comparison builds: term-level operands, nested to the left. */
  predicate ComparisonLevel(e: Expr) {
    TermLevel(e)
    || (BinaryOver(e, [GREATER, GREATER_EQUAL, LESS, LESS_EQUAL]) && ComparisonLevel(e.left) && TermLevel(e.right))
  }

  /** What equality builds: comparison-level operands, nested to the left. */
  predicate EqualityLevel(e: Expr) {
    ComparisonLevel(e)
    || (BinaryOver(e, [BANG_EQUAL, EQUAL_EQUAL]) && EqualityLevel(e.left) && ComparisonLevel(e.right))
  }

  /** What and builds: an equality, or a single "and" node over two equalities. */
  predicate AndLevel(e: Expr) {
    EqualityLevel(e)
    || (e.Logical? && e.operator.tokenType == AND && EqualityLevel(e.left) && EqualityLevel(e.right))
  }

  /** What or builds: and-level, or a single "or" node over two and-level operands. */
  predicate OrLevel(e: Expr) {
    AndLevel(e)
    || (e.Logical? && e.operator.tokenType == OR && AndLevel(e.left) && AndLevel(e.right))
  }

  /** primary builds literals, variables and groupings. */
  lemma PrimaryAtomic(ts: seq<Token>, st: ParseState)
    requires InRange(ts, st)
    ensures var r := Primary(ts, st);
            r.result.Success? ==> r.result.value.Literal? || r.result.value.Variable? || r.result.value.Grouping?
  {
    if Matches(ts, st, [FALSE]) || Matches(ts, st, [TRUE]) || Matches(ts, st, [NIL])
       || Matches(ts, st, [NUMBER, STRING]) || Matches(ts, st, [IDENTIFIER]) {
    } else if Matches(ts, st, [LEFT_PAREN]) {
      var inner := ParserSpec.Expression(ts, Advance(ts, st));
      if inner.result.Success? {
        var close := Consume(ts, inner.state, RIGHT_PAREN, "Expect ')' after expression.");
        assert close.result.Success? ==> Primary(ts, st) == Parsed(Success(Grouping(inner.result.value)), close.state);
      }
    }
  }

  /** Calling an atomic expression gives an atomic expression. */
  lemma {:induction false} CallTailAtomic(ts: seq<Token>, callee: Expr, st: ParseState)
    requires InRange(ts, st) && Atomic(callee)
    ensures CallTail(ts, callee, st).result.Success? ==> Atomic(CallTail(ts, callee, st).result.value)
    decreases |ts| - st.pos
  {
    if Matches(ts, st, [LEFT_PAREN]) {
      var call := FinishCall(ts, callee, Advance(ts, st));
      if call.result.Success? {
        CallTailAtomic(ts, call.result.value, call.state);
      }
    }
  }

  /** unary builds an atomic expression. */
  lemma {:induction false} UnaryAtomic(ts: seq<Token>, st: ParseState)
    requires InRange(ts, st)
    ensures ParserSpec.Unary(ts, st).result.Success? ==> Atomic(ParserSpec.Unary(ts, st).result.value)
  {
    if !Matches(ts, st, [BANG, MINUS]) {
      var callee := Primary(ts, st);
      if callee.result.Success? {
        PrimaryAtomic(ts, st);
        CallTailAtomic(ts, callee.result.value, callee.state);
      }
    }
  }

  /** The factor loop only stops where no "/" or "*" follows. */
  lemma {:induction false} FactorStops(ts: seq<Token>, st: ParseState)
    requires InRange(ts, st)
    ensures Factor(ts, st).result.Success? ==> !Matches(ts, Factor(ts, st).state, [SLASH, STAR])
    decreases |ts| - st.pos, 1
  {
    var left := ParserSpec.Unary(ts, st);
    if left.result.Success? {
      FactorTailStops(ts, left.result.value, left.state);
    }
  }

  lemma {:induction false} FactorTailStops(ts: seq<Token>, left: Expr, st: ParseState)
    requires InRange(ts, st)
    ensures FactorTail(ts, left, st).result.Success? ==> !Matches(ts, FactorTail(ts, left, st).state, [SLASH, STAR])
    decreases |ts| - st.pos, 0
  {
    if Matches(ts, st, [SLASH, STAR]) {
      var right := Factor(ts, Advance(ts, st));
      if right.result.Success? {
        FactorTailStops(ts, Binary(left, Peek(ts, st), right.result.value), right.state);
      }
    }
  }

  /** factor nests to the right: "a / b * c" is a / (b * c). */
  lemma {:induction false} FactorShape(ts: seq<Token>, st: ParseState)
    requires InRange(ts, st)
    ensures Factor(ts, st).result.Success? ==> FactorLevel(Factor(ts, st).result.value)
    decreases |ts| - st.pos, 1
  {
    var left := ParserSpec.Unary(ts, st);
    if left.result.Success? {
      UnaryAtomic(ts, st);
      FactorTailShape(ts, left.result.value, left.state);
    }
  }

  lemma {:induction false} FactorTailShape(ts: seq<Token>, left: Expr, st: ParseState)
    requires InRange(ts, st) && Atomic(left)
    ensures FactorTail(ts, left, st).result.Success? ==> FactorLevel(FactorTail(ts, left, st).result.value)
    decreases |ts| - st.pos, 0
  {
    if Matches(ts, st, [SLASH, STAR]) {
      var operator := Peek(ts, st);
      var right := Factor(ts, Advance(ts, st));
      if right.result.Success? {
        FactorShape(ts, Advance(ts, st));
        FactorStops(ts, Advance(ts, st));
        var e := Binary(left, operator, right.result.value);
        assert FactorTail(ts, e, right.state) == Parsed(Success(e), right.state);
        assert FactorLevel(e);
      }
    }
  }

  /** term nests to the left: "a - b + c" is (a - b) + c, each operand factor-level. */
  lemma {:induction false} TermShape(ts: seq<Token>, st: ParseState)
    requires InRange(ts, st)
    ensures Term(ts, st).result.Success? ==> TermLevel(Term(ts, st).result.value)
  {
    var left := Factor(ts, st);
    if left.result.Success? {
      FactorShape(ts, st);
      TermTailShape(ts, left.result.value, left.state);
    }
  }

  lemma {:induction false} TermTailShape(ts: seq<Token>, left: Expr, st: ParseState)
    requires InRange(ts, st) && TermLevel(left)
    ensures TermTail(ts, left, st).result.Success? ==> TermLevel(TermTail(ts, left, st).result.value)
    decreases |ts| - st.pos
  {
    if Matches(ts, st, [MINUS, PLUS]) {
      var operator := Peek(ts, st);
      var right := Factor(ts, Advance(ts, st));
      if right.result.Success? {
        FactorShape(ts, Advance(ts, st));
        var e := Binary(left, operator, right.result.value);
        assert TermLevel(e);
        TermTailShape(ts, e, right.state);
      }
    }
  }

  /** comparison nests to the left over term-level operands. */
  lemma {:induction false} ComparisonShape(ts: seq<Token>, st: ParseState)
    requires InRange(ts, st)
    ensures Comparison(ts, st).result.Success? ==> ComparisonLevel(Comparison(ts, st).result.value)
  {
    var left := Term(ts, st);
    if left.result.Success? {
      TermShape(ts, st);
      ComparisonTailShape(ts, left.result.value, left.state);
    }
  }

  lemma {:induction false} ComparisonTailShape(ts: seq<Token>, left: Expr, st: ParseState)
    requires InRange(ts, st) && ComparisonLevel(left)
    ensures ComparisonTail(ts, left, st).result.Success? ==> ComparisonLevel(ComparisonTail(ts, left, st).result.value)
    decreases |ts| - st.pos
  {
    if Matches(ts, st, [GREATER, GREATER_EQUAL, LESS, LESS_EQUAL]) {
      var operator := Peek(ts, st);
      var right := Term(ts, Advance(ts, st));
      if right.result.Success? {
        TermShape(ts, Advance(ts, st));
        var e := Binary(left, operator, right.result.value);
        assert ComparisonLevel(e);
        ComparisonTailShape(ts, e, right.state);
      }
    }
  }

  /** equality nests to the left over comparison-level operands. */
  lemma {:induction false} EqualityShape(ts: seq<Token>, st: ParseState)
    requires InRange(ts, st)
    ensures Equality(ts, st).result.Success? ==> EqualityLevel(Equality(ts, st).result.value)
  {
    var left := Comparison(ts, st);
    if left.result.Success? {
      ComparisonShape(ts, st);
      EqualityTailShape(ts, left.result.value, left.state);
    }
  }

  lemma {:induction false} EqualityTailShape(ts: seq<Token>, left: Expr, st: ParseState)
    requires InRange(ts, st) && EqualityLevel(left)
    ensures EqualityTail(ts, left, st).result.Success? ==> EqualityLevel(EqualityTail(ts, left, st).result.value)
    decreases |ts| - st.pos
  {
    if Matches(ts, st, [BANG_EQUAL, EQUAL_EQUAL]) {
      var operator := Peek(ts, st);
      var right := Comparison(ts, Advance(ts, st));
      if right.result.Success? {
        ComparisonShape(ts, Advance(ts, st));
        var e := Binary(left, operator, right.result.value);
        assert EqualityLevel(e);
        EqualityTailShape(ts, e, right.state);
      }
    }
  }

  /** and builds at most one logical node. */
  lemma AndShape(ts: seq<Token>, st: ParseState)
    requires InRange(ts, st)
    ensures And(ts, st).result.Success? ==> AndLevel(And(ts, st).result.value)
  {
    var left := Equality(ts, st);
    EqualityShape(ts, st);
    if left.result.Success? && Matches(ts, left.state, [AND]) {
      EqualityShape(ts, Advance(ts, left.state));
    }
  }

  /** or builds at most one logical node. */
  lemma OrShape(ts: seq<Token>, st: ParseState)
    requires InRange(ts, st)
    ensures Or(ts, st).result.Success? ==> OrLevel(Or(ts, st).result.value)
  {
    var left := And(ts, st);
    AndShape(ts, st);
    if left.result.Success? && Matches(ts, left.state, [OR]) {
      AndShape(ts, Advance(ts, left.state));
    }
  }

  // ---- assignment ----

  /** An assignment expression is an or-expression, or an Assign node whose value child is
      the variable being assigned (the parsed right-hand side is not kept). */
  lemma AssignmentShape(ts: seq<Token>, st: ParseState)
    requires InRange(ts, st)
    ensures var r := Assignment(ts, st);
            r.result.Success? ==>
              OrLevel(r.result.value)
              || (r.result.value.Assign? && r.result.value.value == Variable(r.result.value.name))
  {
    OrShape(ts, st);
  }

  /** An invalid target ("1 = 2", "a + b = c") is reported at the "=" without throwing: the
      parse goes on with the target as the expression. */
  lemma InvalidTargetReported(ts: seq<Token>, st: ParseState)
    requires InRange(ts, st)
    ensures var target := Or(ts, st);
            var r := Assignment(ts, st);
            target.result.Success? && !target.result.value.Variable? && Matches(ts, target.state, [EQUAL])
            && r.result.Success?
            ==> r.result == target.result
                && TokenError(Peek(ts, target.state), "Invalid assignment target.") in r.state.diagnostics
  {
    var target := Or(ts, st);
    if target.result.Success? && !target.result.value.Variable? && Matches(ts, target.state, [EQUAL]) {
      var equals := Peek(ts, target.state);
      var value := Assignment(ts, Advance(ts, target.state));
      if value.result.Success? {
        var reported := Report(value.state, equals, "Invalid assignment target.");
        assert Assignment(ts, st) == Parsed(target.result, reported);
        assert reported.diagnostics[|reported.diagnostics| - 1] == TokenError(equals, "Invalid assignment target.");
      }
    }
  }

  // ---- declarations ----

  /** An identifier followed by "=" starts a reassignment of that identifier. */
  lemma ReassignmentDispatch(ts: seq<Token>, st: ParseState)
    requires InRange(ts, st) && Check(ts, st, IDENTIFIER) && Check(ts, Advance(ts, st), EQUAL)
    ensures var r := TryDeclaration(ts, st);
            r == ReassignmentDeclaration(ts, Advance(ts, st))
            && (r.result.Success? ==> r.result.value.Reassign? && r.result.value.name == Peek(ts, st))
  {
    assert !Matches(ts, st, [FUN]) && !Matches(ts, st, [VAR]) && Matches(ts, st, [IDENTIFIER]);
    var s := Advance(ts, st);
    assert Previous(ts, s) == Peek(ts, st);
    var init := Initializer(ts, s);
    if init.result.Success? {
      var semicolon := Consume(ts, init.state, SEMICOLON, "Expect ';' after reassignment.");
      assert semicolon.result.Success?
             ==> ReassignmentDeclaration(ts, s) == Parsed(Success(Reassign(Peek(ts, st), init.result.value)), semicolon.state);
    }
  }

  /** An identifier followed by anything else is put back: the declaration is read as a
      statement from the identifier on. */
  lemma IdentifierPutBack(ts: seq<Token>, st: ParseState)
    requires InRange(ts, st) && Check(ts, st, IDENTIFIER) && !Check(ts, Advance(ts, st), EQUAL)
    ensures TryDeclaration(ts, st) == Statement(ts, st)
  {
    assert !Matches(ts, st, [FUN]) && !Matches(ts, st, [VAR]);
  }

  /** A variable declaration names the identifier after "var" and has an initializer
      exactly when "=" follows the name. */
  lemma VarDeclarationShape(ts: seq<Token>, st: ParseState)
    requires InRange(ts, st)
    ensures var r := VarDeclaration(ts, st);
            r.result.Success? ==>
              && Check(ts, st, IDENTIFIER) && r.result.value.Var? && r.result.value.name == Peek(ts, st)
              && (r.result.value.initializer.None? <==> !Matches(ts, Advance(ts, st), [EQUAL]))
  {
    var name := Consume(ts, st, IDENTIFIER, "Expect variable name.");
    if name.result.Success? {
      var init := Initializer(ts, name.state);
      if init.result.Success? {
        assert init.result.value.None? <==> !Matches(ts, name.state, [EQUAL]);
        var semicolon := Consume(ts, init.state, SEMICOLON, "Expect ';' after variable declaration.");
        assert semicolon.result.Success?
               ==> VarDeclaration(ts, st) == Parsed(Success(Var(Peek(ts, st), init.result.value)), semicolon.state);
      }
    }
  }

  /** reassignmentDeclaration builds a Reassign of the token before it, and what it
      consumes ends with ";". */
  lemma ReassignmentShape(ts: seq<Token>, st: ParseState)
    requires InRange(ts, st) && st.pos >= 1
    ensures var r := ReassignmentDeclaration(ts, st);
            r.result.Success? ==>
              && r.result.value == Reassign(Previous(ts, st), r.result.value.reInitializer)
              && r.state.pos >= 1 && ts[r.state.pos - 1].tokenType == SEMICOLON
  {
    var init := Initializer(ts, st);
    if init.result.Success? {
      var semicolon := Consume(ts, init.state, SEMICOLON, "Expect ';' after reassignment.");
      if semicolon.result.Success? {
        assert ReassignmentDeclaration(ts, st)
            == Parsed(Success(Reassign(Previous(ts, st), init.result.value)), semicolon.state);
      }
    }
  }

  /** The increment of a for loop is read as a reassignment named by the token after the
      second ";", and it ends with its own ";"; so ")" must follow a ";". */
  lemma ForIncrementShape(ts: seq<Token>, st: ParseState)
    requires InRange(ts, st) && st.pos >= 1
    ensures var r := ForIncrement(ts, st);
            r.result.Success? && r.result.value.Some? ==>
              && r.result.value.value == Reassign(Peek(ts, st), r.result.value.value.reInitializer)
              && r.state.pos >= 1 && ts[r.state.pos - 1].tokenType == SEMICOLON
  {
    if !Check(ts, st, RIGHT_PAREN) {
      var s := Advance(ts, st);
      ReassignmentShape(ts, s);
      if ReassignmentDeclaration(ts, s).result.Success? {
        assert !IsAtEnd(ts, st);
        assert Previous(ts, s) == Peek(ts, st);
      }
    }
  }

  /** The parameter check runs before each parameter: it reports one diagnostic at the
      current token exactly when more than 255 parameters are already read, and nothing
      otherwise; the parameter is then read as usual, so the report does not throw. */
  lemma ParameterCapNonFatal(ts: seq<Token>, params: seq<Token>, st: ParseState)
    requires InRange(ts, st)
    ensures var cap := if |params| > 255 then [TokenError(Peek(ts, st), "Cannot have more than 255 parameters")] else [];
            var checked := st.(diagnostics := st.diagnostics + cap);
            var r := Parameters(ts, params, st);
            && checked.diagnostics <= r.state.diagnostics
            && (!Check(ts, st, IDENTIFIER) ==>
                  r.result.Failure? && r.state == Report(checked, Peek(ts, st), "Expect parameter name"))
            && (Check(ts, st, IDENTIFIER) && !Matches(ts, Advance(ts, st), [COMMA]) ==>
                  r == Parsed(Success(params + [Peek(ts, st)]), Advance(ts, checked)))
            && (Check(ts, st, IDENTIFIER) && Matches(ts, Advance(ts, st), [COMMA]) ==>
                  r == Parameters(ts, params + [Peek(ts, st)], Advance(ts, Advance(ts, checked))))
  {
    var cap := if |params| > 255 then [TokenError(Peek(ts, st), "Cannot have more than 255 parameters")] else [];
    var checked := st.(diagnostics := st.diagnostics + cap);
    assert st.diagnostics + [] == st.diagnostics;
    assert checked == if |params| > 255 then Report(st, Peek(ts, st), "Cannot have more than 255 parameters") else st;
    if Check(ts, st, IDENTIFIER) {
      var param := Consume(ts, checked, IDENTIFIER, "Expect parameter name");
      assert param.state == Advance(ts, checked) && Advance(ts, checked).pos == Advance(ts, st).pos;
    }
  }

  /** The argument check runs before each argument: it reports one diagnostic at the current
      token exactly when more than 255 arguments are already read, and nothing otherwise;
      the argument is then read as usual and the call is still built. */
  lemma ArgumentCapNonFatal(ts: seq<Token>, callee: Expr, args: seq<Expr>, st: ParseState)
    requires InRange(ts, st)
    ensures var cap := if |args| > 255 then [TokenError(Peek(ts, st), "Can't have more than 255 arguments.")] else [];
            var checked := st.(diagnostics := st.diagnostics + cap);
            var argument := ParserSpec.Expression(ts, checked);
            var r := Arguments(ts, callee, args, st);
            && checked.diagnostics <= r.state.diagnostics
            && (argument.result.Failure? ==> r == argument)
            && (argument.result.Success? && Check(ts, argument.state, RIGHT_PAREN) ==>
                  r == Parsed(Success(Ast.Call(callee, Peek(ts, argument.state), args + [argument.result.value])),
                              Advance(ts, argument.state)))
            && (argument.result.Success? && Matches(ts, argument.state, [COMMA]) ==>
                  r == Arguments(ts, callee, args + [argument.result.value], Advance(ts, argument.state)))
  {
    var cap := if |args| > 255 then [TokenError(Peek(ts, st), "Can't have more than 255 arguments.")] else [];
    assert st.diagnostics + [] == st.diagnostics;
    assert st.(diagnostics := st.diagnostics + cap)
        == if |args| > 255 then Report(st, Peek(ts, st), "Can't have more than 255 arguments.") else st;
  }

  /** ifStatement builds an If node of the condition it read. */
  lemma IfStatementShape(ts: seq<Token>, st: ParseState)
    requires InRange(ts, st)
    ensures var r := IfStatement(ts, st);
            var condition := Condition(ts, st, "Expect '(' after if statement.", "Expect ')' after if statement.");
            r.result.Success? ==> condition.result.Success? && r.result.value.If? && r.result.value.condition == condition.result.value
  {
    var condition := Condition(ts, st, "Expect '(' after if statement.", "Expect ')' after if statement.");
    if condition.result.Success? {
      var thenBranches := BracedBlock(ts, condition.state, "Expect '{' after if start of if block.");
      if thenBranches.result.Success? {
        var elseBranches := ElseBlock(ts, thenBranches.state);
        if elseBranches.result.Success? {
          assert IfStatement(ts, st).result.value
              == If(condition.result.value, thenBranches.result.value, elseBranches.result.value);
        }
      }
    }
  }

  /** The node a statement starting with a token of kind k builds: if gives an If, for and
      while a While, print a Print, return a Return, "{" a Block, anything else an
      Expression. */
  predicate Announces(k: TokenType, s: Stmt) {
    match k
    case IF => s.If?
    case FOR | WHILE => s.While?
    case PRINT => s.Print?
    case RETURN => s.Return?
    case LEFT_BRACE => s.Block?
    case _ => s.Expression?
  }

  /** statement builds the node its first token announces. */
  lemma StatementShape(ts: seq<Token>, st: ParseState)
    requires InRange(ts, st)
    ensures var r := ParserSpec.Statement(ts, st);
            r.result.Success? ==> Announces(Peek(ts, st).tokenType, r.result.value)
  {
    var r := ParserSpec.Statement(ts, st);
    var next := Advance(ts, st);
    if Matches(ts, st, [IF]) {
      assert r == IfStatement(ts, next);
      IfStatementShape(ts, next);
    } else if Matches(ts, st, [FOR]) {
      assert r == ForStatement(ts, next);
    } else if Matches(ts, st, [WHILE]) {
      assert r == WhileStatement(ts, next);
    } else if Matches(ts, st, [PRINT]) {
      assert r == PrintStatement(ts, next);
    } else if Matches(ts, st, [RETURN]) {
      assert r == ReturnStatement(ts, next);
    } else if !Matches(ts, st, [LEFT_BRACE]) {
      assert r == ExpressionStatement(ts, st);
    }
  }

  // ---- error recovery ----

  /** synchronize stops just after a ";", in front of a token that starts a statement, or
      at EOF; every token it steps over in its loop is none of those. */
  lemma {:induction false} SynchronizeFromStops(ts: seq<Token>, st: ParseState)
    requires InRange(ts, st) && (IsAtEnd(ts, st) || st.pos >= 1)
    ensures var r := SynchronizeFrom(ts, st);
            && (IsAtEnd(ts, r) || (r.pos >= 1 && (Previous(ts, r).tokenType == SEMICOLON
                                                  || Peek(ts, r).tokenType in StatementStarts)))
            && (forall k :: st.pos <= k < r.pos ==> Skippable(ts, k))
    decreases |ts| - st.pos
  {
    if !IsAtEnd(ts, st) && Previous(ts, st).tokenType != SEMICOLON && Peek(ts, st).tokenType !in StatementStarts {
      SynchronizeFromStops(ts, Advance(ts, st));
    }
  }

  /** A token synchronize steps over: not EOF, not the start of a statement, and not just
      after a ";". */
  predicate Skippable(ts: seq<Token>, k: int)
    requires 0 <= k < |ts|
  {
    k >= 1 && ts[k].tokenType != EOF && ts[k].tokenType !in StatementStarts
    && ts[k - 1].tokenType != SEMICOLON
  }

  /** synchronize always steps over the token the error was reported at (unless it is EOF),
      then stops at the first boundary. */
  lemma SynchronizeStops(ts: seq<Token>, st: ParseState)
    requires InRange(ts, st)
    ensures var r := Synchronize(ts, st);
            && (!IsAtEnd(ts, st) ==> st.pos < r.pos)
            && (IsAtEnd(ts, r) || (r.pos >= 1 && (Previous(ts, r).tokenType == SEMICOLON
                                                  || Peek(ts, r).tokenType in StatementStarts)))
            && (forall k :: st.pos < k < r.pos ==> Skippable(ts, k))
  {
    SynchronizeFromStops(ts, Advance(ts, st));
  }

  // ---- parse ----

  /** The number of null entries of a statement list. */
  function Nulls(ss: seq<Option<Stmt>>): (n: nat)
    ensures n <= |ss|
  {
    if ss == [] then 0 else (if ss[|ss| - 1].None? then 1 else 0) + Nulls(ss[..|ss| - 1])
  }

  /** The loop of parse adds one entry per declaration, each declaration consumes at least
      one token, and each null entry comes with a reported diagnostic. */
  lemma {:induction false} ParseFromCounts(ts: seq<Token>, ss: seq<Option<Stmt>>, st: ParseState)
    requires InRange(ts, st)
    ensures var r := ParseFrom(ts, ss, st);
            && |r.result.value| - |ss| <= r.state.pos - st.pos
            && Nulls(r.result.value) - Nulls(ss) <= |r.state.diagnostics| - |st.diagnostics|
    decreases |ts| - st.pos
  {
    if !IsAtEnd(ts, st) {
      var d := Declaration(ts, st);
      var ss' := ss + [d.result.value];
      assert ss'[..|ss'| - 1] == ss;
      ParseFromCounts(ts, ss', d.state);
    }
  }

  /** parse returns fewer entries than there are tokens, and a null entry for at most as
      many declarations as diagnostics were reported; without diagnostics, none is null. */
  lemma ParseCounts(ts: seq<Token>)
    requires WellFormed(ts)
    ensures var r := Parse(ts);
            && |r.result.value| < |ts|
            && Nulls(r.result.value) <= |r.state.diagnostics|
            && (r.state.diagnostics == [] ==> forall k :: 0 <= k < |r.result.value| ==> r.result.value[k].Some?)
  {
    ParseFromCounts(ts, [], ParseState(0, []));
    var r := Parse(ts);
    if r.state.diagnostics == [] {
      forall k | 0 <= k < |r.result.value|
        ensures r.result.value[k].Some?
      {
        NoNulls(r.result.value, k);
      }
    }
  }

  /** A list with no null entries has a value at each index. */
  lemma {:induction false} NoNulls(ss: seq<Option<Stmt>>, k: int)
    requires 0 <= k < |ss| && Nulls(ss) == 0
    ensures ss[k].Some?
  {
    if k < |ss| - 1 {
      NoNulls(ss[..|ss| - 1], k);
    }
  }
}
