// The parser object: a cursor over the token list, advanced by one method per grammar
// production. Each method is proved to do what the production of the same name in
// ParserSpec describes; a thrown ParseError is a Failure the callers pass on.

module Parsing {
  import opened Wrappers
  import opened Values
  import opened Tokens
  import opened Ast
  import Spec = ParserSpec

  type Outcome<T> = Result<T, Spec.ParseError>

  class Parser {
    const tokens: seq<Token>
    /** The index of the next token to read. */
    var current: int
    /** The diagnostics passed to Lox.error, in order. */
    var diagnostics: seq<Diagnostic>

    /** The cursor and the diagnostics, as the production functions see them. */
    function State(): Spec.ParseState
      reads this
    {
      Spec.ParseState(current, diagnostics)
    }

    ghost predicate Valid()
      reads this
    {
      Spec.InRange(tokens, State())
    }

    /** A parser at the first token, with nothing reported. */
    constructor (tokens: seq<Token>)
      requires WellFormed(tokens)
      ensures Valid() && this.tokens == tokens && State() == Spec.ParseState(0, [])
    {
      this.tokens := tokens;
      current := 0;
      diagnostics := [];
    }

    // ---- the token primitives ----

    /** advance: step over the current token unless it is EOF. */
    method Advance()
      requires Valid()
      modifies this
      ensures Valid() && State() == Spec.Advance(tokens, old(State()))
    {
      if !Spec.IsAtEnd(tokens, State()) {
        current := current + 1;
      }
    }

    /** match: try the kinds in order; the first one checked is consumed. */
    method Match(types: seq<TokenType>) returns (matched: bool)
      requires Valid()
      modifies this
      ensures Valid()
      ensures matched == Spec.Matches(tokens, old(State()), types)
      ensures State() == if matched then Spec.Advance(tokens, old(State())) else old(State())
    {
      for i := 0 to |types|
        invariant State() == old(State())
        invariant forall k :: 0 <= k < i ==> !Spec.Check(tokens, State(), types[k])
      {
        if Spec.Check(tokens, State(), types[i]) {
          Advance();
          return true;
        }
      }
      return false;
    }

    /** error: report the message at the token. */
    method Error(token: Token, message: string) returns (e: Spec.ParseError)
      modifies this
      ensures State() == Spec.Report(old(State()), token, message) && e == Spec.ParseError
    {
      diagnostics := diagnostics + [TokenError(token, message)];
      e := Spec.ParseError;
    }

    /** consume: the current token when it has the kind, else throw the message. */
    method Consume(t: TokenType, message: string) returns (r: Outcome<Token>)
      requires Valid()
      modifies this
      ensures Valid()
      ensures Spec.Parsed(r, State()) == Spec.Consume(tokens, old(State()), t, message)
    {
      if Spec.Check(tokens, State(), t) {
        var token := Spec.Peek(tokens, State());
        Advance();
        return Success(token);
      }
      var e := Error(Spec.Peek(tokens, State()), message);
      return Failure(e);
    }

    /** synchronize: skip to just after a ";" or to a token that starts a statement. */
    method Synchronize()
      requires Valid()
      modifies this
      ensures Valid() && State() == Spec.Synchronize(tokens, old(State()))
    {
      Advance();
      while !Spec.IsAtEnd(tokens, State())
        invariant Valid() && (Spec.IsAtEnd(tokens, State()) || current >= 1)
        invariant Spec.SynchronizeFrom(tokens, State()) == Spec.Synchronize(tokens, old(State()))
        decreases |tokens| - current
      {
        if Spec.Previous(tokens, State()).tokenType == SEMICOLON {
          return;
        }
        if Spec.Peek(tokens, State()).tokenType in Spec.StatementStarts {
          return;
        }
        Advance();
      }
    }

    // ---- declarations and statements ----

    /** parse: declarations until EOF. */
    method Parse() returns (statements: seq<Option<Stmt>>)
      requires Valid()
      modifies this
      ensures Valid()
      ensures Spec.ParseFrom(tokens, [], old(State())) == Spec.Parsed(Success(statements), State())
    {
      statements := [];
      while !Spec.IsAtEnd(tokens, State())
        invariant Valid()
        invariant Spec.ParseFrom(tokens, statements, State()) == Spec.ParseFrom(tokens, [], old(State()))
        decreases |tokens| - current
      {
        var declaration := Declarations();
        statements := statements + [declaration];
      }
    }

    /** declarations: a declaration, or null after a ParseError and synchronize. */
    method Declarations() returns (s: Option<Stmt>)
      requires Valid()
      modifies this
      ensures Valid()
      ensures Spec.Declaration(tokens, old(State())) == Spec.Parsed(Success(s), State())
      decreases |tokens| - current, 5
    {
      var attempt := TryDeclaration();
      if attempt.Success? {
        return Some(attempt.value);
      }
      Synchronize();
      return None;
    }

    /** The try block of declarations. */
    method TryDeclaration() returns (r: Outcome<Stmt>)
      requires Valid()
      modifies this
      ensures Valid()
      ensures Spec.Parsed(r, State()) == Spec.TryDeclaration(tokens, old(State()))
      decreases |tokens| - current, 4
    {
      var matched := Match([FUN]);
      if matched {
        r := FunDeclaration("function");
        return;
      }
      matched := Match([VAR]);
      if matched {
        r := VarDeclaration();
        return;
      }
      matched := Match([IDENTIFIER]);
      if matched {
        if Spec.Check(tokens, State(), EQUAL) {
          r := ReassignmentDeclaration();
          return;
        }
        current := current - 1;
      }
      r := Statement();
    }

    /** funcDeclaration: name, parameters and body, just after "fun". */
    method FunDeclaration(kind: string) returns (r: Outcome<Stmt>)
      requires Valid()
      modifies this
      ensures Valid()
      ensures Spec.Parsed(r, State()) == Spec.FunDeclaration(tokens, kind, old(State()))
      decreases |tokens| - current, 2
    {
      var name :- Consume(IDENTIFIER, "Expect" + kind + "name");
      var open :- Consume(LEFT_PAREN, "Expect '(' in the start of new function definition");
      r := FunctionRest(name);
    }

    /** The parameters, ")" and the body of a function, just after "(". */
    method FunctionRest(name: Token) returns (r: Outcome<Stmt>)
      requires Valid()
      modifies this
      ensures Valid()
      ensures Spec.Parsed(r, State()) == Spec.FunctionRest(tokens, name, old(State()))
      decreases |tokens| - current, 1
    {
      var params: seq<Token> := [];
      if !Spec.Check(tokens, State(), RIGHT_PAREN) {
        while true
          invariant Valid() && old(current) <= current
          invariant Spec.Parameters(tokens, params, State()) == Spec.Parameters(tokens, [], old(State()))
          decreases |tokens| - current
        {
          if |params| > 255 {
            var _ := Error(Spec.Peek(tokens, State()), "Cannot have more than 255 parameters");
          }
          var param :- Consume(IDENTIFIER, "Expect parameter name");
          params := params + [param];
          var more := Match([COMMA]);
          if !more {
            break;
          }
        }
      }
      var close :- Consume(RIGHT_PAREN, "Expect ')' in the end of function");
      var body :- BracedBlock("Expect '{' in the start of function body");
      return Success(Function(name, params, body));
    }

    /** The optional "=" expression of a variable declaration or reassignment. */
    method Initializer() returns (r: Outcome<Option<Expr>>)
      requires Valid()
      modifies this
      ensures Valid()
      ensures Spec.Parsed(r, State()) == Spec.Initializer(tokens, old(State()))
    {
      var equals := Match([EQUAL]);
      if equals {
        var value :- Expression();
        return Success(Some(value));
      }
      return Success(None);
    }

    /** varDeclaration: name, optional initializer and ";", just after "var". */
    method VarDeclaration() returns (r: Outcome<Stmt>)
      requires Valid()
      modifies this
      ensures Valid()
      ensures Spec.Parsed(r, State()) == Spec.VarDeclaration(tokens, old(State()))
    {
      var name :- Consume(IDENTIFIER, "Expect variable name.");
      var initializer :- Initializer();
      var semicolon :- Consume(SEMICOLON, "Expect ';' after variable declaration.");
      return Success(Var(name, initializer));
    }

    /** reassignmentDeclaration: the previous token's variable, an optional "=" expression
        and ";". */
    method ReassignmentDeclaration() returns (r: Outcome<Stmt>)
      requires Valid() && current >= 1
      modifies this
      ensures Valid()
      ensures Spec.Parsed(r, State()) == Spec.ReassignmentDeclaration(tokens, old(State()))
    {
      var name := Spec.Previous(tokens, State());
      var reInitializer :- Initializer();
      var semicolon :- Consume(SEMICOLON, "Expect ';' after reassignment.");
      return Success(Reassign(name, reInitializer));
    }

    /** statement: dispatch on the first token. */
    method Statement() returns (r: Outcome<Stmt>)
      requires Valid()
      modifies this
      ensures Valid()
      ensures Spec.Parsed(r, State()) == Spec.Statement(tokens, old(State()))
      decreases |tokens| - current, 3
    {
      var matched := Match([IF]);
      if matched {
        r := IfStatement();
        return;
      }
      matched := Match([FOR]);
      if matched {
        r := ForStatement();
        return;
      }
      matched := Match([WHILE]);
      if matched {
        r := WhileStatement();
        return;
      }
      matched := Match([PRINT]);
      if matched {
        r := PrintStatement();
        return;
      }
      matched := Match([RETURN]);
      if matched {
        r := ReturnStatement();
        return;
      }
      matched := Match([LEFT_BRACE]);
      if matched {
        var body :- Block();
        return Success(Stmt.Block(body));
      }
      r := ExpressionStatement();
    }

    /** returnStatement: an optional value and ";", just after "return". */
    method ReturnStatement() returns (r: Outcome<Stmt>)
      requires Valid() && current >= 1
      modifies this
      ensures Valid()
      ensures Spec.Parsed(r, State()) == Spec.ReturnStatement(tokens, old(State()))
    {
      var keyword := Spec.Previous(tokens, State());
      var value :- OptionalExpression(SEMICOLON);
      var semicolon :- Consume(SEMICOLON, "Expect ';' after return statement.");
      return Success(Return(keyword, value));
    }

    /** An expression unless the given kind of token comes first. */
    method OptionalExpression(stop: TokenType) returns (r: Outcome<Option<Expr>>)
      requires Valid()
      modifies this
      ensures Valid()
      ensures Spec.Parsed(r, State()) == Spec.OptionalExpression(tokens, old(State()), stop)
    {
      if Spec.Check(tokens, State(), stop) {
        return Success(None);
      }
      var e :- Expression();
      return Success(Some(e));
    }

    /** ifStatement: condition, then block and optional else block, just after "if". */
    method IfStatement() returns (r: Outcome<Stmt>)
      requires Valid()
      modifies this
      ensures Valid()
      ensures Spec.Parsed(r, State()) == Spec.IfStatement(tokens, old(State()))
      decreases |tokens| - current, 2
    {
      var condition :- Condition("Expect '(' after if statement.", "Expect ')' after if statement.");
      var thenBranches :- BracedBlock("Expect '{' after if start of if block.");
      var elseBranches :- ElseBlock();
      return Success(If(condition, thenBranches, elseBranches));
    }

    /** The optional else part of an if statement. */
    method ElseBlock() returns (r: Outcome<ElseBranch>)
      requires Valid()
      modifies this
      ensures Valid()
      ensures Spec.Parsed(r, State()) == Spec.ElseBlock(tokens, old(State()))
      decreases |tokens| - current, 1
    {
      var hasElse := Match([ELSE]);
      if !hasElse {
        return Success(NoElse);
      }
      var statements :- BracedBlock("Expect '{' after start of else block.");
      return Success(Else(statements));
    }

    /** A parenthesized condition. */
    method Condition(openMessage: string, closeMessage: string) returns (r: Outcome<Expr>)
      requires Valid()
      modifies this
      ensures Valid()
      ensures Spec.Parsed(r, State()) == Spec.Condition(tokens, old(State()), openMessage, closeMessage)
    {
      var open :- Consume(LEFT_PAREN, openMessage);
      var condition :- Expression();
      var close :- Consume(RIGHT_PAREN, closeMessage);
      return Success(condition);
    }

    /** forStatement: the clauses and the body as a while node, just after "for". */
    method ForStatement() returns (r: Outcome<Stmt>)
      requires Valid()
      modifies this
      ensures Valid()
      ensures Spec.Parsed(r, State()) == Spec.ForStatement(tokens, old(State()))
      decreases |tokens| - current, 2
    {
      var clauses :- ForClauses();
      var close :- Consume(RIGHT_PAREN, "Expect ')' after for loop statement.");
      var statements :- BracedBlock("Expect '{' after fot loop statement.");
      var (initializer, condition, increment) := clauses;
      ghost var body := statements;
      if increment.Some? {
        statements := [increment] + statements;
      } else {
        assert statements == [] + body;
      }
      var loopCondition := condition.GetOr(Literal(Bool(true)));
      return Success(While(loopCondition, statements, initializer));
    }

    /** The clauses of a for statement up to the ")". */
    method ForClauses() returns (r: Outcome<(Option<Stmt>, Option<Expr>, Option<Stmt>)>)
      requires Valid()
      modifies this
      ensures Valid()
      ensures Spec.Parsed(r, State()) == Spec.ForClauses(tokens, old(State()))
    {
      var open :- Consume(LEFT_PAREN, "Expect '(' after 'for' statement.");
      var initializer :- ForInitializer();
      var condition :- OptionalExpression(SEMICOLON);
      var semicolon :- Consume(SEMICOLON, "Expect ';' after loop condition.");
      var increment :- ForIncrement();
      return Success((initializer, condition, increment));
    }

    /** The initializer clause of a for statement. */
    method ForInitializer() returns (r: Outcome<Option<Stmt>>)
      requires Valid()
      modifies this
      ensures Valid()
      ensures Spec.Parsed(r, State()) == Spec.ForInitializer(tokens, old(State()))
    {
      var noInitializer := Match([SEMICOLON]);
      if noInitializer {
        return Success(None);
      }
      var isVar := Match([VAR]);
      var s: Stmt;
      if isVar {
        s :- VarDeclaration();
      } else {
        s :- ExpressionStatement();
      }
      return Success(Some(s));
    }

    /** The increment clause of a for statement. */
    method ForIncrement() returns (r: Outcome<Option<Stmt>>)
      requires Valid() && current >= 1
      modifies this
      ensures Valid()
      ensures Spec.Parsed(r, State()) == Spec.ForIncrement(tokens, old(State()))
    {
      if Spec.Check(tokens, State(), RIGHT_PAREN) {
        return Success(None);
      }
      Advance();
      var s :- ReassignmentDeclaration();
      return Success(Some(s));
    }

    /** whileStatement: condition and body, just after "while". */
    method WhileStatement() returns (r: Outcome<Stmt>)
      requires Valid()
      modifies this
      ensures Valid()
      ensures Spec.Parsed(r, State()) == Spec.WhileStatement(tokens, old(State()))
      decreases |tokens| - current, 2
    {
      var condition :- Condition("Expect '(' after while statement.", "Expect ')' after while statement.");
      var body :- BracedBlock("Expect '{' after start of while block.");
      return Success(While(condition, body, None));
    }

    /** "{" and a block. */
    method BracedBlock(message: string) returns (r: Outcome<seq<Option<Stmt>>>)
      requires Valid()
      modifies this
      ensures Valid()
      ensures Spec.Parsed(r, State()) == Spec.BracedBlock(tokens, old(State()), message)
      decreases |tokens| - current, 0
    {
      var brace :- Consume(LEFT_BRACE, message);
      r := Block();
    }

    /** block: declarations up to "}", just after "{". */
    method Block() returns (r: Outcome<seq<Option<Stmt>>>)
      requires Valid()
      modifies this
      ensures Valid()
      ensures Spec.Parsed(r, State()) == Spec.Block(tokens, old(State()))
      decreases |tokens| - current, 7
    {
      var statements: seq<Option<Stmt>> := [];
      while !Spec.Check(tokens, State(), RIGHT_BRACE) && !Spec.IsAtEnd(tokens, State())
        invariant Valid() && old(current) <= current
        invariant Spec.BlockFrom(tokens, statements, State()) == Spec.Block(tokens, old(State()))
        decreases |tokens| - current
      {
        var declaration := Declarations();
        statements := statements + [declaration];
      }
      var brace :- Consume(RIGHT_BRACE, "Expect '}' after block.");
      return Success(statements);
    }

    /** printStatement: an expression and ";", just after "print". */
    method PrintStatement() returns (r: Outcome<Stmt>)
      requires Valid()
      modifies this
      ensures Valid()
      ensures Spec.Parsed(r, State()) == Spec.PrintStatement(tokens, old(State()))
    {
      var value :- Expression();
      var semicolon :- Consume(SEMICOLON, "Expect ';' after value.");
      return Success(Print(value));
    }

    /** expressionStatement: an expression and ";". */
    method ExpressionStatement() returns (r: Outcome<Stmt>)
      requires Valid()
      modifies this
      ensures Valid()
      ensures Spec.Parsed(r, State()) == Spec.ExpressionStatement(tokens, old(State()))
    {
      var value :- Expression();
      var semicolon :- Consume(SEMICOLON, "Expect ';' after value.");
      return Success(Stmt.Expression(value));
    }

    // ---- expressions ----

    method Expression() returns (r: Outcome<Expr>)
      requires Valid()
      modifies this
      ensures Valid()
      ensures Spec.Parsed(r, State()) == Spec.Expression(tokens, old(State()))
      decreases |tokens| - current, 20
    {
      r := Assignment();
    }

    /** assignment: an or-expression, optionally "=" and an assignment. */
    method Assignment() returns (r: Outcome<Expr>)
      requires Valid()
      modifies this
      ensures Valid()
      ensures Spec.Parsed(r, State()) == Spec.Assignment(tokens, old(State()))
      decreases |tokens| - current, 19
    {
      var expr :- Or();
      var matched := Match([EQUAL]);
      if matched {
        var equals := Spec.Previous(tokens, State());
        var value :- Assignment();
        if expr.Variable? {
          var name := expr.name;
          return Success(Assign(name, expr));
        }
        var _ := Error(equals, "Invalid assignment target.");
      }
      return Success(expr);
    }

    /** or: an and-expression, optionally "or" and another. */
    method Or() returns (r: Outcome<Expr>)
      requires Valid()
      modifies this
      ensures Valid()
      ensures Spec.Parsed(r, State()) == Spec.Or(tokens, old(State()))
      decreases |tokens| - current, 18
    {
      var expr :- And();
      var matched := Match([OR]);
      if matched {
        var operator := Spec.Previous(tokens, State());
        var right :- And();
        expr := Logical(expr, operator, right);
      }
      return Success(expr);
    }

    /** and: an equality, optionally "and" and another. */
    method And() returns (r: Outcome<Expr>)
      requires Valid()
      modifies this
      ensures Valid()
      ensures Spec.Parsed(r, State()) == Spec.And(tokens, old(State()))
      decreases |tokens| - current, 17
    {
      var expr :- Equality();
      var matched := Match([AND]);
      if matched {
        var operator := Spec.Previous(tokens, State());
        var right :- Equality();
        expr := Logical(expr, operator, right);
      }
      return Success(expr);
    }

    /** equality: comparisons joined by "!=" and "==", grouping to the left. */
    method Equality() returns (r: Outcome<Expr>)
      requires Valid()
      modifies this
      ensures Valid()
      ensures Spec.Parsed(r, State()) == Spec.Equality(tokens, old(State()))
      decreases |tokens| - current, 16
    {
      var expr :- Comparison();
      while true
        invariant Valid()
        invariant Spec.EqualityTail(tokens, expr, State()) == Spec.Equality(tokens, old(State()))
        decreases |tokens| - current
      {
        var matched := Match([BANG_EQUAL, EQUAL_EQUAL]);
        if !matched {
          break;
        }
        var operator := Spec.Previous(tokens, State());
        var right :- Comparison();
        expr := Binary(expr, operator, right);
      }
      return Success(expr);
    }

    /** comparison: terms joined by ">", ">=", "<" and "<=", grouping to the left. */
    method Comparison() returns (r: Outcome<Expr>)
      requires Valid()
      modifies this
      ensures Valid()
      ensures Spec.Parsed(r, State()) == Spec.Comparison(tokens, old(State()))
      decreases |tokens| - current, 14
    {
      var expr :- Term();
      while true
        invariant Valid()
        invariant Spec.ComparisonTail(tokens, expr, State()) == Spec.Comparison(tokens, old(State()))
        decreases |tokens| - current
      {
        var matched := Match([GREATER, GREATER_EQUAL, LESS, LESS_EQUAL]);
        if !matched {
          break;
        }
        var operator := Spec.Previous(tokens, State());
        var right :- Term();
        expr := Binary(expr, operator, right);
      }
      return Success(expr);
    }

    /** term: factors joined by "-" and "+", grouping to the left. */
    method Term() returns (r: Outcome<Expr>)
      requires Valid()
      modifies this
      ensures Valid()
      ensures Spec.Parsed(r, State()) == Spec.Term(tokens, old(State()))
      decreases |tokens| - current, 12
    {
      var expr :- Factor();
      while true
        invariant Valid()
        invariant Spec.TermTail(tokens, expr, State()) == Spec.Term(tokens, old(State()))
        decreases |tokens| - current
      {
        var matched := Match([MINUS, PLUS]);
        if !matched {
          break;
        }
        var operator := Spec.Previous(tokens, State());
        var right :- Factor();
        expr := Binary(expr, operator, right);
      }
      return Success(expr);
    }

    /** factor: a unary expression, then "/" or "*" and a whole factor. */
    method Factor() returns (r: Outcome<Expr>)
      requires Valid()
      modifies this
      ensures Valid()
      ensures Spec.Parsed(r, State()) == Spec.Factor(tokens, old(State()))
      decreases |tokens| - current, 10
    {
      var expr :- Unary();
      while true
        invariant Valid()
        invariant Spec.FactorTail(tokens, expr, State()) == Spec.Factor(tokens, old(State()))
        decreases |tokens| - current
      {
        var matched := Match([SLASH, STAR]);
        if !matched {
          break;
        }
        var operator := Spec.Previous(tokens, State());
        var right :- Factor();
        expr := Binary(expr, operator, right);
      }
      return Success(expr);
    }

    /** unary: "!" or "-" and a unary expression, or a call. */
    method Unary() returns (r: Outcome<Expr>)
      requires Valid()
      modifies this
      ensures Valid()
      ensures Spec.Parsed(r, State()) == Spec.Unary(tokens, old(State()))
      decreases |tokens| - current, 8
    {
      var matched := Match([BANG, MINUS]);
      if matched {
        var operator := Spec.Previous(tokens, State());
        var right :- Unary();
        return Success(Ast.Unary(operator, right));
      }
      r := Call();
    }

    /** call: a primary expression, called while "(" follows. */
    method Call() returns (r: Outcome<Expr>)
      requires Valid()
      modifies this
      ensures Valid()
      ensures Spec.Parsed(r, State()) == Spec.Call(tokens, old(State()))
      decreases |tokens| - current, 7
    {
      var expr :- Primary();
      while true
        invariant Valid()
        invariant Spec.CallTail(tokens, expr, State()) == Spec.Call(tokens, old(State()))
        decreases |tokens| - current
      {
        var matched := Match([LEFT_PAREN]);
        if !matched {
          break;
        }
        expr :- FinishCall(expr);
      }
      return Success(expr);
    }

    /** finishCall: the arguments and the closing ")", just after "(". */
    method FinishCall(callee: Expr) returns (r: Outcome<Expr>)
      requires Valid()
      modifies this
      ensures Valid()
      ensures Spec.Parsed(r, State()) == Spec.FinishCall(tokens, callee, old(State()))
      decreases |tokens| - current, 23
    {
      var arguments: seq<Expr> := [];
      if !Spec.Check(tokens, State(), RIGHT_PAREN) {
        ghost var start := State();
        while true
          invariant Valid() && start.pos <= current
          invariant Spec.Arguments(tokens, callee, arguments, State()) == Spec.Arguments(tokens, callee, [], start)
          decreases |tokens| - current
        {
          if |arguments| > 255 {
            var _ := Error(Spec.Peek(tokens, State()), "Can't have more than 255 arguments.");
          }
          var argument :- Expression();
          arguments := arguments + [argument];
          var more := Match([COMMA]);
          if !more {
            break;
          }
        }
      }
      var paren :- Consume(RIGHT_PAREN, "Expect ')' after finish call.");
      return Success(Ast.Call(callee, paren, arguments));
    }

    /** primary: a literal, a variable or a parenthesized expression. */
    method Primary() returns (r: Outcome<Expr>)
      requires Valid()
      modifies this
      ensures Valid()
      ensures Spec.Parsed(r, State()) == Spec.Primary(tokens, old(State()))
      decreases |tokens| - current, 5
    {
      var matched := Match([FALSE]);
      if matched {
        return Success(Literal(Bool(false)));
      }
      matched := Match([TRUE]);
      if matched {
        return Success(Literal(Bool(true)));
      }
      matched := Match([NIL]);
      if matched {
        return Success(Literal(Nil));
      }
      matched := Match([NUMBER, STRING]);
      if matched {
        return Success(Literal(Spec.Previous(tokens, State()).literal));
      }
      matched := Match([IDENTIFIER]);
      if matched {
        return Success(Variable(Spec.Previous(tokens, State())));
      }
      matched := Match([LEFT_PAREN]);
      if matched {
        var expr :- Expression();
        var close :- Consume(RIGHT_PAREN, "Expect ')' after expression.");
        return Success(Grouping(expr));
      }
      var e := Error(Spec.Peek(tokens, State()), "Expect expression.");
      return Failure(e);
    }
  }
}
