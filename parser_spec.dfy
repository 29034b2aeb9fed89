// The recursive-descent parser as functions: each production maps the token list and a
// parser state (the cursor and the diagnostics reported so far) to what the production
// returns, or to a thrown ParseError, together with the state it leaves.

module ParserSpec {
  import opened Wrappers
  import opened Values
  import opened Tokens
  import opened Ast

  /** The parser's cursor into the token list, with the diagnostics passed to Lox.error. */
  datatype ParseState = ParseState(pos: int, diagnostics: seq<Diagnostic>)

  /** Java's ParseError: it carries nothing, its message has been reported already. */
  datatype ParseError = ParseError

  /** What a production returns or throws, and the state it leaves. */
  datatype Parsed<+T> = Parsed(result: Result<T, ParseError>, state: ParseState)

  /** The cursor is on a token of a list that ends with EOF. */
  predicate InRange(ts: seq<Token>, st: ParseState) {
    WellFormed(ts) && 0 <= st.pos < |ts|
  }

  /** The state a production leaves: the cursor stays on a token and never moves back, and
      the diagnostics only grow. */
  predicate Follows(ts: seq<Token>, st: ParseState, next: ParseState) {
    InRange(ts, next) && st.pos <= next.pos && st.diagnostics <= next.diagnostics
  }

  /** A production that returns has consumed a token; one that throws has reported a
      diagnostic. */
  predicate Progress<T>(ts: seq<Token>, st: ParseState, r: Parsed<T>) {
    Follows(ts, st, r.state)
    && (r.result.Success? ==> st.pos < r.state.pos)
    && (r.result.Failure? ==> |st.diagnostics| < |r.state.diagnostics|)
  }

  /** A loop over repeated parts: a throw again has reported a diagnostic, but a loop that
      stops at once consumes nothing. */
  predicate TailProgress<T>(ts: seq<Token>, st: ParseState, r: Parsed<T>) {
    Follows(ts, st, r.state)
    && (r.result.Failure? ==> |st.diagnostics| < |r.state.diagnostics|)
  }

  // ---- the token primitives ----

  function Peek(ts: seq<Token>, st: ParseState): Token
    requires InRange(ts, st)
  {
    ts[st.pos]
  }

  /** previous: the token just stepped over. */
  function Previous(ts: seq<Token>, st: ParseState): Token
    requires InRange(ts, st) && st.pos >= 1
  {
    ts[st.pos - 1]
  }

  predicate IsAtEnd(ts: seq<Token>, st: ParseState)
    requires InRange(ts, st)
  {
    Peek(ts, st).tokenType == EOF
  }

  /** check: the current token has the kind; never at EOF. */
  predicate Check(ts: seq<Token>, st: ParseState, t: TokenType)
    requires InRange(ts, st)
  {
    !IsAtEnd(ts, st) && Peek(ts, st).tokenType == t
  }

  /** match: whether one of the kinds is checked (the token is then consumed). */
  predicate Matches(ts: seq<Token>, st: ParseState, types: seq<TokenType>)
    requires InRange(ts, st)
  {
    !IsAtEnd(ts, st) && Peek(ts, st).tokenType in types
  }

  /** advance: step over the current token, but never past EOF. */
  function Advance(ts: seq<Token>, st: ParseState): (r: ParseState)
    requires InRange(ts, st)
    ensures InRange(ts, r) && r.diagnostics == st.diagnostics
    ensures IsAtEnd(ts, st) <==> r.pos == st.pos
    ensures !IsAtEnd(ts, st) <==> r.pos == st.pos + 1
  {
    if IsAtEnd(ts, st) then st else st.(pos := st.pos + 1)
  }

  /** Lox.error: one more diagnostic, at a token. */
  function Report(st: ParseState, token: Token, message: string): (r: ParseState)
    ensures r.pos == st.pos && r.diagnostics == st.diagnostics + [TokenError(token, message)]
  {
    st.(diagnostics := st.diagnostics + [TokenError(token, message)])
  }

  /** throw error(peek(), message): the message is reported at the current token. */
  function Throw<T>(ts: seq<Token>, st: ParseState, message: string): (r: Parsed<T>)
    requires InRange(ts, st)
    ensures r.result.Failure? && TailProgress(ts, st, r)
    ensures r.state == Report(st, Peek(ts, st), message)
  {
    Parsed(Failure(ParseError), Report(st, Peek(ts, st), message))
  }

  /** A ParseError thrown by a part, passed on by the production that called it. */
  function Rethrow<T, U>(p: Parsed<T>): (r: Parsed<U>)
    requires p.result.Failure?
    ensures r.result.Failure? && r.state == p.state
  {
    Parsed(p.result.PropagateFailure(), p.state)
  }

  /** consume: the current token when it has the kind, else the message is thrown. */
  function Consume(ts: seq<Token>, st: ParseState, t: TokenType, message: string): (r: Parsed<Token>)
    requires InRange(ts, st)
    ensures Progress(ts, st, r)
    ensures r.result.Success? <==> Check(ts, st, t)
    ensures r.result.Success? ==> r.result.value == Peek(ts, st) && r.state == Advance(ts, st)
    ensures r.result.Failure? ==> r.state == Report(st, Peek(ts, st), message)
  {
    if Check(ts, st, t) then Parsed(Success(Peek(ts, st)), Advance(ts, st))
    else Throw(ts, st, message)
  }

  // ---- expressions ----

  function Expression(ts: seq<Token>, st: ParseState): (r: Parsed<Expr>)
    requires InRange(ts, st)
    ensures Progress(ts, st, r)
    decreases |ts| - st.pos, 20
  {
    Assignment(ts, st)
  }

  /** assignment: an or-expression, optionally followed by '=' and an assignment. With a
      variable on the left the node is Assign(name, the variable itself); otherwise the
      right side is parsed, dropped, and "Invalid assignment target." is reported without
      throwing. */
  function Assignment(ts: seq<Token>, st: ParseState): (r: Parsed<Expr>)
    requires InRange(ts, st)
    ensures Progress(ts, st, r)
    decreases |ts| - st.pos, 19
  {
    var target := Or(ts, st);
    if target.result.Failure? || !Matches(ts, target.state, [EQUAL]) then target
    else
      var equals := Peek(ts, target.state);
      var value := Assignment(ts, Advance(ts, target.state));
      if value.result.Failure? then value
      else if target.result.value.Variable? then
        Parsed(Success(Assign(target.result.value.name, target.result.value)), value.state)
      else
        Parsed(target.result, Report(value.state, equals, "Invalid assignment target."))
  }

  /** or: an and-expression, and at most one further "or" and-expression. */
  function Or(ts: seq<Token>, st: ParseState): (r: Parsed<Expr>)
    requires InRange(ts, st)
    ensures Progress(ts, st, r)
    decreases |ts| - st.pos, 18
  {
    var left := And(ts, st);
    if left.result.Failure? || !Matches(ts, left.state, [OR]) then left
    else
      var operator := Peek(ts, left.state);
      var right := And(ts, Advance(ts, left.state));
      if right.result.Failure? then right
      else Parsed(Success(Logical(left.result.value, operator, right.result.value)), right.state)
  }

  /** and: an equality, and at most one further "and" equality. */
  function And(ts: seq<Token>, st: ParseState): (r: Parsed<Expr>)
    requires InRange(ts, st)
    ensures Progress(ts, st, r)
    decreases |ts| - st.pos, 17
  {
    var left := Equality(ts, st);
    if left.result.Failure? || !Matches(ts, left.state, [AND]) then left
    else
      var operator := Peek(ts, left.state);
      var right := Equality(ts, Advance(ts, left.state));
      if right.result.Failure? then right
      else Parsed(Success(Logical(left.result.value, operator, right.result.value)), right.state)
  }

  function Equality(ts: seq<Token>, st: ParseState): (r: Parsed<Expr>)
    requires InRange(ts, st)
    ensures Progress(ts, st, r)
    decreases |ts| - st.pos, 16
  {
    var left := Comparison(ts, st);
    if left.result.Failure? then left else EqualityTail(ts, left.result.value, left.state)
  }

  /** The loop of equality: while "!=" or "==" follows, the next comparison becomes the
      right operand of a node whose left operand is everything so far. */
  function EqualityTail(ts: seq<Token>, left: Expr, st: ParseState): (r: Parsed<Expr>)
    requires InRange(ts, st)
    ensures TailProgress(ts, st, r)
    decreases |ts| - st.pos, 15
  {
    if !Matches(ts, st, [BANG_EQUAL, EQUAL_EQUAL]) then Parsed(Success(left), st)
    else
      var operator := Peek(ts, st);
      var right := Comparison(ts, Advance(ts, st));
      if right.result.Failure? then right
      else EqualityTail(ts, Binary(left, operator, right.result.value), right.state)
  }

  function Comparison(ts: seq<Token>, st: ParseState): (r: Parsed<Expr>)
    requires InRange(ts, st)
    ensures Progress(ts, st, r)
    decreases |ts| - st.pos, 14
  {
    var left := Term(ts, st);
    if left.result.Failure? then left else ComparisonTail(ts, left.result.value, left.state)
  }

  /** The loop of comparison, over ">", ">=", "<" and "<=". */
  function ComparisonTail(ts: seq<Token>, left: Expr, st: ParseState): (r: Parsed<Expr>)
    requires InRange(ts, st)
    ensures TailProgress(ts, st, r)
    decreases |ts| - st.pos, 13
  {
    if !Matches(ts, st, [GREATER, GREATER_EQUAL, LESS, LESS_EQUAL]) then Parsed(Success(left), st)
    else
      var operator := Peek(ts, st);
      var right := Term(ts, Advance(ts, st));
      if right.result.Failure? then right
      else ComparisonTail(ts, Binary(left, operator, right.result.value), right.state)
  }

  function Term(ts: seq<Token>, st: ParseState): (r: Parsed<Expr>)
    requires InRange(ts, st)
    ensures Progress(ts, st, r)
    decreases |ts| - st.pos, 12
  {
    var left := Factor(ts, st);
    if left.result.Failure? then left else TermTail(ts, left.result.value, left.state)
  }

  /** The loop of term, over "-" and "+". */
  function TermTail(ts: seq<Token>, left: Expr, st: ParseState): (r: Parsed<Expr>)
    requires InRange(ts, st)
    ensures TailProgress(ts, st, r)
    decreases |ts| - st.pos, 11
  {
    if !Matches(ts, st, [MINUS, PLUS]) then Parsed(Success(left), st)
    else
      var operator := Peek(ts, st);
      var right := Factor(ts, Advance(ts, st));
      if right.result.Failure? then right
      else TermTail(ts, Binary(left, operator, right.result.value), right.state)
  }

  function Factor(ts: seq<Token>, st: ParseState): (r: Parsed<Expr>)
    requires InRange(ts, st)
    ensures Progress(ts, st, r)
    decreases |ts| - st.pos, 10
  {
    var left := Unary(ts, st);
    if left.result.Failure? then left else FactorTail(ts, left.result.value, left.state)
  }

  /** The loop of factor, over "/" and "*". Its right operand is a whole factor, not a
      unary expression. */
  function FactorTail(ts: seq<Token>, left: Expr, st: ParseState): (r: Parsed<Expr>)
    requires InRange(ts, st)
    ensures TailProgress(ts, st, r)
    decreases |ts| - st.pos, 9
  {
    if !Matches(ts, st, [SLASH, STAR]) then Parsed(Success(left), st)
    else
      var operator := Peek(ts, st);
      var right := Factor(ts, Advance(ts, st));
      if right.result.Failure? then right
      else FactorTail(ts, Binary(left, operator, right.result.value), right.state)
  }

  /** unary: "!" or "-" before a unary expression, or else a call. */
  function Unary(ts: seq<Token>, st: ParseState): (r: Parsed<Expr>)
    requires InRange(ts, st)
    ensures Progress(ts, st, r)
    decreases |ts| - st.pos, 8
  {
    if Matches(ts, st, [BANG, MINUS]) then
      var operator := Peek(ts, st);
      var right := Unary(ts, Advance(ts, st));
      if right.result.Failure? then right
      else Parsed(Success(Ast.Unary(operator, right.result.value)), right.state)
    else Call(ts, st)
  }

  function Call(ts: seq<Token>, st: ParseState): (r: Parsed<Expr>)
    requires InRange(ts, st)
    ensures Progress(ts, st, r)
    decreases |ts| - st.pos, 7
  {
    var callee := Primary(ts, st);
    if callee.result.Failure? then callee else CallTail(ts, callee.result.value, callee.state)
  }

  /** The loop of call: while "(" follows, the expression so far is called. */
  function CallTail(ts: seq<Token>, callee: Expr, st: ParseState): (r: Parsed<Expr>)
    requires InRange(ts, st)
    ensures TailProgress(ts, st, r)
    decreases |ts| - st.pos, 6
  {
    if !Matches(ts, st, [LEFT_PAREN]) then Parsed(Success(callee), st)
    else
      var call := FinishCall(ts, callee, Advance(ts, st));
      if call.result.Failure? then call
      else CallTail(ts, call.result.value, call.state)
  }

  /** finishCall: the arguments up to ")", just after "(". */
  function FinishCall(ts: seq<Token>, callee: Expr, st: ParseState): (r: Parsed<Expr>)
    requires InRange(ts, st)
    ensures Progress(ts, st, r)
    ensures r.result.Success? ==> r.result.value.Call? && r.result.value.callee == callee
    decreases |ts| - st.pos, 23
  {
    if Check(ts, st, RIGHT_PAREN) then CloseCall(ts, callee, [], st)
    else Arguments(ts, callee, [], st)
  }

  /** The do-while loop of finishCall: one more argument, after reporting (without
      throwing) when more than 255 are already there, and again after a comma. */
  function Arguments(ts: seq<Token>, callee: Expr, args: seq<Expr>, st: ParseState): (r: Parsed<Expr>)
    requires InRange(ts, st)
    ensures Progress(ts, st, r)
    ensures r.result.Success? ==> r.result.value.Call? && r.result.value.callee == callee
    ensures r.result.Success? ==> args < r.result.value.arguments
    decreases |ts| - st.pos, 22
  {
    var checked := if |args| > 255 then Report(st, Peek(ts, st), "Can't have more than 255 arguments.") else st;
    var argument := Expression(ts, checked);
    if argument.result.Failure? then argument
    else if Matches(ts, argument.state, [COMMA]) then
      Arguments(ts, callee, args + [argument.result.value], Advance(ts, argument.state))
    else CloseCall(ts, callee, args + [argument.result.value], argument.state)
  }

  /** The closing ")" of a call, which the node keeps. */
  function CloseCall(ts: seq<Token>, callee: Expr, args: seq<Expr>, st: ParseState): (r: Parsed<Expr>)
    requires InRange(ts, st)
    ensures Progress(ts, st, r)
    ensures r.result.Success? ==> r.result.value == Ast.Call(callee, Peek(ts, st), args)
  {
    var paren := Consume(ts, st, RIGHT_PAREN, "Expect ')' after finish call.");
    if paren.result.Failure? then Rethrow(paren)
    else Parsed(Success(Ast.Call(callee, paren.result.value, args)), paren.state)
  }

  /** primary: false, true, nil, a number or string literal, a variable, or a parenthesized
      expression; anything else throws "Expect expression.". */
  function Primary(ts: seq<Token>, st: ParseState): (r: Parsed<Expr>)
    requires InRange(ts, st)
    ensures Progress(ts, st, r)
    decreases |ts| - st.pos, 5
  {
    if Matches(ts, st, [FALSE]) then Parsed(Success(Literal(Bool(false))), Advance(ts, st))
    else if Matches(ts, st, [TRUE]) then Parsed(Success(Literal(Bool(true))), Advance(ts, st))
    else if Matches(ts, st, [NIL]) then Parsed(Success(Literal(Nil)), Advance(ts, st))
    else if Matches(ts, st, [NUMBER, STRING]) then
      Parsed(Success(Literal(Peek(ts, st).literal)), Advance(ts, st))
    else if Matches(ts, st, [IDENTIFIER]) then Parsed(Success(Variable(Peek(ts, st))), Advance(ts, st))
    else if Matches(ts, st, [LEFT_PAREN]) then
      var inner := Expression(ts, Advance(ts, st));
      if inner.result.Failure? then inner
      else
        var close := Consume(ts, inner.state, RIGHT_PAREN, "Expect ')' after expression.");
        if close.result.Failure? then Rethrow(close)
        else Parsed(Success(Grouping(inner.result.value)), close.state)
    else Throw(ts, st, "Expect expression.")
  }

  // ---- statements ----

  /** A production that never throws (declarations catches every ParseError). */
  predicate Recovers<T>(ts: seq<Token>, st: ParseState, r: Parsed<T>) {
    Follows(ts, st, r.state) && r.result.Success?
  }

  /** parse: declarations until EOF; the list has an entry (null after an error) for each. */
  function Parse(ts: seq<Token>): (r: Parsed<seq<Option<Stmt>>>)
    requires WellFormed(ts)
    ensures Recovers(ts, ParseState(0, []), r) && IsAtEnd(ts, r.state)
  {
    ParseFrom(ts, [], ParseState(0, []))
  }

  /** The loop of parse. */
  function ParseFrom(ts: seq<Token>, ss: seq<Option<Stmt>>, st: ParseState): (r: Parsed<seq<Option<Stmt>>>)
    requires InRange(ts, st)
    ensures Recovers(ts, st, r) && IsAtEnd(ts, r.state)
    ensures ss <= r.result.value
    decreases |ts| - st.pos
  {
    if IsAtEnd(ts, st) then Parsed(Success(ss), st)
    else
      var d := Declaration(ts, st);
      ParseFrom(ts, ss + [d.result.value], d.state)
  }

  /** declarations: a declaration or statement, or, when that throws, null after skipping
      to the next likely statement boundary. */
  function Declaration(ts: seq<Token>, st: ParseState): (r: Parsed<Option<Stmt>>)
    requires InRange(ts, st)
    ensures Recovers(ts, st, r)
    ensures !IsAtEnd(ts, st) ==> st.pos < r.state.pos
    ensures r.result.value.None? ==> |st.diagnostics| < |r.state.diagnostics|
    ensures var attempt := TryDeclaration(ts, st);
      && (r.result.value.None? <==> attempt.result.Failure?)
      && (attempt.result.Success? ==> r.result.value == Some(attempt.result.value) && r.state == attempt.state)
      && (attempt.result.Failure? ==> r.state == Synchronize(ts, attempt.state))
    decreases |ts| - st.pos, 5
  {
    var attempt := TryDeclaration(ts, st);
    if attempt.result.Success? then Parsed(Success(Some(attempt.result.value)), attempt.state)
    else Parsed(Success(None), Synchronize(ts, attempt.state))
  }

  /** The try block of declarations. An identifier followed by "=" is a reassignment;
      an identifier followed by anything else is put back and read as a statement. */
  function TryDeclaration(ts: seq<Token>, st: ParseState): (r: Parsed<Stmt>)
    requires InRange(ts, st)
    ensures Progress(ts, st, r)
    decreases |ts| - st.pos, 4
  {
    if Matches(ts, st, [FUN]) then FunDeclaration(ts, "function", Advance(ts, st))
    else if Matches(ts, st, [VAR]) then VarDeclaration(ts, Advance(ts, st))
    else if Matches(ts, st, [IDENTIFIER]) && Check(ts, Advance(ts, st), EQUAL) then
      ReassignmentDeclaration(ts, Advance(ts, st))
    else Statement(ts, st)
  }

  /** synchronize: step over one token, then over tokens until the previous one is ";" or
      the current one starts a declaration or statement, or EOF. */
  function Synchronize(ts: seq<Token>, st: ParseState): (r: ParseState)
    requires InRange(ts, st)
    ensures Follows(ts, st, r) && r.diagnostics == st.diagnostics
    ensures !IsAtEnd(ts, st) ==> st.pos < r.pos
  {
    SynchronizeFrom(ts, Advance(ts, st))
  }

  /** The kinds synchronize stops in front of. */
  const StatementStarts: set<TokenType> := {CLASS, FUN, VAR, FOR, IF, WHILE, PRINT, RETURN}

  /** The loop of synchronize. */
  function SynchronizeFrom(ts: seq<Token>, st: ParseState): (r: ParseState)
    requires InRange(ts, st) && (IsAtEnd(ts, st) || st.pos >= 1)
    ensures Follows(ts, st, r) && r.diagnostics == st.diagnostics
    decreases |ts| - st.pos
  {
    if IsAtEnd(ts, st) then st
    else if Previous(ts, st).tokenType == SEMICOLON then st
    else if Peek(ts, st).tokenType in StatementStarts then st
    else SynchronizeFrom(ts, Advance(ts, st))
  }

  /** funcDeclaration, just after "fun": the name, the parameter list and the body. */
  function FunDeclaration(ts: seq<Token>, kind: string, st: ParseState): (r: Parsed<Stmt>)
    requires InRange(ts, st)
    ensures Progress(ts, st, r)
    ensures r.result.Success? ==> r.result.value.Function? && r.result.value.name == Peek(ts, st)
    decreases |ts| - st.pos, 2
  {
    var name := Consume(ts, st, IDENTIFIER, "Expect" + kind + "name");
    if name.result.Failure? then Rethrow(name) else
    var open := Consume(ts, name.state, LEFT_PAREN, "Expect '(' in the start of new function definition");
    if open.result.Failure? then Rethrow(open)
    else FunctionRest(ts, name.result.value, open.state)
  }

  /** The rest of funcDeclaration, just after "(": the parameters, ")" and the body. */
  function FunctionRest(ts: seq<Token>, name: Token, st: ParseState): (r: Parsed<Stmt>)
    requires InRange(ts, st)
    ensures TailProgress(ts, st, r) && (r.result.Success? ==> st.pos < r.state.pos)
    ensures r.result.Success? ==> r.result.value.Function? && r.result.value.name == name
    decreases |ts| - st.pos, 1
  {
    var params :=
      if Check(ts, st, RIGHT_PAREN) then Parsed(Success([]), st)
      else Parameters(ts, [], st);
    if params.result.Failure? then Rethrow(params) else
    var close := Consume(ts, params.state, RIGHT_PAREN, "Expect ')' in the end of function");
    if close.result.Failure? then Rethrow(close) else
    var body := BracedBlock(ts, close.state, "Expect '{' in the start of function body");
    if body.result.Failure? then Rethrow(body)
    else Parsed(Success(Function(name, params.result.value, body.result.value)), body.state)
  }

  /** The do-while loop of funcDeclaration: one more parameter name, after reporting
      (without throwing) when more than 255 are already there, and again after a comma. */
  function Parameters(ts: seq<Token>, params: seq<Token>, st: ParseState): (r: Parsed<seq<Token>>)
    requires InRange(ts, st)
    ensures Progress(ts, st, r)
    ensures r.result.Success? ==> params < r.result.value
    decreases |ts| - st.pos
  {
    var checked := if |params| > 255 then Report(st, Peek(ts, st), "Cannot have more than 255 parameters") else st;
    var param := Consume(ts, checked, IDENTIFIER, "Expect parameter name");
    if param.result.Failure? then Rethrow(param)
    else if Matches(ts, param.state, [COMMA]) then
      Parameters(ts, params + [param.result.value], Advance(ts, param.state))
    else Parsed(Success(params + [param.result.value]), param.state)
  }

  /** The optional "=" expression of a variable declaration or reassignment. */
  function Initializer(ts: seq<Token>, st: ParseState): (r: Parsed<Option<Expr>>)
    requires InRange(ts, st)
    ensures TailProgress(ts, st, r)
    ensures !Matches(ts, st, [EQUAL]) ==> r == Parsed(Success(None), st)
  {
    if Matches(ts, st, [EQUAL]) then Lifted(Expression(ts, Advance(ts, st)))
    else Parsed(Success(None), st)
  }

  /** varDeclaration, just after "var": a name, an optional initializer and ";". */
  function VarDeclaration(ts: seq<Token>, st: ParseState): (r: Parsed<Stmt>)
    requires InRange(ts, st)
    ensures Progress(ts, st, r)
  {
    var name := Consume(ts, st, IDENTIFIER, "Expect variable name.");
    if name.result.Failure? then Rethrow(name) else
    var init := Initializer(ts, name.state);
    if init.result.Failure? then Rethrow(init) else
    var semicolon := Consume(ts, init.state, SEMICOLON, "Expect ';' after variable declaration.");
    if semicolon.result.Failure? then Rethrow(semicolon)
    else Parsed(Success(Var(name.result.value, init.result.value)), semicolon.state)
  }

  /** reassignmentDeclaration: the previous token names the variable, then an optional
      "=" expression and ";". */
  function ReassignmentDeclaration(ts: seq<Token>, st: ParseState): (r: Parsed<Stmt>)
    requires InRange(ts, st) && st.pos >= 1
    ensures Progress(ts, st, r)
  {
    var name := Previous(ts, st);
    var init := Initializer(ts, st);
    if init.result.Failure? then Rethrow(init) else
    var semicolon := Consume(ts, init.state, SEMICOLON, "Expect ';' after reassignment.");
    if semicolon.result.Failure? then Rethrow(semicolon)
    else Parsed(Success(Reassign(name, init.result.value)), semicolon.state)
  }

  /** statement: dispatch on the first token; anything else is an expression statement. */
  function Statement(ts: seq<Token>, st: ParseState): (r: Parsed<Stmt>)
    requires InRange(ts, st)
    ensures Progress(ts, st, r)
    decreases |ts| - st.pos, 3
  {
    if Matches(ts, st, [IF]) then IfStatement(ts, Advance(ts, st))
    else if Matches(ts, st, [FOR]) then ForStatement(ts, Advance(ts, st))
    else if Matches(ts, st, [WHILE]) then WhileStatement(ts, Advance(ts, st))
    else if Matches(ts, st, [PRINT]) then PrintStatement(ts, Advance(ts, st))
    else if Matches(ts, st, [RETURN]) then ReturnStatement(ts, Advance(ts, st))
    else if Matches(ts, st, [LEFT_BRACE]) then
      var body := Block(ts, Advance(ts, st));
      if body.result.Failure? then Rethrow(body)
      else Parsed(Success(Stmt.Block(body.result.value)), body.state)
    else ExpressionStatement(ts, st)
  }

  /** returnStatement, just after "return": the keyword, an optional value and ";". */
  function ReturnStatement(ts: seq<Token>, st: ParseState): (r: Parsed<Stmt>)
    requires InRange(ts, st) && st.pos >= 1
    ensures Progress(ts, st, r)
    ensures r.result.Success? ==> r.result.value.Return? && r.result.value.keyword == Previous(ts, st)
  {
    var keyword := Previous(ts, st);
    var value := OptionalExpression(ts, st, SEMICOLON);
    if value.result.Failure? then Rethrow(value) else
    var semicolon := Consume(ts, value.state, SEMICOLON, "Expect ';' after return statement.");
    if semicolon.result.Failure? then Rethrow(semicolon)
    else Parsed(Success(Return(keyword, value.result.value)), semicolon.state)
  }

  /** ifStatement, just after "if": a parenthesized condition, a braced then block and an
      optional else with a braced block. */
  function IfStatement(ts: seq<Token>, st: ParseState): (r: Parsed<Stmt>)
    requires InRange(ts, st)
    ensures Progress(ts, st, r)
    decreases |ts| - st.pos, 2
  {
    var condition := Condition(ts, st, "Expect '(' after if statement.", "Expect ')' after if statement.");
    if condition.result.Failure? then Rethrow(condition) else
    var thenBranches := BracedBlock(ts, condition.state, "Expect '{' after if start of if block.");
    if thenBranches.result.Failure? then Rethrow(thenBranches) else
    var elseBranches := ElseBlock(ts, thenBranches.state);
    if elseBranches.result.Failure? then Rethrow(elseBranches)
    else Parsed(Success(If(condition.result.value, thenBranches.result.value, elseBranches.result.value)), elseBranches.state)
  }

  /** The optional "else" and braced block of an if statement. */
  function ElseBlock(ts: seq<Token>, st: ParseState): (r: Parsed<ElseBranch>)
    requires InRange(ts, st)
    ensures TailProgress(ts, st, r)
    ensures !Matches(ts, st, [ELSE]) ==> r == Parsed(Success(NoElse), st)
    decreases |ts| - st.pos, 1
  {
    if !Matches(ts, st, [ELSE]) then Parsed(Success(NoElse), st) else
    var elseBranches := BracedBlock(ts, Advance(ts, st), "Expect '{' after start of else block.");
    if elseBranches.result.Failure? then Rethrow(elseBranches)
    else Parsed(Success(Else(elseBranches.result.value)), elseBranches.state)
  }

  /** "(" expression ")" as if and while read their condition. */
  function Condition(ts: seq<Token>, st: ParseState, openMessage: string, closeMessage: string): (r: Parsed<Expr>)
    requires InRange(ts, st)
    ensures Progress(ts, st, r)
  {
    var open := Consume(ts, st, LEFT_PAREN, openMessage);
    if open.result.Failure? then Rethrow(open) else
    var condition := Expression(ts, open.state);
    if condition.result.Failure? then condition else
    var close := Consume(ts, condition.state, RIGHT_PAREN, closeMessage);
    if close.result.Failure? then Rethrow(close)
    else Parsed(Success(condition.result.value), close.state)
  }

  /** whileStatement, just after "while": a parenthesized condition and a braced body. */
  function WhileStatement(ts: seq<Token>, st: ParseState): (r: Parsed<Stmt>)
    requires InRange(ts, st)
    ensures Progress(ts, st, r)
    ensures r.result.Success? ==> r.result.value.While? && r.result.value.loopInitializer.None?
    decreases |ts| - st.pos, 2
  {
    var condition := Condition(ts, st, "Expect '(' after while statement.", "Expect ')' after while statement.");
    if condition.result.Failure? then Rethrow(condition) else
    var body := BracedBlock(ts, condition.state, "Expect '{' after start of while block.");
    if body.result.Failure? then Rethrow(body)
    else Parsed(Success(While(condition.result.value, body.result.value, None)), body.state)
  }

  /** forStatement, just after "for": the clauses in parentheses and a braced body, read as
      a while node. The increment, if any, is read by reassignmentDeclaration after stepping
      over one token, and becomes the first statement of the body; without a condition the
      loop condition is the literal true. */
  function ForStatement(ts: seq<Token>, st: ParseState): (r: Parsed<Stmt>)
    requires InRange(ts, st)
    ensures Progress(ts, st, r)
    ensures r.result.Success? ==> r.result.value.While?
    decreases |ts| - st.pos, 2
  {
    var clauses := ForClauses(ts, st);
    if clauses.result.Failure? then Rethrow(clauses) else
    var close := Consume(ts, clauses.state, RIGHT_PAREN, "Expect ')' after for loop statement.");
    if close.result.Failure? then Rethrow(close) else
    var body := BracedBlock(ts, close.state, "Expect '{' after fot loop statement.");
    if body.result.Failure? then Rethrow(body)
    else
      var (initializer, condition, increment) := clauses.result.value;
      Parsed(Success(ForLoop(initializer, condition, increment, body.result.value)), body.state)
  }

  /** The while node a for statement stands for. */
  function ForLoop(initializer: Option<Stmt>, condition: Option<Expr>, increment: Option<Stmt>,
                   body: seq<Option<Stmt>>): (r: Stmt)
    ensures r.While? && r.loopInitializer == initializer
    ensures r.body == (if increment.Some? then [increment] else []) + body
    ensures condition.Some? ==> r.condition == condition.value
    ensures condition.None? ==> r.condition == Literal(Bool(true))
  {
    While(condition.GetOr(Literal(Bool(true))), (if increment.Some? then [increment] else []) + body, initializer)
  }

  /** The initializer, condition and increment clauses of a for statement, up to the ")". */
  function ForClauses(ts: seq<Token>, st: ParseState): (r: Parsed<(Option<Stmt>, Option<Expr>, Option<Stmt>)>)
    requires InRange(ts, st)
    ensures Progress(ts, st, r)
  {
    var open := Consume(ts, st, LEFT_PAREN, "Expect '(' after 'for' statement.");
    if open.result.Failure? then Rethrow(open) else
    var initializer := ForInitializer(ts, open.state);
    if initializer.result.Failure? then Rethrow(initializer) else
    var condition := OptionalExpression(ts, initializer.state, SEMICOLON);
    if condition.result.Failure? then Rethrow(condition) else
    var semicolon := Consume(ts, condition.state, SEMICOLON, "Expect ';' after loop condition.");
    if semicolon.result.Failure? then Rethrow(semicolon) else
    var increment := ForIncrement(ts, semicolon.state);
    if increment.result.Failure? then Rethrow(increment)
    else Parsed(Success((initializer.result.value, condition.result.value, increment.result.value)), increment.state)
  }

  /** The initializer clause: ";" alone, a variable declaration, or an expression
      statement. */
  function ForInitializer(ts: seq<Token>, st: ParseState): (r: Parsed<Option<Stmt>>)
    requires InRange(ts, st)
    ensures Progress(ts, st, r)
    ensures Matches(ts, st, [SEMICOLON]) ==> r == Parsed(Success(None), Advance(ts, st))
  {
    if Matches(ts, st, [SEMICOLON]) then Parsed(Success(None), Advance(ts, st))
    else
      var s :=
        if Matches(ts, st, [VAR]) then VarDeclaration(ts, Advance(ts, st))
        else ExpressionStatement(ts, st);
      Lifted(s)
  }

  /** The increment clause: absent before ")", else the token after the ";" is stepped over
      and read as the name of a reassignment. */
  function ForIncrement(ts: seq<Token>, st: ParseState): (r: Parsed<Option<Stmt>>)
    requires InRange(ts, st) && st.pos >= 1
    ensures TailProgress(ts, st, r)
    ensures Check(ts, st, RIGHT_PAREN) ==> r == Parsed(Success(None), st)
  {
    if Check(ts, st, RIGHT_PAREN) then Parsed(Success(None), st)
    else Lifted(ReassignmentDeclaration(ts, Advance(ts, st)))
  }

  /** An expression unless the given kind of token comes first. */
  function OptionalExpression(ts: seq<Token>, st: ParseState, stop: TokenType): (r: Parsed<Option<Expr>>)
    requires InRange(ts, st)
    ensures TailProgress(ts, st, r)
    ensures Check(ts, st, stop) ==> r == Parsed(Success(None), st)
  {
    if Check(ts, st, stop) then Parsed(Success(None), st)
    else Lifted(Expression(ts, st))
  }

  /** A production's outcome as an optional value that is present. */
  function Lifted<T>(p: Parsed<T>): (r: Parsed<Option<T>>)
    ensures r.state == p.state && (r.result.Success? <==> p.result.Success?)
    ensures p.result.Success? ==> r.result.value == Some(p.result.value)
  {
    if p.result.Failure? then Rethrow(p)
    else Parsed(Success(Some(p.result.value)), p.state)
  }

  /** "{" and a block, with the message thrown when the brace is missing. */
  function BracedBlock(ts: seq<Token>, st: ParseState, message: string): (r: Parsed<seq<Option<Stmt>>>)
    requires InRange(ts, st)
    ensures Progress(ts, st, r)
    decreases |ts| - st.pos, 0
  {
    var brace := Consume(ts, st, LEFT_BRACE, message);
    if brace.result.Failure? then Rethrow(brace)
    else Block(ts, brace.state)
  }

  /** block, just after "{": declarations up to "}" (or EOF), then the "}". */
  function Block(ts: seq<Token>, st: ParseState): (r: Parsed<seq<Option<Stmt>>>)
    requires InRange(ts, st)
    ensures Progress(ts, st, r)
    decreases |ts| - st.pos, 7
  {
    BlockFrom(ts, [], st)
  }

  /** The loop of block. */
  function BlockFrom(ts: seq<Token>, ss: seq<Option<Stmt>>, st: ParseState): (r: Parsed<seq<Option<Stmt>>>)
    requires InRange(ts, st)
    ensures Progress(ts, st, r)
    ensures r.result.Success? ==> ss <= r.result.value
    decreases |ts| - st.pos, 6
  {
    if !Check(ts, st, RIGHT_BRACE) && !IsAtEnd(ts, st) then
      var d := Declaration(ts, st);
      BlockFrom(ts, ss + [d.result.value], d.state)
    else
      var brace := Consume(ts, st, RIGHT_BRACE, "Expect '}' after block.");
      if brace.result.Failure? then Rethrow(brace)
      else Parsed(Success(ss), brace.state)
  }

  /** printStatement, just after "print": an expression and ";". */
  function PrintStatement(ts: seq<Token>, st: ParseState): (r: Parsed<Stmt>)
    requires InRange(ts, st)
    ensures Progress(ts, st, r)
    ensures r.result.Success? ==> r.result.value.Print?
  {
    var value := Expression(ts, st);
    if value.result.Failure? then Rethrow(value) else
    var semicolon := Consume(ts, value.state, SEMICOLON, "Expect ';' after value.");
    if semicolon.result.Failure? then Rethrow(semicolon)
    else Parsed(Success(Print(value.result.value)), semicolon.state)
  }

  /** expressionStatement: an expression and ";". */
  function ExpressionStatement(ts: seq<Token>, st: ParseState): (r: Parsed<Stmt>)
    requires InRange(ts, st)
    ensures Progress(ts, st, r)
    ensures r.result.Success? ==> r.result.value.Expression?
  {
    var value := Expression(ts, st);
    if value.result.Failure? then Rethrow(value) else
    var semicolon := Consume(ts, value.state, SEMICOLON, "Expect ';' after value.");
    if semicolon.result.Failure? then Rethrow(semicolon)
    else Parsed(Success(Stmt.Expression(value.result.value)), semicolon.state)
  }
}
