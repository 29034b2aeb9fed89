// What evaluating an expression and executing a statement do, as functions of the
// scope chain and the printed output.

module Semantics {
  import opened Wrappers
  import opened Values
  import opened Tokens
  import opened Ast
  import Scopes

  /** isTruthy: nil and false are falsy, every other value is truthy. */
  predicate Truthy(v: Value) {
    match v
    case Nil => false
    case Bool(b) => b
    case _ => true
  }

  /** equals on two non-nil values: same kind and same contents. */
  predicate ValueEquals(a: Value, b: Value)
    requires !a.Nil?
  {
    match a
    case Bool(x) => b.Bool? && b.b == x
    case Num(x) => b.Num? && b.n == x
    case Str(x) => b.Str? && b.s == x
  }

  /** isEqual: nil equals only nil; otherwise the left value's equals. */
  predicate IsEqual(a: Value, b: Value) {
    if a.Nil? && b.Nil? then true
    else if a.Nil? then false
    else ValueEquals(a, b)
  }

  /** A number's text with a trailing ".0" removed. */
  function StripPointZero(text: string): string {
    if |text| >= 2 && text[|text| - 2..] == ".0" then text[..|text| - 2] else text
  }

  /** stringify: the text print writes for a value. */
  function Stringify(v: Value, numberText: real -> string): string {
    match v
    case Nil => "nil"
    case Num(n) => StripPointZero(numberText(n))
    case Bool(b) => if b then "true" else "false"
    case Str(s) => s
  }

  /** checkNumberOperand with one operand. */
  function CheckNumber(operator: Token, v: Value): Option<Fault> {
    if v.Num? then None else Some(RuntimeError(operator, "Operand must be a number"))
  }

  /** checkNumberOperand with two operands. */
  function CheckNumbers(operator: Token, l: Value, r: Value): Option<Fault> {
    if l.Num? && r.Num? then None else Some(RuntimeError(operator, "Operands must be a number"))
  }

  /** The unary operators on an evaluated operand; any other operator gives nil. */
  function UnaryOp(operator: Token, v: Value): Result<Value, Fault> {
    match operator.tokenType
    case BANG => Success(Bool(!Truthy(v)))
    case MINUS =>
      if CheckNumber(operator, v).Some? then Failure(CheckNumber(operator, v).value)
      else Success(Num(-v.n))
    case _ => Success(Nil)
  }

  /** The "+" operator: two strings concatenate, two numbers add, and a string next to a
      number concatenates with the number's text without its trailing ".0". */
  function Plus(operator: Token, l: Value, r: Value, numberText: real -> string): Result<Value, Fault> {
    if l.Str? && r.Str? then Success(Str(l.s + r.s))
    else if l.Num? && r.Num? then Success(Num(l.n + r.n))
    else if l.Str? && r.Num? then Success(Str(l.s + StripPointZero(numberText(r.n))))
    else if l.Num? && r.Str? then Success(Str(StripPointZero(numberText(l.n)) + r.s))
    else Failure(RuntimeError(operator, "Operands must be two numbers or two strings"))
  }

  /** The operators that need two numbers, after the operand check. */
  function Arithmetic(operator: Token, l: real, r: real): Result<Value, Fault> {
    match operator.tokenType
    case GREATER => Success(Bool(l > r))
    case LESS => Success(Bool(l < r))
    case GREATER_EQUAL => Success(Bool(l >= r))
    case LESS_EQUAL => Success(Bool(l <= r))
    case MINUS => Success(Num(l - r))
    case SLASH => if r == 0.0 then Failure(RuntimeError(operator, "cannot divide by zero")) else Success(Num(l / r))
    case STAR => Success(Num(l * r))
    case _ => Success(Nil)
  }

  predicate NeedsNumbers(t: TokenType) {
    t == GREATER || t == LESS || t == GREATER_EQUAL || t == LESS_EQUAL || t == MINUS || t == SLASH || t == STAR
  }

  /** The binary operators on two evaluated operands; any other operator gives nil. */
  function BinaryOp(operator: Token, l: Value, r: Value, numberText: real -> string): Result<Value, Fault> {
    var t := operator.tokenType;
    if NeedsNumbers(t) then
      if CheckNumbers(operator, l, r).Some? then Failure(CheckNumbers(operator, l, r).value)
      else Arithmetic(operator, l.n, r.n)
    else if t == EQUAL_EQUAL then Success(Bool(IsEqual(l, r)))
    else if t == BANG_EQUAL then Success(Bool(!IsEqual(l, r)))
    else if t == PLUS then Plus(operator, l, r, numberText)
    else Success(Nil)
  }

  /** The outcome of evaluating an expression: its value or fault, and the scope chain
      after the assignments it made. */
  datatype Evaluated = Evaluated(result: Result<Value, Fault>, frames: seq<Scopes.Frame>)

  /** evaluate and the expression visitors. */
  function Eval(e: Expr, frames: seq<Scopes.Frame>, numberText: real -> string): (r: Evaluated)
    ensures |r.frames| == |frames|
  {
    match e
    case Literal(v) => Evaluated(Success(v), frames)
    case Grouping(x) => Eval(x, frames, numberText)
    case Variable(name) => Evaluated(Scopes.Get(frames, name), frames)
    case Assign(name, valueExpr) =>
      var a := Eval(valueExpr, frames, numberText);
      if a.result.Failure? then a
      else
        (match Scopes.Assign(a.frames, name, a.result.value)
         case Success(fs) => AssignLength(a.frames, name, a.result.value); Evaluated(a.result, fs)
         case Failure(f) => Evaluated(Failure(f), a.frames))
    case Logical(l, op, r) =>
      var a := Eval(l, frames, numberText);
      if a.result.Failure? then a
      else if op.tokenType == OR then
        if Truthy(a.result.value) then a else Eval(r, a.frames, numberText)
      else
        if !Truthy(a.result.value) then a else Eval(r, a.frames, numberText)
    case Unary(op, r) =>
      var a := Eval(r, frames, numberText);
      if a.result.Failure? then a
      else Evaluated(UnaryOp(op, a.result.value), a.frames)
    case Binary(l, op, r) =>
      var a := Eval(l, frames, numberText);
      if a.result.Failure? then a
      else
        var b := Eval(r, a.frames, numberText);
        if b.result.Failure? then b
        else Evaluated(BinaryOp(op, a.result.value, b.result.value, numberText), b.frames)
    case Call(_, _, _) => Evaluated(Failure(NotExecutable("call expression")), frames)
  }

  lemma {:induction false} AssignLength(frames: seq<Scopes.Frame>, name: Token, v: Value)
    requires Scopes.Assign(frames, name, v).Success?
    ensures |Scopes.Assign(frames, name, v).value| == |frames|
  {
    if name.lexeme !in frames[0] {
      AssignLength(frames[1..], name, v);
    }
  }

  /** The interpreter's state between statements: the scope chain and the lines printed. */
  datatype State = State(frames: seq<Scopes.Frame>, output: seq<string>)

  /** The outcome of executing statements: the fault that stopped them, if any, and the
      state they left. */
  datatype Executed = Executed(fault: Option<Fault>, state: State)

  /** The value a Var or Reassign binds: its expression's value, or nil when it has none. */
  function InitialValue(init: Option<Expr>, frames: seq<Scopes.Frame>, numberText: real -> string): (r: Evaluated)
    ensures |r.frames| == |frames|
  {
    match init
    case None => Evaluated(Success(Nil), frames)
    case Some(x) => Eval(x, frames, numberText)
  }

  /** execute and the statement visitors, on one statement-list entry; None is the null a
      failed declaration leaves. */
  function ExecStmt(o: Option<Stmt>, st: State, numberText: real -> string): (r: Executed)
    requires |st.frames| > 0
    ensures |r.state.frames| == |st.frames|
    decreases o, 1
  {
    match o
    case None => Executed(Some(NotExecutable("null statement")), st)
    case Some(s) =>
      match s
      case Expression(x) => ExecExpression(x, st, numberText)
      case Print(x) => ExecPrint(x, st, numberText)
      case Var(name, init) => ExecVar(name, init, st, numberText)
      case Reassign(name, init) => ExecReassign(name, init, st, numberText)
      case Block(ss) => RunScoped(ss, st, numberText)
      case If(c, thenBranches, elseBranches) => ExecIf(c, thenBranches, elseBranches, st, numberText)
      case While(_, _, _) => Executed(Some(NotExecutable("while statement")), st)
      case Function(_, _, _) => Executed(Some(NotExecutable("function declaration")), st)
      case Return(_, _) => Executed(Some(NotExecutable("return statement")), st)
  }

  /** visitExpressionStmt: evaluate the expression for its assignments. */
  function ExecExpression(x: Expr, st: State, numberText: real -> string): (r: Executed)
    ensures |r.state.frames| == |st.frames|
  {
    var a := Eval(x, st.frames, numberText);
    Executed(if a.result.Failure? then Some(a.result.error) else None, State(a.frames, st.output))
  }

  /** visitPrintStmt: evaluate the expression and write its text as one line. */
  function ExecPrint(x: Expr, st: State, numberText: real -> string): (r: Executed)
    ensures |r.state.frames| == |st.frames|
  {
    var a := Eval(x, st.frames, numberText);
    if a.result.Failure? then Executed(Some(a.result.error), State(a.frames, st.output))
    else Executed(None, State(a.frames, st.output + [Stringify(a.result.value, numberText)]))
  }

  /** visitVarStmt: define the name in the innermost scope. */
  function ExecVar(name: Token, init: Option<Expr>, st: State, numberText: real -> string): (r: Executed)
    requires |st.frames| > 0
    ensures |r.state.frames| == |st.frames|
  {
    var a := InitialValue(init, st.frames, numberText);
    if a.result.Failure? then Executed(Some(a.result.error), State(a.frames, st.output))
    else
      match Scopes.Define(a.frames, name, a.result.value)
      case Success(fs) => Executed(None, State(fs, st.output))
      case Failure(f) => Executed(Some(f), State(a.frames, st.output))
  }

  /** visitReassignStmt: assign the name along the scope chain. */
  function ExecReassign(name: Token, init: Option<Expr>, st: State, numberText: real -> string): (r: Executed)
    ensures |r.state.frames| == |st.frames|
  {
    var a := InitialValue(init, st.frames, numberText);
    if a.result.Failure? then Executed(Some(a.result.error), State(a.frames, st.output))
    else
      match Scopes.Assign(a.frames, name, a.result.value)
      case Success(fs) =>
        AssignLength(a.frames, name, a.result.value);
        Executed(None, State(fs, st.output))
      case Failure(f) => Executed(Some(f), State(a.frames, st.output))
  }

  /** visitIfStmt: the then list or, when there is one, the else list, each in a fresh
      child scope. */
  function ExecIf(c: Expr, thenBranches: seq<Option<Stmt>>, elseBranches: ElseBranch, st: State, numberText: real -> string): (r: Executed)
    requires |st.frames| > 0
    ensures |r.state.frames| == |st.frames|
    decreases Some(If(c, thenBranches, elseBranches)), 0
  {
    var a := Eval(c, st.frames, numberText);
    var st' := State(a.frames, st.output);
    if a.result.Failure? then Executed(Some(a.result.error), st')
    else if Truthy(a.result.value) then RunScoped(thenBranches, st', numberText)
    else if elseBranches.Else? then RunScoped(elseBranches.statements, st', numberText)
    else Executed(None, st')
  }

  /** executeBlock on a fresh child scope: run the statements inside a new innermost scope,
      then drop that scope again, whether they finished or faulted. */
  function RunScoped(ss: seq<Option<Stmt>>, st: State, numberText: real -> string): (r: Executed)
    requires |st.frames| > 0
    ensures |r.state.frames| == |st.frames|
    decreases ss, 2
  {
    var inner := ExecList(ss, State([map[]] + st.frames, st.output), numberText);
    Executed(inner.fault, State(inner.state.frames[1..], inner.state.output))
  }

  /** Executing statements in order, stopping at the first fault. */
  function ExecList(ss: seq<Option<Stmt>>, st: State, numberText: real -> string): (r: Executed)
    requires |st.frames| > 0
    ensures |r.state.frames| == |st.frames|
    decreases ss, 0
  {
    if ss == [] then Executed(None, st)
    else
      var first := ExecStmt(ss[0], st, numberText);
      if first.fault.Some? then first
      else ExecList(ss[1..], first.state, numberText)
  }

  /** interpret: run a program from a global scope with no bindings and no output yet. */
  function Interpret(ss: seq<Option<Stmt>>, numberText: real -> string): Executed {
    ExecList(ss, State([map[]], []), numberText)
  }
}
