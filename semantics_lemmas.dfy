// Properties of evaluation and execution.

module SemanticsProperties {
  import opened Wrappers
  import opened Values
  import opened Tokens
  import opened Ast
  import Scopes
  import ScopeProperties
  import opened Semantics

  /** Nil and false are the only falsy values. */
  lemma TruthyValues(v: Value)
    ensures Truthy(v) <==> v != Nil && v != Bool(false)
  {
  }

  /** isEqual never faults and is exactly equality of values; in particular nil equals only nil. */
  lemma IsEqualValues(a: Value, b: Value)
    ensures IsEqual(a, b) <==> a == b
    ensures IsEqual(Nil, b) <==> b == Nil
  {
  }

  /** "or" returns a truthy left value and "and" a falsy one without evaluating the right
      side; otherwise the result is the right side evaluated after the left. A left fault
      is the result. */
  lemma ShortCircuit(l: Expr, op: Token, r: Expr, frames: seq<Scopes.Frame>, numberText: real -> string)
    ensures var a := Eval(l, frames, numberText);
      var e := Eval(Logical(l, op, r), frames, numberText);
      && (a.result.Failure? ==> e == a)
      && (a.result.Success? && op.tokenType == OR && Truthy(a.result.value) ==> e == a)
      && (a.result.Success? && op.tokenType != OR && !Truthy(a.result.value) ==> e == a)
      && (a.result.Success? && (op.tokenType == OR <==> !Truthy(a.result.value)) ==> e == Eval(r, a.frames, numberText))
  {
  }

  /** A binary expression evaluates its left operand, then its right one in the scopes the
      left one left, and only then applies the operator: the assignments of both operands
      take effect even when the operator faults. */
  lemma BinaryOrder(l: Expr, op: Token, r: Expr, frames: seq<Scopes.Frame>, numberText: real -> string)
    ensures var a := Eval(l, frames, numberText);
      var e := Eval(Binary(l, op, r), frames, numberText);
      && (a.result.Failure? ==> e == a)
      && (a.result.Success? ==>
            var b := Eval(r, a.frames, numberText);
            && e.frames == b.frames
            && (b.result.Failure? ==> e.result == b.result)
            && (b.result.Success? ==> e.result == BinaryOp(op, a.result.value, b.result.value, numberText)))
  {
  }

  /** "+" accepts exactly two strings, two numbers, or a string and a number in either
      order; anything else faults with "Operands must be two numbers or two strings". */
  lemma PlusCases(op: Token, l: Value, r: Value, numberText: real -> string)
    requires op.tokenType == PLUS
    ensures var v := BinaryOp(op, l, r, numberText);
      && (v.Success? <==> (l.Str? || l.Num?) && (r.Str? || r.Num?))
      && (v.Failure? ==> v.error == RuntimeError(op, "Operands must be two numbers or two strings"))
      && (l.Str? && r.Str? ==> v == Success(Str(l.s + r.s)))
      && (l.Num? && r.Num? ==> v == Success(Num(l.n + r.n)))
      && (l.Str? && r.Num? ==> v == Success(Str(l.s + StripPointZero(numberText(r.n)))))
      && (l.Num? && r.Str? ==> v == Success(Str(StripPointZero(numberText(l.n)) + r.s)))
  {
  }

  /** The comparisons, "-", "*" and "/" fault with "Operands must be a number" unless both
      operands are numbers; "/" also faults with "cannot divide by zero" on a zero right
      operand; otherwise they succeed. */
  lemma NumberOperands(op: Token, l: Value, r: Value, numberText: real -> string)
    requires NeedsNumbers(op.tokenType)
    ensures var v := BinaryOp(op, l, r, numberText);
      && (!(l.Num? && r.Num?) ==> v == Failure(RuntimeError(op, "Operands must be a number")))
      && (l.Num? && r.Num? && op.tokenType == SLASH && r.n == 0.0 ==> v == Failure(RuntimeError(op, "cannot divide by zero")))
      && (l.Num? && r.Num? && !(op.tokenType == SLASH && r.n == 0.0) ==> v.Success?)
  {
  }

  /** Unary minus faults with "Operand must be a number" exactly when its operand is not a
      number, and negates it otherwise; "!" never faults. */
  lemma UnaryCases(op: Token, v: Value)
    ensures op.tokenType == MINUS ==>
      UnaryOp(op, v) == if v.Num? then Success(Num(-v.n)) else Failure(RuntimeError(op, "Operand must be a number"))
    ensures op.tokenType == BANG ==> UnaryOp(op, v) == Success(Bool(!Truthy(v)))
  {
  }

  /** stringify drops exactly a trailing ".0" of a number's text. */
  lemma StripPointZeroSpec(text: string)
    ensures var t := StripPointZero(text);
      && (|text| >= 2 && text[|text| - 2..] == ".0" ==> t + ".0" == text)
      && (!(|text| >= 2 && text[|text| - 2..] == ".0") ==> t == text)
  {
    if |text| >= 2 && text[|text| - 2..] == ".0" {
      assert text == text[..|text| - 2] + text[|text| - 2..];
    }
  }

  /** Running a + b runs a and then, unless a faulted, b from where a left off: statements
      run in order, and the first fault stops the run with the effects before it kept. */
  lemma {:induction false} ExecListAppend(a: seq<Option<Stmt>>, b: seq<Option<Stmt>>, st: State, numberText: real -> string)
    requires |st.frames| > 0
    ensures var x := ExecList(a, st, numberText);
      ExecList(a + b, st, numberText) == if x.fault.Some? then x else ExecList(b, x.state, numberText)
    decreases |a|
  {
    if a != [] {
      assert (a + b)[0] == a[0] && (a + b)[1..] == a[1..] + b;
      var first := ExecStmt(a[0], st, numberText);
      if first.fault.None? {
        ExecListAppend(a[1..], b, first.state, numberText);
      }
    } else {
      assert a + b == b;
    }
  }

  /** Equal lengths and equal sets of names scope by scope. */
  predicate SameNames(fs: seq<Scopes.Frame>, gs: seq<Scopes.Frame>) {
    |fs| == |gs| && forall k :: 0 <= k < |fs| ==> fs[k].Keys == gs[k].Keys
  }

  /** Like SameNames, except that the innermost scope may have gained names. */
  predicate OnlyInnermostGrows(fs: seq<Scopes.Frame>, gs: seq<Scopes.Frame>) {
    && |fs| == |gs| && |fs| > 0
    && fs[0].Keys <= gs[0].Keys
    && forall k :: 1 <= k < |fs| ==> fs[k].Keys == gs[k].Keys
  }

  /** Evaluating an expression never adds or removes a name in any scope. */
  lemma {:induction false} EvalKeepsNames(e: Expr, frames: seq<Scopes.Frame>, numberText: real -> string)
    ensures SameNames(frames, Eval(e, frames, numberText).frames)
  {
    match e
    case Literal(_) =>
    case Variable(_) =>
    case Call(_, _, _) =>
    case Grouping(x) => EvalKeepsNames(x, frames, numberText);
    case Assign(name, x) =>
      EvalKeepsNames(x, frames, numberText);
      var a := Eval(x, frames, numberText);
      if a.result.Success? && Scopes.Assign(a.frames, name, a.result.value).Success? {
        ScopeProperties.AssignKeepsNames(a.frames, name, a.result.value);
      }
    case Logical(l, _, r) =>
      EvalKeepsNames(l, frames, numberText);
      EvalKeepsNames(r, Eval(l, frames, numberText).frames, numberText);
    case Unary(_, r) => EvalKeepsNames(r, frames, numberText);
    case Binary(l, _, r) =>
      EvalKeepsNames(l, frames, numberText);
      EvalKeepsNames(r, Eval(l, frames, numberText).frames, numberText);
  }

  lemma InitialValueKeepsNames(init: Option<Expr>, frames: seq<Scopes.Frame>, numberText: real -> string)
    ensures SameNames(frames, InitialValue(init, frames, numberText).frames)
  {
    if init.Some? {
      EvalKeepsNames(init.value, frames, numberText);
    }
  }

  /** A statement can add names only to the innermost scope. */
  lemma {:induction false} ExecOnlyInnermostGrows(o: Option<Stmt>, st: State, numberText: real -> string)
    requires |st.frames| > 0
    ensures OnlyInnermostGrows(st.frames, ExecStmt(o, st, numberText).state.frames)
    decreases o, 1
  {
    match o
    case None =>
    case Some(s) =>
      match s
      case Expression(x) => EvalKeepsNames(x, st.frames, numberText);
      case Print(x) => EvalKeepsNames(x, st.frames, numberText);
      case Var(name, init) => VarGrows(name, init, st, numberText);
      case Reassign(name, init) => ReassignKeepsNames(name, init, st, numberText);
      case Block(ss) => RunScopedKeepsNames(ss, st, numberText);
      case If(c, thenBranches, elseBranches) =>
        EvalKeepsNames(c, st.frames, numberText);
        var st' := State(Eval(c, st.frames, numberText).frames, st.output);
        RunScopedKeepsNames(thenBranches, st', numberText);
        if elseBranches.Else? {
          RunScopedKeepsNames(elseBranches.statements, st', numberText);
        }
        IfKeepsNames(c, thenBranches, elseBranches, st, numberText);
      case While(_, _, _) =>
      case Function(_, _, _) =>
      case Return(_, _) =>
  }

  lemma VarGrows(name: Token, init: Option<Expr>, st: State, numberText: real -> string)
    requires |st.frames| > 0
    ensures OnlyInnermostGrows(st.frames, ExecVar(name, init, st, numberText).state.frames)
  {
    InitialValueKeepsNames(init, st.frames, numberText);
    var a := InitialValue(init, st.frames, numberText);
    if a.result.Success? {
      ScopeProperties.DefineSpec(a.frames, name, a.result.value);
    }
  }

  lemma ReassignKeepsNames(name: Token, init: Option<Expr>, st: State, numberText: real -> string)
    requires |st.frames| > 0
    ensures SameNames(st.frames, ExecReassign(name, init, st, numberText).state.frames)
  {
    InitialValueKeepsNames(init, st.frames, numberText);
    var a := InitialValue(init, st.frames, numberText);
    if a.result.Success? && Scopes.Assign(a.frames, name, a.result.value).Success? {
      ScopeProperties.AssignKeepsNames(a.frames, name, a.result.value);
    }
  }

  lemma IfKeepsNames(c: Expr, thenBranches: seq<Option<Stmt>>, elseBranches: ElseBranch, st: State, numberText: real -> string)
    requires |st.frames| > 0
    requires SameNames(st.frames, Eval(c, st.frames, numberText).frames)
    requires var st' := State(Eval(c, st.frames, numberText).frames, st.output);
      && SameNames(st'.frames, RunScoped(thenBranches, st', numberText).state.frames)
      && (elseBranches.Else? ==> SameNames(st'.frames, RunScoped(elseBranches.statements, st', numberText).state.frames))
    ensures SameNames(st.frames, ExecIf(c, thenBranches, elseBranches, st, numberText).state.frames)
  {
  }

  /** A block, or an if branch, leaves every scope outside it with the names it had: the
      declarations inside go to the child scope, which is dropped afterwards. */
  lemma {:induction false} RunScopedKeepsNames(ss: seq<Option<Stmt>>, st: State, numberText: real -> string)
    requires |st.frames| > 0
    ensures SameNames(st.frames, RunScoped(ss, st, numberText).state.frames)
    decreases ss, 2
  {
    var inner := State([map[]] + st.frames, st.output);
    ExecListOnlyInnermostGrows(ss, inner, numberText);
    var fs := ExecList(ss, inner, numberText).state.frames;
    forall k | 0 <= k < |st.frames| ensures st.frames[k].Keys == fs[1..][k].Keys {
      assert inner.frames[k + 1] == st.frames[k];
    }
  }

  lemma {:induction false} ExecListOnlyInnermostGrows(ss: seq<Option<Stmt>>, st: State, numberText: real -> string)
    requires |st.frames| > 0
    ensures OnlyInnermostGrows(st.frames, ExecList(ss, st, numberText).state.frames)
    decreases ss, 0
  {
    if ss != [] {
      ExecOnlyInnermostGrows(ss[0], st, numberText);
      var first := ExecStmt(ss[0], st, numberText);
      if first.fault.None? {
        ExecListOnlyInnermostGrows(ss[1..], first.state, numberText);
      }
    }
  }

  /** A Var without an initializer binds nil in the innermost scope when that scope does
      not have the name yet, and faults with "already defined" otherwise. */
  lemma VarWithoutInitializer(name: Token, st: State, numberText: real -> string)
    requires |st.frames| > 0
    ensures var r := ExecVar(name, None, st, numberText);
      && (name.lexeme !in st.frames[0] ==>
            r.fault.None? && r.state.output == st.output && Scopes.Get(r.state.frames, name) == Success(Nil))
      && (name.lexeme in st.frames[0] ==>
            r.fault == Some(RuntimeError(name, Scopes.AlreadyDefined(name.lexeme))) && r.state == st)
  {
    if name.lexeme !in st.frames[0] {
      ScopeProperties.DefineThenGet(st.frames, name, Nil);
    }
  }

  /** A Reassign without an expression assigns nil to a bound name and faults with
      "Undefined variable" on an unbound one. */
  lemma ReassignWithoutExpression(name: Token, st: State, numberText: real -> string)
    requires |st.frames| > 0
    ensures var r := ExecReassign(name, None, st, numberText);
      && (Scopes.Bound(st.frames, name.lexeme) ==>
            r.fault.None? && r.state.output == st.output && Scopes.Get(r.state.frames, name) == Success(Nil))
      && (!Scopes.Bound(st.frames, name.lexeme) ==>
            r.fault == Some(RuntimeError(name, Scopes.Undefined(name.lexeme))) && r.state == st)
  {
    ScopeProperties.AssignSpec(st.frames, name, Nil);
    if Scopes.Bound(st.frames, name.lexeme) {
      ScopeProperties.AssignThenGet(st.frames, name, Nil);
    }
  }

  /** A Var with an initializer evaluates it first; a fault there stops the statement with
      the expression's effects kept. Otherwise the name is defined in the innermost scope
      with the value, or the statement faults with "already defined" when that scope has
      the name; the enclosing scopes are left as the expression left them. */
  lemma VarDefines(name: Token, x: Expr, st: State, numberText: real -> string)
    requires |st.frames| > 0
    ensures var a := Eval(x, st.frames, numberText);
      var r := ExecVar(name, Some(x), st, numberText);
      && |a.frames| == |st.frames|
      && (a.result.Failure? ==> r.fault == Some(a.result.error) && r.state == State(a.frames, st.output))
      && (a.result.Success? && name.lexeme in a.frames[0] ==>
            r.fault == Some(RuntimeError(name, Scopes.AlreadyDefined(name.lexeme)))
            && r.state == State(a.frames, st.output))
      && (a.result.Success? && name.lexeme !in a.frames[0] ==>
            && r.fault.None? && r.state.output == st.output
            && Scopes.Get(r.state.frames, name) == Success(a.result.value)
            && r.state.frames[0] == a.frames[0][name.lexeme := a.result.value]
            && r.state.frames[1..] == a.frames[1..])
  {
    var a := Eval(x, st.frames, numberText);
    if a.result.Success? {
      ScopeProperties.DefineSpec(a.frames, name, a.result.value);
      if name.lexeme !in a.frames[0] {
        ScopeProperties.DefineThenGet(a.frames, name, a.result.value);
      }
    }
  }

  /** A Reassign with an expression evaluates it first; a fault there stops the statement
      with the expression's effects kept. Otherwise the innermost binding of the name, and
      only that one, is overwritten with the value, or the statement faults with "Undefined
      variable" when no scope binds the name. */
  lemma ReassignAssigns(name: Token, x: Expr, st: State, numberText: real -> string)
    requires |st.frames| > 0
    ensures var a := Eval(x, st.frames, numberText);
      var r := ExecReassign(name, Some(x), st, numberText);
      && (a.result.Failure? ==> r.fault == Some(a.result.error) && r.state == State(a.frames, st.output))
      && (a.result.Success? && !Scopes.Bound(a.frames, name.lexeme) ==>
            r.fault == Some(RuntimeError(name, Scopes.Undefined(name.lexeme)))
            && r.state == State(a.frames, st.output))
      && (a.result.Success? && Scopes.Bound(a.frames, name.lexeme) ==>
            && r.fault.None? && r.state.output == st.output
            && Scopes.Get(r.state.frames, name) == Success(a.result.value)
            && forall k :: Scopes.InnermostAt(a.frames, name.lexeme, k) ==>
                 Scopes.UpdatedAt(a.frames, r.state.frames, name.lexeme, a.result.value, k))
  {
    var a := Eval(x, st.frames, numberText);
    if a.result.Success? {
      ScopeProperties.AssignSpec(a.frames, name, a.result.value);
      if Scopes.Bound(a.frames, name.lexeme) {
        ScopeProperties.AssignThenGet(a.frames, name, a.result.value);
      }
    }
  }

  /** print appends the stringified value as one line of output and changes no scope other
      than through the expression's own assignments. */
  lemma PrintAppends(x: Expr, st: State, numberText: real -> string)
    requires |st.frames| > 0
    ensures var a := Eval(x, st.frames, numberText);
      var r := ExecPrint(x, st, numberText);
      && r.state.frames == a.frames
      && (a.result.Success? ==> r.fault.None? && r.state.output == st.output + [Stringify(a.result.value, numberText)])
      && (a.result.Failure? ==> r.fault == Some(a.result.error) && r.state.output == st.output)
  {
  }

  /** Only the six declared variants have a visitor: a null entry, or a While, Function or
      Return node, stops execution as not executable and changes nothing. */
  lemma UndeclaredNotExecutable(o: Option<Stmt>, st: State, numberText: real -> string)
    requires |st.frames| > 0 && (o.None? || !o.value.Declared())
    ensures var r := ExecStmt(o, st, numberText);
      r.fault.Some? && r.fault.value.NotExecutable? && r.state == st
  {
  }
}
