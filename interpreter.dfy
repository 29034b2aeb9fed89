// The tree-walking interpreter: an object holding the current scope and running the
// statement and expression visitors against it.

module Interpreting {
  import opened Wrappers
  import opened Values
  import opened Tokens
  import opened Ast
  import opened Environments
  import opened Semantics

  class Interpreter {
    /** The scope statements currently run in. */
    var environment: Environment
    /** The lines print has written. */
    var output: seq<string>
    /** The runtime errors interpret has reported. */
    var reported: seq<Fault>
    /** Double.toString, the text of a number. */
    const numberText: real -> string

    ghost predicate Valid()
      reads this
    {
      environment.Valid()
    }

    /** A fresh interpreter runs in a global scope with no bindings. */
    constructor (numberText: real -> string)
      ensures Valid() && fresh(environment.Repr)
      ensures environment.Frames() == [map[]] && output == [] && reported == []
      ensures this.numberText == numberText
    {
      environment := new Environment.Global();
      output := [];
      reported := [];
      this.numberText := numberText;
    }

    /** evaluate: the value of an expression, after the assignments inside it. */
    method Evaluate(e: Expr) returns (r: Result<Value, Fault>)
      requires Valid()
      modifies environment.Repr
      ensures Valid()
      ensures Eval(e, old(environment.Frames()), numberText) == Evaluated(r, environment.Frames())
      decreases e
    {
      match e
      case Literal(v) =>
        r := Success(v);
      case Grouping(x) =>
        r := Evaluate(x);
      case Variable(name) =>
        r := environment.Get(name);
      case Assign(name, x) =>
        r := Evaluate(x);
        if r.Success? {
          var fault := environment.Assign(name, r.value);
          if fault.Some? {
            r := Failure(fault.value);
          }
        }
      case Logical(l, op, x) =>
        r := Evaluate(l);
        if r.Failure? {
          return;
        }
        if op.tokenType == OR {
          if Truthy(r.value) {
            return;
          }
        } else {
          if !Truthy(r.value) {
            return;
          }
        }
        r := Evaluate(x);
      case Unary(op, x) =>
        r := Evaluate(x);
        if r.Success? {
          r := UnaryOp(op, r.value);
        }
      case Binary(l, op, x) =>
        var left := Evaluate(l);
        if left.Failure? {
          return left;
        }
        var right := Evaluate(x);
        if right.Failure? {
          return right;
        }
        r := BinaryOp(op, left.value, right.value, numberText);
      case Call(_, _, _) =>
        r := Failure(NotExecutable("call expression"));
    }

    /** execute: run one statement-list entry in the current scope, through the visitor of
        its variant. */
    method Execute(o: Option<Stmt>) returns (fault: Option<Fault>)
      requires Valid()
      modifies this, environment.Repr
      ensures Valid() && environment == old(environment) && reported == old(reported)
      ensures ExecStmt(o, State(old(environment.Frames()), old(output)), numberText)
              == Executed(fault, State(environment.Frames(), output))
      decreases o, 1
    {
      if o.None? {
        return Some(NotExecutable("null statement"));
      }
      match o.value
      case Expression(x) =>
        fault := VisitExpression(x);
      case Print(x) =>
        fault := VisitPrint(x);
      case Var(name, init) =>
        fault := VisitVar(name, init);
      case Reassign(name, init) =>
        fault := VisitReassign(name, init);
      case Block(ss) =>
        var child := ChildScope();
        fault := ExecuteBlock(ss, child);
      case If(c, thenBranches, elseBranches) =>
        fault := VisitIf(c, thenBranches, elseBranches);
      case While(_, _, _) =>
        fault := Some(NotExecutable("while statement"));
      case Function(_, _, _) =>
        fault := Some(NotExecutable("function declaration"));
      case Return(_, _) =>
        fault := Some(NotExecutable("return statement"));
    }

    /** visitExpressionStmt: evaluate the expression for its effects. */
    method VisitExpression(x: Expr) returns (fault: Option<Fault>)
      requires Valid()
      modifies environment.Repr
      ensures Valid()
      ensures ExecExpression(x, State(old(environment.Frames()), output), numberText)
              == Executed(fault, State(environment.Frames(), output))
    {
      var r := Evaluate(x);
      fault := if r.Failure? then Some(r.error) else None;
    }

    /** visitPrintStmt: evaluate the expression and write its text as a line. */
    method VisitPrint(x: Expr) returns (fault: Option<Fault>)
      requires Valid()
      modifies this, environment.Repr
      ensures Valid() && environment == old(environment) && reported == old(reported)
      ensures ExecPrint(x, State(old(environment.Frames()), old(output)), numberText)
              == Executed(fault, State(environment.Frames(), output))
    {
      var r := Evaluate(x);
      if r.Failure? {
        return Some(r.error);
      }
      output := output + [Stringify(r.value, numberText)];
      fault := None;
    }

    /** visitVarStmt: define the name in the current scope, as nil without an initializer. */
    method VisitVar(name: Token, init: Option<Expr>) returns (fault: Option<Fault>)
      requires Valid()
      modifies environment.Repr
      ensures Valid()
      ensures ExecVar(name, init, State(old(environment.Frames()), output), numberText)
              == Executed(fault, State(environment.Frames(), output))
    {
      ghost var a := InitialValue(init, environment.Frames(), numberText);
      var r: Result<Value, Fault> := Success(Nil);
      if init.Some? {
        r := Evaluate(init.value);
      }
      assert a == Evaluated(r, environment.Frames());
      if r.Failure? {
        return Some(r.error);
      }
      fault := environment.Define(name, r.value);
    }

    /** visitReassignStmt: assign the name along the scope chain, nil without an expression. */
    method VisitReassign(name: Token, init: Option<Expr>) returns (fault: Option<Fault>)
      requires Valid()
      modifies environment.Repr
      ensures Valid()
      ensures ExecReassign(name, init, State(old(environment.Frames()), output), numberText)
              == Executed(fault, State(environment.Frames(), output))
    {
      ghost var a := InitialValue(init, environment.Frames(), numberText);
      var r: Result<Value, Fault> := Success(Nil);
      if init.Some? {
        r := Evaluate(init.value);
      }
      assert a == Evaluated(r, environment.Frames());
      if r.Failure? {
        return Some(r.error);
      }
      fault := environment.Assign(name, r.value);
    }

    /** visitIfStmt: run the then list, or else the else list when there is one, each in a
        fresh child scope. */
    method VisitIf(c: Expr, thenBranches: seq<Option<Stmt>>, elseBranches: ElseBranch) returns (fault: Option<Fault>)
      requires Valid()
      modifies this, environment.Repr
      ensures Valid() && environment == old(environment) && reported == old(reported)
      ensures ExecIf(c, thenBranches, elseBranches, State(old(environment.Frames()), old(output)), numberText)
              == Executed(fault, State(environment.Frames(), output))
      decreases Some(If(c, thenBranches, elseBranches)), 0
    {
      var r := Evaluate(c);
      if r.Failure? {
        return Some(r.error);
      }
      if Truthy(r.value) {
        var child := ChildScope();
        fault := ExecuteBlock(thenBranches, child);
      } else if elseBranches.Else? {
        var child := ChildScope();
        fault := ExecuteBlock(elseBranches.statements, child);
      } else {
        fault := None;
      }
    }

    /** new Environment(environment): an empty scope inside the current one. */
    method ChildScope() returns (child: Environment)
      requires Valid()
      ensures fresh(child) && child.Valid() && child.Repr == {child} + environment.Repr
      ensures child.enclosing == environment && child.values == map[]
    {
      child := new Environment.Nested(environment);
    }

    /** executeBlock: run the statements in the given child of the current scope, then
        make the current scope current again, also when a statement faulted. */
    method ExecuteBlock(ss: seq<Option<Stmt>>, env: Environment) returns (fault: Option<Fault>)
      requires Valid() && env.Valid() && env.enclosing == environment && env.values == map[]
      modifies this, env.Repr
      ensures Valid() && environment == old(environment) && reported == old(reported)
      ensures RunScoped(ss, State(old(environment.Frames()), old(output)), numberText)
              == Executed(fault, State(environment.Frames(), output))
      decreases ss, 2
    {
      var previous := environment;
      ghost var st := State(previous.Frames(), output);
      ghost var start := State(env.Frames(), output);
      assert start.frames == [map[]] + st.frames;
      ghost var inner := ExecList(ss, start, numberText);
      assert RunScoped(ss, st, numberText)
          == Executed(inner.fault, State(inner.state.frames[1..], inner.state.output));
      environment := env;
      fault := ExecuteAll(ss);
      assert inner == Executed(fault, State(env.Frames(), output));
      environment := previous;
      assert env.Frames()[1..] == previous.Frames();
    }

    /** The statement loop of executeBlock and interpret: run the statements in order in the
        current scope until one faults. */
    method ExecuteAll(ss: seq<Option<Stmt>>) returns (fault: Option<Fault>)
      requires Valid()
      modifies this, environment.Repr
      ensures Valid() && environment == old(environment) && reported == old(reported)
      ensures ExecList(ss, State(old(environment.Frames()), old(output)), numberText)
              == Executed(fault, State(environment.Frames(), output))
      decreases ss, 0
    {
      ghost var goal := ExecList(ss, State(environment.Frames(), output), numberText);
      fault := None;
      var i := 0;
      while i < |ss|
        invariant 0 <= i <= |ss|
        invariant Valid() && environment == old(environment) && reported == old(reported)
        invariant fault.None? ==> ExecList(ss[i..], State(environment.Frames(), output), numberText) == goal
        invariant fault.Some? ==> goal == Executed(fault, State(environment.Frames(), output))
      {
        assert ss[i..][0] == ss[i] && ss[i..][1..] == ss[i + 1..];
        var f := Execute(ss[i]);
        if f.Some? {
          fault := f;
          break;
        }
        i := i + 1;
      }
    }

    /** interpret: run the statements in order in the current scope; the first fault
        stops them. Only a runtime error is caught and reported; any other fault is
        returned unreported, as the exception it stands for escapes interpret. */
    method Interpret(ss: seq<Option<Stmt>>) returns (fault: Option<Fault>)
      requires Valid()
      modifies this, environment.Repr
      ensures Valid() && environment == old(environment)
      ensures ExecList(ss, State(old(environment.Frames()), old(output)), numberText)
              == Executed(fault, State(environment.Frames(), output))
      ensures reported == old(reported) + (if fault.Some? && fault.value.RuntimeError? then [fault.value] else [])
    {
      fault := ExecuteAll(ss);
      if fault.Some? && fault.value.RuntimeError? {
        reported := reported + [fault.value];
      }
    }
  }
}
