// A scope of the running program: its own bindings and the scope that encloses it.

module Environments {
  import opened Wrappers
  import opened Values
  import opened Tokens
  import Scopes

  class Environment {
    const enclosing: Environment?
    var values: map<string, Value>
    /** This scope and every scope it encloses in. */
    ghost const Repr: set<Environment>
    /** The number of enclosing scopes. */
    ghost const Depth: nat

    /** The enclosing links form a finite chain whose scopes are all distinct. */
    ghost predicate Valid()
      decreases Depth
    {
      && this in Repr
      && (enclosing == null ==> Repr == {this} && Depth == 0)
      && (enclosing != null ==>
            && Repr == {this} + enclosing.Repr && this !in enclosing.Repr
            && enclosing.Depth + 1 == Depth && enclosing.Valid())
    }

    /** The bindings of this scope and of each enclosing one, innermost first. */
    ghost function Frames(): (fs: seq<Scopes.Frame>)
      requires Valid()
      reads Repr
      ensures |fs| == Depth + 1 && fs[0] == values
      decreases Depth
    {
      [values] + (if enclosing == null then [] else enclosing.Frames())
    }

    /** The global scope: no bindings and no enclosing scope. */
    constructor Global()
      ensures Valid() && fresh(Repr)
      ensures enclosing == null && Frames() == [map[]]
    {
      enclosing := null;
      values := map[];
      Repr := {this};
      Depth := 0;
    }

    /** A scope with no bindings of its own inside the given one. */
    constructor Nested(parent: Environment)
      requires parent.Valid()
      ensures Valid() && Repr == {this} + parent.Repr
      ensures enclosing == parent && Frames() == [map[]] + parent.Frames()
    {
      enclosing := parent;
      values := map[];
      Repr := {this} + parent.Repr;
      Depth := parent.Depth + 1;
    }

    /** define: fails when this scope already binds the name, binds it here otherwise. */
    method Define(name: Token, value: Value) returns (fault: Option<Fault>)
      requires Valid()
      modifies this
      ensures Valid()
      ensures match Scopes.Define(old(Frames()), name, value)
        case Success(fs) => fault.None? && Frames() == fs
        case Failure(f) => fault == Some(f) && Frames() == old(Frames())
    {
      if name.lexeme in values {
        return Some(RuntimeError(name, Scopes.AlreadyDefined(name.lexeme)));
      }
      values := values[name.lexeme := value];
      fault := None;
    }

    /** assign: overwrites the binding here when this scope has the name, and asks the
        enclosing scope otherwise; fails when no scope of the chain has it. */
    method Assign(name: Token, value: Value) returns (fault: Option<Fault>)
      requires Valid()
      modifies Repr
      ensures Valid()
      ensures match Scopes.Assign(old(Frames()), name, value)
        case Success(fs) => fault.None? && Frames() == fs
        case Failure(f) => fault == Some(f) && Frames() == old(Frames())
      decreases Depth
    {
      if name.lexeme in values {
        assert old(Frames())[1..] == if enclosing == null then [] else enclosing.Frames();
        values := values[name.lexeme := value];
        assert Frames() == [values] + old(Frames())[1..];
        return None;
      }
      if enclosing != null {
        ghost var before := Frames();
        assert before[1..] == enclosing.Frames() && before[0] == values;
        assert Scopes.Assign(before, name, value) == match Scopes.Assign(before[1..], name, value)
          case Success(rest) => Success([before[0]] + rest)
          case Failure(f) => Failure(f);
        fault := enclosing.Assign(name, value);
        assert Frames() == [values] + enclosing.Frames();
        match Scopes.Assign(before[1..], name, value) {
          case Success(rest) => assert Frames() == [before[0]] + rest;
          case Failure(_) => assert Frames() == before;
        }
        return;
      }
      assert Frames() == [values] && Frames()[1..] == [];
      assert Scopes.Assign(Frames()[1..], name, value).Failure?;
      fault := Some(RuntimeError(name, Scopes.Undefined(name.lexeme)));
    }

    /** get: the value bound here, or else the enclosing scope's answer; fails when no
        scope of the chain has the name. */
    method Get(name: Token) returns (r: Result<Value, Fault>)
      requires Valid()
      ensures r == Scopes.Get(Frames(), name)
      decreases Depth
    {
      if name.lexeme in values {
        return Success(values[name.lexeme]);
      }
      if enclosing != null {
        r := enclosing.Get(name);
        return;
      }
      r := Failure(RuntimeError(name, Scopes.Undefined(name.lexeme)));
    }
  }
}
