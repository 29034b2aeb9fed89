// The failure conditions and effects of define, assign and get on a scope chain.

module ScopeProperties {
  import opened Wrappers
  import opened Values
  import opened Tokens
  import opened Scopes

  /** define fails with "already defined" exactly when the innermost scope has the name;
      otherwise it adds the binding there and leaves every enclosing scope as it was. */
  lemma DefineSpec(frames: seq<Frame>, name: Token, v: Value)
    requires |frames| > 0
    ensures Define(frames, name, v).Failure? <==> name.lexeme in frames[0]
    ensures Define(frames, name, v).Failure? ==>
      Define(frames, name, v).error == RuntimeError(name, AlreadyDefined(name.lexeme))
    ensures Define(frames, name, v).Success? ==>
      var fs := Define(frames, name, v).value;
      && |fs| == |frames| && fs[0] == frames[0][name.lexeme := v]
      && forall k :: 1 <= k < |frames| ==> fs[k] == frames[k]
  {
  }

  /** A define in a child scope succeeds even when an enclosing scope binds the name, and then
      the child's binding shadows it. */
  lemma DefineShadows(frames: seq<Frame>, name: Token, v: Value)
    requires |frames| > 1 && name.lexeme !in frames[0] && name.lexeme in frames[1]
    ensures Define(frames, name, v).Success?
    ensures Get(Define(frames, name, v).value, name) == Success(v)
    ensures Define(frames, name, v).value[1..] == frames[1..]
  {
  }

  /** After a successful define, get of the same name gives the defined value. */
  lemma DefineThenGet(frames: seq<Frame>, name: Token, v: Value)
    requires |frames| > 0 && Define(frames, name, v).Success?
    ensures Get(Define(frames, name, v).value, name) == Success(v)
  {
  }

  /** get gives the value in the innermost scope that binds the name, and fails with
      "Undefined variable" exactly when no scope binds it. */
  lemma {:induction false} GetSpec(frames: seq<Frame>, name: Token)
    ensures Get(frames, name).Failure? <==> !Bound(frames, name.lexeme)
    ensures Get(frames, name).Failure? ==> Get(frames, name).error == RuntimeError(name, Undefined(name.lexeme))
    ensures forall k :: InnermostAt(frames, name.lexeme, k) ==> Get(frames, name) == Success(frames[k][name.lexeme])
  {
    if frames != [] && name.lexeme !in frames[0] {
      GetSpec(frames[1..], name);
      var x := name.lexeme;
      BoundTail(frames, x);
      forall k | InnermostAt(frames, x, k) ensures Get(frames, name) == Success(frames[k][x]) {
        assert InnermostAt(frames[1..], x, k - 1);
      }
    }
  }

  /** assign fails with "Undefined variable" exactly when no scope binds the name; otherwise
      it overwrites the binding in the innermost scope that has it, and only there. */
  lemma {:induction false} AssignSpec(frames: seq<Frame>, name: Token, v: Value)
    ensures Assign(frames, name, v).Failure? <==> !Bound(frames, name.lexeme)
    ensures Assign(frames, name, v).Failure? ==>
      Assign(frames, name, v).error == RuntimeError(name, Undefined(name.lexeme))
    ensures forall k :: InnermostAt(frames, name.lexeme, k) ==>
      UpdatedAt(frames, Assign(frames, name, v).value, name.lexeme, v, k)
  {
    var x := name.lexeme;
    if frames != [] && x !in frames[0] {
      AssignSpec(frames[1..], name, v);
      BoundTail(frames, x);
      forall k | InnermostAt(frames, x, k) ensures UpdatedAt(frames, Assign(frames, name, v).value, x, v, k) {
        assert InnermostAt(frames[1..], x, k - 1);
        UpdatedCons(frames, Assign(frames[1..], name, v).value, x, v, k);
      }
    }
  }

  /** With x not in the first scope, x is bound in the chain exactly when it is bound in the
      rest of it. */
  lemma BoundTail(frames: seq<Frame>, x: string)
    requires frames != [] && x !in frames[0]
    ensures Bound(frames, x) <==> Bound(frames[1..], x)
  {
    if Bound(frames, x) {
      var k :| 0 <= k < |frames| && x in frames[k];
      assert x in frames[1..][k - 1];
    }
    if Bound(frames[1..], x) {
      var k :| 0 <= k < |frames[1..]| && x in frames[1..][k];
      assert x in frames[k + 1];
    }
  }

  lemma UpdatedCons(frames: seq<Frame>, rest: seq<Frame>, x: string, v: Value, k: int)
    requires frames != [] && 1 <= k && UpdatedAt(frames[1..], rest, x, v, k - 1)
    ensures UpdatedAt(frames, [frames[0]] + rest, x, v, k)
  {
    var fs := [frames[0]] + rest;
    forall j | 0 <= j < |frames| && j != k ensures fs[j] == frames[j] {
      if j > 0 { assert fs[j] == rest[j - 1]; }
    }
  }

  /** After a successful assign, get of the same name gives the assigned value. */
  lemma AssignThenGet(frames: seq<Frame>, name: Token, v: Value)
    requires Assign(frames, name, v).Success?
    ensures Get(Assign(frames, name, v).value, name) == Success(v)
  {
    AssignSpec(frames, name, v);
    var x := name.lexeme;
    var k := InnermostIndex(frames, x);
    var fs := Assign(frames, name, v).value;
    assert InnermostAt(fs, x, k);
    GetSpec(fs, name);
  }

  /** The index of the innermost scope binding a bound name. */
  lemma {:induction false} InnermostExists(frames: seq<Frame>, x: string)
    requires Bound(frames, x)
    ensures exists k :: InnermostAt(frames, x, k)
  {
    if x !in frames[0] {
      BoundTail(frames, x);
      InnermostExists(frames[1..], x);
      var j :| InnermostAt(frames[1..], x, j);
      assert InnermostAt(frames, x, j + 1);
    } else {
      assert InnermostAt(frames, x, 0);
    }
  }

  ghost function InnermostIndex(frames: seq<Frame>, x: string): (k: int)
    requires Bound(frames, x)
    ensures InnermostAt(frames, x, k)
  {
    InnermostExists(frames, x);
    var k :| InnermostAt(frames, x, k); k
  }

  /** assign keeps the set of names of every scope. */
  lemma {:induction false} AssignKeepsNames(frames: seq<Frame>, name: Token, v: Value)
    requires Assign(frames, name, v).Success?
    ensures var fs := Assign(frames, name, v).value;
      |fs| == |frames| && forall k :: 0 <= k < |frames| ==> fs[k].Keys == frames[k].Keys
  {
    if name.lexeme !in frames[0] {
      AssignKeepsNames(frames[1..], name, v);
      var fs := Assign(frames, name, v).value;
      var rest := Assign(frames[1..], name, v).value;
      assert fs == [frames[0]] + rest;
      forall k | 0 <= k < |frames| ensures fs[k].Keys == frames[k].Keys {
        if k > 0 { assert fs[k] == rest[k - 1]; }
      }
    }
  }
}
