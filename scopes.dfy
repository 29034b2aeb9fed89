// The scope chain as a value: a list of name-to-value maps, innermost first.

module Scopes {
  import opened Wrappers
  import opened Values
  import opened Tokens

  type Frame = map<string, Value>

  function AlreadyDefined(name: string): string {
    "Variable '" + name + "' already defined"
  }

  function Undefined(name: string): string {
    "Undefined variable '" + name + "'."
  }

  /** define: bind the name in the innermost scope, failing when that scope already has it. */
  function Define(frames: seq<Frame>, name: Token, v: Value): Result<seq<Frame>, Fault>
    requires |frames| > 0
  {
    if name.lexeme in frames[0] then Failure(RuntimeError(name, AlreadyDefined(name.lexeme)))
    else Success([frames[0][name.lexeme := v]] + frames[1..])
  }

  /** assign: overwrite the binding in the innermost scope that has the name, asking each
      enclosing scope in turn, and fail when no scope has it. */
  function Assign(frames: seq<Frame>, name: Token, v: Value): Result<seq<Frame>, Fault> {
    if frames == [] then Failure(RuntimeError(name, Undefined(name.lexeme)))
    else if name.lexeme in frames[0] then Success([frames[0][name.lexeme := v]] + frames[1..])
    else
      match Assign(frames[1..], name, v)
      case Success(rest) => Success([frames[0]] + rest)
      case Failure(f) => Failure(f)
  }

  /** get: the value of the innermost binding of the name, or a failure when none exists. */
  function Get(frames: seq<Frame>, name: Token): Result<Value, Fault> {
    if frames == [] then Failure(RuntimeError(name, Undefined(name.lexeme)))
    else if name.lexeme in frames[0] then Success(frames[0][name.lexeme])
    else Get(frames[1..], name)
  }

  /** Whether scope k is the innermost one that binds x. */
  predicate InnermostAt(frames: seq<Frame>, x: string, k: int) {
    0 <= k < |frames| && x in frames[k] && forall j :: 0 <= j < k ==> x !in frames[j]
  }

  /** Whether fs is frames with scope k's binding of x overwritten by v and nothing else changed. */
  predicate UpdatedAt(frames: seq<Frame>, fs: seq<Frame>, x: string, v: Value, k: int) {
    && |fs| == |frames| && 0 <= k < |frames|
    && fs[k] == frames[k][x := v]
    && forall j :: 0 <= j < |frames| && j != k ==> fs[j] == frames[j]
  }

  /** Whether some scope binds x. */
  predicate Bound(frames: seq<Frame>, x: string) {
    exists k :: 0 <= k < |frames| && x in frames[k]
  }
}
