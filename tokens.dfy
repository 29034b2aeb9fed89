/** Runtime values of the language: the literal payload of tokens and the results of evaluation. */
module Values {

  /** Java's Object as used by the interpreter: null, Boolean, Double or String. Numbers are
      modelled as mathematical reals; IEEE-754 rounding is not modelled. */
  datatype Value = Nil | Bool(b: bool) | Num(n: real) | Str(s: string)
}

/** Token kinds and tokens produced by the scanner and consumed by the parser. */
module Tokens {
  import opened Values

  /** The token kinds referenced by the scanner, the parser and the interpreter. */
  datatype TokenType =
    // single-character tokens
    | LEFT_PAREN | RIGHT_PAREN | LEFT_BRACE | RIGHT_BRACE
    | COMMA | DOT | MINUS | PLUS | SEMICOLON | SLASH | STAR
    // one- or two-character tokens
    | BANG | BANG_EQUAL | EQUAL | EQUAL_EQUAL
    | GREATER | GREATER_EQUAL | LESS | LESS_EQUAL
    // literals
    | IDENTIFIER | STRING | NUMBER
    // keywords
    | AND | CLASS | ELSE | FALSE | FUN | FOR | IF | NIL | OR
    | PRINT | RETURN | SUPER | THIS | TRUE | VAR | WHILE
    | EOF

  /** A token: its kind, the exact source text it was scanned from, its literal payload
      (Nil where Java stores null) and the line it was scanned on. */
  datatype Token = Token(tokenType: TokenType, lexeme: string, literal: Value, line: int)

  /** A token list the parser can run over: not empty, and ending with EOF. */
  predicate WellFormed(ts: seq<Token>) {
    |ts| > 0 && ts[|ts| - 1].tokenType == EOF
  }

  /** A diagnostic reported through Lox.error: either at a source line (scanner) or
      at a token (parser). */
  datatype Diagnostic =
    | LineError(line: int, message: string)
    | TokenError(token: Token, message: string)

  /** A runtime fault. RuntimeError is Java's RuntimeError(token, message); NotExecutable
      stands for a node the interpreter has no visitor for (and for a null statement),
      which in Java is not a RuntimeError. */
  datatype Fault =
    | RuntimeError(token: Token, message: string)
    | NotExecutable(what: string)
}
