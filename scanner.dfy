/** The character-level lexer: a specification of one scanning step and of a whole scan
    as functions, and the imperative Scanner whose cursor fields follow them. */
module Scanning {
  import opened Wrappers
  import opened Values
  import opened Tokens

  predicate IsDigit(c: char) { '0' <= c <= '9' }

  predicate IsAlpha(c: char) { 'a' <= c <= 'z' || 'A' <= c <= 'Z' || c == '_' }

  predicate IsAlphaNumeric(c: char) { IsAlpha(c) || IsDigit(c) }

  /** The character classes the scanner skips runs of. */
  datatype CharClass = Digit | AlphaNumeric | NonNewline | NonStar | NonQuote

  predicate InClass(c: char, k: CharClass) {
    match k
    case Digit => IsDigit(c)
    case AlphaNumeric => IsAlphaNumeric(c)
    case NonNewline => c != '\n'
    case NonStar => c != '*'
    case NonQuote => c != '"'
  }

  /** The kinds a reserved word can scan to: neither EOF nor IDENTIFIER. */
  type KeywordKind = t: TokenType | t != EOF && t != IDENTIFIER witness IF

  /** The keyword table: each reserved word with the token kind it scans to. */
  const Keywords: map<string, KeywordKind> := map[
    "if" := IF, "else" := ELSE, "for" := FOR, "while" := WHILE,
    "return" := RETURN, "true" := TRUE, "false" := FALSE, "fun" := FUN,
    "class" := CLASS, "var" := VAR, "this" := THIS, "super" := SUPER,
    "print" := PRINT, "nil" := NIL, "and" := AND, "or" := OR]

  /** The kind of an identifier-shaped lexeme: its keyword kind, or IDENTIFIER. */
  function IdentifierType(text: string): (t: TokenType)
    ensures t != EOF
  {
    if text in Keywords then Keywords[text] else IDENTIFIER
  }

  /** The character at index i, or '\0' past the end (peek and peekNext). */
  function CharAt(src: string, i: nat): char {
    if i < |src| then src[i] else '\0'
  }

  /** Whether the character at index i exists and is the expected one (match). */
  predicate Matches(src: string, i: nat, expected: char) {
    i < |src| && src[i] == expected
  }

  /** The end of the longest run of characters satisfying p that starts at index i. */
  function SpanEnd(src: string, i: nat, p: CharClass): (j: nat)
    requires i <= |src|
    ensures i <= j <= |src|
    ensures j == |src| || !InClass(src[j], p)
    decreases |src| - i
  {
    if i < |src| && InClass(src[i], p) then SpanEnd(src, i + 1, p) else i
  }

  /** Every character of the run SpanEnd measures satisfies p. */
  lemma {:induction false} SpanEndAll(src: string, i: nat, p: CharClass)
    requires i <= |src|
    ensures forall k :: i <= k < SpanEnd(src, i, p) ==> InClass(src[k], p)
    decreases |src| - i
  {
    if i < |src| && InClass(src[i], p) {
      SpanEndAll(src, i + 1, p);
    }
  }

  /** The text src[i..j], built one character at a time (Java's substring). */
  function Substring(src: string, i: nat, j: nat): (s: string)
    requires i <= j <= |src|
    ensures |s| == j - i
    decreases j
  {
    if j == i then [] else Substring(src, i, j - 1) + [src[j - 1]]
  }

  /** Substring is the slice of the same bounds. */
  lemma {:induction false} SubstringIsSlice(src: string, i: nat, j: nat)
    requires i <= j <= |src|
    ensures Substring(src, i, j) == src[i..j]
    decreases j
  {
    if j > i {
      SubstringIsSlice(src, i, j - 1);
      assert src[i..j] == src[i..j - 1] + [src[j - 1]];
    }
  }

  /** The number of newline characters in src[i..j]. */
  function Newlines(src: string, i: nat, j: nat): nat
    requires i <= j <= |src|
    decreases j
  {
    if j == i then 0 else Newlines(src, i, j - 1) + (if src[j - 1] == '\n' then 1 else 0)
  }

  /** The end of a number literal whose first digit ends just before index i: a run of
      digits, and a fraction only when '.' is followed by a digit. */
  function NumberEnd(src: string, i: nat): (j: nat)
    requires i <= |src|
    ensures i <= j <= |src|
  {
    var d := SpanEnd(src, i, Digit);
    if CharAt(src, d) == '.' && IsDigit(CharAt(src, d + 1)) then SpanEnd(src, d + 1, Digit) else d
  }

  /** Where a block comment whose opening slash-star ends just before index i stops: at the first
      '*' and one character after it, or two when that character is '/'. */
  function BlockCommentEnd(src: string, i: nat): (j: nat)
    requires i <= |src|
    ensures i <= j <= |src|
  {
    var s := SpanEnd(src, i, NonStar);
    if s < |src| && CharAt(src, s + 1) == '/' then s + 2
    else if s < |src| then s + 1
    else s
  }

  function DigitValue(c: char): nat
    requires IsDigit(c)
  {
    c as int - '0' as int
  }

  /** The value of the decimal digits src[i..j]. */
  function DigitsValue(src: string, i: nat, j: nat): nat
    requires i <= j <= |src| && forall k :: i <= k < j ==> IsDigit(src[k])
    decreases j
  {
    if j == i then 0 else DigitsValue(src, i, j - 1) * 10 + DigitValue(src[j - 1])
  }

  function Pow10(n: nat): (p: nat)
    ensures p >= 1
  {
    if n == 0 then 1 else 10 * Pow10(n - 1)
  }

  /** The exact decimal value of the number lexeme that starts with the digit at index
      start (Double.parseDouble without rounding): the integer part, plus the fraction
      digits over the matching power of ten. */
  function NumberValue(src: string, start: nat): real
    requires start < |src| && IsDigit(src[start])
  {
    var d := SpanEnd(src, start + 1, Digit);
    var e := NumberEnd(src, start + 1);
    SpanEndAll(src, start + 1, Digit);
    var whole := DigitsValue(src, start, d) as real;
    if e == d then whole
    else
      SpanEndAll(src, d + 1, Digit);
      whole + DigitsValue(src, d + 1, e) as real / Pow10(e - d - 1) as real
  }

  /** The outcome of one scanToken call that starts at index start: where the cursor
      stops, the line count afterwards, and the token added or the error reported. */
  datatype Lexed = Lexed(next: nat, line: int, token: Option<Token>, error: Option<Diagnostic>)

  /** A step that adds a token of the given kind whose lexeme is src[start..end]. */
  function Emit(src: string, start: nat, end: nat, line: int, t: TokenType, literal: Value): (r: Lexed)
    requires start <= end <= |src|
  {
    Lexed(end, line, Some(Token(t, Substring(src, start, end), literal, line)), None)
  }

  /** A step that adds no token. */
  function Skip(next: nat, line: int): Lexed {
    Lexed(next, line, None, None)
  }

  /** The string-literal step, for the opening quote at index start. */
  function StringStep(src: string, start: nat, line: int): (r: Lexed)
    requires start < |src|
  {
    var j := SpanEnd(src, start + 1, NonQuote);
    var l := line + Newlines(src, start + 1, j);
    if j == |src| then Lexed(j, l, None, Some(LineError(l, "Unexpected end of string")))
    else Lexed(j + 1, l, Some(Token(STRING, Substring(src, start, j + 1), Str(Substring(src, start + 1, j)), l)), None)
  }

  /** The step for '!', '=', '<' or '>' at index start: the two-character kind when '='
      follows, the one-character kind otherwise. */
  function OperatorStep(src: string, start: nat, line: int, two: TokenType, one: TokenType): (r: Lexed)
    requires start < |src|
  {
    if Matches(src, start + 1, '=') then Emit(src, start, start + 2, line, two, Nil)
    else Emit(src, start, start + 1, line, one, Nil)
  }

  /** The number step, for the digit at index start. */
  function NumberStep(src: string, start: nat, line: int): (r: Lexed)
    requires start < |src| && IsDigit(src[start])
  {
    Emit(src, start, NumberEnd(src, start + 1), line, NUMBER, Num(NumberValue(src, start)))
  }

  /** The identifier step, for the letter or '_' at index start. */
  function IdentifierStep(src: string, start: nat, line: int): (r: Lexed)
    requires start < |src|
  {
    var e := SpanEnd(src, start + 1, AlphaNumeric);
    Emit(src, start, e, line, IdentifierType(Substring(src, start, e)), Nil)
  }

  /** The '/' step, for the slash at index start: a line comment up to the next newline,
      a block comment, or a SLASH token. */
  function SlashStep(src: string, start: nat, line: int): (r: Lexed)
    requires start < |src|
  {
    var cur := start + 1;
    if Matches(src, cur, '/') then Skip(SpanEnd(src, cur + 1, NonNewline), line)
    else if Matches(src, cur, '*') then Skip(BlockCommentEnd(src, cur + 1), line)
    else Emit(src, start, cur, line, SLASH, Nil)
  }

  /** The kind of the one-character token scanToken adds for '(', ')', '{', '}', ',', '.',
      '-', '+', ';' or '*'; the last case is the one for '*', since it is only asked about
      those ten characters. */
  function SingleKind(c: char): TokenType {
    match c
    case '(' => LEFT_PAREN
    case ')' => RIGHT_PAREN
    case '{' => LEFT_BRACE
    case '}' => RIGHT_BRACE
    case ',' => COMMA
    case '.' => DOT
    case '-' => MINUS
    case '+' => PLUS
    case ';' => SEMICOLON
    case _ => STAR
  }

  /** One scanToken call at index start with the current line count. */
  function ScanStep(src: string, start: nat, line: int): (r: Lexed)
    requires start < |src|
    ensures start < r.next <= |src|
    ensures r.line >= line
    ensures r.token.Some? ==> r.error.None?
    ensures r.token.Some? ==> r.token.value.lexeme == Substring(src, start, r.next)
    ensures r.token.Some? ==> r.token.value.line == r.line && r.token.value.tokenType != EOF
  {
    var c := src[start];
    var cur := start + 1;
    match c
    case '(' | ')' | '{' | '}' | ',' | '.' | '-' | '+' | ';' | '*' => Emit(src, start, cur, line, SingleKind(c), Nil)
    case '!' => OperatorStep(src, start, line, BANG_EQUAL, BANG)
    case '=' => OperatorStep(src, start, line, EQUAL_EQUAL, EQUAL)
    case '<' => OperatorStep(src, start, line, LESS_EQUAL, LESS)
    case '>' => OperatorStep(src, start, line, GREATER_EQUAL, GREATER)
    case '/' => SlashStep(src, start, line)
    case ' ' => Skip(cur, line)
    case '\r' => Skip(cur, line)
    case '\t' => Skip(cur, line)
    case '\n' => Skip(cur, line + 1)
    case '"' => StringStep(src, start, line)
    case _ => DefaultStep(src, start, line)
  }

  /** The default case of scanToken: a number, an identifier, or an unexpected character. */
  function DefaultStep(src: string, start: nat, line: int): (r: Lexed)
    requires start < |src|
  {
    if IsDigit(src[start]) then NumberStep(src, start, line)
    else if IsAlpha(src[start]) then IdentifierStep(src, start, line)
    else Lexed(start + 1, line, None, Some(LineError(line, "Unexpected character")))
  }

  /** A run that satisfies p and is followed by the end or by a character that does not
      is the run SpanEnd measures. */
  lemma {:induction false} SpanEndUnique(s: string, i: nat, j: nat, p: CharClass)
    requires i <= j <= |s|
    requires forall k :: i <= k < j ==> InClass(s[k], p)
    requires j == |s| || !InClass(s[j], p)
    ensures SpanEnd(s, i, p) == j
    decreases j - i
  {
    if i < j {
      SpanEndUnique(s, i + 1, j, p);
    }
  }

  /** The tokens added and the errors reported by a scan, in order. */
  datatype Scanned = Scanned(tokens: seq<Token>, errors: seq<Diagnostic>)

  /** The scanTokens loop from index i with the given line count: one step while input
      remains, then the closing EOF token. */
  function ScanFrom(src: string, i: nat, line: int): (r: Scanned)
    requires i <= |src|
    ensures |r.tokens| >= 1
    decreases |src| - i
  {
    if i == |src| then Scanned([Token(EOF, "", Nil, line)], [])
    else
      var st := ScanStep(src, i, line);
      var rest := ScanFrom(src, st.next, st.line);
      Scanned(st.token.ToSeq() + rest.tokens, st.error.ToSeq() + rest.errors)
  }

  /** One step of ScanFrom, with the tokens and errors of the steps before it in front. */
  lemma ScanFromStep(src: string, i: nat, line: int, ts: seq<Token>, ds: seq<Diagnostic>)
    requires i < |src|
    ensures var st := ScanStep(src, i, line);
      var rest := ScanFrom(src, st.next, st.line);
      && (ts + st.token.ToSeq()) + rest.tokens == ts + ScanFrom(src, i, line).tokens
      && (ds + st.error.ToSeq()) + rest.errors == ds + ScanFrom(src, i, line).errors
  {
    var st := ScanStep(src, i, line);
    var rest := ScanFrom(src, st.next, st.line);
    Associative(ts, st.token.ToSeq(), rest.tokens);
    Associative(ds, st.error.ToSeq(), rest.errors);
  }

  /** The scan of a whole source text from a fresh scanner. */
  function Scan(src: string): Scanned {
    ScanFrom(src, 0, 1)
  }

  /** Scanner.java: the cursor fields start, current and line, the token list, and the
      diagnostics reported through Lox.error. */
  class Scanner {
    const source: string
    var tokens: seq<Token>
    var start: nat
    var current: nat
    var line: int
    var diagnostics: seq<Diagnostic>

    ghost predicate Valid()
      reads this
    {
      start <= current <= |source|
    }

    constructor (source: string)
      ensures Valid() && this.source == source
      ensures tokens == [] && start == 0 && current == 0 && line == 1 && diagnostics == []
    {
      this.source := source;
      tokens := [];
      start := 0;
      current := 0;
      line := 1;
      diagnostics := [];
    }

    /** scanTokens: clears the list, scans from the current position to the end and adds
        EOF with the final line count. */
    method ScanTokens() returns (r: seq<Token>)
      requires Valid()
      modifies this
      ensures Valid() && current == |source|
      ensures var s := ScanFrom(source, old(current), old(line));
        && r == tokens == s.tokens
        && diagnostics == old(diagnostics) + s.errors
        && line == s.tokens[|s.tokens| - 1].line
    {
      tokens := [];
      ghost var goal := ScanFrom(source, current, line);
      while !IsAtEnd()
        invariant Valid()
        invariant tokens + ScanFrom(source, current, line).tokens == goal.tokens
        invariant diagnostics + ScanFrom(source, current, line).errors == old(diagnostics) + goal.errors
        decreases |source| - current
      {
        Step();
      }
      tokens := tokens + [Token(EOF, "", Nil, line)];
      r := tokens;
    }

    /** The body of the scanTokens loop: start a new lexeme and scan one token. */
    method Step()
      requires Valid() && current < |source|
      modifies this
      ensures Valid() && old(current) < current
      ensures tokens + ScanFrom(source, current, line).tokens
           == old(tokens) + ScanFrom(source, old(current), old(line)).tokens
      ensures diagnostics + ScanFrom(source, current, line).errors
           == old(diagnostics) + ScanFrom(source, old(current), old(line)).errors
    {
      ScanFromStep(source, current, line, tokens, diagnostics);
      start := current;
      ScanToken();
    }

    predicate IsAtEnd()
      reads this
    {
      current >= |source|
    }

    function Peek(): char
      reads this
    {
      CharAt(source, current)
    }

    function PeekNext(): char
      reads this
    {
      CharAt(source, current + 1)
    }

    /** advance: consumes and returns the current character. */
    method Advance() returns (c: char)
      requires current < |source|
      modifies this
      ensures current == old(current) + 1 && c == source[old(current)]
      ensures tokens == old(tokens) && start == old(start) && line == old(line)
      ensures diagnostics == old(diagnostics)
    {
      current := current + 1;
      c := source[current - 1];
    }

    /** match: consumes the current character when it is the expected one. */
    method Match(expected: char) returns (b: bool)
      requires current <= |source|
      modifies this
      ensures b == Matches(source, old(current), expected)
      ensures current == if b then old(current) + 1 else old(current)
      ensures tokens == old(tokens) && start == old(start) && line == old(line)
      ensures diagnostics == old(diagnostics)
    {
      if IsAtEnd() {
        return false;
      }
      if source[current] != expected {
        return false;
      }
      current := current + 1;
      return true;
    }

    /** addToken: adds a token whose lexeme is source[start..current]. */
    method AddToken(t: TokenType, literal: Value)
      requires Valid()
      modifies this
      ensures Valid()
      ensures tokens == old(tokens) + [Token(t, Substring(source, start, current), literal, line)]
      ensures current == old(current) && start == old(start) && line == old(line)
      ensures diagnostics == old(diagnostics)
    {
      var text := source[start..current];
      SubstringIsSlice(source, start, current);
      tokens := tokens + [Token(t, text, literal, line)];
    }

    /** Consumes characters while they satisfy p; the loops of identifier, number,
        and the two comment forms. */
    method SkipWhile(p: CharClass)
      requires Valid()
      modifies this
      ensures Valid() && current == SpanEnd(source, old(current), p)
      ensures tokens == old(tokens) && start == old(start) && line == old(line)
      ensures diagnostics == old(diagnostics)
    {
      while current < |source| && InClass(source[current], p)
        invariant Valid() && old(current) <= current
        invariant SpanEnd(source, current, p) == SpanEnd(source, old(current), p)
        invariant tokens == old(tokens) && start == old(start) && line == old(line)
        invariant diagnostics == old(diagnostics)
        decreases |source| - current
      {
        var _ := Advance();
      }
    }

    /** scanToken: one step of the scan from start == current. */
    method ScanToken()
      requires Valid() && start == current < |source|
      modifies this
      ensures Valid() && start == old(start)
      ensures var st := ScanStep(source, old(current), old(line));
        && current == st.next && line == st.line
        && tokens == old(tokens) + st.token.ToSeq()
        && diagnostics == old(diagnostics) + st.error.ToSeq()
    {
      var c := Advance();
      match c
      case '(' | ')' | '{' | '}' | ',' | '.' | '-' | '+' | ';' | '*' =>
        AddToken(SingleKind(c), Nil);
      case '!' =>
        Operator(BANG_EQUAL, BANG);
      case '=' =>
        Operator(EQUAL_EQUAL, EQUAL);
      case '<' =>
        Operator(LESS_EQUAL, LESS);
      case '>' =>
        Operator(GREATER_EQUAL, GREATER);
      case '/' =>
        Slash();
      case ' ' =>
      case '\r' =>
      case '\t' =>
      case '\n' =>
        line := line + 1;
      case '"' =>
        StringLiteral();
      case _ =>
        Default();
    }

    /** The '!', '=', '<' and '>' cases of scanToken: the two-character kind when '='
        follows, the one-character kind otherwise. */
    method Operator(two: TokenType, one: TokenType)
      requires Valid() && current == start + 1
      modifies this
      ensures Valid() && start == old(start) && line == old(line)
      ensures diagnostics == old(diagnostics)
      ensures var st := OperatorStep(source, start, line, two, one);
        current == st.next && tokens == old(tokens) + st.token.ToSeq()
    {
      var m := Match('=');
      AddToken(if m then two else one, Nil);
    }

    /** The default case of scanToken: a number, an identifier, or an unexpected character. */
    method Default()
      requires Valid() && current == start + 1
      modifies this
      ensures Valid() && start == old(start) && line == old(line)
      ensures var st := DefaultStep(source, start, line);
        && current == st.next
        && tokens == old(tokens) + st.token.ToSeq()
        && diagnostics == old(diagnostics) + st.error.ToSeq()
    {
      if IsDigit(source[start]) {
        Number();
      } else if IsAlpha(source[start]) {
        Identifier();
      } else {
        diagnostics := diagnostics + [LineError(line, "Unexpected character")];
      }
    }

    /** The '/' case of scanToken: a line comment, a block comment, or SLASH. */
    method Slash()
      requires Valid() && current == start + 1 && source[start] == '/'
      modifies this
      ensures Valid() && start == old(start) && line == old(line)
      ensures diagnostics == old(diagnostics)
      ensures var st := SlashStep(source, start, old(line));
        current == st.next && tokens == old(tokens) + st.token.ToSeq()
    {
      var slash := Match('/');
      if slash {
        SkipWhile(NonNewline);
      } else {
        var star := Match('*');
        if star {
          SkipWhile(NonStar);
          if !IsAtEnd() && PeekNext() == '/' {
            var _ := Advance();
          }
          if !IsAtEnd() {
            var _ := Advance();
          }
        } else {
          AddToken(SLASH, Nil);
        }
      }
    }

    /** identifier: the rest of an identifier or keyword whose first character is consumed. */
    method Identifier()
      requires Valid() && current == start + 1
      modifies this
      ensures Valid() && start == old(start) && line == old(line)
      ensures diagnostics == old(diagnostics)
      ensures var st := IdentifierStep(source, start, line);
        current == st.next && tokens == old(tokens) + st.token.ToSeq()
    {
      SkipWhile(AlphaNumeric);
      var text := source[start..current];
      SubstringIsSlice(source, start, current);
      var t := if text in Keywords then Keywords[text] else IDENTIFIER;
      AddToken(t, Nil);
    }

    /** number: the rest of a number literal whose first digit is consumed. */
    method Number()
      requires Valid() && current == start + 1 && IsDigit(source[start])
      modifies this
      ensures Valid() && start == old(start) && line == old(line)
      ensures diagnostics == old(diagnostics)
      ensures var st := NumberStep(source, start, line);
        current == st.next && tokens == old(tokens) + st.token.ToSeq()
    {
      SkipWhile(Digit);
      if Peek() == '.' && IsDigit(PeekNext()) {
        var _ := Advance();
        SkipWhile(Digit);
      }
      AddToken(NUMBER, Num(NumberValue(source, start)));
    }

    /** The loop of string: step to the closing quote or the end of the source, counting
        the newlines stepped over. */
    method StringBody()
      requires Valid() && start + 1 <= current
      modifies this
      ensures Valid() && start == old(start)
      ensures current == SpanEnd(source, old(current), NonQuote)
      ensures line == old(line) + Newlines(source, old(current), current)
      ensures tokens == old(tokens) && diagnostics == old(diagnostics)
    {
      ghost var i := current;
      ghost var j := SpanEnd(source, i, NonQuote);
      while Peek() != '"' && !IsAtEnd()
        invariant Valid() && i <= current && start == old(start)
        invariant SpanEnd(source, current, NonQuote) == j
        invariant line == old(line) + Newlines(source, i, current)
        invariant tokens == old(tokens) && diagnostics == old(diagnostics)
        decreases |source| - current
      {
        if Peek() == '\n' {
          line := line + 1;
        }
        var _ := Advance();
      }
      assert SpanEnd(source, current, NonQuote) == current;
    }

    /** string: the rest of a string literal whose opening quote is consumed. */
    method StringLiteral()
      requires Valid() && current == start + 1
      modifies this
      ensures Valid() && start == old(start)
      ensures var st := StringStep(source, start, old(line));
        && current == st.next && line == st.line
        && tokens == old(tokens) + st.token.ToSeq()
        && diagnostics == old(diagnostics) + st.error.ToSeq()
    {
      StringBody();
      if IsAtEnd() {
        diagnostics := diagnostics + [LineError(line, "Unexpected end of string")];
        return;
      }
      var _ := Advance();
      var value := source[start + 1..current - 1];
      SubstringIsSlice(source, start + 1, current - 1);
      AddToken(STRING, Str(value));
    }
  }
}
