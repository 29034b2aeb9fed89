/** Properties of the scanner specification: the shape of a whole scan, line counting,
    and what each kind of lexeme scans to. */
module ScannerProperties {
  import opened Wrappers
  import opened Values
  import opened Tokens
  import opened Scanning

  /** Counting newlines over adjacent ranges adds up. */
  lemma {:induction false} NewlinesSplit(src: string, i: nat, k: nat, j: nat)
    requires i <= k <= j <= |src|
    ensures Newlines(src, i, j) == Newlines(src, i, k) + Newlines(src, k, j)
    decreases j
  {
    if j > k {
      NewlinesSplit(src, i, k, j - 1);
    }
  }

  /** A range without newline characters counts none. */
  lemma {:induction false} NewlinesNone(src: string, i: nat, j: nat)
    requires i <= j <= |src|
    requires forall k :: i <= k < j ==> src[k] != '\n'
    ensures Newlines(src, i, j) == 0
    decreases j
  {
    if j > i {
      NewlinesNone(src, i, j - 1);
    }
  }

  /** Whether a block comment opens at index k. */
  predicate OpensBlockComment(src: string, k: nat) {
    k + 1 < |src| && src[k] == '/' && src[k + 1] == '*'
  }

  /** Which step function a scanToken call dispatches to, by the character at start. */
  lemma ScanStepCases(src: string, start: nat, line: int)
    requires start < |src|
    ensures var c := src[start];
      var r := ScanStep(src, start, line);
      && (c == '"' ==> r == StringStep(src, start, line))
      && (c == '/' ==> r == SlashStep(src, start, line))
      && (IsDigit(c) ==> r == NumberStep(src, start, line))
      && (IsAlpha(c) ==> r == IdentifierStep(src, start, line))
  {
    var c := src[start];
    if IsDigit(c) || IsAlpha(c) {
      assert c != '(' && c != ')' && c != '{' && c != '}' && c != ',' && c != '.' && c != '-';
      assert c != '+' && c != ';' && c != '*' && c != '!' && c != '=' && c != '<' && c != '>';
      assert c != '/' && c != ' ' && c != '\r' && c != '\t' && c != '\n' && c != '"';
      assert ScanStep(src, start, line) == DefaultStep(src, start, line);
    }
  }

  /** Any other character is consumed alone, or with a following '=', and only '\n'
      counts a line. */
  lemma SimpleStep(src: string, start: nat, line: int)
    requires start < |src|
    requires src[start] != '"' && src[start] != '/' && !IsDigit(src[start]) && !IsAlpha(src[start])
    ensures var r := ScanStep(src, start, line);
      && (r.next == start + 1 || (r.next == start + 2 && src[start + 1] == '='))
      && r.line == line + (if src[start] == '\n' then 1 else 0)
  {
  }

  /** A step that does not open a block comment advances the line count by exactly the
      newlines it consumes: the one of a '\n' character, and those inside a string. */
  lemma StepCountsNewlines(src: string, start: nat, line: int)
    requires start < |src| && !OpensBlockComment(src, start)
    ensures var r := ScanStep(src, start, line);
      r.line == line + Newlines(src, start, r.next)
  {
    var c := src[start];
    var r := ScanStep(src, start, line);
    ScanStepCases(src, start, line);
    if c == '"' {
      StringCountsNewlines(src, start, line);
    } else if c == '/' {
      SlashCountsNewlines(src, start, line);
    } else if IsDigit(c) {
      NumberCountsNewlines(src, start, line);
    } else if IsAlpha(c) {
      IdentifierCountsNewlines(src, start, line);
    } else {
      SimpleStep(src, start, line);
      if r.next == start + 2 {
        assert Newlines(src, start, start + 2) == Newlines(src, start, start + 1);
      }
    }
  }

  lemma StringCountsNewlines(src: string, start: nat, line: int)
    requires start < |src| && src[start] == '"'
    ensures var r := StringStep(src, start, line);
      r.line == line + Newlines(src, start, r.next)
  {
    var j := SpanEnd(src, start + 1, NonQuote);
    var r := StringStep(src, start, line);
    assert r.line == line + Newlines(src, start + 1, j);
    assert Newlines(src, start, start + 1) == 0;
    NewlinesSplit(src, start, start + 1, j);
    if j < |src| {
      assert r.next == j + 1;
      assert Newlines(src, j, j + 1) == 0;
      NewlinesSplit(src, start, j, j + 1);
    } else {
      assert r.next == j;
    }
  }

  lemma SlashCountsNewlines(src: string, start: nat, line: int)
    requires start < |src| && src[start] == '/' && !OpensBlockComment(src, start)
    ensures var r := SlashStep(src, start, line);
      r.line == line + Newlines(src, start, r.next)
  {
    var r := SlashStep(src, start, line);
    if Matches(src, start + 1, '/') {
      SpanEndAll(src, start + 2, NonNewline);
    }
    NewlinesNone(src, start, r.next);
  }

  lemma NumberCountsNewlines(src: string, start: nat, line: int)
    requires start < |src| && IsDigit(src[start])
    ensures var r := NumberStep(src, start, line);
      r.line == line + Newlines(src, start, r.next)
  {
    var d := SpanEnd(src, start + 1, Digit);
    var e := NumberEnd(src, start + 1);
    SpanEndAll(src, start + 1, Digit);
    if d < e {
      SpanEndAll(src, d + 1, Digit);
    }
    forall k | start <= k < e ensures src[k] != '\n' {
      if k < d {
        assert IsDigit(src[k]);
      } else if k > d {
        assert IsDigit(src[k]);
      }
    }
    NewlinesNone(src, start, e);
  }

  lemma IdentifierCountsNewlines(src: string, start: nat, line: int)
    requires start < |src| && IsAlpha(src[start])
    ensures var r := IdentifierStep(src, start, line);
      r.line == line + Newlines(src, start, r.next)
  {
    SpanEndAll(src, start + 1, AlphaNumeric);
    NewlinesNone(src, start, SpanEnd(src, start + 1, AlphaNumeric));
  }

  /** The line of the closing EOF token of a scan. */
  function FinalLine(s: Scanned): int
    requires |s.tokens| > 0
  {
    s.tokens[|s.tokens| - 1].line
  }

  /** Without block comments, the final line count is the initial one plus the number of
      newline characters in the rest of the source. */
  lemma {:induction false} ScanCountsNewlines(src: string, i: nat, line: int)
    requires i <= |src|
    requires forall k :: i <= k < |src| ==> !OpensBlockComment(src, k)
    ensures FinalLine(ScanFrom(src, i, line)) == line + Newlines(src, i, |src|)
    decreases |src| - i
  {
    if i < |src| {
      var st := ScanStep(src, i, line);
      StepCountsNewlines(src, i, line);
      ScanCountsNewlines(src, st.next, st.line);
      NewlinesSplit(src, i, st.next, |src|);
      var rest := ScanFrom(src, st.next, st.line);
      assert ScanFrom(src, i, line).tokens == st.token.ToSeq() + rest.tokens;
    }
  }

  /** A scan ends with exactly one EOF token, with an empty lexeme and no literal. */
  lemma {:induction false} ScanEndsWithEof(src: string, i: nat, line: int)
    requires i <= |src|
    ensures var ts := ScanFrom(src, i, line).tokens;
      && ts[|ts| - 1].tokenType == EOF && ts[|ts| - 1].lexeme == "" && ts[|ts| - 1].literal == Nil
      && (forall k :: 0 <= k < |ts| - 1 ==> ts[k].tokenType != EOF)
    decreases |src| - i
  {
    if i < |src| {
      var st := ScanStep(src, i, line);
      ScanEndsWithEof(src, st.next, st.line);
      var rest := ScanFrom(src, st.next, st.line).tokens;
      assert ScanFrom(src, i, line).tokens == st.token.ToSeq() + rest;
    }
  }

  /** Every token of `ts` is on line `line` or later, and the lines never decrease. */
  predicate LinesFrom(ts: seq<Token>, line: int) {
    && (forall a :: 0 <= a < |ts| ==> line <= ts[a].line)
    && (forall a, b :: 0 <= a <= b < |ts| ==> ts[a].line <= ts[b].line)
  }

  /** Putting at most one token on a line no earlier than `line` and no later than the
      lines of `rest` in front keeps the lines ordered. */
  lemma LinesPrepend(t: seq<Token>, rest: seq<Token>, line: int, next: int)
    requires |t| <= 1 && (|t| == 1 ==> t[0].line == next)
    requires line <= next && LinesFrom(rest, next)
    ensures LinesFrom(t + rest, line)
  {
    var ts := t + rest;
    forall a | 0 <= a < |ts| ensures line <= ts[a].line {
      if a >= |t| {
        assert ts[a] == rest[a - |t|];
      }
    }
    forall a, b | 0 <= a <= b < |ts| ensures ts[a].line <= ts[b].line {
      if a >= |t| {
        assert ts[a] == rest[a - |t|] && ts[b] == rest[b - |t|];
      } else if b >= |t| {
        assert ts[b] == rest[b - |t|];
      }
    }
  }

  /** The lines of a scan's tokens never decrease and never fall below the initial line. */
  lemma {:induction false} ScanLinesOrdered(src: string, i: nat, line: int)
    requires i <= |src|
    ensures LinesFrom(ScanFrom(src, i, line).tokens, line)
    decreases |src| - i
  {
    if i < |src| {
      var st := ScanStep(src, i, line);
      ScanLinesOrdered(src, st.next, st.line);
      LinesPrepend(st.token.ToSeq(), ScanFrom(src, st.next, st.line).tokens, line, st.line);
    }
  }

  /** The token list of a whole scan is one the parser accepts, and only its last token is EOF. */
  lemma ScanWellFormed(src: string)
    ensures WellFormed(Scan(src).tokens)
    ensures var ts := Scan(src).tokens; forall k :: 0 <= k < |ts| - 1 ==> ts[k].tokenType != EOF
  {
    ScanEndsWithEof(src, 0, 1);
  }

  /** '!', '=', '<' and '>' scan to their two-character token exactly when '=' follows,
      and to their one-character token otherwise. */
  lemma OperatorTokens(src: string, start: nat, line: int)
    requires start < |src| && src[start] in "!=<>"
    ensures var r := ScanStep(src, start, line);
      var two := Matches(src, start + 1, '=');
      && r.token.Some? && r.error.None? && r.line == line
      && r.next == (if two then start + 2 else start + 1)
      && (src[start] == '!' ==> r.token.value.tokenType == (if two then BANG_EQUAL else BANG))
      && (src[start] == '=' ==> r.token.value.tokenType == (if two then EQUAL_EQUAL else EQUAL))
      && (src[start] == '<' ==> r.token.value.tokenType == (if two then LESS_EQUAL else LESS))
      && (src[start] == '>' ==> r.token.value.tokenType == (if two then GREATER_EQUAL else GREATER))
  {
  }

  /** A line comment emits nothing and stops at the next newline, which it leaves for the
      next step, or at the end of the source. */
  lemma LineComment(src: string, start: nat, line: int)
    requires start + 1 < |src| && src[start] == '/' && src[start + 1] == '/'
    ensures var r := ScanStep(src, start, line);
      && r.token.None? && r.error.None? && r.line == line
      && (r.next == |src| || src[r.next] == '\n')
      && forall k :: start + 2 <= k < r.next ==> src[k] != '\n'
  {
    SpanEndAll(src, start + 2, NonNewline);
  }

  /** A block comment emits nothing and does not count the newlines it skips. With s the
      index of the first star after the two opening characters (or the end of the source when there is
      none), the comment ends after a '/' that directly follows that star, else after the
      star itself, else at the end of the source. */
  lemma BlockComment(src: string, start: nat, line: int, s: nat)
    requires OpensBlockComment(src, start)
    requires start + 2 <= s <= |src| && (s == |src| || src[s] == '*')
    requires forall k :: start + 2 <= k < s ==> src[k] != '*'
    ensures var r := ScanStep(src, start, line);
      && r.token.None? && r.error.None? && r.line == line
      && r.next == (if s + 1 < |src| && src[s + 1] == '/' then s + 2
                    else if s < |src| then s + 1
                    else |src|)
      && (forall k :: start + 2 <= k < r.next - 1 ==> src[k] != '*' || (k + 1 == r.next - 1 && src[k + 1] == '/'))
      && (r.next == |src| || src[r.next - 1] == '*' || src[r.next - 2 ..r.next] == "*/")
  {
    var e := SpanEnd(src, start + 2, NonStar);
    SpanEndAll(src, start + 2, NonStar);
    assert e == s;
  }

  /** A string that has a closing quote yields a STRING token whose lexeme runs from the
      opening quote to the first closing one and whose literal is the text between them;
      one without reports "Unexpected end of string" at the final line, consumes the rest
      of the source and yields no token. Newlines inside count in both cases. */
  lemma StringToken(src: string, start: nat, line: int)
    requires start < |src| && src[start] == '"'
    ensures var r := StringStep(src, start, line);
      && (forall k :: start < k < r.next - 1 ==> src[k] != '"')
      && ((exists k :: start < k < |src| && src[k] == '"') ==>
            && src[r.next - 1] == '"' && start + 2 <= r.next
            && r.line == line + Newlines(src, start + 1, r.next - 1)
            && r.token == Some(Token(STRING, src[start..r.next], Str(src[start + 1..r.next - 1]), r.line))
            && r.error.None?)
      && (!(exists k :: start < k < |src| && src[k] == '"') ==>
            && r.next == |src| && r.line == line + Newlines(src, start + 1, |src|)
            && r.token.None? && r.error == Some(LineError(r.line, "Unexpected end of string")))
  {
    SpanEndAll(src, start + 1, NonQuote);
    var j := SpanEnd(src, start + 1, NonQuote);
    if j < |src| {
      SubstringIsSlice(src, start, j + 1);
      SubstringIsSlice(src, start + 1, j);
    }
  }

  /** A number lexeme is a maximal run of digits, optionally followed by a '.' and a
      second maximal run of at least one digit; its literal is the lexeme's decimal value. */
  lemma NumberToken(src: string, start: nat, line: int)
    requires start < |src| && IsDigit(src[start])
    ensures var r := NumberStep(src, start, line);
      var d := SpanEnd(src, start, Digit);
      && r.token == Some(Token(NUMBER, src[start..r.next], Num(NumberValue(src, start)), line))
      && r.error.None? && r.line == line
      && (forall k :: start <= k < d ==> IsDigit(src[k]))
      && (r.next == d || (src[d] == '.' && d + 1 < r.next && forall k :: d < k < r.next ==> IsDigit(src[k])))
      && (r.next == |src| || !IsDigit(src[r.next]))
      && (r.next == d ==> d == |src| || src[d] != '.' || d + 1 == |src| || !IsDigit(src[d + 1]))
  {
    var r := NumberStep(src, start, line);
    assert r.next == NumberEnd(src, start + 1);
    SubstringIsSlice(src, start, NumberEnd(src, start + 1));
    SpanEndAll(src, start + 1, Digit);
    var d := SpanEnd(src, start + 1, Digit);
    if d < |src| && src[d] == '.' && d + 1 < |src| && IsDigit(src[d + 1]) {
      SpanEndAll(src, d + 1, Digit);
    }
  }

  /** An identifier lexeme is a maximal run of letters, digits and '_' that starts with a
      letter or '_'; its kind is the keyword kind of the lexeme, or IDENTIFIER. */
  lemma IdentifierToken(src: string, start: nat, line: int)
    requires start < |src| && IsAlpha(src[start])
    ensures var r := IdentifierStep(src, start, line);
      && r.token == Some(Token(IdentifierType(src[start..r.next]), src[start..r.next], Nil, line))
      && r.error.None? && r.line == line
      && (forall k :: start <= k < r.next ==> IsAlphaNumeric(src[k]))
      && (r.next == |src| || !IsAlphaNumeric(src[r.next]))
  {
    var e := SpanEnd(src, start + 1, AlphaNumeric);
    var r := IdentifierStep(src, start, line);
    assert r.next == e;
    SubstringIsSlice(src, start, e);
    SpanEndAll(src, start + 1, AlphaNumeric);
    forall k | start <= k < e ensures IsAlphaNumeric(src[k]) {
      if k > start { assert InClass(src[k], AlphaNumeric); }
    }
    assert e == |src| || !InClass(src[e], AlphaNumeric);
  }

  /** A character no case of scanToken handles is reported as "Unexpected character" on
      the current line, yields no token and is skipped. */
  lemma UnexpectedCharacter(src: string, start: nat, line: int)
    requires start < |src| && src[start] !in "(){},.-+;*!=<>/ \r\t\n\"" && !IsDigit(src[start]) && !IsAlpha(src[start])
    ensures ScanStep(src, start, line) == Lexed(start + 1, line, None, Some(LineError(line, "Unexpected character")))
  {
  }

  /** Every reserved word scans to its own kind, and a word scans to IDENTIFIER exactly
      when it is not reserved. */
  lemma KeywordKinds(text: string)
    ensures text in Keywords ==> IdentifierType(text) == Keywords[text]
    ensures IdentifierType(text) == IDENTIFIER <==> text !in Keywords
  {
  }
}
