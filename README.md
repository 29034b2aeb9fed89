# JLox core in Dafny

This project models the lexing, parsing and evaluation pipeline of JLox, a tree-walking
interpreter for the Lox scripting language written in Java. It also proves properties of that model.
It covers these parts:

- **The scope chain** (`Environment.java`): `define`, `assign`, `get` and the two constructors.
- **The scanner** (`Scanner.java`): turns source text into tokens and diagnostics.
- **The recursive-descent parser** (`Parser.java`): its precedence levels, error reporting,
  `synchronize` recovery and the `for` to `while` desugaring.
- **The statement nodes** (`Stmt.java`), together with the expression nodes the parser builds.
- **The expression printer** (`AstPrinter.java`).
- **The interpreter** (`Interpreter.java`): evaluates expressions and executes statements against
  the scope chain.

Each stateful Java class becomes a Dafny class whose methods are proved equal to pure
specification functions. The lemmas are proved about those functions.

| module | file | what it is |
|---|---|---|
| `Wrappers` | wrappers.dfy | `Option` and `Result` |
| `Values`, `Tokens` | tokens.dfy | runtime values (Java's null, Boolean, Double and String), token kinds, tokens, diagnostics and runtime faults |
| `Scanning` | scanner.dfy | the scanner. `ScanStep` is one `scanToken` call and `ScanFrom` is the `scanTokens` loop. The class `Scanner` has the `start`, `current`, `line` and `tokens` fields. |
| `ScannerProperties` | scanner_lemmas.dfy | what each kind of lexeme scans to, line counting, and the closing EOF token |
| `Ast` | ast.dfy | expression and statement nodes |
| `AstPrinting`, `PrinterProperties` | ast_printer.dfy, ast_printer_lemmas.dfy | the printer, its output shapes and the balance of its parentheses |
| `Scopes`, `ScopeProperties` | scopes.dfy, scopes_lemmas.dfy | the scope chain as a list of maps, innermost first, with `define`, `assign` and `get` on it |
| `Environments` | environment.dfy | the class `Environment`: a mutable map and an `enclosing` link |
| `Semantics`, `SemanticsProperties` | semantics.dfy, semantics_lemmas.dfy | evaluation and execution as functions |
| `Interpreting` | interpreter.dfy | the class `Interpreter`. Its `environment` field is swapped around blocks. |
| `ParserSpec` | parser_spec.dfy | each parser production as a function. It takes the token list and a state holding the cursor and the diagnostics. It returns the value, or the `ParseError` thrown, together with the new state. |
| `Parsing` | parser.dfy | the class `Parser`. It has the `current` cursor and the while-loops and do-while loops of the Java code. |
| `ParserProperties` | parser_lemmas.dfy | the tree shapes the precedence levels build, the assignment and reassignment rules, recovery, and the entries `parse` returns |

A diagnostic passed to `Lox.error` is appended to a log:

- The scanner's calls carry a line: `LineError(line, message)`.
- The parser's calls carry a token: `TokenError(token, message)`.

A thrown `RuntimeError` becomes a `Fault` value that the methods return.

Java's `try`/`finally` in `executeBlock` becomes a restore of the `environment` field that runs
on both the success path and the fault path.

Double-to-text conversion is not specified by the code: `Double.toString` is a parameter
`numberText` of the interpreter and the printer.

## Model

| member | source | states |
|---|---|---|
| Scanning.IdentifierType | src/com/lox/Scanner.java:155-159 | an identifier lexeme's kind is never EOF, because the keyword table holds only keyword kinds |
| Scanning.SpanEnd | src/com/lox/Scanner.java:153-154 | a skip loop stops at the end of the source or at the first character outside its class, never before its start |
| Scanning.SpanEndAll | src/com/lox/Scanner.java:153-154 | every character a skip loop steps over is in its class |
| Scanning.SpanEndUnique | src/com/lox/Scanner.java:153-154 | a run of class characters that ends at the end of the source, or before a character outside the class, is the run a skip loop stops at |
| Scanning.Substring | src/com/lox/Scanner.java:243 | substring(i, j) has j - i characters |
| Scanning.SubstringIsSlice | src/com/lox/Scanner.java:243 | substring(i, j) is exactly the characters i up to j |
| Scanning.NumberEnd | src/com/lox/Scanner.java:172-181 | the end of a number lexeme is never before index i and never past the end of the source |
| Scanning.BlockCommentEnd | src/com/lox/Scanner.java:109-117 | the end of a block comment is never before index i and never past the end of the source |
| Scanning.ScanStep | src/com/lox/Scanner.java:56-149 | one scanToken call always consumes a character and never lowers the line count. It never both adds a token and reports an error. An added token is not EOF, its lexeme is source[start..current) and its line is the current line |
| Scanning.ScanFrom | src/com/lox/Scanner.java:40-49 | the scanTokens loop always yields at least one token |
| Scanning.ScanFromStep | src/com/lox/Scanner.java:43-47 | one loop iteration followed by the rest of the scan appends the same tokens and errors as the scan from the earlier position |
| Scanning.Scanner.constructor | src/com/lox/Scanner.java:35-38 | a new scanner is at index 0 on line 1, with no tokens and no diagnostics |
| Scanning.Scanner.ScanTokens | src/com/lox/Scanner.java:40-50 | scanTokens consumes the whole source, and its tokens are those of the scan specification |
| Scanning.Scanner.Step | src/com/lox/Scanner.java:43-47 | one iteration moves the cursor forward and keeps the tokens and diagnostics on course with the scan specification |
| Scanning.Scanner.Advance | src/com/lox/Scanner.java:230-234 | advance returns the current character and moves one character forward |
| Scanning.Scanner.Match | src/com/lox/Scanner.java:221-229 | match consumes the current character exactly when it exists and is the expected one |
| Scanning.Scanner.Operator | src/com/lox/Scanner.java:91-101 | the '!', '=', '<' and '>' cases add the token the operator step gives |
| Scanning.Scanner.Default | src/com/lox/Scanner.java:135-146 | the default case adds a number or an identifier, or reports the unexpected character, as the default step does |
| Scanning.Scanner.AddToken | src/com/lox/Scanner.java:236-245 | addToken appends one token whose lexeme is source[start..current), on the current line |
| Scanning.Scanner.SkipWhile | src/com/lox/Scanner.java:153-154 | the skip loops stop where SpanEnd says |
| Scanning.Scanner.ScanToken | src/com/lox/Scanner.java:56-149 | scanToken updates the cursor, the line, the tokens and the diagnostics as ScanStep does |
| Scanning.Scanner.Slash | src/com/lox/Scanner.java:103-122 | the '/' case gives a line comment, a block comment or a SLASH token, as the specification does |
| Scanning.Scanner.Identifier | src/com/lox/Scanner.java:151-160 | identifier consumes and adds a token as the specification does |
| Scanning.Scanner.Number | src/com/lox/Scanner.java:172-183 | number consumes and adds a token as the specification does |
| Scanning.Scanner.StringBody | src/com/lox/Scanner.java:199-204 | the loop of string stops at the first quote or at the end of the source, adds the newlines it steps over to the line count, and adds no token or diagnostic |
| Scanning.Scanner.StringLiteral | src/com/lox/Scanner.java:197-214 | string consumes, counts lines, and adds a token or reports an error, as the specification does |
| ScannerProperties.ScanStepCases | src/com/lox/Scanner.java:132-146 | '"' goes to string, '/' to the comment or slash case, a digit to number, a letter or '_' to identifier |
| ScannerProperties.SimpleStep | src/com/lox/Scanner.java:58-131 | every other character is consumed alone or with a following '=', and only '\n' counts a line |
| ScannerProperties.StepCountsNewlines | src/com/lox/Scanner.java:129-131 | a step that does not open a block comment raises the line count by exactly the newlines it consumed |
| ScannerProperties.StringCountsNewlines | src/com/lox/Scanner.java:199-204 | a string literal counts each newline inside it |
| ScannerProperties.SlashCountsNewlines | src/com/lox/Scanner.java:104-108 | a line comment or a slash raises the line count by exactly the newlines it consumed |
| ScannerProperties.NumberCountsNewlines | src/com/lox/Scanner.java:172-183 | a number raises the line count by exactly the newlines it consumed |
| ScannerProperties.IdentifierCountsNewlines | src/com/lox/Scanner.java:151-160 | an identifier raises the line count by exactly the newlines it consumed |
| ScannerProperties.ScanCountsNewlines | src/com/lox/Scanner.java:40-49 | without block comments, the line of the closing EOF is the first line plus the number of newlines in the source |
| ScannerProperties.ScanEndsWithEof | src/com/lox/Scanner.java:48 | a scan ends with exactly one EOF token, which has an empty lexeme and no literal, and no earlier token is EOF |
| ScannerProperties.ScanLinesOrdered | src/com/lox/Scanner.java:244 | the token lines never decrease and never fall below the first line |
| ScannerProperties.ScanWellFormed | src/com/lox/Scanner.java:40-49 | a whole scan gives a token list the parser accepts: it is not empty, it ends with EOF, and only its last token is EOF |
| ScannerProperties.OperatorTokens | src/com/lox/Scanner.java:91-101 | '!', '=', '<' and '>' give the two-character token exactly when '=' follows, and the one-character token otherwise |
| ScannerProperties.LineComment | src/com/lox/Scanner.java:104-108 | '//' emits nothing and stops before the next newline, or at the end |
| ScannerProperties.BlockComment | src/com/lox/Scanner.java:109-117 | '/*' emits nothing and counts no newline; with s the first '*' after the opening pair (or the end of the source), the comment ends at s + 2 when a '/' follows that star, at s + 1 when there is a star, and at the end of the source otherwise |
| ScannerProperties.StringToken | src/com/lox/Scanner.java:197-214 | a terminated string gives a STRING token whose lexeme ends at the first closing quote and whose literal excludes the quotes; an unterminated one consumes the rest, reports "Unexpected end of string" and gives no token; newlines count in both cases |
| ScannerProperties.NumberToken | src/com/lox/Scanner.java:172-183 | a number is a maximal run of digits, with a fraction only when '.' is followed by a digit, and its literal is its decimal value |
| ScannerProperties.IdentifierToken | src/com/lox/Scanner.java:151-170 | an identifier is a maximal run of letters, digits and '_', and its kind is its keyword kind or IDENTIFIER |
| ScannerProperties.UnexpectedCharacter | src/com/lox/Scanner.java:143-146 | any other character reports "Unexpected character" on the current line, adds no token and is skipped |
| ScannerProperties.KeywordKinds | src/com/lox/Scanner.java:155-159 | a reserved word scans to the kind the table gives it, and a word scans to IDENTIFIER exactly when the table has no entry for it |
| PrinterProperties.PrintShapes | src/com/lox/AstPrinter.java:32-52 | a binary node prints as "(op left right)", a grouping as "(group inner)", a unary node as "(op operand)", nil as "nil", a boolean as "true" or "false", a number as its rendering and a string as its text |
| PrinterProperties.Example | src/com/lox/AstPrinter.java:16-26 | the documented example prints "(* (- 123) (group 45.67))" |
| PrinterProperties.Wrap | src/com/lox/AstPrinter.java:54-63 | one parenthesize call adds one "(" and one ")" around balanced text and keeps it balanced |
| PrinterProperties.BalancedConcat | src/com/lox/AstPrinter.java:57-60 | appending balanced child texts keeps the text balanced |
| PrinterProperties.PrintBalanced | src/com/lox/AstPrinter.java:28-63 | printed text is balanced and holds one "(" and one ")" per parenthesize call, when no atom holds a parenthesis |
| PrinterProperties.SpacedBalanced | src/com/lox/AstPrinter.java:57-60 | the loop over the children yields balanced text with as many parentheses as the children's calls |
| ScopeProperties.DefineSpec | src/com/lox/Environment.java:17-23 | define fails with "already defined" exactly when the innermost scope has the name; otherwise it binds the name there and leaves every enclosing scope as it was |
| ScopeProperties.DefineShadows | src/com/lox/Environment.java:19-22 | define in a child scope succeeds even when an enclosing scope binds the name, and get then sees the new binding |
| ScopeProperties.DefineThenGet | src/com/lox/Environment.java:17-23 | after a successful define, get returns the defined value |
| ScopeProperties.GetSpec | src/com/lox/Environment.java:38-47 | get returns the innermost binding, and fails with "Undefined variable" exactly when no scope binds the name |
| ScopeProperties.AssignSpec | src/com/lox/Environment.java:24-37 | assign fails with "Undefined variable" exactly when no scope binds the name; otherwise it overwrites the innermost binding and nothing else |
| ScopeProperties.AssignThenGet | src/com/lox/Environment.java:24-30 | after a successful assign, get returns the assigned value |
| ScopeProperties.AssignKeepsNames | src/com/lox/Environment.java:24-37 | assign never creates a binding: every scope keeps its set of names |
| Environments.Environment.Global | src/com/lox/Environment.java:11-13 | the new scope has no bindings and no enclosing scope |
| Environments.Environment.Nested | src/com/lox/Environment.java:14-16 | the new scope has no bindings and links to the given parent, whose chain it extends |
| Environments.Environment.Define | src/com/lox/Environment.java:17-23 | define changes the scope chain exactly as the list model's define does, and on failure changes nothing |
| Environments.Environment.Assign | src/com/lox/Environment.java:24-37 | assign, recursing through enclosing, changes the scope chain exactly as the list model's assign does, and on failure changes nothing |
| Environments.Environment.Get | src/com/lox/Environment.java:38-47 | get, recursing through enclosing, returns what the list model's get returns, and changes nothing |
| Semantics.Eval | src/com/lox/Interpreter.java:93-185 | evaluation never adds or drops a scope |
| Semantics.InitialValue | src/com/lox/Interpreter.java:67-69 | evaluating an optional initializer never adds or drops a scope |
| Semantics.ExecStmt | src/com/lox/Interpreter.java:32-91 | executing a statement never adds or drops a scope |
| Semantics.ExecExpression | src/com/lox/Interpreter.java:81-85 | an expression statement never adds or drops a scope |
| Semantics.ExecPrint | src/com/lox/Interpreter.java:86-91 | print never adds or drops a scope |
| Semantics.ExecVar | src/com/lox/Interpreter.java:65-72 | a Var never adds or drops a scope |
| Semantics.ExecReassign | src/com/lox/Interpreter.java:73-80 | a Reassign never adds or drops a scope |
| Semantics.ExecIf | src/com/lox/Interpreter.java:32-40 | an if never adds or drops a scope: a branch runs in a child scope that is dropped afterwards |
| Semantics.RunScoped | src/com/lox/Interpreter.java:42-58 | a block returns to the same depth of scope chain it started from |
| Semantics.ExecList | src/com/lox/Interpreter.java:51-53 | running a statement list never adds or drops a scope |
| SemanticsProperties.TruthyValues | src/com/lox/Interpreter.java:204-209 | nil and false are the only falsy values |
| SemanticsProperties.IsEqualValues | src/com/lox/Interpreter.java:198-202 | isEqual never faults and is value equality; nil equals only nil |
| SemanticsProperties.ShortCircuit | src/com/lox/Interpreter.java:102-111 | "or" returns a truthy left value and "and" a falsy one without evaluating the right side; otherwise the result is the right side, evaluated after the left |
| SemanticsProperties.BinaryOrder | src/com/lox/Interpreter.java:135-138 | a binary node evaluates left, then right, then applies the operator, so both operands' assignments persist even when the operator faults |
| SemanticsProperties.PlusCases | src/com/lox/Interpreter.java:156-171 | "+" accepts exactly two strings, two numbers, or a string and a number in either order (the number without a trailing ".0"); anything else faults with "Operands must be two numbers or two strings" |
| SemanticsProperties.NumberOperands | src/com/lox/Interpreter.java:140-182 | the comparisons, "-", "*" and "/" fault unless both operands are numbers; "/" faults with "cannot divide by zero" on a zero divisor; otherwise they succeed |
| SemanticsProperties.UnaryCases | src/com/lox/Interpreter.java:119-133 | unary "-" faults exactly on a non-number and negates a number; "!" never faults and negates truthiness |
| SemanticsProperties.StripPointZeroSpec | src/com/lox/Interpreter.java:24-27 | stringify drops exactly a trailing ".0" from a number's text |
| SemanticsProperties.ExecListAppend | src/com/lox/Interpreter.java:8-17 | statements run in order, and the first fault stops the run with the effects before it kept |
| SemanticsProperties.EvalKeepsNames | src/com/lox/Interpreter.java:59-64 | evaluating an expression, assignments included, never adds or removes a name in any scope |
| SemanticsProperties.InitialValueKeepsNames | src/com/lox/Interpreter.java:67-69 | evaluating an optional initializer never adds or removes a name |
| SemanticsProperties.ExecOnlyInnermostGrows | src/com/lox/Interpreter.java:32-91 | a statement can add names only to the innermost scope |
| SemanticsProperties.VarGrows | src/com/lox/Interpreter.java:65-72 | a Var adds names only to the innermost scope |
| SemanticsProperties.ReassignKeepsNames | src/com/lox/Interpreter.java:73-80 | a Reassign never adds or removes a name |
| SemanticsProperties.IfKeepsNames | src/com/lox/Interpreter.java:32-40 | an if whose condition and branches keep the names keeps them too |
| SemanticsProperties.RunScopedKeepsNames | src/com/lox/Interpreter.java:47-58 | a block leaves every outer scope with the names it had, because its declarations go to the dropped child scope |
| SemanticsProperties.ExecListOnlyInnermostGrows | src/com/lox/Interpreter.java:51-53 | a statement list adds names only to the innermost scope |
| SemanticsProperties.VarWithoutInitializer | src/com/lox/Interpreter.java:66-72 | a Var without an initializer binds nil when the name is new here, and otherwise faults with "already defined" and changes nothing |
| SemanticsProperties.ReassignWithoutExpression | src/com/lox/Interpreter.java:74-80 | a Reassign without an expression assigns nil to a bound name, and on an unbound name faults with "Undefined variable" and changes nothing |
| SemanticsProperties.VarDefines | src/com/lox/Interpreter.java:66-72 | a Var with an initializer evaluates it first, and a fault there stops the statement with the expression's effects kept. Otherwise, "already defined" is the fault exactly when the innermost scope has the name. When it does not, the name is bound there to the value, `get` then gives the value, and the enclosing scopes stay as the expression left them |
| SemanticsProperties.ReassignAssigns | src/com/lox/Interpreter.java:74-80 | a Reassign with an expression evaluates it first, and a fault there stops the statement with the expression's effects kept. Otherwise, "Undefined variable" is the fault exactly when no scope binds the name. When one does, the innermost binding, and only that one, is overwritten with the value, and `get` then gives it |
| SemanticsProperties.PrintAppends | src/com/lox/Interpreter.java:86-91 | print appends the stringified value as one line, and on a fault prints nothing |
| SemanticsProperties.UndeclaredNotExecutable | src/com/lox/Stmt.java:15-22 | the visitor declares six statement variants: a null entry and any other node stop execution as not executable and change nothing |
| Interpreting.Interpreter.constructor | src/com/lox/Interpreter.java:5-6 | a new interpreter runs in a global scope with no bindings, with nothing printed or reported |
| Interpreting.Interpreter.Evaluate | src/com/lox/Interpreter.java:210-212 | evaluate returns the value or fault of the evaluation function, and leaves the scope chain as that function does |
| Interpreting.Interpreter.Execute | src/com/lox/Interpreter.java:18-20 | execute dispatches to the visitor of the statement's variant, with the result of the execution function and the same current environment |
| Interpreting.Interpreter.VisitExpression | src/com/lox/Interpreter.java:81-85 | the expression statement changes the scope chain and returns the fault exactly as its visitor function says |
| Interpreting.Interpreter.VisitPrint | src/com/lox/Interpreter.java:86-91 | print changes the scope chain and the output, and returns the fault, exactly as its visitor function says |
| Interpreting.Interpreter.VisitVar | src/com/lox/Interpreter.java:65-72 | Var changes the scope chain and returns the fault exactly as its visitor function says |
| Interpreting.Interpreter.VisitReassign | src/com/lox/Interpreter.java:73-80 | Reassign changes the scope chain and returns the fault exactly as its visitor function says |
| Interpreting.Interpreter.VisitIf | src/com/lox/Interpreter.java:32-40 | if runs the chosen branch in a fresh child scope as its visitor function says, and the current environment is the same afterwards |
| Interpreting.Interpreter.ChildScope | src/com/lox/Interpreter.java:44 | new Environment(environment) is a fresh empty scope whose enclosing link is the current one |
| Interpreting.Interpreter.ExecuteBlock | src/com/lox/Interpreter.java:47-58 | executeBlock runs the statements in the child scope and makes the previous environment current again, after a fault as well |
| Interpreting.Interpreter.ExecuteAll | src/com/lox/Interpreter.java:51-53 | the statement loop matches running the list in order until the first fault |
| Interpreting.Interpreter.Interpret | src/com/lox/Interpreter.java:8-17 | interpret runs the list like the loop and returns the fault that stopped it, if any; only a runtime error is caught and appended to the reported errors, any other fault is left unreported |
| ParserSpec.Advance | src/com/lox/Parser.java:411-415 | advance moves one token forward except at EOF, where it stays |
| ParserSpec.Report | src/com/lox/Parser.java:373-376 | error appends one diagnostic at the token and moves nothing |
| ParserSpec.Throw | src/com/lox/Parser.java:363 | "throw error(peek(), …)" reports at the current token and throws |
| ParserSpec.Rethrow | src/com/lox/Parser.java:366-371 | a ParseError thrown by a part propagates from the production with the part's state |
| ParserSpec.Consume | src/com/lox/Parser.java:366-371 | consume succeeds exactly when check holds, returning that token and advancing; otherwise it reports the message at the current token and throws |
| ParserSpec.Expression | src/com/lox/Parser.java:219-222 | expression consumes a token when it returns, and reports a diagnostic when it throws |
| ParserSpec.Assignment | src/com/lox/Parser.java:224-239 | assignment consumes a token when it returns, and reports a diagnostic when it throws |
| ParserSpec.Or | src/com/lox/Parser.java:241-249 | or consumes a token when it returns, and reports a diagnostic when it throws |
| ParserSpec.And | src/com/lox/Parser.java:251-259 | and consumes a token when it returns, and reports a diagnostic when it throws |
| ParserSpec.Equality | src/com/lox/Parser.java:262-273 | equality consumes a token when it returns, and reports a diagnostic when it throws |
| ParserSpec.EqualityTail | src/com/lox/Parser.java:266-271 | the equality loop never moves back, and reports a diagnostic when it throws |
| ParserSpec.Comparison | src/com/lox/Parser.java:275-284 | comparison consumes a token when it returns, and reports a diagnostic when it throws |
| ParserSpec.ComparisonTail | src/com/lox/Parser.java:277-282 | the comparison loop never moves back, and reports a diagnostic when it throws |
| ParserSpec.Term | src/com/lox/Parser.java:286-296 | term consumes a token when it returns, and reports a diagnostic when it throws |
| ParserSpec.TermTail | src/com/lox/Parser.java:288-294 | the term loop never moves back, and reports a diagnostic when it throws |
| ParserSpec.Factor | src/com/lox/Parser.java:298-308 | factor consumes a token when it returns, and reports a diagnostic when it throws |
| ParserSpec.FactorTail | src/com/lox/Parser.java:301-306 | the factor loop never moves back, and reports a diagnostic when it throws |
| ParserSpec.Unary | src/com/lox/Parser.java:310-318 | unary consumes a token when it returns, and reports a diagnostic when it throws |
| ParserSpec.Call | src/com/lox/Parser.java:320-331 | call consumes a token when it returns, and reports a diagnostic when it throws |
| ParserSpec.CallTail | src/com/lox/Parser.java:322-329 | the call loop never moves back, and reports a diagnostic when it throws |
| ParserSpec.FinishCall | src/com/lox/Parser.java:333-345 | finishCall builds a Call node of the given callee |
| ParserSpec.Arguments | src/com/lox/Parser.java:335-342 | the argument loop builds a Call of the callee whose arguments extend those already read |
| ParserSpec.CloseCall | src/com/lox/Parser.java:343-344 | the Call node keeps its callee, its arguments and the closing ")" as its paren |
| ParserSpec.Primary | src/com/lox/Parser.java:348-364 | primary consumes a token when it returns, and reports a diagnostic when it throws |
| ParserSpec.Parse | src/com/lox/Parser.java:59-65 | parse never throws and stops at EOF |
| ParserSpec.ParseFrom | src/com/lox/Parser.java:61-63 | the parse loop never throws, stops at EOF and only appends entries |
| ParserSpec.Declaration | src/com/lox/Parser.java:67-84 | declarations never throws and always consumes a token before EOF. It returns the try block's statement, at the state the try block leaves, exactly when that block returns. When the try block throws a ParseError, it returns null at the state `synchronize` leaves after the throw, and a diagnostic has been added |
| ParserSpec.TryDeclaration | src/com/lox/Parser.java:68-79 | the try block consumes a token when it returns, and reports a diagnostic when it throws |
| ParserSpec.Synchronize | src/com/lox/Parser.java:378-395 | synchronize reports nothing and steps over at least one token unless the error was at EOF |
| ParserSpec.SynchronizeFrom | src/com/lox/Parser.java:380-394 | the synchronize loop reports nothing and never moves back or past EOF |
| ParserSpec.FunDeclaration | src/com/lox/Parser.java:86-101 | funcDeclaration consumes a token when it returns, and reports a diagnostic when it throws. What it returns is a Function node named by the token it starts at |
| ParserSpec.FunctionRest | src/com/lox/Parser.java:89-100 | the parameters, ")" and body consume a token when they return, and report a diagnostic when they throw. What they return is a Function node with the given name |
| ParserSpec.Parameters | src/com/lox/Parser.java:90-96 | the parameter loop returns the parameters already read extended by at least one |
| ParserSpec.Initializer | src/com/lox/Parser.java:106-108 | without "=" there is no initializer and nothing is consumed |
| ParserSpec.VarDeclaration | src/com/lox/Parser.java:103-111 | varDeclaration consumes a token when it returns, and reports a diagnostic when it throws |
| ParserSpec.ReassignmentDeclaration | src/com/lox/Parser.java:113-121 | reassignmentDeclaration consumes a token when it returns, and reports a diagnostic when it throws |
| ParserSpec.Statement | src/com/lox/Parser.java:123-131 | statement consumes a token when it returns, and reports a diagnostic when it throws |
| ParserSpec.ReturnStatement | src/com/lox/Parser.java:133-141 | returnStatement consumes a token when it returns, and reports a diagnostic when it throws. What it returns is a Return node whose keyword is the "return" token |
| ParserSpec.IfStatement | src/com/lox/Parser.java:143-155 | ifStatement consumes a token when it returns, and reports a diagnostic when it throws |
| ParserSpec.ElseBlock | src/com/lox/Parser.java:149-153 | without "else" the else branch is null and nothing is consumed |
| ParserSpec.Condition | src/com/lox/Parser.java:144-146 | a parenthesized condition consumes a token when it returns, and reports a diagnostic when it throws |
| ParserSpec.WhileStatement | src/com/lox/Parser.java:188-195 | whileStatement consumes a token when it returns, and reports a diagnostic when it throws. What it returns is a While node without a loop initializer |
| ParserSpec.ForStatement | src/com/lox/Parser.java:156-186 | forStatement consumes a token when it returns, and reports a diagnostic when it throws. What it returns is a While node |
| ParserSpec.ForLoop | src/com/lox/Parser.java:178-185 | a for loop becomes While(condition, body, initializer): the increment, if present, comes first in the body, and a missing condition becomes the literal true |
| ParserSpec.ForClauses | src/com/lox/Parser.java:157-175 | the for clauses consume a token when they return, and report a diagnostic when they throw |
| ParserSpec.ForInitializer | src/com/lox/Parser.java:158-165 | a ";" alone gives no initializer and consumes exactly the ";" |
| ParserSpec.ForIncrement | src/com/lox/Parser.java:171-175 | before ")" there is no increment and nothing is consumed |
| ParserSpec.OptionalExpression | src/com/lox/Parser.java:166-169 | before the stop token there is no expression and nothing is consumed |
| ParserSpec.BracedBlock | src/com/lox/Parser.java:147-148 | "{" and a block consume a token when they return, and report a diagnostic when they throw |
| ParserSpec.Block | src/com/lox/Parser.java:197-204 | block consumes a token when it returns, and reports a diagnostic when it throws |
| ParserSpec.BlockFrom | src/com/lox/Parser.java:199-201 | the block loop only appends entries |
| ParserSpec.PrintStatement | src/com/lox/Parser.java:206-210 | printStatement consumes a token when it returns, and reports a diagnostic when it throws. What it returns is a Print node |
| ParserSpec.ExpressionStatement | src/com/lox/Parser.java:212-216 | expressionStatement consumes a token when it returns, and reports a diagnostic when it throws. What it returns is an Expression node |
| Parsing.Parser.constructor | src/com/lox/Parser.java:54-56 | a new parser is at the first token with nothing reported |
| Parsing.Parser.Advance | src/com/lox/Parser.java:411-415 | advance moves the cursor as the specification does, and the cursor stays on a token |
| Parsing.Parser.Match | src/com/lox/Parser.java:396-406 | match is true exactly when one of the kinds is checked, and then consumes that token |
| Parsing.Parser.Error | src/com/lox/Parser.java:373-376 | error appends the diagnostic and returns the ParseError |
| Parsing.Parser.Consume | src/com/lox/Parser.java:366-371 | consume matches the specification, result and state |
| Parsing.Parser.Synchronize | src/com/lox/Parser.java:378-395 | the synchronize loop leaves the cursor where the specification does |
| Parsing.Parser.Parse | src/com/lox/Parser.java:59-65 | the parse loop returns the entries of the specification and stops at EOF |
| Parsing.Parser.Declarations | src/com/lox/Parser.java:67-84 | declarations, with its catch and synchronize, matches the specification |
| Parsing.Parser.TryDeclaration | src/com/lox/Parser.java:68-79 | the try block, with its `--current`, matches the specification |
| Parsing.Parser.FunDeclaration | src/com/lox/Parser.java:86-88 | funcDeclaration matches the specification |
| Parsing.Parser.FunctionRest | src/com/lox/Parser.java:89-100 | the parameter do-while loop and the body match the specification |
| Parsing.Parser.Initializer | src/com/lox/Parser.java:105-108 | the optional initializer matches the specification |
| Parsing.Parser.VarDeclaration | src/com/lox/Parser.java:103-111 | varDeclaration matches the specification |
| Parsing.Parser.ReassignmentDeclaration | src/com/lox/Parser.java:113-121 | reassignmentDeclaration matches the specification |
| Parsing.Parser.Statement | src/com/lox/Parser.java:123-131 | statement matches the specification |
| Parsing.Parser.ReturnStatement | src/com/lox/Parser.java:133-141 | returnStatement matches the specification |
| Parsing.Parser.OptionalExpression | src/com/lox/Parser.java:166-169 | the optional for condition matches the specification |
| Parsing.Parser.IfStatement | src/com/lox/Parser.java:143-155 | ifStatement matches the specification |
| Parsing.Parser.ElseBlock | src/com/lox/Parser.java:149-153 | the else part matches the specification |
| Parsing.Parser.Condition | src/com/lox/Parser.java:144-146 | the parenthesized condition matches the specification |
| Parsing.Parser.ForStatement | src/com/lox/Parser.java:156-186 | forStatement, with its addFirst, matches the specification |
| Parsing.Parser.ForClauses | src/com/lox/Parser.java:157-175 | the for clauses match the specification |
| Parsing.Parser.ForInitializer | src/com/lox/Parser.java:158-165 | the for initializer matches the specification |
| Parsing.Parser.ForIncrement | src/com/lox/Parser.java:171-175 | the for increment matches the specification |
| Parsing.Parser.WhileStatement | src/com/lox/Parser.java:188-195 | whileStatement matches the specification |
| Parsing.Parser.BracedBlock | src/com/lox/Parser.java:147-148 | "{" and a block match the specification |
| Parsing.Parser.Block | src/com/lox/Parser.java:197-204 | the block loop matches the specification |
| Parsing.Parser.PrintStatement | src/com/lox/Parser.java:206-210 | printStatement matches the specification |
| Parsing.Parser.ExpressionStatement | src/com/lox/Parser.java:212-216 | expressionStatement matches the specification |
| Parsing.Parser.Expression | src/com/lox/Parser.java:219-222 | expression matches the specification |
| Parsing.Parser.Assignment | src/com/lox/Parser.java:224-239 | assignment matches the specification |
| Parsing.Parser.Or | src/com/lox/Parser.java:241-249 | or matches the specification |
| Parsing.Parser.And | src/com/lox/Parser.java:251-259 | and matches the specification |
| Parsing.Parser.Equality | src/com/lox/Parser.java:262-273 | the equality while-loop matches the specification |
| Parsing.Parser.Comparison | src/com/lox/Parser.java:275-284 | the comparison while-loop matches the specification |
| Parsing.Parser.Term | src/com/lox/Parser.java:286-296 | the term while-loop matches the specification |
| Parsing.Parser.Factor | src/com/lox/Parser.java:298-308 | the factor while-loop matches the specification |
| Parsing.Parser.Unary | src/com/lox/Parser.java:310-318 | unary matches the specification |
| Parsing.Parser.Call | src/com/lox/Parser.java:320-331 | the call loop matches the specification |
| Parsing.Parser.FinishCall | src/com/lox/Parser.java:333-345 | the argument do-while loop and the closing ")" match the specification |
| Parsing.Parser.Primary | src/com/lox/Parser.java:348-364 | primary matches the specification |
| ParserProperties.PrimaryAtomic | src/com/lox/Parser.java:348-364 | primary builds only literals, variables and groupings |
| ParserProperties.CallTailAtomic | src/com/lox/Parser.java:320-331 | calling an expression with no operator on top gives such an expression |
| ParserProperties.UnaryAtomic | src/com/lox/Parser.java:310-318 | unary never builds a binary, logical or assignment node on top |
| ParserProperties.FactorStops | src/com/lox/Parser.java:298-308 | factor only returns where no "/" or "*" follows |
| ParserProperties.FactorTailStops | src/com/lox/Parser.java:301-306 | the factor loop only stops where no "/" or "*" follows |
| ParserProperties.FactorShape | src/com/lox/Parser.java:298-308 | factor nests to the right: every "/" or "*" node has a unary left operand and a factor-level right one |
| ParserProperties.FactorTailShape | src/com/lox/Parser.java:301-306 | the factor loop keeps the right-nested shape |
| ParserProperties.TermShape | src/com/lox/Parser.java:286-296 | term nests to the left over factor-level operands |
| ParserProperties.TermTailShape | src/com/lox/Parser.java:288-294 | the term loop keeps the left-nested shape |
| ParserProperties.ComparisonShape | src/com/lox/Parser.java:275-284 | comparison nests to the left over term-level operands |
| ParserProperties.ComparisonTailShape | src/com/lox/Parser.java:277-282 | the comparison loop keeps the left-nested shape |
| ParserProperties.EqualityShape | src/com/lox/Parser.java:262-273 | equality nests to the left over comparison-level operands |
| ParserProperties.EqualityTailShape | src/com/lox/Parser.java:266-271 | the equality loop keeps the left-nested shape |
| ParserProperties.AndShape | src/com/lox/Parser.java:251-259 | and builds at most one Logical node, over two equalities |
| ParserProperties.OrShape | src/com/lox/Parser.java:241-249 | or builds at most one Logical node, over two and-level operands |
| ParserProperties.AssignmentShape | src/com/lox/Parser.java:224-239 | assignment yields an or-level expression, or an Assign node whose value child is the target variable itself |
| ParserProperties.InvalidTargetReported | src/com/lox/Parser.java:228-238 | a non-variable target returns the left expression, without throwing, and reports "Invalid assignment target." at the "=" |
| ParserProperties.ReassignmentDispatch | src/com/lox/Parser.java:71-74 | an identifier followed by "=" becomes a Reassign of that identifier |
| ParserProperties.IdentifierPutBack | src/com/lox/Parser.java:75-79 | an identifier followed by anything else is put back and read as a statement from the identifier on |
| ParserProperties.VarDeclarationShape | src/com/lox/Parser.java:103-111 | a Var names the identifier after "var" and has an initializer exactly when "=" follows |
| ParserProperties.ReassignmentShape | src/com/lox/Parser.java:113-121 | what reassignmentDeclaration returns is a Reassign named by the token just stepped over, and what it consumed ends with ";" |
| ParserProperties.ForIncrementShape | src/com/lox/Parser.java:171-175 | a present increment is a Reassign named by the token after the second ";", and it ends with a ";" of its own |
| ParserProperties.ParameterCapNonFatal | src/com/lox/Parser.java:90-96 | before each parameter, the diagnostics gain one cap report at the current token when more than 255 parameters are already read, and nothing otherwise. The parameter is then read from that state as usual: a missing name throws, a comma continues the loop, and anything else ends the list with the parameter appended |
| ParserProperties.ArgumentCapNonFatal | src/com/lox/Parser.java:335-345 | before each argument, the diagnostics gain one cap report at the current token when more than 255 arguments are already read, and nothing otherwise. The argument is then parsed from that state as usual: its throw is passed on, a comma continues the loop, and a ")" builds the call with the argument appended |
| ParserProperties.IfStatementShape | src/com/lox/Parser.java:143-155 | what ifStatement returns is an If node on the condition read between the parentheses |
| ParserProperties.StatementShape | src/com/lox/Parser.java:123-131 | statement builds the node its first token announces: "if" an If, "for" and "while" a While, "print" a Print, "return" a Return, "{" a Block, and anything else an Expression |
| ParserProperties.SynchronizeFromStops | src/com/lox/Parser.java:380-394 | the synchronize loop stops after a ";", before a statement keyword, or at EOF, and every token it steps over is none of those |
| ParserProperties.SynchronizeStops | src/com/lox/Parser.java:378-395 | synchronize steps over the token of the error, unless it is EOF, and then stops at the first boundary |
| ParserProperties.Nulls | src/com/lox/Parser.java:80-83 | there are no more null entries than entries |
| ParserProperties.ParseFromCounts | src/com/lox/Parser.java:59-65 | each parse loop iteration adds one entry and consumes a token, and each null entry comes with a diagnostic |
| ParserProperties.ParseCounts | src/com/lox/Parser.java:59-84 | parse returns fewer entries than tokens, at most one null entry per diagnostic, and no null entry when nothing was reported |

## Left out

- Floating point. Numbers are reals, so `double` rounding, infinities, NaN and `Double.equals` on NaN are not modelled.
- `Double.parseDouble` gives the exact decimal value of the lexeme.
- `Double.toString` is the parameter `numberText`. The ".0" stripping is modelled on its output.
- `AstPrinter.main` builds its first literal from the Java integer 123. The model uses the number 123.0 and requires `numberText` to render it as "123".
- `Lox.java`: the command line, file reading, the prompt loop and `System.exit` are not part of this model.
- Console output is not modelled:
  - `print` appends to an `output` sequence.
  - `Lox.runtimeError` is not defined in `Lox.java`. The runtime error `interpret` passes to it is appended to the `reported` sequence.
  - A `NotExecutable` fault is not a `RuntimeError`. `interpret` catches only `RuntimeError`, so `Interpret` returns such a fault without reporting it. For a null statement this is the uncaught NullPointerException; what Java does with that exception afterwards is not part of this model.
  - `Lox.error` appends to the diagnostics.
- `Lox.error(Token, …)` is not defined in `Lox.java`. The parser's calls to it become a `TokenError(token, message)` diagnostic.
- The interpreter has no visitor for `While`, `Function`, `Return` and `Call`. Executing them stops with `NotExecutable`, and no loop or call semantics is given.
- A null statement left by a failed declaration stops execution with `NotExecutable`. In Java executing it would throw a NullPointerException that `interpret` does not catch.
- Stack overflow from deep recursion is not modelled.
- `Stmt.java` declares only six variants. `While`, `Function` and `Return` are added with the fields the parser passes to their constructors.
- The generic visitor interfaces and `accept` become pattern matching.
- Parts of the Java methods are split into named functions and methods that follow the same steps: `Condition`, `BracedBlock`, `ElseBlock`, `FunctionRest`, `Parameters`, `Arguments`, `CloseCall`, `ForClauses`, `ForInitializer`, `ForIncrement`, `OptionalExpression`, the `…Tail` loops, and the scanner methods `Operator`, `Default` and `StringBody`.
- Parsing.Parser.constructor: requires a token list that ends with EOF. On other lists the Java parser reads out of bounds, and the model does not describe that.
- AstPrinting.Printed: requires an expression made only of binary, grouping, literal and unary nodes. The Java printer has no visitor for the other nodes and would not compile against the full visitor interface.
- PrinterProperties.PrintBalanced: requires that operator lexemes and literal texts contain no parentheses, since those texts are printed verbatim.
- ScannerProperties.ScanCountsNewlines: assumes no block comments, because they skip newlines without counting them.
- Tree shapes of the parser: the expression levels have theirs stated by the ParserProperties lemmas, and the statement productions state which node they build. Some node contents are stated only by the function bodies that build them:
  - the branches of an If;
  - the body of a While or Function;
  - the expression of a Print or Expression statement;
  - the value of a Return;
  - the entries of a block, each one `declarations` result.
- The source is read as a sequence of Unicode scalar values, not of Java's UTF-16 code units. A character outside the Basic Multilingual Plane is one character here but two `char`s in Java. For example, an emoji outside a string literal is reported as an unexpected character once here, while the Java scanner reports each of its two surrogates. String literals containing such characters also have different indices.
