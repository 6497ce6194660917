# sJava front-end checker, modelled in Dafny

This project models the checker of "project10". The checker reads a source
file of a small Java-like teaching language ("sJava", partly rewritten toward
the Jack grammar) line by line. It does not execute or generate anything. Each
line is tokenized, classified from its first two tokens, parsed against the
grammar rule for that kind of statement, and checked against a chain of
symbol tables.

The model follows the program's layers:

- **Lexer** (`tokens.dfy`, `tokenizer.dfy`).
  - `TokenType` is an ordered table of 43 categories: 19 single-character
    symbols, 21 keywords, then integer constant, string constant and
    identifier.
  - Each regular expression is written out as a prefix recognizer
    (`Tokens.MatchEnd`).
  - `Lexing.Lex` is the stream of tokens a line yields. It holds the
    first-match-in-declaration-order rule, white-space skipping and
    comment-line suppression.
  - The `Lexing.Tokenizer` class advances its `position` in place and is
    proved to hand out exactly that stream.
- **Symbols** (`symbol_table.dfy`, `symbols.dfy`, `scope.dfy`,
  `environments.dfy`).
  - `SymbolTableImpl` is a class over a name-sorted sequence (the
    `TreeMap`). Its `Add` refuses duplicates, and its map view is the
    abstract contract of `SymbolTable`.
  - `VariableSymbol` keeps an XOR-toggled attribute byte (`bv8`).
  - The builder hands out the very object it mutates.
  - A `MethodSymbol` holds its parameter table.
  - A `Scope` is a class linked through `prev`.
  - A scope chain is also read as a value, an `Environments.Env`: a store of
    variable values plus the chain of levels, innermost first. Tables hold
    references into the store, so a parameter shared by a method symbol and a
    method body is one store entry, as in the program. `Scopes.EnvOf` maps the
    heap objects onto that value, and each `Scope` method is proved against
    the corresponding `Env` function.
- **Rules** (`semantics.dfy`, `statements.dfy`). These are the fixed tables of
  `SemanticAnalyzer`, its checks, and the `StatementFactory` decision table.
- **Parser** (`parser_spec.dfy`, `parser.dfy`, `parser_props.dfy`).
  - `ParserSpec` gives every grammar rule as a function on a cursor state: the
    current token, the lookahead, the rest of the line's tokens and the bound
    scope.
  - The `Parsing.Parser` class has one method per rule and is proved to end
    in the state, or with the error, that its function gives.
  - `ParserProperties` states what each statement form demands and does.
- **Interpreter** (`interpreter_spec.dfy`, `interpreter.dfy`,
  `interpreter_props.dfy`).
  - `InterpreterSpec` gives:
    - the brace recognizers;
    - the `ScopeHandler` step;
    - the first pass over the global lines (parse a line only at depth 0, and
      record each method declaration line);
    - the second pass (for each recorded line: a handler on a duplicate of the
      global scope, the parameters of the method with that ordinal, then the
      body up to the line that brings the depth back to 0, which must be a
      `return` line followed by a closing line).
  - The classes `LineReader`, `ScopeHandler` and `Interpreter` are proved to
    compute those functions.
  - The file is a sequence of lines.

Two consequences of the code, stated as lemmas:

- A method body receives the parameters of the method with the same ordinal
  in the global method table. That table iterates in name order, while the
  declaration lines are recorded in file order
  (`InterpreterProperties.BodyGetsOrdinalParameters`).
- An assignment toggles the INITIALIZED bit rather than setting it, so
  assigning a variable twice clears the bit again
  (`ParserProperties.AssignTwiceRestores`).

Parts of the source do not compile as written. The model makes these
choices:

- **Token kinds.** The token-kind datatype is the lexer's 43 categories plus
  `Equals`, `Final`, `Double` and `String`. The parser and the rule tables
  use these four, but `TokenType` has no recognizer for them.
- **Statement kinds.** The statement-kind datatype holds the kinds that
  `SemanticAnalyzer`, `StatementFactory` and `Interpreter` use.
- **Method declarations.** `parse` sends a method declaration to
  `parseSubRoutineDeclaration`.
- **Unreachable cases.** The stray constant list inside the `switch` of
  `parse`, and its class-declaration cases, are not modelled.
- **Duplicate `case ID` in `getStatement`.** The label at
  `StatementFactory.java:33` is the one modelled. The one at line 24 is kept
  as `Statements.GetStatementIdAsDeclaration`.
- **`doFirstPass`.** Its loop is read as closing before `preProcessLine`
  begins.

## Model

| member | source | states |
|---|---|---|
| Tokens.Category | project10/src/main/Lexer/TokenType.java:11-57 | the i-th category in declaration order: the 19 symbols come first, then the 21 keywords, then integer constant (40), string constant and identifier (42) last; exactly the last three capture a value |
| Tokens.SymbolCategory | project10/src/main/Lexer/TokenType.java:11-29 | each of the first 19 categories is recognized by a single character |
| Tokens.KeywordCategory | project10/src/main/Lexer/TokenType.java:32-52 | categories 19 to 39 are keywords |
| Tokens.CategoryPatterns | project10/src/main/Lexer/TokenType.java:11-52 | every keyword starts with a letter, and a symbol category is the one found for its own character |
| Tokens.Rank | project10/src/main/Lexer/TokenType.java:11-57 | the position of a kind in the declaration order, inverse to `Category`; negative exactly for the kinds that have no recognizer |
| Tokens.SymbolOrdinal | project10/src/main/Lexer/TokenType.java:11-29 | inverse of `SymbolCategory`, defined exactly on the symbol kinds |
| Tokens.KeywordOrdinal | project10/src/main/Lexer/TokenType.java:32-52 | inverse of `KeywordCategory`, defined exactly on the keyword kinds |
| Tokens.SymbolRankInverse | project10/src/main/Lexer/TokenType.java:11-29 | the category found for a symbol character recognizes that character |
| Tokens.RunEnd | project10/src/main/Lexer/TokenType.java:54-57 | the longest run of a character class: every character before the end is in the class, the one at the end is not |
| Tokens.MatchEnd | project10/src/main/Lexer/TokenType.java:84-86 | a match of any pattern consumes at least one character and stays within the line |
| Tokens.KeywordBoundary | project10/src/main/Lexer/TokenType.java:32-51 | a keyword other than `return` matches only when no word character follows (so `intx` is not `int`); `if` and `while` only when `(` or white space follows |
| Tokens.ReturnMatchesPrefix | project10/src/main/Lexer/TokenType.java:52 | `return` has no boundary check and matches the first six characters of `returned`; `int` does not match in `intx` |
| Tokens.IntegerMatch | project10/src/main/Lexer/TokenType.java:54 | an integer match is an optional `-` and then a maximal non-empty run of digits, and the match fails when a `.` follows the run |
| Tokens.StringMatch | project10/src/main/Lexer/TokenType.java:55 | a string match is a double-quoted text without `"`, `\`, `'` or `,` |
| Tokens.IdentifierMatch | project10/src/main/Lexer/TokenType.java:57 | an identifier is a letter followed by word characters, or `_` followed by at least one word character, ended by a non-word character; it never starts with a digit |
| Lexing.SkipWhitespaceFrom | project10/src/main/Lexer/Tokenizer.java:67-72 | the first position at or after `pos` that is not Java white space |
| Lexing.IsComment | project10/src/main/Lexer/Tokenizer.java:106-108 | a comment line starts with `//` and has at least one more character; that `Lex` then gives no token is stated by `Lexing.Lex` and `Lexing.Tokenizer.constructor` |
| Lexing.FirstMatchFrom | project10/src/main/Lexer/Tokenizer.java:45-55 | the first category from `i` on, in declaration order, whose pattern matches at `pos`; every earlier category fails there; none means no category matches |
| Lexing.LexFrom | project10/src/main/Lexer/Tokenizer.java:38-64 | the tokens from `pos` on: at most one per remaining character, each of a lexer category, carrying a value exactly when its category captures one |
| Lexing.Lex | project10/src/main/Lexer/Tokenizer.java:21-30 | a comment line yields no token and no failure; any line yields at most one token per character |
| Lexing.ValidateMethodName | project10/src/main/Lexer/Tokenizer.java:95-99 | fails with `UnknownToken` exactly when the name starts with `_` |
| Lexing.LexFromExhausted | project10/src/main/Lexer/Tokenizer.java:33-35 | nothing is left to hand out (no token, no pending failure) exactly when the position is the end of the line |
| Lexing.FirstMatchNoLater | project10/src/main/Lexer/Tokenizer.java:45-52 | the chosen category is no later than any category that matches at the position |
| Lexing.SymbolLexesAlone | project10/src/main/Lexer/TokenType.java:11-29 | a symbol character always becomes its own one-character token, so `&&` is two `&` tokens |
| Lexing.SkipSymbolsAndKeywords | project10/src/main/Lexer/Tokenizer.java:45-52 | at a character that is neither a symbol nor a letter, the choice starts at the integer category |
| Lexing.DigitLexing | project10/src/main/Lexer/TokenType.java:54-57 | at a digit the integer category is chosen exactly when the integer pattern matches there, and otherwise no category matches |
| Lexing.KeywordBeatsIdentifier | project10/src/main/Lexer/TokenType.java:32-57 | where a keyword matches, a keyword is chosen and never an identifier |
| Lexing.KeywordStartsWithLetter | project10/src/main/Lexer/TokenType.java:32-52 | a keyword matches only at a letter, where no symbol matches |
| Lexing.MinusIsNotInteger | project10/src/main/Lexer/TokenType.java:21 | a `-` is always the minus symbol, because `MINUS` comes before `INTEGER_CONSTANT` |
| Lexing.IntegerRunDigits | project10/src/main/Lexer/TokenType.java:54 | an integer match that does not start at `-` is all digits |
| Lexing.FirstTokenUnsigned | project10/src/main/Lexer/Tokenizer.java:45-64 | the token chosen at a position is never a signed integer |
| Lexing.LexedIntegersUnsigned | project10/src/main/Lexer/TokenType.java:21-54 | every integer token of a line is made of digits only, so `-7` lexes as minus followed by `7` |
| Lexing.Tokenizer.constructor | project10/src/main/Lexer/Tokenizer.java:21-30 | the tokens still to be handed out are exactly `Lex(line)` |
| Lexing.Tokenizer.HasNext | project10/src/main/Lexer/Tokenizer.java:33-35 | true exactly when another `Next` yields a token or fails |
| Lexing.Tokenizer.Next | project10/src/main/Lexer/Tokenizer.java:38-42 | hands out the first remaining token and keeps the rest; when only the pending failure remains, fails with `UnknownToken` and leaves nothing to hand out |
| Lexing.Tokenizer.GetTokenFromPosition | project10/src/main/Lexer/Tokenizer.java:45-55 | moves to the end of the first matching category's match and returns its token, or fails and jumps to the end of the line |
| Lexing.Tokenizer.CreateTokenForMatchedPattern | project10/src/main/Lexer/Tokenizer.java:58-64 | a token of the matched kind whose value is the matched text exactly when the kind captures a value |
| Lexing.Tokenizer.SkipWhitespace | project10/src/main/Lexer/Tokenizer.java:67-72 | the position moves to the first character that is not white space |
| Lexing.Tokenizer.Match | project10/src/main/Lexer/Tokenizer.java:75-83 | reports whether the pattern matches at the position and, if so, moves past the match; otherwise the position is unchanged |
| Statements.GetStatementIdAsDeclaration | project10/src/main/Interpreter/StatementFactory.java:21-25 | the line-24 reading of the duplicate label: a leading identifier is a variable declaration, and every other first token is classified as in `GetStatement` |
| Statements.GetStatement | project10/src/main/Interpreter/StatementFactory.java:19-45 | a failure is `UnknownStatement`, and an assignment or a call is recognized only after an identifier with a second token; each case is stated in both directions by `Statements.UnknownStatements`, `Statements.FirstTokenKinds` and `Statements.SecondTokenKinds` |
| Statements.UnknownStatements | project10/src/main/Interpreter/StatementFactory.java:44 | classification fails, with `UnknownStatement`, exactly when the first token is none of `int`, `boolean`, `char`, identifier, `return`, `while`, `if`, `void`, `}` |
| Statements.FirstTokenKinds | project10/src/main/Interpreter/StatementFactory.java:21-32 | `int`/`boolean`/`char` give a variable declaration, `return` a return, `if`/`while` a conditional and `void` a method declaration, each in both directions |
| Statements.SecondTokenKinds | project10/src/main/Interpreter/StatementFactory.java:33-42 | an identifier followed by `=` is an assignment; followed by `(` it is a call; followed by anything else or nothing, and `}`, is a close scope |
| Statements.SecondTokenMattersOnlyAfterId | project10/src/main/Interpreter/StatementFactory.java:19-45 | the second token affects the classification only after an identifier |
| Statements.UnclassifiedDeclarations | project10/src/main/Interpreter/StatementFactory.java:44 | `final`, `double` and `String` as first token are unknown statements under both readings |
| Semantics.VerifyAssignmentTokenType | project10/src/main/Interpreter/SemanticAnalyzer.java:141-149 | accepts and returns the token kind exactly when it is in the type's assignment row; a type without a row fails |
| Semantics.GetVariableIfDeclared | project10/src/main/Interpreter/SemanticAnalyzer.java:131-137 | the innermost binding of the name, or `UndeclaredVariableUsage` naming it |
| Semantics.RequireNonFinal | project10/src/main/Interpreter/SemanticAnalyzer.java:152-156 | fails with `CannotChangeFinalVariable` exactly for a final variable |
| Semantics.VerifyVariableUsage | project10/src/main/Interpreter/SemanticAnalyzer.java:68-75 | passes exactly for a declared, initialized variable of a covariant type; otherwise fails in the fixed order: undeclared, then uninitialized, then missing row, then contravariant with both types |
| Semantics.VerifyAssignment | project10/src/main/Interpreter/SemanticAnalyzer.java:91-94 | a final target fails before any usage check; otherwise the usage check against the target's type decides |
| Semantics.VerifyMethodStatement | project10/src/main/Interpreter/SemanticAnalyzer.java:101-108 | every statement kind but a method declaration is legal in a method, else `UnexpectedMethodStatement` |
| Semantics.MethodStatementsComplete | project10/src/main/Interpreter/SemanticAnalyzer.java:38-40 | the legal method statements are all kinds except a method declaration |
| Semantics.VerifyGlobalStatement | project10/src/main/Interpreter/SemanticAnalyzer.java:115-122 | exactly method declarations, variable declarations and assignments are legal at the top level, else `UnexpectedGlobalStatement` |
| Semantics.CovarianceNested | project10/src/main/Interpreter/SemanticAnalyzer.java:28-35 | the covariance table is reflexive on the variable types and nested: int within double within boolean |
| Semantics.AssignmentRow | project10/src/main/Interpreter/SemanticAnalyzer.java:20-25 | only `int`, `boolean` and string-constant types have a row, and every row admits an identifier; `Semantics.AssignmentRowsPresent` states the rest |
| Semantics.CovariantRow | project10/src/main/Interpreter/SemanticAnalyzer.java:28-35 | exactly the five variable types have a row, each row holds its own type and only variable types |
| Semantics.Covariant | project10/src/main/Interpreter/SemanticAnalyzer.java:28-35 | relates only variable types and is reflexive on them; its nesting and isolation are stated by `Semantics.CovarianceNested` and `Semantics.CovarianceIsolated` |
| Semantics.CovarianceIsolated | project10/src/main/Interpreter/SemanticAnalyzer.java:28-35 | char and String accept only themselves |
| Semantics.AssignmentRowsPresent | project10/src/main/Interpreter/SemanticAnalyzer.java:20-25 | assignment rows exist only for int, boolean and string constant |
| Semantics.StatementLegality | project10/src/main/Interpreter/SemanticAnalyzer.java:38-44 | a method declaration is the one kind legal only at the top level; declarations and assignments are legal in both places |
| SymbolTables.LessIrreflexive | project10/src/main/Scope/SymbolTableImpl.java:13-15 | the key order of the tree map is irreflexive |
| SymbolTables.LessTransitive | project10/src/main/Scope/SymbolTableImpl.java:13-15 | the key order is transitive |
| SymbolTables.LessTotal | project10/src/main/Scope/SymbolTableImpl.java:13-15 | any two distinct keys are ordered |
| SymbolTables.LessAsymmetric | project10/src/main/Scope/SymbolTableImpl.java:13-15 | the key order is asymmetric |
| SymbolTables.Find | project10/src/main/Scope/SymbolTableImpl.java:26-31 | a value found for a key is stored under that key |
| SymbolTables.SortedKeyUnique | project10/src/main/Scope/SymbolTableImpl.java:11 | a sorted table holds each key at most once |
| SymbolTables.ToMapFind | project10/src/main/Scope/SymbolTable.java:26 | the map view of a table holds a key exactly when lookup finds it, with the same value |
| SymbolTables.Insert | project10/src/main/Scope/SymbolTableImpl.java:18-23 | inserting an absent key keeps the table sorted, adds one entry and changes the lookup of that key only |
| SymbolTables.InsertContents | project10/src/main/Scope/SymbolTableImpl.java:18-23 | the map view after an insertion is the old map updated at the key |
| SymbolTables.InsertGreatest | project10/src/main/Scope/Scope.java:113-115 | inserting a key greater than all present ones appends it, which is how a copy is filled in iteration order |
| SymbolTables.SortedUnique | project10/src/main/Scope/SymbolTableImpl.java:39-41 | two sorted tables with the same map view are equal, so iteration order is fixed by the contents alone |
| SymbolTables.SymbolTableImpl.constructor | project10/src/main/Scope/SymbolTableImpl.java:13-15 | a new table is empty |
| SymbolTables.SymbolTableImpl.Add | project10/src/main/Scope/SymbolTableImpl.java:18-23 | a present key fails with `SymbolAlreadyExists` and leaves the table as it was; an absent key is inserted in order, changing no other entry |
| SymbolTables.SymbolTableImpl.Get | project10/src/main/Scope/SymbolTableImpl.java:26-31 | the value stored for the identifier, or `NoSuchSymbol` when it is absent |
| SymbolTables.SymbolTableImpl.Contains | project10/src/main/Scope/SymbolTableImpl.java:34-36 | true exactly when the identifier is mapped |
| SymbolTables.SymbolTableImpl.Iterator | project10/src/main/Scope/SymbolTableImpl.java:39-41 | the entries in ascending key order, with exactly the table's contents |
| Symbols.MaskOf | project10/src/main/Scope/VariableSymbol.java:84-90 | the mask has bit 0x01 exactly when FINAL is listed and bit 0x02 exactly when INITIALIZED is listed |
| Symbols.ActivatedAny | project10/src/main/Scope/VariableSymbol.java:69-72 | `isActivated` holds when ANY listed attribute's bit is set, not all of them |
| Symbols.ToggleInvolutive | project10/src/main/Scope/VariableSymbol.java:78-81 | toggling an attribute twice restores the byte |
| Symbols.ToggleFlipsOnlyItsBit | project10/src/main/Scope/VariableSymbol.java:78-81 | a toggle flips its own attribute and leaves the other unchanged |
| Symbols.FinalAndInitializedCommute | project10/src/main/Scope/VariableSymbolBuilder.java:42-54 | on a fresh symbol, FINAL then INITIALIZED and the reverse order both give both bits |
| Symbols.VariableSymbol.constructor | project10/src/main/Scope/VariableSymbol.java:35-38 | a new symbol has the given type and no attribute |
| Symbols.VariableSymbol.Copy | project10/src/main/Scope/VariableSymbol.java:44-47 | a fresh object with the other's type and attributes, so later changes to either do not reach the other |
| Symbols.VariableSymbol.SetType | project10/src/main/Scope/VariableSymbol.java:53-55 | only the type changes |
| Symbols.VariableSymbol.IsActivated | project10/src/main/Scope/VariableSymbol.java:69-72 | true when some listed attribute's bit is set |
| Symbols.VariableSymbol.Toggle | project10/src/main/Scope/VariableSymbol.java:78-81 | XORs the attribute's bit, and only the attributes change |
| Symbols.VariableSymbol.GetMask | project10/src/main/Scope/VariableSymbol.java:84-90 | the OR of the listed attributes' bits |
| Symbols.VariableSymbolBuilder.constructor | project10/src/main/Scope/VariableSymbolBuilder.java:16-18 | holds a fresh symbol of type `void` with no attribute |
| Symbols.VariableSymbolBuilder.OfType | project10/src/main/Scope/VariableSymbolBuilder.java:24-26 | holds a fresh symbol of the given type with no attribute |
| Symbols.VariableSymbolBuilder.SetType | project10/src/main/Scope/VariableSymbolBuilder.java:33-36 | changes only the held symbol's type and returns the builder itself |
| Symbols.VariableSymbolBuilder.MakeFinal | project10/src/main/Scope/VariableSymbolBuilder.java:42-45 | toggles FINAL on the held symbol, so calling it twice clears the bit |
| Symbols.VariableSymbolBuilder.MakeInitialized | project10/src/main/Scope/VariableSymbolBuilder.java:51-54 | toggles INITIALIZED on the held symbol |
| Symbols.VariableSymbolBuilder.Build | project10/src/main/Scope/VariableSymbolBuilder.java:60-62 | returns the held object itself, so later builder calls change symbols already built |
| Symbols.MethodSymbol.constructor | project10/src/main/Scope/MethodSymbol.java:22-25 | keeps the return marker, and the parameter table starts fresh and empty |
| Symbols.MethodSymbol.AddParameter | project10/src/main/Scope/MethodSymbol.java:32-34 | a duplicate name fails and changes nothing; otherwise the parameter is inserted in name order |
| Symbols.MethodSymbol.Iterator | project10/src/main/Scope/MethodSymbol.java:47-49 | the parameters in ascending name order, not declaration order |
| Environments.Lookup | project10/src/main/Scope/Scope.java:58-65 | an unsuccessful chain walk fails with `NoSuchSymbol` |
| Environments.LookupFails | project10/src/main/Scope/Scope.java:58-65 | the lookup fails exactly when no table on the chain holds the name |
| Environments.LookupWitness | project10/src/main/Scope/Scope.java:59-63 | a successful lookup returns the binding of the innermost table holding the name |
| Environments.LookupVariable | project10/src/main/Scope/Scope.java:58-65 | fails, with `NoSuchSymbol`, exactly when no variable table of the chain holds the name; the innermost binding is stated by `Environments.LookupWitness`, and the heap walk by `Scopes.LookupVariableView` |
| Environments.LookupMethod | project10/src/main/Scope/Scope.java:73-80 | the same for the method tables; the heap walk is `Scopes.LookupMethodView` |
| Environments.MethodByOrdinal | project10/src/main/Scope/Scope.java:88-97 | the ordinal-th method of the innermost scope only, in name order; fails with `NoSuchSymbol` when the ordinal is not below the count |
| Environments.AddVariable | project10/src/main/Scope/Scope.java:38-40 | refused with `SymbolAlreadyExists` exactly when the innermost scope already holds the name, so shadowing an outer name succeeds; otherwise only the innermost variable table changes, by the new binding |
| Environments.AddMethod | project10/src/main/Scope/Scope.java:48-50 | the same for the innermost method table |
| Environments.PushScope | project10/src/main/Scope/Scope.java:27-30 | a new scope with empty tables in front of the chain, which is kept as it was |
| Environments.DuplicateTop | project10/src/main/Scope/Scope.java:110-121 | a parentless scope with the same method table; each variable gets a new store entry appended |
| Environments.AddVariableThenLookup | project10/src/main/Scope/Scope.java:38-40 | after adding, the name resolves to the new symbol and every other name resolves as before |
| Environments.PushScopeTransparent | project10/src/main/Scope/Scope.java:27-30 | a new empty inner scope changes no lookup |
| Environments.DuplicateTopVars | project10/src/main/Scope/Scope.java:113-115 | the copy has the same names in the same order, each bound to its own new store entry |
| Environments.DuplicateTopStore | project10/src/main/Scope/Scope.java:114 | each new entry holds the value of the variable it copies |
| Environments.DuplicateTopLookupVariable | project10/src/main/Scope/Scope.java:110-121 | in the copy a name resolves exactly when the innermost original table holds it, to a fresh entry equal to the original's value |
| Environments.DuplicateTopLookupMethod | project10/src/main/Scope/Scope.java:116 | method lookup in the copy sees exactly the original's innermost method table |
| Scopes.Scope.constructor | project10/src/main/Scope/Scope.java:17-21 | fresh, empty tables and no parent |
| Scopes.Scope.Nested | project10/src/main/Scope/Scope.java:27-30 | fresh, empty tables with `prev` the given scope |
| Scopes.Scope.Sharing | project10/src/main/Scope/Scope.java:111-116 | a parentless scope with a fresh, empty variable table and the given method table |
| Scopes.Scope.AddVariable | project10/src/main/Scope/Scope.java:38-40 | the scope chain's value changes exactly as `Environments.AddVariable` says, and is unchanged on failure |
| Scopes.Scope.AddMethod | project10/src/main/Scope/Scope.java:48-50 | the scope chain's value changes exactly as `Environments.AddMethod` says |
| Scopes.Scope.LookupMethodByOrdinal | project10/src/main/Scope/Scope.java:88-97 | the ordinal-th entry of this scope's own method table, or `NoSuchSymbol` |
| Scopes.Scope.LookupVariable | project10/src/main/Scope/Scope.java:58-65 | a name in this scope's own table resolves to its entry there, shadowing outer scopes; a failure is `NoSuchSymbol`; `Scopes.LookupVariableView` proves it agrees with `Environments.LookupVariable` |
| Scopes.Scope.LookupMethod | project10/src/main/Scope/Scope.java:73-80 | the same for methods, with `Scopes.LookupMethodView` |
| Scopes.Scope.Duplicate | project10/src/main/Scope/Scope.java:110-121 | a fresh parentless scope sharing the method table, whose value is `DuplicateTop` of the original; the original is untouched |
| Scopes.Scope.CopyInto | project10/src/main/Scope/Scope.java:113-115 | fills the empty table with fresh copies of the entries, same names, same order, distinct objects |
| Scopes.Scope.AppendCopy | project10/src/main/Scope/Scope.java:114 | adds a fresh copy of the symbol under a name greater than all present ones, at the end |
| Scopes.LookupVariableView | project10/src/main/Scope/Scope.java:58-65 | the heap chain walk finds exactly the symbol object that the `Env` lookup refers to, and fails when that lookup fails |
| Scopes.LookupMethodView | project10/src/main/Scope/Scope.java:73-80 | the same for methods |
| Scopes.NestedView | project10/src/main/Scope/Scope.java:27-30 | a nested scope's value is `PushScope` of its parent's value |
| Scopes.DuplicateView | project10/src/main/Scope/Scope.java:110-121 | the filled copy's value is `DuplicateTop` of the original's value |
| ParserSpec.GetNextToken | project10/src/main/Interpreter/Parser.java:368-377 | fails exactly when the tokenizer fails; otherwise the next token (or none at the end) and the rest of the stream |
| ParserSpec.Advance | project10/src/main/Interpreter/Parser.java:353-360 | the lookahead becomes current and one token is consumed, with the scope kept |
| ParserSpec.NextTokenIs | project10/src/main/Interpreter/Parser.java:353-360 | advances exactly when the lookahead has the kind; otherwise the state is unchanged |
| ParserSpec.Expect | project10/src/main/Interpreter/Parser.java:362-366 | fails with `UnexpectedTokenType(k)` exactly when the lookahead is not `k`; otherwise advances |
| ParserSpec.End | project10/src/main/Interpreter/Parser.java:346-350 | succeeds, changing nothing, exactly when no token is left |
| ParserSpec.InitParser | project10/src/main/Interpreter/Parser.java:110-114 | the current token and lookahead are the first two tokens of the line, with the scope bound |
| ParserSpec.MatchAssignmentTokenType | project10/src/main/Interpreter/Parser.java:325-327 | consumes the lookahead only when its kind is in the type's assignment row |
| ParserSpec.AddVariableToScope | project10/src/main/Interpreter/Parser.java:330-336 | fails with `VariableAlreadyDeclared` exactly when the innermost scope holds the name; otherwise a new symbol enters the innermost scope |
| ParserSpec.AddToScopeIfSemanticallyCorrect | project10/src/main/Interpreter/Parser.java:315-323 | keeps outer scopes, grows the store and consumes the value token; its outcome is stated by `ParserProperties.InitializedDeclaration` |
| ParserSpec.MatchOptionalAssignment | project10/src/main/Interpreter/Parser.java:306-313 | keeps outer scopes and only grows the store; its outcome is stated by `ParserProperties.OptionalInitializer` and `ParserProperties.InitializedDeclaration` |
| ParserSpec.NonFinalDeclarator | project10/src/main/Interpreter/Parser.java:295-303 | one name (with an optional value) is consumed, and outer scopes are kept; what one name declares is stated by `ParserProperties.OptionalInitializer`, `ParserProperties.InitializedDeclaration` and `ParserProperties.DeclaredAttributes` |
| ParserSpec.NonFinalDeclarators | project10/src/main/Interpreter/Parser.java:295-303 | the comma-separated declarators consume tokens and keep outer scopes; `ParserProperties.NonFinalDeclaratorsDeclare` states the variables it declares and `ParserProperties.NonFinalDeclaratorsRefuse` that a held or repeated name fails |
| ParserSpec.ParseNonFinalVariableDeclaration | project10/src/main/Interpreter/Parser.java:295-303 | on success the whole line is consumed; `ParserProperties.NonFinalDeclarationDeclares` states the variables it declares and `ParserProperties.SameNameTwiceRefused` that a repeated name fails |
| ParserSpec.MatchAssignment | project10/src/main/Interpreter/Parser.java:287-292 | a final declarator consumes `= value` and keeps outer scopes; without `=` it fails as `ParserProperties.FinalNeedsInitializer` states, and the value is checked as `ParserProperties.InitializedDeclaration` states |
| ParserSpec.FinalDeclarator | project10/src/main/Interpreter/Parser.java:276-284 | one final name with its value is consumed; its failure without a value is stated by `ParserProperties.FinalNeedsInitializer`, and the final, initialized symbol by `ParserProperties.DeclaredAttributes` |
| ParserSpec.FinalDeclarators | project10/src/main/Interpreter/Parser.java:276-284 | the comma-separated final declarators consume tokens and keep outer scopes; `ParserProperties.FinalDeclaratorsDeclare` states the final variables it declares and `ParserProperties.FinalDeclaratorsRefuse` that a held or repeated name fails |
| ParserSpec.ParseFinalVariableDeclaration | project10/src/main/Interpreter/Parser.java:276-284 | on success the whole line is consumed; `ParserProperties.FinalDeclarationDeclares` states the final variables it declares and `ParserProperties.FinalWithoutValueRefused` that a name without a value fails |
| ParserSpec.ParseVariableDeclaration | project10/src/main/Interpreter/Parser.java:267-273 | on success the whole line is consumed and only the innermost scope and the store change; `ParserProperties.VariableDeclarationDeclares` states the variables it declares |
| ParserSpec.MatchExpression | project10/src/main/Interpreter/Parser.java:231-236 | the target is not final, and its INITIALIZED bit is toggled in the store |
| ParserSpec.ParseAssignment | project10/src/main/Interpreter/Parser.java:218-228 | succeeds only for a declared, non-final target; the only change is the toggle of the target's INITIALIZED bit, and the line is consumed |
| ParserSpec.OperandChecked | project10/src/main/Interpreter/Parser.java:239-243 | a value that passes the token-kind and usage checks is an operand of the type, and exactly one token is consumed |
| ParserSpec.MatchOperand | project10/src/main/Interpreter/Parser.java:257-264 | consumes one token, which is a usable operand of the type |
| ParserSpec.MatchCondition | project10/src/main/Interpreter/Parser.java:257-264 | consumes one token, which is a usable boolean operand |
| ParserSpec.VerifyUsageIfNecessary | project10/src/main/Interpreter/Parser.java:339-343 | passes exactly for a non-identifier value or an identifier that is declared, initialized and covariant with the type |
| ParserSpec.VerifyAssignmentIfNecessary | project10/src/main/Interpreter/Parser.java:239-243 | an identifier value fails with `CannotChangeFinalVariable` for a final target; it passes exactly for a non-identifier value or a non-final target and an identifier that is declared, initialized and covariant with the target's type |
| ParserSpec.Conditions | project10/src/main/Interpreter/Parser.java:246-264 | the consumed tokens are boolean operands joined by `&` or `\|`, and the scope is untouched |
| ParserSpec.ParseConditional | project10/src/main/Interpreter/Parser.java:246-254 | leaves the scope untouched and consumes the line; `ParserProperties.ConditionalLineChecked` states the line it accepts |
| ParserSpec.MatchArguments | project10/src/main/Interpreter/Parser.java:200-215 | leaves the scope untouched; the arguments it accepts are stated by `ParserSpec.ArgumentsMatchParameters` |
| ParserSpec.ArgumentsMatchParameters | project10/src/main/Interpreter/Parser.java:200-215 | the consumed tokens are one operand per parameter, in name order, each usable as that parameter's type, with a comma between consecutive ones and none after the last |
| ParserSpec.MatchParameters | project10/src/main/Interpreter/Parser.java:200-215 | leaves the scope untouched; what it accepts is stated by `ParserSpec.ArgumentsMatchParameters` |
| ParserSpec.ParseMethodCalling | project10/src/main/Interpreter/Parser.java:189-196 | leaves the scope untouched and consumes the line; `ParserProperties.MethodCallChecked` states the line it accepts |
| ParserSpec.MatchVariableType | project10/src/main/Interpreter/Parser.java:169-177 | consumes a variable type, or fails with `InvalidMethodParameterDefinition` when the lookahead is not one |
| ParserSpec.AddParameterToMethod | project10/src/main/Interpreter/Parser.java:159-166 | a duplicate parameter name fails with `InvalidMethodParameterDefinition`; otherwise a new symbol is allocated and inserted in the parameter table in name order |
| ParserSpec.MatchParameter | project10/src/main/Interpreter/Parser.java:148-156 | consumes one parameter and never changes the scope chain; `ParserProperties.MatchParameterDeclares` states the symbol it adds to the method's table |
| ParserSpec.ParameterSymbol | project10/src/main/Interpreter/Parser.java:148-156 | reads an optional `final` and a type, without touching the scope; `ParserProperties.ParameterRead` states the symbol it builds |
| ParserSpec.ParameterList | project10/src/main/Interpreter/Parser.java:148-156 | consumes the comma-separated parameters and never changes the scope chain; `ParserProperties.ParameterListDeclares` states the symbols it appends to the store and the table it builds |
| ParserSpec.AddMethodToScope | project10/src/main/Interpreter/Parser.java:180-186 | fails with `MethodAlreadyDeclared` exactly when the innermost scope holds the name; otherwise the method enters its method table |
| ParserSpec.DeclaredParameters | project10/src/main/Interpreter/Parser.java:117-134 | the parameter list between the parentheses, with the scope chain unchanged; `ParserProperties.DeclaredParametersDeclare` states that the table holds exactly the parameters read, each bound to its new symbol |
| ParserSpec.ParseSubRoutineDeclaration | project10/src/main/Interpreter/Parser.java:117-134 | keeps outer scopes and only grows the store; its outcome is stated by `ParserProperties.SubRoutineDeclarationShape` |
| ParserSpec.MethodHeader | project10/src/main/Interpreter/Parser.java:120-131 | keeps outer scopes and only grows the store; `ParserProperties.MethodHeaderParameters` states the parameter table of the method it declares |
| ParserSpec.Dispatch | project10/src/main/Interpreter/Parser.java:44-73 | every statement kind but a method declaration consumes the whole line |
| ParserSpec.Parse | project10/src/main/Interpreter/Parser.java:39-107 | on success only the innermost scope and the store change, and the store only grows; the statement it answers is stated by `ParserProperties.ParseNullIffNoTokens`, `ParserProperties.ParseClassifies` and `ParserProperties.AcceptedStatementsConsumeTheLine` |
| ParserSpec.ParseLine | project10/src/main/Interpreter/Parser.java:39-41 | `Parse` on the tokens of the line, with the same guarantees |
| ParserProperties.ParseNullIffNoTokens | project10/src/main/Interpreter/Parser.java:36-41 | `parse` answers "no statement" exactly when the line has no tokens, and then leaves the scope alone |
| ParserProperties.ParseClassifies | project10/src/main/Interpreter/Parser.java:43 | the statement `parse` returns is the classification of the line's first two tokens |
| ParserProperties.AcceptedStatementsConsumeTheLine | project10/src/main/Interpreter/Parser.java:346-350 | every accepted statement other than a method declaration consumed all tokens, and the tokenizer did not fail |
| ParserProperties.DeclaredAttributes | project10/src/main/Interpreter/Parser.java:267-313 | a plain declaration has no attribute, an initialized one is initialized and not final, a final one has both bits in either builder order |
| ParserProperties.InitializedDeclaration | project10/src/main/Interpreter/Parser.java:315-336 | a declaration with a value succeeds exactly when the value's kind fits the type, an identifier value is usable, and the innermost scope does not hold the name; it then adds a new symbol there |
| ParserProperties.FinalNeedsInitializer | project10/src/main/Interpreter/Parser.java:287-292 | a final name without `=` fails with `UnexpectedTokenType(=)` |
| ParserProperties.OptionalInitializer | project10/src/main/Interpreter/Parser.java:306-313 | a non-final name without `=` is added uninitialized |
| ParserProperties.AssignmentFailures | project10/src/main/Interpreter/Parser.java:218-228 | an undeclared target fails with `UndeclaredVariableUsage`, and a final one with `CannotChangeFinalVariable` after `=` |
| ParserProperties.AssignTwiceRestores | project10/src/main/Interpreter/Parser.java:231-236 | assigning the same variable twice gives back the scope of before the first assignment |
| ParserProperties.ToggleTwiceRestores | project10/src/main/Scope/VariableSymbol.java:78-81 | toggling a stored symbol's INITIALIZED bit twice restores the store |
| ParserProperties.ParameterSymbolAttributes | project10/src/main/Interpreter/Parser.java:148-156 | a parameter is initialized, is final exactly when `final` was read, and has a variable type |
| ParserProperties.SubRoutineDeclarationShape | project10/src/main/Interpreter/Parser.java:117-134 | without a name after `void` the line is accepted unparsed; a name starting with `_` is accepted without being declared; otherwise the method, whose name was free, is declared once `{` is read, and nothing follows it |
| ParserProperties.MethodHeaderDeclares | project10/src/main/Interpreter/Parser.java:120-131 | a successful header found the name free in the innermost scope, declares it there, and ends on a last `{`; `ParserProperties.MethodHeaderParameters` states that method's parameter table |
| ParserProperties.ParameterRead | project10/src/main/Interpreter/Parser.java:148-156 | `[final] type name` is one parameter: its name is the identifier read, and its symbol is initialized, final exactly when `final` was read, of the type read |
| ParserProperties.MatchParameterDeclares | project10/src/main/Interpreter/Parser.java:148-166 | one parameter read appends its symbol to the store and enters its name, which the method's table did not hold, bound to that new entry; the table is otherwise kept |
| ParserProperties.ParameterListDeclares | project10/src/main/Interpreter/Parser.java:123-128 | the comma-separated list appends one symbol per parameter, in order, and enters each name, all distinct and new, bound to its own entry |
| ParserProperties.EnteredBinds | project10/src/main/Interpreter/Parser.java:159-166 | entering distinct new names binds the i-th name to the i-th new store entry, holding the i-th symbol, and keeps every earlier entry |
| ParserProperties.DeclaredParametersDeclare | project10/src/main/Interpreter/Parser.java:122-128 | `( )` gives an empty table; otherwise the table holds exactly the parameters read before `)`, with distinct names, each bound to its new symbol |
| ParserProperties.MethodHeaderParameters | project10/src/main/Interpreter/Parser.java:122-131 | a successful header reads `(`, the parameter part and a last `{`, and the method it declares has the table of exactly the parameters read |
| ParserProperties.DeclaredValues | project10/src/main/Interpreter/Parser.java:287-313 | a declarator list declares at least one variable, the first named by the list's first token; in a final list each is final and initialized, in a non-final list each has no attribute or only INITIALIZED |
| ParserProperties.NonFinalDeclaratorDeclares | project10/src/main/Interpreter/Parser.java:295-313 | one non-final declarator reads a name and an optional `= value`, appends one symbol to the store, and binds the name, which the innermost scope did not hold, to it, initialized exactly when a value was read; outer scopes are kept |
| ParserProperties.FinalDeclaratorDeclares | project10/src/main/Interpreter/Parser.java:276-292 | one final declarator reads `name = value`, appends one final, initialized symbol to the store, and binds the name, which the innermost scope did not hold, to it; outer scopes are kept |
| ParserProperties.NonFinalDeclaratorsDeclare | project10/src/main/Interpreter/Parser.java:295-303 | the comma-separated non-final list declares its names, all distinct and new to the innermost scope, each bound to its own new store entry in order; outer scopes and the method tables are kept |
| ParserProperties.FinalDeclaratorsDeclare | project10/src/main/Interpreter/Parser.java:276-284 | the comma-separated final list declares its names, all distinct and new to the innermost scope, each bound to its own new final, initialized store entry in order; outer scopes and the method tables are kept |
| ParserProperties.NonFinalDeclarationDeclares | project10/src/main/Interpreter/Parser.java:295-303 | an accepted non-final line is a declarator list and a last `;`, and the list's variables are declared |
| ParserProperties.FinalDeclarationDeclares | project10/src/main/Interpreter/Parser.java:276-284 | an accepted final line is the type, a declarator list, each with a value, and a last `;`, and the list's variables are declared final |
| ParserProperties.VariableDeclarationDeclares | project10/src/main/Interpreter/Parser.java:267-273 | a declaration line declares final variables of the type after `final`, or non-final ones of the type the line starts with |
| ParserProperties.HeldNameRefused | project10/src/main/Interpreter/Parser.java:287-336 | a name the innermost scope holds fails with `VariableAlreadyDeclared`, with or without a fitting value |
| ParserProperties.OptionalAssignmentRefused | project10/src/main/Interpreter/Parser.java:306-336 | a non-final declarator of a held name fails, with `VariableAlreadyDeclared` when there is no value or the value fits |
| ParserProperties.AssignmentRefused | project10/src/main/Interpreter/Parser.java:287-292 | a final declarator of a held name fails, with `VariableAlreadyDeclared` when the value fits |
| ParserProperties.NonFinalDeclaratorsRefuse | project10/src/main/Interpreter/Parser.java:295-303 | a non-final list whose names are not all distinct and new to the innermost scope fails |
| ParserProperties.FinalDeclaratorsRefuse | project10/src/main/Interpreter/Parser.java:276-284 | a final list whose names are not all distinct and new to the innermost scope fails |
| ParserProperties.SameNameTwiceRefused | project10/src/main/Scope/AssignmentParserTest.java:67-70 | a non-final line that declares the same name twice, each with a value (`int a = 5, a=7;`), is refused, both by the list and by the line |
| ParserProperties.FinalWithoutValueRefused | project10/src/main/Scope/AssignmentParserTest.java:83-86 | a final line with a name and no value (`final int a;`) fails with `UnexpectedTokenType(=)` |
| ParserProperties.ConditionalLineChecked | project10/src/main/Interpreter/Parser.java:246-264 | an accepted `if`/`while` header is `(`, boolean operands joined by `&` or `\|`, `)` and `{`, with nothing after it and the scope untouched |
| ParserProperties.MethodCallChecked | project10/src/main/Interpreter/Parser.java:189-215 | an accepted call names a visible method, and the line is `(`, one usable operand per parameter in name order separated by commas, `)` and `;`, with nothing after it and the scope untouched |
| Parsing.Parser.constructor | project10/src/main/Interpreter/Parser.java:27-30 | bound to the scope, with no token yet |
| Parsing.Parser.GetNextToken | project10/src/main/Interpreter/Parser.java:368-377 | returns and consumes what `ParserSpec.GetNextToken` gives |
| Parsing.Parser.NextTokenIs | project10/src/main/Interpreter/Parser.java:353-360 | advances exactly when the lookahead has the kind, otherwise changes nothing |
| Parsing.Parser.Expect | project10/src/main/Interpreter/Parser.java:362-366 | ends as `ParserSpec.Expect` |
| Parsing.Parser.End | project10/src/main/Interpreter/Parser.java:346-350 | ends as `ParserSpec.End` |
| Parsing.Parser.InitParser | project10/src/main/Interpreter/Parser.java:110-114 | ends as `ParserSpec.InitParser` |
| Parsing.Parser.Parse | project10/src/main/Interpreter/Parser.java:39-107 | returns the statement and leaves the scope that `ParserSpec.ParseLine` gives, or its error |
| Parsing.Parser.Dispatch | project10/src/main/Interpreter/Parser.java:44-73 | ends as `ParserSpec.Dispatch` |
| Parsing.Parser.ParseSubRoutineDeclaration | project10/src/main/Interpreter/Parser.java:117-134 | ends as `ParserSpec.ParseSubRoutineDeclaration` |
| Parsing.Parser.MethodHeader | project10/src/main/Interpreter/Parser.java:120-131 | ends as `ParserSpec.MethodHeader` |
| Parsing.Parser.DeclaredParameters | project10/src/main/Interpreter/Parser.java:122-127 | ends as `ParserSpec.DeclaredParameters` |
| Parsing.Parser.MatchParameter | project10/src/main/Interpreter/Parser.java:148-156 | ends as `ParserSpec.MatchParameter` |
| Parsing.Parser.ParameterSymbol | project10/src/main/Interpreter/Parser.java:148-153 | ends as `ParserSpec.ParameterSymbol` |
| Parsing.Parser.AddParameterToMethod | project10/src/main/Interpreter/Parser.java:159-166 | ends as `ParserSpec.AddParameterToMethod` |
| Parsing.Parser.MatchVariableType | project10/src/main/Interpreter/Parser.java:169-177 | ends as `ParserSpec.MatchVariableType` |
| Parsing.Parser.AddMethodToScope | project10/src/main/Interpreter/Parser.java:180-186 | ends as `ParserSpec.AddMethodToScope` |
| Parsing.Parser.ParseMethodCalling | project10/src/main/Interpreter/Parser.java:189-196 | ends as `ParserSpec.ParseMethodCalling` |
| Parsing.Parser.MatchParameters | project10/src/main/Interpreter/Parser.java:200-215 | ends as `ParserSpec.MatchParameters` |
| Parsing.Parser.MatchArguments | project10/src/main/Interpreter/Parser.java:203-211 | the loop over the parameters ends as `ParserSpec.MatchArguments` |
| Parsing.Parser.ParseAssignment | project10/src/main/Interpreter/Parser.java:218-228 | ends as `ParserSpec.ParseAssignment` |
| Parsing.Parser.MatchExpression | project10/src/main/Interpreter/Parser.java:231-236 | ends as `ParserSpec.MatchExpression` |
| Parsing.Parser.VerifyAssignmentIfNecessary | project10/src/main/Interpreter/Parser.java:239-243 | the outcome of the assignment check of an identifier value, and a pass for any other value |
| Parsing.Parser.ParseConditional | project10/src/main/Interpreter/Parser.java:246-254 | ends as `ParserSpec.ParseConditional` |
| Parsing.Parser.MatchCondition | project10/src/main/Interpreter/Parser.java:257-264 | ends as `ParserSpec.MatchCondition` |
| Parsing.Parser.MatchOperand | project10/src/main/Interpreter/Parser.java:257-264 | ends as `ParserSpec.MatchOperand` |
| Parsing.Parser.ParseVariableDeclaration | project10/src/main/Interpreter/Parser.java:267-273 | ends as `ParserSpec.ParseVariableDeclaration` |
| Parsing.Parser.ParseFinalVariableDeclaration | project10/src/main/Interpreter/Parser.java:276-284 | ends as `ParserSpec.ParseFinalVariableDeclaration` |
| Parsing.Parser.FinalDeclarators | project10/src/main/Interpreter/Parser.java:276-284 | ends as `ParserSpec.FinalDeclarators` |
| Parsing.Parser.FinalDeclarator | project10/src/main/Interpreter/Parser.java:278-282 | ends as `ParserSpec.FinalDeclarator` |
| Parsing.Parser.MatchAssignment | project10/src/main/Interpreter/Parser.java:287-292 | ends as `ParserSpec.MatchAssignment` |
| Parsing.Parser.ParseNonFinalVariableDeclaration | project10/src/main/Interpreter/Parser.java:295-303 | ends as `ParserSpec.ParseNonFinalVariableDeclaration` |
| Parsing.Parser.NonFinalDeclarators | project10/src/main/Interpreter/Parser.java:295-303 | ends as `ParserSpec.NonFinalDeclarators` |
| Parsing.Parser.NonFinalDeclarator | project10/src/main/Interpreter/Parser.java:297-301 | ends as `ParserSpec.NonFinalDeclarator` |
| Parsing.Parser.MatchOptionalAssignment | project10/src/main/Interpreter/Parser.java:306-313 | ends as `ParserSpec.MatchOptionalAssignment` |
| Parsing.Parser.AddToScopeIfSemanticallyCorrect | project10/src/main/Interpreter/Parser.java:315-323 | ends as `ParserSpec.AddToScopeIfSemanticallyCorrect` |
| Parsing.Parser.MatchAssignmentTokenType | project10/src/main/Interpreter/Parser.java:325-327 | ends as `ParserSpec.MatchAssignmentTokenType` |
| Parsing.Parser.AddVariableToScope | project10/src/main/Interpreter/Parser.java:330-336 | ends as `ParserSpec.AddVariableToScope` |
| Parsing.Parser.VerifyUsageIfNecessary | project10/src/main/Interpreter/Parser.java:339-343 | the usage check of an identifier value, and a pass for any other value |
| InterpreterSpec.At | project10/src/main/Interpreter/Interpreter.java:194-196 | a failure becomes a report at the given line, and a success is passed on unchanged |
| InterpreterSpec.ParsedAt | project10/src/main/Interpreter/Interpreter.java:240-242 | a parser failure keeps its kind and is reported at the line, unless it is a null dereference, which escapes the catch without one; a success is passed on unchanged |
| InterpreterSpec.SpaceSuffixStart | project10/src/main/Interpreter/Interpreter.java:27 | the start of the run of `\s` characters that ends the text |
| InterpreterSpec.SpacePrefixEnd | project10/src/main/Interpreter/Interpreter.java:28 | the end of the run of `\s` characters that starts the text |
| InterpreterSpec.MatchesOpeningShape | project10/src/main/Interpreter/Interpreter.java:27 | the opening recognizer accepts exactly the language of `.*?\{\s*`: a `{` followed only by `\s`, with no line terminator before it |
| InterpreterSpec.MatchesClosingShape | project10/src/main/Interpreter/Interpreter.java:28 | the closing recognizer accepts exactly the language of `\s*}\s*` |
| InterpreterSpec.ShouldOpenScope | project10/src/main/Interpreter/Interpreter.java:81-83 | true exactly for a line that is not a comment and has the shape of `.*?\{\s*` |
| InterpreterSpec.ShouldCloseScope | project10/src/main/Interpreter/Interpreter.java:86-88 | true exactly for a line that is not a comment and has the shape of `\s*}\s*` |
| InterpreterSpec.OpenAndCloseExclusive | project10/src/main/Interpreter/Interpreter.java:81-88 | no line both opens and closes a scope |
| InterpreterSpec.OpenScope | project10/src/main/Interpreter/Interpreter.java:102-105 | opening keeps the held scope well formed; what it does to the chain is stated by `InterpreterProperties.AcceptKeepsOuterChain` and `InterpreterProperties.OpenThenCloseRestores` |
| InterpreterSpec.CloseScope | project10/src/main/Interpreter/Interpreter.java:108-111 | closing keeps the held scope well formed; its effect is stated by the same two lemmas |
| InterpreterSpec.SwitchIfNeeded | project10/src/main/Interpreter/Interpreter.java:91-99 | the held scope stays well formed; its effect on the chain is stated by `InterpreterProperties.AcceptKeepsOuterChain` |
| InterpreterSpec.Accept | project10/src/main/Interpreter/Interpreter.java:68-78 | a handler step keeps the depth non-negative and the mode and store as they were; its effect on the depth is stated by `InterpreterProperties.AcceptCountsBraces`, and on the chain by `InterpreterProperties.AcceptKeepsOuterChain` |
| InterpreterSpec.VerifyGlobalStatement | project10/src/main/Interpreter/Interpreter.java:166-172 | no statement changes nothing; an accepted method declaration appends its line number, and any other accepted statement records nothing |
| InterpreterSpec.PreProcessLine | project10/src/main/Interpreter/Interpreter.java:156-163 | one global line keeps the first-pass invariant (counting-only handler, well-formed global scope) and the number of global levels; what it records is stated by `InterpreterProperties.PreProcessStep`, `InterpreterProperties.NestedLinesNotParsed` and `InterpreterProperties.PreProcessRecords` |
| InterpreterSpec.FirstPassFrom | project10/src/main/Interpreter/Interpreter.java:147-153 | the first pass keeps the handler counting only and the global scope at one level; the lines it records are stated by `InterpreterProperties.FirstPassRecords` and `InterpreterProperties.FirstPassExact` |
| InterpreterSpec.FirstPassFromStep | project10/src/main/Interpreter/Interpreter.java:150-151 | the first pass takes the lines one at a time and stops at the first that fails |
| InterpreterSpec.EmptyScope | project10/src/main/Interpreter/Interpreter.java:124 | the new global scope is a single empty level |
| InterpreterSpec.FirstPass | project10/src/main/Interpreter/Interpreter.java:140-153 | the global scope it builds is well formed with a single level; the lines it records are those that `InterpreterProperties.FirstPassDeclarations` and `InterpreterProperties.DeclaredLinesExactly` state |
| InterpreterSpec.SkipUntil | project10/src/main/Interpreter/Interpreter.java:200-204 | the reader never moves back and never passes the end of the file; the line read after it is stated by `InterpreterProperties.SkipThenReadsBound` |
| InterpreterSpec.ReadAt | project10/src/main/Interpreter/Interpreter.java:150 | never moves back or past the end; no line exactly at the end of the file; a line read is the one numbered by the new line number |
| InterpreterSpec.AddParameters | project10/src/main/Interpreter/Interpreter.java:213-215 | adding parameters changes only the innermost scope; the names it binds are stated by `InterpreterProperties.ParametersResolve` |
| InterpreterSpec.InitScopeWithMethodParameters | project10/src/main/Interpreter/Interpreter.java:209-219 | only the innermost scope changes; either failure is reported as `FailedMethodScopeInitialization` at the given line |
| InterpreterSpec.ValidateMethodStatement | project10/src/main/Interpreter/Interpreter.java:254-261 | passes exactly for no statement or a statement that is not a method declaration; otherwise `UnexpectedMethodStatement` at the line |
| InterpreterSpec.VerifyCorrectMethodClosing | project10/src/main/Interpreter/Interpreter.java:246-251 | passes exactly when the previous statement was a return and the last a close scope; otherwise `MissingReturnStatement` at the line |
| InterpreterSpec.MethodLine | project10/src/main/Interpreter/Interpreter.java:230-234 | one body line keeps the handler switching scopes with a valid depth; a parse failure is reported at the line, except a null dereference, which carries no line |
| InterpreterSpec.ProcessMethodFrom | project10/src/main/Interpreter/Interpreter.java:224-243 | a body ends at or after its start and not past the end of the file, with the store only grown; the lines an accepted body ends with are stated by `InterpreterProperties.BodyEndsWithReturn` and `InterpreterProperties.MethodBodyShape` |
| InterpreterSpec.ProcessMethodFromStep | project10/src/main/Interpreter/Interpreter.java:229-238 | a body is read one line at a time: a failing line stops it, and the line that brings the depth to 0 ends it with the closing check |
| InterpreterSpec.MethodPass | project10/src/main/Interpreter/Interpreter.java:187-192 | one method's pass never moves the reader back and only grows the store; `InterpreterProperties.MethodPassIsBody` states that it is the body read after the declaration line, so `InterpreterProperties.MethodBodyShape` applies |
| InterpreterSpec.SecondPassFrom | project10/src/main/Interpreter/Interpreter.java:184-197 | the second pass leaves the global scope's tables as they were; only symbol values, such as shared parameters, may change; each method's part is as `InterpreterSpec.MethodPass` states |
| InterpreterSpec.Interpret | project10/src/main/Interpreter/Interpreter.java:132-135 | a first-pass failure is reported without a line; a success went through the first pass and keeps its global tables; the record and body lemmas are `InterpreterProperties.FirstPassDeclarations` and `InterpreterProperties.MethodPassIsBody`, and `Interpreting.Interpreter.Interpret` is proved equal to it |
| InterpreterProperties.AcceptCountsBraces | project10/src/main/Interpreter/Interpreter.java:68-78 | an opening line adds one to the depth; a closing line takes one off and fails with `MismatchBraces` exactly at depth 0; any other line changes nothing |
| InterpreterProperties.AcceptKeepsOuterChain | project10/src/main/Interpreter/Interpreter.java:91-111 | a counting-only handler never changes its scope; a switching one holds a scope `depth` levels in front of the same outer chain |
| InterpreterProperties.OpenThenCloseRestores | project10/src/main/Interpreter/Interpreter.java:102-111 | an opening line followed by a closing line gives back the held scope |
| InterpreterProperties.NestedLinesNotParsed | project10/src/main/Interpreter/Interpreter.java:158-161 | a line inside a block changes neither the global scope nor the recorded lines |
| InterpreterProperties.PreProcessRecords | project10/src/main/Interpreter/Interpreter.java:156-172 | one line keeps the recorded line numbers increasing, and records only method declarations |
| InterpreterProperties.DeclarationAppended | project10/src/main/Interpreter/Interpreter.java:169-171 | appending the current declaration line keeps the record in file order |
| InterpreterProperties.FirstPassRecords | project10/src/main/Interpreter/Interpreter.java:147-172 | the first pass records, in file order, only lines that declare a method; `InterpreterProperties.FirstPassExact` states that none is missed |
| InterpreterProperties.FirstPassDeclarations | project10/src/main/Interpreter/Interpreter.java:140-153 | the same for the whole file from a fresh global scope, and the record is exactly `DeclaredLines` of the file |
| InterpreterProperties.PreProcessStep | project10/src/main/Interpreter/Interpreter.java:156-172 | one line changes the depth by its braces and appends its line number exactly when it declares a method at depth 0 |
| InterpreterProperties.AgreesBelow | project10/src/main/Interpreter/Interpreter.java:150-151 | a state that changes as one line says keeps agreeing with the lines read: the depth is the brace count so far and the record lists the top-level declarations so far |
| InterpreterProperties.PreProcessAgrees | project10/src/main/Interpreter/Interpreter.java:150-163 | one line of the first pass keeps that agreement |
| InterpreterProperties.FirstPassExact | project10/src/main/Interpreter/Interpreter.java:147-172 | from an agreeing state, the first pass records exactly the declarations at depth 0 of the whole file |
| InterpreterProperties.MarkedMembers | project10/src/main/Interpreter/Interpreter.java:169-171 | a line number is listed exactly when its line is marked |
| InterpreterProperties.MarkedIncreasing | project10/src/main/Interpreter/Interpreter.java:169-171 | the listed line numbers increase |
| InterpreterProperties.DeclaredLinesExactly | project10/src/main/Interpreter/Interpreter.java:147-172 | a line number is recorded exactly when its line declares a method outside every block, and the record is in file order |
| InterpreterProperties.SkipThenReadsBound | project10/src/main/Interpreter/Interpreter.java:189-190 | after skipping up to a later bound, the next read returns the line numbered `bound` |
| InterpreterProperties.ParametersResolve | project10/src/main/Interpreter/Interpreter.java:213-215 | after the parameters are added, each parameter's name resolves to its symbol and every other name resolves as before |
| InterpreterProperties.BodyGetsOrdinalParameters | project10/src/main/Interpreter/Interpreter.java:209-219 | the body gets the parameters of the ordinal-th method of the global method table, in name order; a missing method fails |
| InterpreterProperties.BodyEndsWithReturn | project10/src/main/Interpreter/Interpreter.java:224-251 | the last two lines an accepted body reads are a return statement and then a close-scope statement; a blank or comment line counts as a line without a statement, so it breaks the pair |
| InterpreterProperties.BodyEndsWithReturnStep | project10/src/main/Interpreter/Interpreter.java:229-238 | the inductive step: a line that leaves the body open moves the last two statements along |
| InterpreterProperties.LineKind | project10/src/main/Interpreter/Interpreter.java:233 | a line that parses is classified by its own tokens, whatever the scope |
| InterpreterProperties.MethodBodyShape | project10/src/main/Interpreter/Interpreter.java:224-251 | a body accepted from the line after its declaration has at least two lines: a `return` line and then a closing line |
| InterpreterProperties.MethodPassIsBody | project10/src/main/Interpreter/Interpreter.java:186-192 | a successful method pass from before its declaration line is the body processed from the line after it, with a handler that switches scopes |
| Interpreting.LineReader.constructor | project10/src/main/Interpreter/Interpreter.java:141 | a reader at line number 0 of the file |
| Interpreting.LineReader.ReadLine | project10/src/main/Interpreter/Interpreter.java:150 | the next line and line number; at the end, no line and the count stays |
| Interpreting.ScopeHandler.constructor | project10/src/main/Interpreter/Interpreter.java:41-47 | holds the given scope and mode at depth 0 |
| Interpreting.ScopeHandler.Accept | project10/src/main/Interpreter/Interpreter.java:68-78 | the handler becomes `InterpreterSpec.Accept` of its old state, or fails with its error after the depth was taken below 0 |
| Interpreting.ScopeHandler.SwitchIfNeeded | project10/src/main/Interpreter/Interpreter.java:91-99 | the handler becomes `InterpreterSpec.SwitchIfNeeded` of its old state |
| Interpreting.ScopeHandler.OpenScope | project10/src/main/Interpreter/Interpreter.java:102-105 | the handler becomes `InterpreterSpec.OpenScope` of its old state |
| Interpreting.ScopeHandler.CloseScope | project10/src/main/Interpreter/Interpreter.java:108-111 | the handler becomes `InterpreterSpec.CloseScope` of its old state |
| Interpreting.Interpreter.constructor | project10/src/main/Interpreter/Interpreter.java:122-126 | an empty global scope and no recorded line |
| Interpreting.Interpreter.Interpret | project10/src/main/Interpreter/Interpreter.java:132-135 | from a new interpreter, the outcome and final global scope of `InterpreterSpec.Interpret`: first-pass errors and null dereferences without a line, other second-pass errors with one |
| Interpreting.Interpreter.FirstPass | project10/src/main/Interpreter/Interpreter.java:140-144 | the global scope and recorded lines become those of `FirstPassFrom` from line 0 |
| Interpreting.Interpreter.DoFirstPass | project10/src/main/Interpreter/Interpreter.java:147-153 | the same from the reader's line number |
| Interpreting.Interpreter.FirstPassStep | project10/src/main/Interpreter/Interpreter.java:150-151 | one iteration of the first-pass loop, as one step of `FirstPassFrom` |
| Interpreting.Interpreter.PreProcessLine | project10/src/main/Interpreter/Interpreter.java:156-163 | the handler, global scope and recorded lines become those of `InterpreterSpec.PreProcessLine` |
| Interpreting.Interpreter.VerifyGlobalStatement | project10/src/main/Interpreter/Interpreter.java:166-172 | the recorded lines become those of `InterpreterSpec.VerifyGlobalStatement`, and are unchanged on failure |
| Interpreting.Interpreter.SecondPass | project10/src/main/Interpreter/Interpreter.java:177-181 | the global scope becomes that of `SecondPassFrom` from line 0 |
| Interpreting.Interpreter.DoSecondPass | project10/src/main/Interpreter/Interpreter.java:184-197 | the same from the reader's line number |
| Interpreting.Interpreter.MethodPass | project10/src/main/Interpreter/Interpreter.java:187-192 | the line number and scope that `InterpreterSpec.MethodPass` gives |
| Interpreting.Interpreter.SkipUntil | project10/src/main/Interpreter/Interpreter.java:200-204 | the reader ends at `InterpreterSpec.SkipUntil` of its old line number |
| Interpreting.Interpreter.InitScopeWithMethodParameters | project10/src/main/Interpreter/Interpreter.java:209-219 | the handler's scope becomes that of `InterpreterSpec.InitScopeWithMethodParameters` |
| Interpreting.Interpreter.ProcessMethod | project10/src/main/Interpreter/Interpreter.java:224-243 | the reader's line number and handler's scope become those of `ProcessMethodFrom` |
| Interpreting.Interpreter.ProcessLine | project10/src/main/Interpreter/Interpreter.java:230-234 | one body line as `InterpreterSpec.MethodLine` says, with the same line, or none, on a parse failure |

## Left out

- **File reading.** File reading and `LineNumberReader` are left out. The file is a `seq<string>` of lines, and the reader is a line count in which the end of the file does not count as a line. I/O errors are not modelled.
- **Regular expressions and white space.** The `java.util.regex` engine and `Character.isWhitespace` are not used. Each pattern is a hand-written recognizer:
  - `\w`, `\d` and `\s` are ASCII;
  - `\b` after a keyword is "no word character follows";
  - `.` excludes line terminators;
  - Java white space is an explicit set of characters.
- **Key order.** `String.compareTo` is modelled as lexicographic order on characters. It agrees with UTF-16 code-unit order only for characters of the Basic Multilingual Plane.
- **Errors.** Exception classes and message texts are left out. A failure is an error kind, and the interpreter reports carry an optional line number. First-pass errors carry no line, because `firstPass` does not wrap them. The `MismatchBraces` catch of `doSecondPass` reports at the reader's line.
- **Null dereferences.** These become explicit error kinds:
  - a type with no row in the assignment table;
  - a type with no row in the covariance table;
  - a rule that reads a missing lookahead.

  In a method body these escape the catch of `processMethod`, so they carry no line (`Errors.NullDereference`).
- **`Name`.** A token read as a name has the text "" when it carries no value. This case is unreachable for identifier tokens.
- **The lexer and `Equals`.** The lexer never produces the `Equals`, `Final`, `Double` or `String` kinds; `=` lexes as `Eq`. As a consequence, an assignment statement is never classified from lexed text, and `ParserSpec.ParseFinalVariableDeclaration` is unreachable from `Parse`. Their properties are stated on the rules directly.
- **`StatementType.java`** is not part of this model: its constants are not the ones the logic uses.
- **Parser state.** The `Parser` object holds the token stream its line's `Tokenizer` still has to hand out (`tokens`), not a `Tokenizer` object. `Lexing.Tokenizer.Next` is proved to hand out exactly that stream.
- **The bound scope.** The parser and the interpreter work on the value `Env` of the bound scope, not on `Scope` objects. `Scopes.Scope`'s methods are proved against the same `Env` functions, so update in place through a shared `Scope` is captured only through that correspondence.
- **`ScopeHandler.lastScope`** is not a field. It is always the parent of the held scope, which in an `Env` is the chain without its first level.
- **`getScope` and `getPrev`** are field reads.
- **Return marker.** The `MethodSymbol` return marker is the `VariableSymbol` given to the constructor, and `getReturnType` is a read of that field. In `ParserSpec` a method is only its parameter list.
- **`Parsing.Parser` after a failure.** After a failed rule the cursor and scope are unspecified. The program abandons the line at that point.
- **`Interpreting.Interpreter` after a failure.** After a failed pass its fields are unspecified. The program stops at the first exception.
- **Unused first-pass state.** The scope changes that the first pass's counting-only handler holds are never read by the program, and are not kept.
- **Allocation.** Symbol objects enter the store when they are first put into a table, not when they are created. Before that, no table can reach them.
- **Unreachable catch.** The `SymbolAlreadyExists` catch in `duplicate` cannot fire, because the copied names are distinct and ascending.
- **Control-flow splits.** Some loops and bodies are split into helper methods:
  - The for loop of `doFirstPass` is a `while` loop whose body is `Interpreting.Interpreter.FirstPassStep`.
  - The body of the `processMethod` loop is `Interpreting.Interpreter.ProcessLine`.
  - The parameter loop of `matchParameters` is `Parsing.Parser.MatchArguments`.
  - The `do-while` loops of the parser are loops with a flag.
- **`Interpreting.ScopeHandler.IsGlobalScope`** is a field comparison (`depth == 0`) with no contract of its own. Its use in `processMethod` is proved through `Interpreting.Interpreter.ProcessMethod`.
- **`Token.java`** is the immutable datatype `Tokens.Token`. Its getters are field reads, and `Lexing.Tokenizer.CreateTokenForMatchedPattern` states what is stored.
- **`Tokens.MatchEnd`** states only that a match is non-empty and stays in the line. The exact language of each pattern is stated by `Tokens.IntegerMatch`, `Tokens.StringMatch`, `Tokens.IdentifierMatch` and `Tokens.KeywordBoundary`.
- **`ParserSpec` and `InterpreterSpec`.** A function of these modules whose own contract states only that scopes are kept or the store grows names, in its row above, the `ParserProperties` or `InterpreterProperties` lemma that states what it accepts and what it declares. The `Parsing.Parser` and `Interpreting` methods are proved equal to those functions.
