/** The exceptions the front end raises, as error kinds. Messages and the
    exception class hierarchy are not modelled; a failure is identified by its
    kind (and, for the interpreter, the line it was reported at). */
module Errors {
  import opened Wrappers
  import opened Tokens

  datatype Error =
    // lexer
    | UnknownToken
    // symbol tables
    | SymbolAlreadyExists
    | NoSuchSymbol
    // statement classification
    | UnknownStatement
    // parser cursor; `None` is the "no more tokens expected" case of `end`
    | UnexpectedTokenType(expected: Option<TokenKind>)
    // semantic checks
    | InvalidTokenForAssignment(found: TokenKind)
    | UndeclaredVariableUsage(name: string)
    | UninitializedVariableUsage
    | ContravariantVariableType(validType: TokenKind, actualType: TokenKind)
    | CannotChangeFinalVariable
    | UnexpectedMethodStatement
    | UnexpectedGlobalStatement
    // declarations
    | VariableAlreadyDeclared
    | MethodAlreadyDeclared
    | InvalidMethodParameterDefinition
    // null dereferences in the source: a type with no row in the assignment
    // table, a type with no row in the covariance table, and a rule that reads
    // the lookahead token when the line has none
    | MissingAssignmentRow(varType: TokenKind)
    | MissingCovarianceRow(validType: TokenKind)
    | MissingLookahead
    // interpreter
    | MismatchBraces
    | FailedMethodScopeInitialization
    | MissingReturnStatement

  /** The kinds that are null dereferences in the source: unchecked, so no
      `catch` of the interpreter turns them into a report with a line. */
  predicate NullDereference(e: Error) {
    e.MissingAssignmentRow? || e.MissingCovarianceRow? || e.MissingLookahead?
  }
}
