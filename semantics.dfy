/** The semantic analyzer: fixed rule tables and the checks that read (and
    never change) the scope chain a parser is bound to. */
module Semantics {
  import opened Wrappers
  import opened Tokens
  import opened Errors
  import opened Symbols
  import opened Environments
  import opened Statements

  /** `assignmentMap`: the token kinds that may start the value assigned to a
      variable of the given type. Only three types have a row. */
  function AssignmentRow(varType: TokenKind): (r: Option<seq<TokenKind>>)
    ensures r.Some? <==> varType == Int || varType == Boolean || varType == StringConstant
    ensures r.Some? ==> Id in r.value
  {
    match varType
    case Int => Some([Int, Id])
    case Boolean => Some([Int, True, False, Id])
    case StringConstant => Some([StringConstant, Id])
    case _ => None
  }

  /** `covariantTypeMap`: the variable types a value of the given type may be
      taken from. */
  function CovariantRow(validType: TokenKind): (r: Option<seq<TokenKind>>)
    ensures r.Some? <==> validType in VariableTypes
    ensures r.Some? ==> validType in r.value && forall t :: t in r.value ==> t in VariableTypes
  {
    match validType
    case Int => Some([Int])
    case Double => Some([Int, Double])
    case Boolean => Some([Int, Double, Boolean])
    case String => Some([String])
    case Char => Some([Char])
    case _ => None
  }

  /** `validMethodStatements` */
  const MethodStatements: seq<StatementKind> :=
    [VariableDeclaration, Conditional, Assignment, ReturnStatement, MethodCalling, CloseScope]

  /** `validGlobalStatements` */
  const GlobalStatements: seq<StatementKind> := [MethodDeclaration, VariableDeclaration, Assignment]

  /** `variableTypes`, in the order the parameter rule tries them. */
  const VariableTypes: seq<TokenKind> := [Int, Double, Boolean, Char, String]

  /** A variable of type `actual` may be used where `validType` is expected. */
  predicate Covariant(validType: TokenKind, actual: TokenKind)
    ensures Covariant(validType, actual) ==> validType in VariableTypes && actual in VariableTypes
    ensures actual == validType && validType in VariableTypes ==> Covariant(validType, actual)
  {
    CovariantRow(validType).Some? && actual in CovariantRow(validType).value
  }

  /** `verifyAssignmentTokenType`: the found kind when the type's row lists it. */
  function VerifyAssignmentTokenType(varType: TokenKind, found: TokenKind): (r: Result<TokenKind, Error>)
    ensures r.Success? <==> AssignmentRow(varType).Some? && found in AssignmentRow(varType).value
    ensures r.Success? ==> r.value == found
    ensures r.Failure? ==> r.error == (if AssignmentRow(varType).None? then MissingAssignmentRow(varType) else InvalidTokenForAssignment(found))
  {
    match AssignmentRow(varType)
    case None => Failure(MissingAssignmentRow(varType))
    case Some(row) => if found in row then Success(found) else Failure(InvalidTokenForAssignment(found))
  }

  /** `getVariableIfDeclared`: the innermost binding of the name. */
  function GetVariableIfDeclared(env: Env, name: string): (r: Result<Ref, Error>)
    ensures r.Success? <==> LookupVariable(env, name).Success?
    ensures r.Success? ==> r.value == LookupVariable(env, name).value
    ensures r.Failure? ==> r.error == UndeclaredVariableUsage(name)
  {
    match LookupVariable(env, name)
    case Success(ref) => Success(ref)
    case Failure(_) => Failure(UndeclaredVariableUsage(name))
  }

  /** The value of a declared name. */
  function ValueOf(env: Env, name: string): VarInfo
    requires WellFormed(env) && LookupVariable(env, name).Success?
  {
    LookupVariableInStore(env, name);
    env.store[LookupVariable(env, name).value]
  }

  /** `requireNonFinal` */
  function RequireNonFinal(info: VarInfo): (o: Outcome<Error>)
    ensures o.Fail? <==> info.IsFinal()
    ensures o.Fail? ==> o.error == CannotChangeFinalVariable
  {
    if info.IsFinal() then Fail(CannotChangeFinalVariable) else Pass
  }

  /** `verifyVariableUsage`: the name must be declared, then initialized, then
      of a type covariant with `validType`; the first check that fails decides
      the error. */
  function VerifyVariableUsage(env: Env, validType: TokenKind, name: string): (o: Outcome<Error>)
    requires WellFormed(env)
    ensures var declared := LookupVariable(env, name).Success?;
      (o.Pass? <==> declared && ValueOf(env, name).IsInitialized() && Covariant(validType, ValueOf(env, name).varType))
      && (o == Fail(UndeclaredVariableUsage(name)) <==> !declared)
      && (o == Fail(UninitializedVariableUsage) <==> declared && !ValueOf(env, name).IsInitialized())
      && (o == Fail(MissingCovarianceRow(validType)) <==>
            declared && ValueOf(env, name).IsInitialized() && CovariantRow(validType).None?)
      && (o.Fail? && o.error.ContravariantVariableType? <==>
            declared && ValueOf(env, name).IsInitialized() && CovariantRow(validType).Some?
            && !Covariant(validType, ValueOf(env, name).varType))
      && (o.Fail? && o.error.ContravariantVariableType? ==>
            o.error == ContravariantVariableType(validType, ValueOf(env, name).varType))
  {
    match GetVariableIfDeclared(env, name)
    case Failure(e) => Fail(e)
    case Success(_) =>
      var info := ValueOf(env, name);
      if !info.IsInitialized() then Fail(UninitializedVariableUsage)
      else match CovariantRow(validType)
        case None => Fail(MissingCovarianceRow(validType))
        case Some(row) => if info.varType in row then Pass else Fail(ContravariantVariableType(validType, info.varType))
  }

  /** `verifyAssignment`: a final target is refused before the value is looked at. */
  function VerifyAssignment(env: Env, assignTo: VarInfo, name: string): (o: Outcome<Error>)
    requires WellFormed(env)
    ensures assignTo.IsFinal() ==> o == Fail(CannotChangeFinalVariable)
    ensures o.Pass? <==> !assignTo.IsFinal() && VerifyVariableUsage(env, assignTo.varType, name).Pass?
  {
    match RequireNonFinal(assignTo)
    case Fail(e) => Fail(e)
    case Pass => VerifyVariableUsage(env, assignTo.varType, name)
  }

  /** `verifyMethodStatement`: every statement kind but a method declaration. */
  function VerifyMethodStatement(statement: StatementKind): (o: Outcome<Error>)
    ensures o.Pass? <==> statement != MethodDeclaration
    ensures o.Fail? ==> o.error == UnexpectedMethodStatement
  {
    MethodStatementsComplete(statement);
    if statement in MethodStatements then Pass else Fail(UnexpectedMethodStatement)
  }

  lemma MethodStatementsComplete(statement: StatementKind)
    ensures statement in MethodStatements <==> statement != MethodDeclaration
  {
    match statement
    case MethodDeclaration =>
    case _ =>
  }

  /** `verifyGlobalStatement`: declarations and assignments only. */
  function VerifyGlobalStatement(statement: StatementKind): (o: Outcome<Error>)
    ensures o.Pass? <==> statement in {MethodDeclaration, VariableDeclaration, Assignment}
    ensures o.Fail? ==> o.error == UnexpectedGlobalStatement
  {
    if statement in GlobalStatements then Pass else Fail(UnexpectedGlobalStatement)
  }

  // ---- properties of the tables ----------------------------------------------------

  /** Every variable type accepts a value of its own type, and the covariance
      rows nest: int within double within boolean. */
  lemma CovarianceNested(t: TokenKind)
    ensures t in VariableTypes ==> Covariant(t, t)
    ensures Covariant(Int, t) <==> t == Int
    ensures Covariant(Int, t) ==> Covariant(Double, t)
    ensures Covariant(Double, t) ==> Covariant(Boolean, t)
    ensures Covariant(Boolean, t) <==> t in {Int, Double, Boolean}
  {
    assert CovariantRow(Int) == Some([Int]) && CovariantRow(Double) == Some([Int, Double]);
    assert CovariantRow(Boolean) == Some([Int, Double, Boolean]);
  }

  /** char and String values mix with nothing else. */
  lemma CovarianceIsolated(t: TokenKind)
    ensures Covariant(Char, t) <==> t == Char
    ensures Covariant(String, t) <==> t == String
  {
    assert CovariantRow(Char) == Some([Char]) && CovariantRow(String) == Some([String]);
  }

  /** Only int, boolean and String constants have an assignment row, so
      checking a value for a double or char variable dereferences nothing. */
  lemma AssignmentRowsPresent(t: TokenKind)
    ensures AssignmentRow(t).Some? <==> t in {Int, Boolean, StringConstant}
    ensures t in VariableTypes ==> (AssignmentRow(t).Some? <==> t in {Int, Boolean})
  {
  }

  /** A method declaration is the one statement legal globally but not inside a
      method; declarations and assignments are legal in both. */
  lemma StatementLegality(s: StatementKind)
    ensures VerifyGlobalStatement(s).Pass? && VerifyMethodStatement(s).Fail? <==> s == MethodDeclaration
    ensures VerifyGlobalStatement(s).Pass? && VerifyMethodStatement(s).Pass? <==> s in {VariableDeclaration, Assignment}
  {
  }
}
