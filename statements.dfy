/** Statement kinds and the classifier that picks one from the first two tokens
    of a line. */
module Statements {
  import opened Wrappers
  import opened Tokens
  import opened Errors

  /** The statement kinds the classifier, the legality tables and the
      interpreter refer to. */
  datatype StatementKind =
    | VariableDeclaration
    | Conditional
    | Assignment
    | ReturnStatement
    | MethodCalling
    | CloseScope
    | MethodDeclaration

  /** `getStatement`, with the second `case ID` label as the one that applies:
      an identifier followed by `=` is an assignment, followed by `(` a call,
      and followed by anything else (or by nothing) falls through to the
      closing-brace case. */
  function GetStatement(first: Token, second: Option<Token>): (r: Result<StatementKind, Error>)
    ensures r.Failure? ==> r.error == UnknownStatement
    ensures r.Success? && (r.value == Assignment || r.value == MethodCalling) ==> first.kind == Id && second.Some?
  {
    match first.kind
    case Int | Boolean | Char => Success(VariableDeclaration)
    case Return => Success(ReturnStatement)
    case While | If => Success(Conditional)
    case Void => Success(MethodDeclaration)
    case Id =>
      if second.Some? && second.value.kind == Equals then Success(Assignment)
      else if second.Some? && second.value.kind == LParen then Success(MethodCalling)
      else Success(CloseScope)
    case RBrace => Success(CloseScope)
    case _ => Failure(UnknownStatement)
  }

  /** `getStatement` with the first `case ID` label as the one that applies:
      every line starting with an identifier is a variable declaration. */
  function GetStatementIdAsDeclaration(first: Token, second: Option<Token>): (r: Result<StatementKind, Error>)
    ensures first.kind == Id ==> r == Success(VariableDeclaration)
    ensures first.kind != Id ==> r == GetStatement(first, second)
  {
    if first.kind == Id then Success(VariableDeclaration) else GetStatement(first, second)
  }

  /** The first token kinds a line may start with. */
  predicate Classifiable(k: TokenKind) {
    k in {Int, Boolean, Char, Return, While, If, Void, Id, RBrace}
  }

  /** Exactly the lines starting with an unlisted kind are refused. */
  lemma UnknownStatements(first: Token, second: Option<Token>)
    ensures GetStatement(first, second).Failure? <==> !Classifiable(first.kind)
    ensures GetStatement(first, second).Failure? ==> GetStatement(first, second).error == UnknownStatement
  {
  }

  /** The kinds decided by the first token alone, read backwards. */
  lemma FirstTokenKinds(first: Token, second: Option<Token>)
    ensures GetStatement(first, second) == Success(VariableDeclaration) <==> first.kind in {Int, Boolean, Char}
    ensures GetStatement(first, second) == Success(ReturnStatement) <==> first.kind == Return
    ensures GetStatement(first, second) == Success(Conditional) <==> first.kind in {While, If}
    ensures GetStatement(first, second) == Success(MethodDeclaration) <==> first.kind == Void
  {
  }

  /** The kinds that depend on the second token, read backwards. */
  lemma SecondTokenKinds(first: Token, second: Option<Token>)
    ensures GetStatement(first, second) == Success(Assignment) <==>
      first.kind == Id && second.Some? && second.value.kind == Equals
    ensures GetStatement(first, second) == Success(MethodCalling) <==>
      first.kind == Id && second.Some? && second.value.kind == LParen
    ensures GetStatement(first, second) == Success(CloseScope) <==>
      first.kind == RBrace || (first.kind == Id && !(second.Some? && second.value.kind in {Equals, LParen}))
  {
  }

  /** Only a line starting with an identifier looks at its second token. */
  lemma SecondTokenMattersOnlyAfterId(first: Token, second: Option<Token>, other: Option<Token>)
    requires first.kind != Id
    ensures GetStatement(first, second) == GetStatement(first, other)
  {
  }

  /** A line starting with `final`, `double` or `String` is never classified,
      so the final-declaration rule is not reached from a statement. */
  lemma UnclassifiedDeclarations(first: Token, second: Option<Token>)
    requires first.kind in {Final, Double, String}
    ensures GetStatement(first, second) == Failure(UnknownStatement)
    ensures GetStatementIdAsDeclaration(first, second) == Failure(UnknownStatement)
  {
  }
}
