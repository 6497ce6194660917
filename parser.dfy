/** The parser object: a two-token cursor over the tokens of one line, bound to a
    scope, with one method per grammar rule. Every method is proved to do
    what the matching `ParserSpec` function says: on success the cursor and
    the scope are that function's result, on failure the error is that
    function's error. */
module Parsing {
  import opened Wrappers
  import opened Tokens
  import opened Errors
  import opened SymbolTables
  import opened Symbols
  import opened Lexing
  import opened Environments
  import opened Statements
  import opened Semantics
  import opened ParserSpec

  class Parser {
    /** What the `Tokenizer` of the current line has still to hand out. */
    var tokens: TokenStream
    var scope: Env
    var currToken: Option<Token>
    var nextToken: Option<Token>

    ghost predicate Valid()
      reads this
    {
      WellFormed(scope)
    }

    /** The parser as a `ParserSpec` state. */
    ghost function State(): PState
      reads this
      requires Valid()
    {
      PState(currToken, nextToken, tokens, scope)
    }

    /** A rule ended as `g` says: in `g`'s state on success, with `g`'s error on failure. */
    ghost predicate Ends(o: Outcome<Error>, g: Result<PState, Error>)
      reads this
    {
      Valid() && if g.Success? then o.Pass? && State() == g.value else o == Fail(g.error)
    }

    /** As `Ends`, for a rule that also yields a value. */
    ghost predicate EndsWith<T>(r: Result<T, Error>, g: Result<(PState, T), Error>)
      reads this
    {
      Valid() && if g.Success? then r == Success(g.value.1) && State() == g.value.0 else r == Failure(g.error)
    }

    /** A parser bound to `scope`, before any line is given to it. */
    constructor (scope: Env)
      requires WellFormed(scope)
      ensures this.scope == scope && tokens == TokenStream([], false) && currToken.None? && nextToken.None?
    {
      this.scope := scope;
      tokens := TokenStream([], false);
      currToken, nextToken := None, None;
    }

    // ---- the cursor ----------------------------------------------------------------------

    method GetNextToken() returns (r: Result<Option<Token>, Error>)
      modifies this`tokens
      ensures var g := ParserSpec.GetNextToken(old(tokens));
        if g.Success? then r == Success(g.value.0) && tokens == g.value.1 else r == Failure(g.error)
    {
      if tokens.tokens != [] {
        r := Success(Some(tokens.tokens[0]));
        tokens := TokenStream(tokens.tokens[1..], tokens.failsAfter);
      } else if tokens.failsAfter {
        r := Failure(UnknownToken);
      } else {
        r := Success(None);
      }
    }

    method NextTokenIs(k: TokenKind) returns (r: Result<bool, Error>)
      requires Valid()
      modifies this
      ensures Valid()
      ensures var st := old(State());
        if !NextIs(st, k) then r == Success(false) && State() == st
        else if Advance(st).Success? then r == Success(true) && State() == Advance(st).value
        else r == Failure(Advance(st).error)
    {
      r := Success(false);
      if nextToken.Some? && nextToken.value.kind == k {
        currToken := nextToken;
        var t := GetNextToken();
        if t.Failure? {
          r := Failure(t.error);
        } else {
          nextToken := t.value;
          r := Success(true);
        }
      }
    }

    method Expect(k: TokenKind) returns (o: Outcome<Error>)
      requires Valid()
      modifies this
      ensures Ends(o, ParserSpec.Expect(old(State()), k))
    {
      var b := NextTokenIs(k);
      if b.Failure? {
        return Fail(b.error);
      }
      if !b.value {
        return Fail(UnexpectedTokenType(Some(k)));
      }
      return Pass;
    }

    method End() returns (o: Outcome<Error>)
      requires Valid()
      ensures Ends(o, ParserSpec.End(State()))
    {
      if nextToken.Some? {
        return Fail(UnexpectedTokenType(None));
      }
      return Pass;
    }

    /** `initParser`: the line's token stream, and its first two tokens. */
    method InitParser(stream: TokenStream) returns (o: Outcome<Error>)
      requires WellFormed(scope)
      modifies this
      ensures Ends(o, ParserSpec.InitParser(old(scope), stream))
    {
      tokens := stream;
      var c := GetNextToken();
      if c.Failure? {
        return Fail(c.error);
      }
      currToken := c.value;
      var n := GetNextToken();
      if n.Failure? {
        return Fail(n.error);
      }
      nextToken := n.value;
      return Pass;
    }

    /** `parse`: the statement kind of the line, `None` when it has no tokens;
        the bound scope afterwards is the one `ParserSpec.ParseLine` gives. */
    method Parse(line: string) returns (r: Result<Option<StatementKind>, Error>)
      requires WellFormed(scope)
      modifies this
      ensures Valid()
      ensures var g := ParseLine(old(scope), line);
        if g.Success? then r == Success(g.value.0) && scope == g.value.1 else r == Failure(g.error)
    {
      var o := InitParser(Lex(line));
      if o.Fail? {
        return Failure(o.error);
      }
      if currToken.None? {
        return Success(None);
      }
      var statement := GetStatement(currToken.value, nextToken);
      if statement.Failure? {
        return Failure(statement.error);
      }
      o := Dispatch(statement.value);
      r := if o.Fail? then Failure(o.error) else Success(Some(statement.value));
    }

    /** The `switch` of `parse` over the statement kind. */
    method Dispatch(statement: StatementKind) returns (o: Outcome<Error>)
      requires Valid() && currToken.Some?
      modifies this
      ensures Ends(o, ParserSpec.Dispatch(statement, old(State())))
    {
      match statement
      case VariableDeclaration => o := ParseVariableDeclaration();
      case Conditional => o := ParseConditional();
      case Assignment => o := ParseAssignment();
      case ReturnStatement =>
        o := Expect(Semicolon);
        if o.Pass? {
          o := End();
        }
      case MethodCalling => o := ParseMethodCalling();
      case CloseScope => o := End();
      case MethodDeclaration => o := ParseSubRoutineDeclaration();
    }

    // ---- method declarations ---------------------------------------------------------------

    method ParseSubRoutineDeclaration() returns (o: Outcome<Error>)
      requires Valid()
      modifies this
      ensures Ends(o, ParserSpec.ParseSubRoutineDeclaration(old(State())))
    {
      var b := NextTokenIs(Id);
      if b.Failure? {
        return Fail(b.error);
      }
      o := Pass;
      if b.value {
        var methodName := Name(currToken);
        if ValidateMethodName(methodName).Pass? {
          o := MethodHeader(methodName);
        }
      }
    }

    /** The rest of a declaration whose name is valid. */
    method MethodHeader(methodName: string) returns (o: Outcome<Error>)
      requires Valid()
      modifies this
      ensures Ends(o, ParserSpec.MethodHeader(old(State()), methodName))
    {
      o := Expect(LParen);
      if o.Fail? {
        return;
      }
      var m := DeclaredParameters();
      if m.Failure? {
        return Fail(m.error);
      }
      o := Expect(LBrace);
      if o.Fail? {
        return;
      }
      o := AddMethodToScope(methodName, m.value);
      if o.Fail? {
        return;
      }
      o := End();
    }

    /** The parameters of a declaration, up to and including `)`. */
    method DeclaredParameters() returns (r: Result<MethodInfo, Error>)
      requires Valid()
      modifies this
      ensures EndsWith(r, ParserSpec.DeclaredParameters(old(State())))
      ensures r.Success? ==> MethodOk(r.value, |scope.store|)
    {
      var b := NextTokenIs(RParen);
      if b.Failure? {
        return Failure(b.error);
      }
      if b.value {
        return Success(MethodInfo([]));
      }
      var m := MethodInfo([]);
      ghost var goal := ParameterList(State(), m);
      while true
        invariant Valid()
        invariant MethodOk(m, |scope.store|) && ParameterList(State(), m) == goal
        decreases Left(State())
      {
        var p := MatchParameter(m);
        if p.Failure? {
          return Failure(p.error);
        }
        m := p.value;
        var c := NextTokenIs(Comma);
        if c.Failure? {
          return Failure(c.error);
        }
        if !c.value {
          break;
        }
      }
      var o := Expect(RParen);
      if o.Fail? {
        return Failure(o.error);
      }
      return Success(m);
    }

    method MatchParameter(m: MethodInfo) returns (r: Result<MethodInfo, Error>)
      requires Valid() && MethodOk(m, |scope.store|)
      modifies this
      ensures EndsWith(r, ParserSpec.MatchParameter(old(State()), m))
    {
      var symbol := ParameterSymbol();
      if symbol.Failure? {
        return Failure(symbol.error);
      }
      var o := Expect(Id);
      if o.Fail? {
        return Failure(o.error);
      }
      r := AddParameterToMethod(m, Name(currToken), symbol.value);
    }

    /** The builder's part of `matchParameter`: `[final]` and the type. */
    method ParameterSymbol() returns (r: Result<VarInfo, Error>)
      requires Valid()
      modifies this
      ensures EndsWith(r, ParserSpec.ParameterSymbol(old(State())))
    {
      var isFinal := NextTokenIs(TokenKind.Final);
      if isFinal.Failure? {
        return Failure(isFinal.error);
      }
      var varType := MatchVariableType();
      if varType.Failure? {
        return Failure(varType.error);
      }
      r := Success(Built(varType.value, if isFinal.value then [Initialized, Attribute.Final] else [Initialized]));
    }

    method AddParameterToMethod(m: MethodInfo, varName: string, info: VarInfo) returns (r: Result<MethodInfo, Error>)
      requires Valid() && MethodOk(m, |scope.store|)
      modifies this
      ensures EndsWith(r, ParserSpec.AddParameterToMethod(old(State()), m, varName, info))
    {
      if Find(m.params, varName).Some? {
        return Failure(InvalidMethodParameterDefinition);
      }
      var ref := |scope.store|;
      AllocateWellFormed(scope, info);
      scope := Allocate(scope, info).0;
      return Success(MethodInfo(Insert<Ref>(m.params, varName, ref)));
    }

    method MatchVariableType() returns (r: Result<TokenKind, Error>)
      requires Valid()
      modifies this
      ensures EndsWith(r, ParserSpec.MatchVariableType(old(State())))
    {
      ghost var st := State();
      for i := 0 to |VariableTypes|
        invariant Valid() && State() == st
        invariant st.next.Some? ==> st.next.value.kind !in VariableTypes[..i]
      {
        var b := NextTokenIs(VariableTypes[i]);
        if b.Failure? {
          assert ParserSpec.MatchVariableType(st) == Failure(b.error);
          return Failure(b.error);
        }
        if b.value {
          assert ParserSpec.MatchVariableType(st) == Success((State(), VariableTypes[i]));
          return Success(VariableTypes[i]);
        }
      }
      assert VariableTypes[..|VariableTypes|] == VariableTypes;
      return Failure(InvalidMethodParameterDefinition);
    }

    method AddMethodToScope(methodName: string, m: MethodInfo) returns (o: Outcome<Error>)
      requires Valid() && MethodOk(m, |scope.store|)
      modifies this
      ensures Ends(o, ParserSpec.AddMethodToScope(old(State()), methodName, m))
    {
      var added := AddMethod(scope, methodName, m);
      if added.Failure? {
        return Fail(MethodAlreadyDeclared);
      }
      AddMethodWellFormed(scope, methodName, m);
      scope := added.value;
      return Pass;
    }

    // ---- method calls ----------------------------------------------------------------------

    method ParseMethodCalling() returns (o: Outcome<Error>)
      requires Valid()
      modifies this
      ensures Ends(o, ParserSpec.ParseMethodCalling(old(State())))
    {
      var methodName := Name(currToken);
      o := Expect(LParen);
      if o.Fail? {
        return;
      }
      o := MatchParameters(methodName);
      if o.Fail? {
        return;
      }
      o := Expect(RParen);
      if o.Fail? {
        return;
      }
      o := Expect(Semicolon);
      if o.Fail? {
        return;
      }
      o := End();
    }

    /** One argument per parameter of the called method, in its table's order. */
    method MatchParameters(methodName: string) returns (o: Outcome<Error>)
      requires Valid()
      modifies this
      ensures Ends(o, ParserSpec.MatchParameters(old(State()), methodName))
    {
      var m := LookupMethod(scope, methodName);
      if m.Failure? {
        return Fail(m.error);
      }
      LookupMethodOk(scope, methodName);
      o := MatchArguments(m.value.params);
    }

    /** The loop over the called method's parameters, in its table's order:
        one operand each, with a comma between consecutive ones. */
    method MatchArguments(params: seq<(string, Ref)>) returns (o: Outcome<Error>)
      requires Valid() && RefsBelow(params, |scope.store|)
      modifies this
      ensures Ends(o, ParserSpec.MatchArguments(old(State()), params))
    {
      ghost var goal := ParserSpec.MatchArguments(State(), params);
      var i := 0;
      o := Pass;
      while i < |params|
        invariant Valid() && scope == old(scope) && i <= |params|
        invariant ParserSpec.MatchArguments(State(), params[i..]) == goal && o.Pass?
      {
        o := MatchOperand(scope.store[params[i].1].varType);
        if o.Fail? {
          break;
        }
        if i + 1 < |params| {
          o := Expect(Comma);
          if o.Fail? {
            break;
          }
        }
        assert params[i..][1..] == params[i + 1..];
        i := i + 1;
      }
    }

    // ---- assignments -----------------------------------------------------------------------

    method ParseAssignment() returns (o: Outcome<Error>)
      requires Valid()
      modifies this
      ensures Ends(o, ParserSpec.ParseAssignment(old(State())))
    {
      var ref := GetVariableIfDeclared(scope, Name(currToken));
      if ref.Failure? {
        return Fail(ref.error);
      }
      LookupVariableInStore(scope, Name(currToken));
      o := Expect(Equals);
      if o.Fail? {
        return;
      }
      o := MatchExpression(ref.value);
      if o.Fail? {
        return;
      }
      o := Expect(Semicolon);
      if o.Fail? {
        return;
      }
      o := End();
    }

    method MatchExpression(ref: Ref) returns (o: Outcome<Error>)
      requires Valid() && ref < |scope.store|
      modifies this
      ensures Ends(o, ParserSpec.MatchExpression(old(State()), ref))
    {
      var info := scope.store[ref];
      o := RequireNonFinal(info);
      if o.Fail? {
        return;
      }
      o := MatchAssignmentTokenType(info.varType);
      if o.Fail? {
        return;
      }
      o := VerifyAssignmentIfNecessary(info);
      if o.Fail? {
        return;
      }
      UpdateWellFormed(scope, ref, info.Toggle(Initialized));
      scope := Update(scope, ref, info.Toggle(Initialized));
    }

    method VerifyAssignmentIfNecessary(info: VarInfo) returns (o: Outcome<Error>)
      requires Valid()
      ensures o == ParserSpec.VerifyAssignmentIfNecessary(State(), info)
    {
      o := Pass;
      if currToken.Some? && currToken.value.kind == Id {
        o := VerifyAssignment(scope, info, Name(currToken));
      }
    }

    // ---- conditions ------------------------------------------------------------------------

    method ParseConditional() returns (o: Outcome<Error>)
      requires Valid()
      modifies this
      ensures Ends(o, ParserSpec.ParseConditional(old(State())))
    {
      o := Expect(LParen);
      if o.Fail? {
        return;
      }
      ghost var goal := Conditions(State());
      while true
        invariant Valid() && Conditions(State()) == goal
        decreases Left(State())
      {
        o := MatchCondition();
        if o.Fail? {
          return;
        }
        var and := NextTokenIs(And);
        if and.Failure? {
          return Fail(and.error);
        }
        if !and.value {
          var or := NextTokenIs(Or);
          if or.Failure? {
            return Fail(or.error);
          }
          if !or.value {
            break;
          }
        }
      }
      o := Expect(RParen);
      if o.Fail? {
        return;
      }
      o := Expect(LBrace);
      if o.Fail? {
        return;
      }
      o := End();
    }

    method MatchCondition() returns (o: Outcome<Error>)
      requires Valid()
      modifies this
      ensures Ends(o, ParserSpec.MatchCondition(old(State())))
    {
      o := MatchOperand(Boolean);
    }

    /** The two checks `matchCondition` and `matchParameters` make of an
        operand: its token kind, then the usage of an identifier. */
    method MatchOperand(varType: TokenKind) returns (o: Outcome<Error>)
      requires Valid()
      modifies this
      ensures Ends(o, ParserSpec.MatchOperand(old(State()), varType))
    {
      o := MatchAssignmentTokenType(varType);
      if o.Fail? {
        return;
      }
      o := VerifyUsageIfNecessary(varType);
    }

    // ---- variable declarations -------------------------------------------------------------

    method ParseVariableDeclaration() returns (o: Outcome<Error>)
      requires Valid() && currToken.Some?
      modifies this
      ensures Ends(o, ParserSpec.ParseVariableDeclaration(old(State())))
    {
      if currToken.value.kind == TokenKind.Final {
        if nextToken.None? {
          return Fail(MissingLookahead);
        }
        o := ParseFinalVariableDeclaration(nextToken.value.kind);
      } else {
        o := ParseNonFinalVariableDeclaration(currToken.value.kind);
      }
    }

    method ParseFinalVariableDeclaration(varType: TokenKind) returns (o: Outcome<Error>)
      requires Valid()
      modifies this
      ensures Ends(o, ParserSpec.ParseFinalVariableDeclaration(old(State()), varType))
    {
      o := Expect(varType);
      if o.Fail? {
        return;
      }
      o := FinalDeclarators(varType);
      if o.Fail? {
        return;
      }
      o := Expect(Semicolon);
      if o.Fail? {
        return;
      }
      o := End();
    }

    /** The declaration's `do ... while (nextTokenIs(COMMA))` loop. */
    method FinalDeclarators(varType: TokenKind) returns (o: Outcome<Error>)
      requires Valid()
      modifies this
      ensures Ends(o, ParserSpec.FinalDeclarators(old(State()), varType))
    {
      ghost var goal := ParserSpec.FinalDeclarators(State(), varType);
      while true
        invariant Valid() && ParserSpec.FinalDeclarators(State(), varType) == goal
        decreases Left(State())
      {
        o := FinalDeclarator(varType);
        if o.Fail? {
          break;
        }
        var comma := NextTokenIs(Comma);
        if comma.Failure? {
          o := Fail(comma.error);
          break;
        }
        if !comma.value {
          break;
        }
      }
    }

    /** One pass of the declaration's loop: `expect(ID)`, then the value. */
    method FinalDeclarator(varType: TokenKind) returns (o: Outcome<Error>)
      requires Valid()
      modifies this
      ensures Ends(o, ParserSpec.FinalDeclarator(old(State()), varType))
    {
      o := Expect(Id);
      if o.Fail? {
        return;
      }
      o := MatchAssignment(varType);
    }

    method MatchAssignment(varType: TokenKind) returns (o: Outcome<Error>)
      requires Valid()
      modifies this
      ensures Ends(o, ParserSpec.MatchAssignment(old(State()), varType))
    {
      var varName := Name(currToken);
      o := Expect(Equals);
      if o.Fail? {
        return;
      }
      o := AddToScopeIfSemanticallyCorrect(varName, Built(varType, [Attribute.Final, Initialized]));
    }

    method ParseNonFinalVariableDeclaration(varType: TokenKind) returns (o: Outcome<Error>)
      requires Valid()
      modifies this
      ensures Ends(o, ParserSpec.ParseNonFinalVariableDeclaration(old(State()), varType))
    {
      o := NonFinalDeclarators(varType);
      if o.Fail? {
        return;
      }
      o := Expect(Semicolon);
      if o.Fail? {
        return;
      }
      o := End();
    }

    /** The declaration's `do ... while (nextTokenIs(COMMA))` loop. */
    method NonFinalDeclarators(varType: TokenKind) returns (o: Outcome<Error>)
      requires Valid()
      modifies this
      ensures Ends(o, ParserSpec.NonFinalDeclarators(old(State()), varType))
    {
      ghost var goal := ParserSpec.NonFinalDeclarators(State(), varType);
      while true
        invariant Valid() && ParserSpec.NonFinalDeclarators(State(), varType) == goal
        decreases Left(State())
      {
        o := NonFinalDeclarator(varType);
        if o.Fail? {
          break;
        }
        var comma := NextTokenIs(Comma);
        if comma.Failure? {
          o := Fail(comma.error);
          break;
        }
        if !comma.value {
          break;
        }
      }
    }

    /** One pass of the declaration's loop: `expect(ID)`, then the optional value. */
    method NonFinalDeclarator(varType: TokenKind) returns (o: Outcome<Error>)
      requires Valid()
      modifies this
      ensures Ends(o, ParserSpec.NonFinalDeclarator(old(State()), varType))
    {
      o := Expect(Id);
      if o.Fail? {
        return;
      }
      o := MatchOptionalAssignment(Name(currToken), varType);
    }

    method MatchOptionalAssignment(varName: string, varType: TokenKind) returns (o: Outcome<Error>)
      requires Valid()
      modifies this
      ensures Ends(o, ParserSpec.MatchOptionalAssignment(old(State()), varName, varType))
    {
      var equals := NextTokenIs(Equals);
      if equals.Failure? {
        return Fail(equals.error);
      }
      if equals.value {
        o := AddToScopeIfSemanticallyCorrect(varName, Built(varType, [Initialized]));
      } else {
        o := AddVariableToScope(varName, Built(varType, []));
      }
    }

    method AddToScopeIfSemanticallyCorrect(varName: string, info: VarInfo) returns (o: Outcome<Error>)
      requires Valid()
      modifies this
      ensures Ends(o, ParserSpec.AddToScopeIfSemanticallyCorrect(old(State()), varName, info))
    {
      o := MatchAssignmentTokenType(info.varType);
      if o.Fail? {
        return;
      }
      o := VerifyUsageIfNecessary(info.varType);
      if o.Fail? {
        return;
      }
      o := AddVariableToScope(varName, info);
    }

    method MatchAssignmentTokenType(varType: TokenKind) returns (o: Outcome<Error>)
      requires Valid()
      modifies this
      ensures Ends(o, ParserSpec.MatchAssignmentTokenType(old(State()), varType))
    {
      if nextToken.None? {
        return Fail(MissingLookahead);
      }
      var k := VerifyAssignmentTokenType(varType, nextToken.value.kind);
      if k.Failure? {
        return Fail(k.error);
      }
      o := Expect(k.value);
    }

    method AddVariableToScope(varName: string, info: VarInfo) returns (o: Outcome<Error>)
      requires Valid()
      modifies this
      ensures Ends(o, ParserSpec.AddVariableToScope(old(State()), varName, info))
    {
      var ref := |scope.store|;
      AllocateWellFormed(scope, info);
      var grown := Allocate(scope, info).0;
      var added := AddVariable(grown, varName, ref);
      if added.Failure? {
        return Fail(VariableAlreadyDeclared);
      }
      AddVariableWellFormed(grown, varName, ref);
      scope := added.value;
      return Pass;
    }

    method VerifyUsageIfNecessary(varType: TokenKind) returns (o: Outcome<Error>)
      requires Valid()
      ensures o == ParserSpec.VerifyUsageIfNecessary(State(), varType)
    {
      o := Pass;
      if currToken.Some? && currToken.value.kind == Id {
        o := VerifyVariableUsage(scope, varType, Name(currToken));
      }
    }
  }
}
