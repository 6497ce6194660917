/** What the parser does to one line, as functions on a value: the two-token
    cursor, every grammar rule with its effect on the bound scope, and the
    statement-level `Parse`. The `Parser` class (module `Parsing`) is proved to
    do exactly this.

    The bound scope is read as an `Environments.Env`. A symbol object created
    by a rule enters the store when it is first put into a table; before that
    no table can reach it, so its earlier changes (the builder's toggles) are
    folded into the value it enters with. */
module ParserSpec {
  import opened Wrappers
  import opened Tokens
  import opened Errors
  import opened SymbolTables
  import opened Symbols
  import opened Lexing
  import opened Environments
  import opened Statements
  import opened Semantics

  /** The parser between two steps: the current token, the lookahead, the
      tokens the tokenizer has not handed out, and the bound scope. */
  datatype PState = PState(curr: Option<Token>, next: Option<Token>, rest: TokenStream, env: Env)

  /** The lookahead and the tokens behind it. */
  function Upcoming(st: PState): seq<Token> {
    (if st.next.Some? then [st.next.value] else []) + st.rest.tokens
  }

  function Left(st: PState): nat {
    |Upcoming(st)|
  }

  /** A missing lookahead means the tokenizer was exhausted without failing. */
  ghost predicate Coherent(st: PState) {
    st.next.None? ==> st.rest == TokenStream([], false)
  }

  /** A state that parsing can reach from `st`: the scope chain keeps its
      length and its outer scopes, the store only grows, and no token is given
      back. */
  ghost predicate Step(st: PState, st': PState) {
    WellFormed(st'.env) && |st'.env.chain| == |st.env.chain| && st'.env.chain[1..] == st.env.chain[1..]
    && |st.env.store| <= |st'.env.store|
    && Left(st') <= Left(st) && (Coherent(st) ==> Coherent(st'))
  }

  /** A step that reads tokens but leaves the bound scope alone. */
  ghost predicate Moved(st: PState, st': PState) {
    st'.env == st.env && Left(st') <= Left(st) && (Coherent(st) ==> Coherent(st'))
  }

  /** The text of an identifier token (`getValue`); the lexer gives every
      identifier its text (see `Lexing.Lex`). */
  function Name(t: Option<Token>): string {
    if t.Some? && t.value.value.Some? then t.value.value.value else ""
  }

  // ---- the cursor ----------------------------------------------------------------------

  /** `getNextToken`: the next token, nothing once the line is exhausted, or the
      tokenizer's `UnknownToken`. */
  function GetNextToken(rest: TokenStream): (r: Result<(Option<Token>, TokenStream), Error>)
    ensures r.Failure? <==> rest.tokens == [] && rest.failsAfter
    ensures r.Failure? ==> r.error == UnknownToken
    ensures r.Success? ==> ((if r.value.0.Some? then [r.value.0.value] else []) + r.value.1.tokens == rest.tokens)
    ensures r.Success? && r.value.0.None? ==> r.value.1 == TokenStream([], false)
  {
    if rest.tokens != [] then Success((Some(rest.tokens[0]), TokenStream(rest.tokens[1..], rest.failsAfter)))
    else if rest.failsAfter then Failure(UnknownToken)
    else Success((None, rest))
  }

  predicate NextIs(st: PState, k: TokenKind) {
    st.next.Some? && st.next.value.kind == k
  }

  /** The successful half of `nextTokenIs`: the lookahead becomes the current
      token and the next token is fetched. */
  function Advance(st: PState): (r: Result<PState, Error>)
    requires st.next.Some?
    ensures r.Failure? <==> st.rest.tokens == [] && st.rest.failsAfter
    ensures r.Failure? ==> r.error == UnknownToken
    ensures r.Success? ==> (r.value.curr == st.next && r.value.env == st.env
      && Upcoming(r.value) == Upcoming(st)[1..] && (Coherent(st) ==> Coherent(r.value)))
  {
    var p :- GetNextToken(st.rest);
    Success(PState(st.next, p.0, p.1, st.env))
  }

  /** `nextTokenIs`: whether the lookahead has kind `k`, and the cursor
      advanced over it when it has. */
  function NextTokenIs(st: PState, k: TokenKind): (r: Result<(bool, PState), Error>)
    ensures r.Success? ==> r.value.0 == NextIs(st, k)
    ensures r.Success? && !r.value.0 ==> r.value.1 == st
    ensures NextIs(st, k) ==> r == (if Advance(st).Success? then Success((true, Advance(st).value)) else Failure(Advance(st).error))
  {
    if NextIs(st, k) then
      var s :- Advance(st);
      Success((true, s))
    else Success((false, st))
  }

  /** `expect`: advance over a lookahead of kind `k`, or fail naming `k`. */
  function Expect(st: PState, k: TokenKind): (r: Result<PState, Error>)
    ensures !NextIs(st, k) ==> r == Failure(UnexpectedTokenType(Some(k)))
    ensures NextIs(st, k) ==> r == Advance(st)
    ensures r.Success? ==> Moved(st, r.value) && Left(r.value) < Left(st) && r.value.curr == st.next
  {
    if NextIs(st, k) then Advance(st) else Failure(UnexpectedTokenType(Some(k)))
  }

  /** `end`: no token may follow. */
  function End(st: PState): (r: Result<PState, Error>)
    ensures r.Success? <==> st.next.None?
    ensures r.Success? ==> r.value == st
    ensures r.Failure? ==> r.error == UnexpectedTokenType(None)
  {
    if st.next.Some? then Failure(UnexpectedTokenType(None)) else Success(st)
  }

  /** `initParser`: the first two tokens of the line. */
  function InitParser(env: Env, s: TokenStream): (r: Result<PState, Error>)
    ensures r.Success? ==> r.value.env == env && Coherent(r.value)
    ensures r.Success? ==> (r.value.curr.None? <==> s.tokens == [])
    ensures r.Success? && r.value.curr.Some? ==> [r.value.curr.value] + Upcoming(r.value) == s.tokens
  {
    var c :- GetNextToken(s);
    var n :- GetNextToken(c.1);
    Success(PState(c.0, n.0, n.1, env))
  }

  // ---- shared steps ------------------------------------------------------------------------

  /** `matchAssignmentTokenType`: the lookahead must be a kind the type's
      assignment row lists; reading the kind of a missing lookahead is the
      source's null dereference. */
  function MatchAssignmentTokenType(st: PState, varType: TokenKind): (r: Result<PState, Error>)
    requires WellFormed(st.env)
    ensures r.Success? ==> Moved(st, r.value) && Left(r.value) < Left(st)
    ensures r.Success? ==> st.next.Some? && AssignmentRow(varType).Some? && st.next.value.kind in AssignmentRow(varType).value
    ensures r.Success? ==> r.value.curr == st.next && Upcoming(r.value) == Upcoming(st)[1..]
  {
    if st.next.None? then Failure(MissingLookahead)
    else
      var k :- VerifyAssignmentTokenType(varType, st.next.value.kind);
      Expect(st, k)
  }

  /** `verifyUsageIfNecessary`: an identifier just matched must be usable as
      a `varType` value; any other token needs nothing. */
  function VerifyUsageIfNecessary(st: PState, varType: TokenKind): (o: Outcome<Error>)
    requires WellFormed(st.env)
    ensures var name := Name(st.curr);
      o.Pass? <==> (st.curr.None? || st.curr.value.kind != Id
        || (LookupVariable(st.env, name).Success? && ValueOf(st.env, name).IsInitialized()
            && Covariant(varType, ValueOf(st.env, name).varType)))
  {
    if st.curr.Some? && st.curr.value.kind == Id then VerifyVariableUsage(st.env, varType, Name(st.curr)) else Pass
  }

  /** `addVariableToScope`: a new symbol with the given value enters the
      innermost scope; a name the innermost scope holds is refused. */
  function AddVariableToScope(st: PState, name: string, info: VarInfo): (r: Result<PState, Error>)
    requires WellFormed(st.env)
    ensures r.Success? ==> Step(st, r.value)
    ensures r.Failure? <==> Find(st.env.chain[0].vars, name).Some?
    ensures r.Failure? ==> r.error == VariableAlreadyDeclared
    ensures r.Success? ==> (r.value.curr == st.curr && r.value.next == st.next && r.value.rest == st.rest
      && r.value.env == AddVariable(Allocate(st.env, info).0, name, |st.env.store|).value)
  {
    var (env1, ref) := Allocate(st.env, info);
    AllocateWellFormed(st.env, info);
    match AddVariable(env1, name, ref)
    case Failure(_) => Failure(VariableAlreadyDeclared)
    case Success(env2) =>
      AddVariableWellFormed(env1, name, ref);
      Success(st.(env := env2))
  }

  /** `addToScopeIfSemanticallyCorrect`: the initial value is checked (token
      kind, then usage of an identifier) before the variable is added. */
  function AddToScopeIfSemanticallyCorrect(st: PState, name: string, info: VarInfo): (r: Result<PState, Error>)
    requires WellFormed(st.env)
    ensures r.Success? ==> Step(st, r.value) && Left(r.value) < Left(st)
  {
    var s1 :- MatchAssignmentTokenType(st, info.varType);
    var o := VerifyUsageIfNecessary(s1, info.varType);
    if o.Fail? then Failure(o.error) else AddVariableToScope(s1, name, info)
  }

  // ---- variable declarations -------------------------------------------------------------------

  /** The value a declared variable starts with: the builder's type with the
      attributes toggled on in the given order. */
  function Built(varType: TokenKind, attrs: seq<Attribute>): VarInfo
    decreases |attrs|
  {
    if attrs == [] then VarInfo(varType, 0) else Built(varType, attrs[..|attrs| - 1]).Toggle(attrs[|attrs| - 1])
  }

  /** `matchOptionalAssignment`: with `=` the variable starts initialized and
      its value is checked; without, it is added uninitialized. */
  function MatchOptionalAssignment(st: PState, name: string, varType: TokenKind): (r: Result<PState, Error>)
    requires WellFormed(st.env)
    ensures r.Success? ==> Step(st, r.value)
  {
    if NextIs(st, Equals) then
      var s1 :- Advance(st);
      AddToScopeIfSemanticallyCorrect(s1, name, Built(varType, [Initialized]))
    else AddVariableToScope(st, name, Built(varType, []))
  }

  /** One declarator of a non-final declaration: the name, then its optional value. */
  function NonFinalDeclarator(st: PState, varType: TokenKind): (r: Result<PState, Error>)
    requires WellFormed(st.env)
    ensures r.Success? ==> Step(st, r.value) && Left(r.value) < Left(st)
  {
    var s1 :- Expect(st, Id);
    MatchOptionalAssignment(s1, Name(s1.curr), varType)
  }

  /** The `do ... while (nextTokenIs(COMMA))` loop of a non-final declaration. */
  function NonFinalDeclarators(st: PState, varType: TokenKind): (r: Result<PState, Error>)
    requires WellFormed(st.env)
    ensures r.Success? ==> Step(st, r.value) && Left(r.value) < Left(st)
    decreases Left(st)
  {
    var s2 :- NonFinalDeclarator(st, varType);
    if NextIs(s2, Comma) then
      var s3 :- Advance(s2);
      NonFinalDeclarators(s3, varType)
    else Success(s2)
  }

  /** `parseNonFinalVariableDeclaration` */
  function ParseNonFinalVariableDeclaration(st: PState, varType: TokenKind): (r: Result<PState, Error>)
    requires WellFormed(st.env)
    ensures r.Success? ==> Step(st, r.value) && r.value.next.None?
  {
    var s1 :- NonFinalDeclarators(st, varType);
    var s2 :- Expect(s1, Semicolon);
    End(s2)
  }

  /** `matchAssignment`: a final variable must be given a value. */
  function MatchAssignment(st: PState, varType: TokenKind): (r: Result<PState, Error>)
    requires WellFormed(st.env)
    ensures r.Success? ==> Step(st, r.value) && Left(r.value) < Left(st)
  {
    var name := Name(st.curr);
    var s1 :- Expect(st, Equals);
    AddToScopeIfSemanticallyCorrect(s1, name, Built(varType, [Attribute.Final, Initialized]))
  }

  /** One declarator of a final declaration: the name and its value. */
  function FinalDeclarator(st: PState, varType: TokenKind): (r: Result<PState, Error>)
    requires WellFormed(st.env)
    ensures r.Success? ==> Step(st, r.value) && Left(r.value) < Left(st)
  {
    var s1 :- Expect(st, Id);
    MatchAssignment(s1, varType)
  }

  /** The `do ... while (nextTokenIs(COMMA))` loop of a final declaration. */
  function FinalDeclarators(st: PState, varType: TokenKind): (r: Result<PState, Error>)
    requires WellFormed(st.env)
    ensures r.Success? ==> Step(st, r.value) && Left(r.value) < Left(st)
    decreases Left(st)
  {
    var s2 :- FinalDeclarator(st, varType);
    if NextIs(s2, Comma) then
      var s3 :- Advance(s2);
      FinalDeclarators(s3, varType)
    else Success(s2)
  }

  /** `parseFinalVariableDeclaration` */
  function ParseFinalVariableDeclaration(st: PState, varType: TokenKind): (r: Result<PState, Error>)
    requires WellFormed(st.env)
    ensures r.Success? ==> Step(st, r.value) && r.value.next.None?
  {
    var s1 :- Expect(st, varType);
    var s2 :- FinalDeclarators(s1, varType);
    var s3 :- Expect(s2, Semicolon);
    End(s3)
  }

  /** `parseVariableDeclaration`: the current token is `final` or the type. */
  function ParseVariableDeclaration(st: PState): (r: Result<PState, Error>)
    requires WellFormed(st.env) && st.curr.Some?
    ensures r.Success? ==> Step(st, r.value) && r.value.next.None?
  {
    if st.curr.value.kind == TokenKind.Final then
      if st.next.None? then Failure(MissingLookahead) else ParseFinalVariableDeclaration(st, st.next.value.kind)
    else ParseNonFinalVariableDeclaration(st, st.curr.value.kind)
  }

  // ---- assignments -----------------------------------------------------------------------------

  /** `verifyAssignmentIfNecessary`: an identifier value must be usable for the target. */
  function VerifyAssignmentIfNecessary(st: PState, assignTo: VarInfo): (o: Outcome<Error>)
    requires WellFormed(st.env)
    ensures st.curr.Some? && st.curr.value.kind == Id && assignTo.IsFinal() ==> o == Fail(CannotChangeFinalVariable)
    ensures var name := Name(st.curr);
      o.Pass? <==> (st.curr.None? || st.curr.value.kind != Id
        || (!assignTo.IsFinal() && LookupVariable(st.env, name).Success? && ValueOf(st.env, name).IsInitialized()
            && Covariant(assignTo.varType, ValueOf(st.env, name).varType)))
  {
    if st.curr.Some? && st.curr.value.kind == Id then VerifyAssignment(st.env, assignTo, Name(st.curr)) else Pass
  }

  /** `matchExpression`: the target must not be final and the value must
      check; then the target's INITIALIZED bit is flipped. */
  function MatchExpression(st: PState, ref: Ref): (r: Result<PState, Error>)
    requires WellFormed(st.env) && ref < |st.env.store|
    ensures r.Success? ==> Step(st, r.value) && Left(r.value) < Left(st)
    ensures r.Success? ==> (!st.env.store[ref].IsFinal()
      && r.value.env == Update(st.env, ref, st.env.store[ref].Toggle(Initialized)))
  {
    var info := st.env.store[ref];
    var o := RequireNonFinal(info);
    if o.Fail? then Failure(o.error)
    else
      var s1 :- MatchAssignmentTokenType(st, info.varType);
      var o' := VerifyAssignmentIfNecessary(s1, info);
      if o'.Fail? then Failure(o'.error)
      else
        UpdateWellFormed(s1.env, ref, info.Toggle(Initialized));
        Success(s1.(env := Update(s1.env, ref, info.Toggle(Initialized))))
  }

  /** `parseAssignment` */
  function ParseAssignment(st: PState): (r: Result<PState, Error>)
    requires WellFormed(st.env)
    ensures r.Success? ==> Step(st, r.value) && r.value.next.None?
    ensures r.Success? ==> LookupVariable(st.env, Name(st.curr)).Success?
    ensures r.Success? ==> var ref := LookupVariable(st.env, Name(st.curr)).value;
      ref < |st.env.store| && !st.env.store[ref].IsFinal()
      && r.value.env == Update(st.env, ref, st.env.store[ref].Toggle(Initialized))
  {
    var ref :- GetVariableIfDeclared(st.env, Name(st.curr));
    LookupVariableInStore(st.env, Name(st.curr));
    var s1 :- Expect(st, Equals);
    var s2 :- MatchExpression(s1, ref);
    var s3 :- Expect(s2, Semicolon);
    End(s3)
  }

  // ---- conditions ------------------------------------------------------------------------------

  /** A token that may stand where a `varType` value is expected: a kind the
      type's assignment row lists and, for an identifier, a usable variable. */
  ghost predicate Operand(env: Env, varType: TokenKind, t: Token)
    requires WellFormed(env)
  {
    AssignmentRow(varType).Some? && t.kind in AssignmentRow(varType).value
    && (t.kind == Id ==> VerifyVariableUsage(env, varType, Name(Some(t))).Pass?)
  }

  /** `w` is what is left of `u` after some of its first tokens. */
  ghost predicate Suffix(w: seq<Token>, u: seq<Token>) {
    |w| <= |u| && w == u[|u| - |w|..]
  }

  /** The first tokens of `u` that are not in its suffix of length `|w|`. */
  ghost function Before(u: seq<Token>, w: seq<Token>): seq<Token>
    requires |w| <= |u|
  {
    u[..|u| - |w|]
  }

  /** `st'` lies after `st` on the same line: its upcoming tokens are a suffix. */
  ghost predicate Later(st: PState, st': PState) {
    Suffix(Upcoming(st'), Upcoming(st))
  }

  /** The tokens consumed between `st` and `st'`. */
  ghost function Consumed(st: PState, st': PState): seq<Token>
    requires Left(st') <= Left(st)
  {
    Before(Upcoming(st), Upcoming(st'))
  }

  /** Boolean operands joined by `&` or `|`. */
  ghost predicate ConditionTokens(env: Env, c: seq<Token>)
    requires WellFormed(env)
    decreases |c|
  {
    |c| >= 1 && Operand(env, Boolean, c[0])
    && (|c| == 1 || (|c| >= 3 && c[1].kind in {And, Or} && ConditionTokens(env, c[2..])))
  }

  /** The operand checks that the token-kind and usage steps make together. */
  lemma OperandChecked(st: PState, s1: PState, varType: TokenKind)
    requires WellFormed(st.env) && MatchAssignmentTokenType(st, varType) == Success(s1)
    requires VerifyUsageIfNecessary(s1, varType).Pass?
    ensures st.next.Some? && Operand(st.env, varType, st.next.value)
    ensures Later(st, s1) && Consumed(st, s1) == [st.next.value]
  {
  }

  /** One operand where a `varType` value is expected: its token kind, then the
      usage of an identifier. */
  function MatchOperand(st: PState, varType: TokenKind): (r: Result<PState, Error>)
    requires WellFormed(st.env)
    ensures r.Success? ==> Moved(st, r.value) && Left(r.value) < Left(st)
    ensures r.Success? ==> r.value.curr == st.next && Upcoming(r.value) == Upcoming(st)[1..]
    ensures r.Success? ==> st.next.Some? && Operand(st.env, varType, st.next.value)
  {
    var s1 :- MatchAssignmentTokenType(st, varType);
    var o := VerifyUsageIfNecessary(s1, varType);
    if o.Fail? then Failure(o.error) else OperandChecked(st, s1, varType); Success(s1)
  }

  /** `matchCondition`: one boolean operand. */
  function MatchCondition(st: PState): (r: Result<PState, Error>)
    requires WellFormed(st.env)
    ensures r.Success? ==> Moved(st, r.value) && Left(r.value) < Left(st)
    ensures r.Success? ==> r.value.curr == st.next && Upcoming(r.value) == Upcoming(st)[1..]
    ensures r.Success? ==> st.next.Some? && Operand(st.env, Boolean, st.next.value)
  {
    MatchOperand(st, Boolean)
  }

  /** The `do ... while (nextTokenIs(AND) || nextTokenIs(OR))` loop of a
      condition. Every operand is checked, not only the first: the tokens
      consumed are boolean operands joined by `&` or `|`. */
  function Conditions(st: PState): (r: Result<PState, Error>)
    requires WellFormed(st.env)
    ensures r.Success? ==> Moved(st, r.value) && Left(r.value) < Left(st)
    ensures r.Success? ==> Later(st, r.value) && ConditionTokens(st.env, Consumed(st, r.value))
    decreases Left(st)
  {
    var s1 :- MatchCondition(st);
    if NextIs(s1, And) || NextIs(s1, Or) then
      var s2 :- Advance(s1);
      var r := Conditions(s2);
      if r.Failure? then r
      else
        ConsumedAfterTwo(st, s1, s2, r.value);
        r
    else
      ConsumedOne(st, s1);
      Success(s1)
  }

  /** Consumption through two single-token steps and then a run of tokens. */
  lemma ConsumedAfterTwo(st: PState, s1: PState, s2: PState, r: PState)
    requires st.next.Some? && s1.next.Some?
    requires Upcoming(s1) == Upcoming(st)[1..] && Upcoming(s2) == Upcoming(s1)[1..] && Later(s2, r)
    ensures Later(st, r) && Consumed(st, r) == [st.next.value, s1.next.value] + Consumed(s2, r)
    ensures Consumed(st, r)[2..] == Consumed(s2, r)
  {
    var u, u1 := Upcoming(st), Upcoming(s1);
    assert u[0] == st.next.value && u1[0] == s1.next.value;
    DropTwo(u, u1, Upcoming(s2), Upcoming(r));
  }

  lemma DropTwo(u: seq<Token>, u1: seq<Token>, v: seq<Token>, w: seq<Token>)
    requires |u| >= 1 && u1 == u[1..] && |u1| >= 1 && v == u1[1..] && Suffix(w, v)
    ensures Suffix(w, u) && Before(u, w) == [u[0], u1[0]] + Before(v, w) && Before(u, w)[2..] == Before(v, w)
  {
    assert forall k :: 0 <= k < |v| ==> v[k] == u[k + 2];
    forall k | 0 <= k < |w| ensures w[k] == u[|u| - |w| + k] {
      assert w[k] == v[|v| - |w| + k];
    }
    var c := [u[0], u1[0]] + Before(v, w);
    forall k | 0 <= k < |u| - |w| ensures u[k] == c[k] {
      if k >= 2 {
        assert c[k] == v[k - 2];
      }
    }
    assert c[2..] == Before(v, w);
  }

  /** Consumption through one single-token step. */
  lemma ConsumedOne(st: PState, s1: PState)
    requires st.next.Some? && Upcoming(s1) == Upcoming(st)[1..]
    ensures Later(st, s1) && Consumed(st, s1) == [st.next.value]
  {
  }

  /** `parseConditional` */
  function ParseConditional(st: PState): (r: Result<PState, Error>)
    requires WellFormed(st.env)
    ensures r.Success? ==> Moved(st, r.value) && r.value.next.None?
  {
    var s1 :- Expect(st, LParen);
    var s2 :- Conditions(s1);
    var s3 :- Expect(s2, RParen);
    var s4 :- Expect(s3, LBrace);
    End(s4)
  }

  // ---- method calls ----------------------------------------------------------------------------

  /** One argument per parameter, in the parameter table's (name) order, with a
      comma between consecutive arguments and none after the last. */
  ghost predicate ArgumentTokens(env: Env, params: seq<(string, Ref)>, c: seq<Token>)
    requires WellFormed(env) && RefsBelow(params, |env.store|)
    decreases |params|
  {
    if params == [] then c == []
    else
      |c| >= 1 && Operand(env, env.store[params[0].1].varType, c[0])
      && if |params| == 1 then |c| == 1
         else |c| >= 2 && c[1].kind == Comma && ArgumentTokens(env, params[1..], c[2..])
  }

  /** The loop of `matchParameters`: one operand per parameter, each checked
      against its parameter's type, with a comma between consecutive ones
      (see `ArgumentsMatchParameters`). */
  function MatchArguments(st: PState, params: seq<(string, Ref)>): (r: Result<PState, Error>)
    requires WellFormed(st.env) && RefsBelow(params, |st.env.store|)
    ensures r.Success? ==> Moved(st, r.value)
    decreases |params|
  {
    if params == [] then Success(st)
    else
      var s1 :- MatchOperand(st, st.env.store[params[0].1].varType);
      if |params| > 1 then
        var s2 :- Expect(s1, Comma);
        MatchArguments(s2, params[1..])
      else Success(s1)
  }

  /** The tokens `MatchArguments` consumes match the parameters one by one. */
  lemma {:induction false} ArgumentsMatchParameters(st: PState, params: seq<(string, Ref)>)
    requires WellFormed(st.env) && RefsBelow(params, |st.env.store|)
    requires MatchArguments(st, params).Success?
    ensures var r := MatchArguments(st, params).value;
      Later(st, r) && ArgumentTokens(st.env, params, Consumed(st, r))
    decreases |params|, 1
  {
    if params == [] {
      assert Upcoming(st)[|Upcoming(st)| - |Upcoming(st)|..] == Upcoming(st);
    } else if |params| == 1 {
      ConsumedOne(st, MatchOperand(st, st.env.store[params[0].1].varType).value);
    } else {
      ArgumentsAfterComma(st, params);
    }
  }

  /** The inductive step of `ArgumentsMatchParameters` for two or more parameters. */
  lemma {:induction false} ArgumentsAfterComma(st: PState, params: seq<(string, Ref)>)
    requires WellFormed(st.env) && RefsBelow(params, |st.env.store|) && |params| > 1
    requires MatchArguments(st, params).Success?
    ensures var r := MatchArguments(st, params).value;
      Later(st, r) && ArgumentTokens(st.env, params, Consumed(st, r))
    decreases |params|, 0
  {
    var s1 := MatchOperand(st, st.env.store[params[0].1].varType).value;
    var s2 := Expect(s1, Comma).value;
    ArgumentsMatchParameters(s2, params[1..]);
    MoreArguments(st.env, params, st, s1, s2, MatchArguments(st, params).value);
  }

  /** An operand, a comma, and the arguments for the remaining parameters. */
  lemma MoreArguments(env: Env, params: seq<(string, Ref)>, st: PState, s1: PState, s2: PState, r: PState)
    requires WellFormed(env) && RefsBelow(params, |env.store|) && |params| > 1
    requires st.next.Some? && Operand(env, env.store[params[0].1].varType, st.next.value)
    requires NextIs(s1, Comma)
    requires Upcoming(s1) == Upcoming(st)[1..] && Upcoming(s2) == Upcoming(s1)[1..] && Later(s2, r)
    requires ArgumentTokens(env, params[1..], Consumed(s2, r))
    ensures Later(st, r) && ArgumentTokens(env, params, Consumed(st, r))
  {
    ConsumedAfterTwo(st, s1, s2, r);
  }

  /** `matchParameters`: the called method must be visible. */
  function MatchParameters(st: PState, methodName: string): (r: Result<PState, Error>)
    requires WellFormed(st.env)
    ensures r.Success? ==> Moved(st, r.value)
  {
    var m :- LookupMethod(st.env, methodName);
    LookupMethodOk(st.env, methodName);
    MatchArguments(st, m.params)
  }

  /** `parseMethodCalling` */
  function ParseMethodCalling(st: PState): (r: Result<PState, Error>)
    requires WellFormed(st.env)
    ensures r.Success? ==> Moved(st, r.value) && r.value.next.None?
  {
    var methodName := Name(st.curr);
    var s1 :- Expect(st, LParen);
    var s2 :- MatchParameters(s1, methodName);
    var s3 :- Expect(s2, RParen);
    var s4 :- Expect(s3, Semicolon);
    End(s4)
  }

  // ---- method declarations ---------------------------------------------------------------------

  /** `matchVariableType`: the lookahead must be one of the variable types. */
  function MatchVariableType(st: PState): (r: Result<(PState, TokenKind), Error>)
    requires WellFormed(st.env)
    ensures r.Success? ==> Moved(st, r.value.0) && Left(r.value.0) < Left(st)
    ensures r.Success? ==> NextIs(st, r.value.1) && r.value.1 in VariableTypes
    ensures r.Success? ==> r.value.0.curr == st.next && Upcoming(r.value.0) == Upcoming(st)[1..]
    ensures !(st.next.Some? && st.next.value.kind in VariableTypes) ==> r == Failure(InvalidMethodParameterDefinition)
  {
    if st.next.Some? && st.next.value.kind in VariableTypes then
      var s :- Advance(st);
      Success((s, st.next.value.kind))
    else Failure(InvalidMethodParameterDefinition)
  }

  /** `addParameterToMethod`: the new parameter symbol enters the method's
      parameter table; a repeated parameter name is an invalid definition. */
  function AddParameterToMethod(st: PState, m: MethodInfo, paramName: string, info: VarInfo): (r: Result<(PState, MethodInfo), Error>)
    requires WellFormed(st.env) && MethodOk(m, |st.env.store|)
    ensures r.Failure? <==> Find(m.params, paramName).Some?
    ensures r.Failure? ==> r.error == InvalidMethodParameterDefinition
    ensures r.Success? ==> r.value.0 == st.(env := Allocate(st.env, info).0) && Step(st, r.value.0)
    ensures r.Success? ==> (MethodOk(r.value.1, |r.value.0.env.store|) && Find(m.params, paramName).None?
      && r.value.1.params == Insert<Ref>(m.params, paramName, |st.env.store|))
  {
    if Find(m.params, paramName).Some? then Failure(InvalidMethodParameterDefinition)
    else
      var env': Env, ref: Ref := Allocate(st.env, info).0, |st.env.store|;
      AllocateWellFormed(st.env, info);
      RefsBelowGrow(m.params, |st.env.store|, |env'.store|);
      InsertRefsBelow(m.params, paramName, ref, |env'.store|);
      Success((st.(env := env'), MethodInfo(Insert(m.params, paramName, ref))))
  }

  /** `matchParameter`: `[final] type name`; the parameter starts initialized. */
  function MatchParameter(st: PState, m: MethodInfo): (r: Result<(PState, MethodInfo), Error>)
    requires WellFormed(st.env) && MethodOk(m, |st.env.store|)
    ensures r.Success? ==> Step(st, r.value.0) && Left(r.value.0) < Left(st) && MethodOk(r.value.1, |r.value.0.env.store|)
    ensures r.Success? ==> r.value.0.env.chain == st.env.chain
  {
    var t :- ParameterSymbol(st);
    var s3 :- Expect(t.0, Id);
    AddParameterToMethod(s3, m, Name(s3.curr), t.1)
  }

  /** The `[final] type` part of a parameter and the symbol the builder makes
      for it: initialized, and final when `final` was read. */
  function ParameterSymbol(st: PState): (r: Result<(PState, VarInfo), Error>)
    requires WellFormed(st.env)
    ensures r.Success? ==> Moved(st, r.value.0) && Left(r.value.0) < Left(st)
  {
    var f :- NextTokenIs(st, TokenKind.Final);
    var t :- MatchVariableType(f.1);
    Success((t.0, Built(t.1, if f.0 then [Initialized, Attribute.Final] else [Initialized])))
  }

  /** The `do ... while (nextTokenIs(COMMA))` loop over the parameters. */
  function ParameterList(st: PState, m: MethodInfo): (r: Result<(PState, MethodInfo), Error>)
    requires WellFormed(st.env) && MethodOk(m, |st.env.store|)
    ensures r.Success? ==> Step(st, r.value.0) && Left(r.value.0) < Left(st) && MethodOk(r.value.1, |r.value.0.env.store|)
    ensures r.Success? ==> r.value.0.env.chain == st.env.chain
    decreases Left(st)
  {
    var p :- MatchParameter(st, m);
    if NextIs(p.0, Comma) then
      var s :- Advance(p.0);
      ParameterList(s, p.1)
    else Success(p)
  }

  /** `addMethodToScope`: a name the innermost scope holds is already declared. */
  function AddMethodToScope(st: PState, methodName: string, m: MethodInfo): (r: Result<PState, Error>)
    requires WellFormed(st.env) && MethodOk(m, |st.env.store|)
    ensures r.Success? ==> Step(st, r.value)
    ensures r.Failure? <==> Find(st.env.chain[0].methods, methodName).Some?
    ensures r.Failure? ==> r.error == MethodAlreadyDeclared
    ensures r.Success? ==> (r.value.curr == st.curr && r.value.next == st.next && r.value.rest == st.rest
      && r.value.env == AddMethod(st.env, methodName, m).value)
  {
    match AddMethod(st.env, methodName, m)
    case Failure(_) => Failure(MethodAlreadyDeclared)
    case Success(env') =>
      AddMethodWellFormed(st.env, methodName, m);
      Success(st.(env := env'))
  }

  /** The parameter part of a declaration, up to and including `)`: nothing
      when `)` follows at once, else the parameter list. */
  function DeclaredParameters(st: PState): (r: Result<(PState, MethodInfo), Error>)
    requires WellFormed(st.env)
    ensures r.Success? ==> Step(st, r.value.0) && MethodOk(r.value.1, |r.value.0.env.store|)
    ensures r.Success? ==> r.value.0.env.chain == st.env.chain
  {
    if NextIs(st, RParen) then
      var s :- Advance(st);
      Success((s, MethodInfo([])))
    else
      var q :- ParameterList(st, MethodInfo([]));
      var s :- Expect(q.0, RParen);
      Success((s, q.1))
  }

  /** `parseSubRoutineDeclaration`: `void name ( [parameters] ) {`. Without an
      identifier after `void`, or with a name starting with `_`, the rest of
      the line is left unparsed and nothing is declared. */
  function ParseSubRoutineDeclaration(st: PState): (r: Result<PState, Error>)
    requires WellFormed(st.env)
    ensures r.Success? ==> Step(st, r.value)
  {
    if !NextIs(st, Id) then Success(st)
    else
      var s1 :- Advance(st);
      var methodName := Name(s1.curr);
      if ValidateMethodName(methodName).Fail? then Success(s1) else MethodHeader(s1, methodName)
  }

  /** The declaration after a valid name: `( [parameters] ) {`; the method then
      enters the innermost scope and the line must end. */
  function MethodHeader(st: PState, methodName: string): (r: Result<PState, Error>)
    requires WellFormed(st.env)
    ensures r.Success? ==> Step(st, r.value)
  {
    var s2 :- Expect(st, LParen);
    var p :- DeclaredParameters(s2);
    var s4 :- Expect(p.0, LBrace);
    var s5 :- AddMethodToScope(s4, methodName, p.1);
    End(s5)
  }

  // ---- statements ------------------------------------------------------------------------------

  /** The `switch` of `parse`, with a method declaration handled by
      `parseSubRoutineDeclaration`. */
  function Dispatch(kind: StatementKind, st: PState): (r: Result<PState, Error>)
    requires WellFormed(st.env) && st.curr.Some?
    ensures r.Success? ==> Step(st, r.value)
    ensures r.Success? && kind != MethodDeclaration ==> r.value.next.None?
  {
    match kind
    case VariableDeclaration => ParseVariableDeclaration(st)
    case Conditional => ParseConditional(st)
    case Assignment => ParseAssignment(st)
    case ReturnStatement =>
      var s :- Expect(st, Semicolon);
      End(s)
    case MethodCalling => ParseMethodCalling(st)
    case CloseScope => End(st)
    case MethodDeclaration => ParseSubRoutineDeclaration(st)
  }

  /** `parse`: the statement kind of the line (`None` for a line without
      tokens) and the bound scope afterwards. */
  function Parse(env: Env, s: TokenStream): (r: Result<(Option<StatementKind>, Env), Error>)
    requires WellFormed(env)
    ensures r.Success? ==> (WellFormed(r.value.1) && |r.value.1.chain| == |env.chain|
      && r.value.1.chain[1..] == env.chain[1..] && |env.store| <= |r.value.1.store|)
  {
    var st :- InitParser(env, s);
    if st.curr.None? then Success((None, env))
    else
      var kind :- GetStatement(st.curr.value, st.next);
      var st' :- Dispatch(kind, st);
      Success((Some(kind), st'.env))
  }

  /** The statement kind the classifier gives the first two tokens of a stream,
      or `None` for a stream without tokens or one it cannot classify. */
  function Classify(s: TokenStream): Option<StatementKind> {
    if s.tokens == [] then None
    else
      var g := GetStatement(s.tokens[0], if |s.tokens| > 1 then Some(s.tokens[1]) else None);
      if g.Success? then Some(g.value) else None
  }

  /** A line as the parser sees it: the tokens the lexer yields for it. */
  function ParseLine(env: Env, line: string): (r: Result<(Option<StatementKind>, Env), Error>)
    requires WellFormed(env)
    ensures r.Success? ==> (WellFormed(r.value.1) && |r.value.1.chain| == |env.chain|
      && r.value.1.chain[1..] == env.chain[1..] && |env.store| <= |r.value.1.store|)
  {
    Parse(env, Lex(line))
  }
}
