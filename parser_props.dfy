/** Properties of the parser: what each statement form demands of its tokens
    and what it does to the bound scope. */
module ParserProperties {
  import opened Wrappers
  import opened Tokens
  import opened Errors
  import opened SymbolTables
  import opened Symbols
  import opened Lexing
  import opened Environments
  import opened Statements
  import opened Semantics
  import opened ParserSpec

  // ---- whole lines -----------------------------------------------------------------------------

  /** `parse` answers "no statement" exactly for a line without tokens, and
      then leaves the scope alone. */
  lemma ParseNullIffNoTokens(env: Env, s: TokenStream)
    requires WellFormed(env)
    ensures Parse(env, s).Success? && Parse(env, s).value.0.None? <==> s.tokens == [] && !s.failsAfter
    ensures Parse(env, s).Success? && Parse(env, s).value.0.None? ==> Parse(env, s).value.1 == env
  {
  }

  /** The statement `parse` reports is the one the classifier gives the
      first two tokens of the line. */
  lemma ParseClassifies(env: Env, s: TokenStream)
    requires WellFormed(env) && Parse(env, s).Success?
    ensures Parse(env, s).value.0 == Classify(s)
  {
    var st := InitParser(env, s).value;
    if st.curr.Some? {
      assert s.tokens[0] == st.curr.value;
      if st.next.Some? {
        assert s.tokens[1] == st.next.value;
      } else {
        assert |s.tokens| == 1;
      }
    }
  }

  /** Every accepted statement other than a method declaration consumes the
      whole line, and the tokenizer reached its end without an error. */
  lemma AcceptedStatementsConsumeTheLine(kind: StatementKind, st: PState)
    requires WellFormed(st.env) && st.curr.Some? && Coherent(st)
    requires kind != MethodDeclaration && Dispatch(kind, st).Success?
    ensures Upcoming(Dispatch(kind, st).value) == [] && !Dispatch(kind, st).value.rest.failsAfter
  {
  }

  // ---- declarations ----------------------------------------------------------------------------

  /** The value a declared variable starts with: a plain declaration has no
      attribute, an initialized one is initialized but not final, and a final
      one has both bits whichever the builder sets first. */
  lemma DeclaredAttributes(t: TokenKind)
    ensures Built(t, []) == VarInfo(t, 0) && !Built(t, []).IsInitialized() && !Built(t, []).IsFinal()
    ensures Built(t, [Initialized]).IsInitialized() && !Built(t, [Initialized]).IsFinal()
    ensures Built(t, [Attribute.Final, Initialized]) == Built(t, [Initialized, Attribute.Final])
    ensures Built(t, [Attribute.Final, Initialized]).IsInitialized() && Built(t, [Attribute.Final, Initialized]).IsFinal()
    ensures Built(t, [Initialized]).varType == Built(t, [Attribute.Final, Initialized]).varType == t
  {
    ToggleFlipsOnlyItsBit(0, Initialized, Attribute.Final);
    ToggleFlipsOnlyItsBit(0, Attribute.Final, Initialized);
    FinalAndInitializedCommute();
    ToggleFlipsOnlyItsBit(Toggled(0, Attribute.Final), Initialized, Attribute.Final);
    ToggleFlipsOnlyItsBit(Toggled(0, Attribute.Final), Attribute.Final, Initialized);
    assert Built(t, [Attribute.Final, Initialized]) == VarInfo(t, 0).Toggle(Attribute.Final).Toggle(Initialized);
    assert Built(t, [Initialized, Attribute.Final]) == VarInfo(t, 0).Toggle(Initialized).Toggle(Attribute.Final);
  }

  /** A variable declared with a value is added exactly when the value's token
      kind fits the type, an identifier value is usable as that type, and the
      innermost scope does not hold the name yet; it then enters the innermost
      scope as a new symbol. */
  lemma InitializedDeclaration(st: PState, name: string, info: VarInfo)
    requires WellFormed(st.env) && !(st.rest.tokens == [] && st.rest.failsAfter)
    ensures var r := AddToScopeIfSemanticallyCorrect(st, name, info);
      r.Success? <==>
        st.next.Some? && AssignmentRow(info.varType).Some? && st.next.value.kind in AssignmentRow(info.varType).value
        && (st.next.value.kind == Id ==> VerifyVariableUsage(st.env, info.varType, Name(st.next)).Pass?)
        && Find(st.env.chain[0].vars, name).None?
    ensures var r := AddToScopeIfSemanticallyCorrect(st, name, info);
      r.Success? ==> r.value.env == AddVariable(Allocate(st.env, info).0, name, |st.env.store|).value
  {
    if st.next.Some? && AssignmentRow(info.varType).Some? && st.next.value.kind in AssignmentRow(info.varType).value {
      var s1 := Advance(st).value;
      assert MatchAssignmentTokenType(st, info.varType) == Success(s1);
      assert VerifyUsageIfNecessary(s1, info.varType) ==
        if st.next.value.kind == Id then VerifyVariableUsage(st.env, info.varType, Name(st.next)) else Pass;
    }
  }

  /** A final variable must be given a value: without `=` the declarator fails. */
  lemma FinalNeedsInitializer(st: PState, varType: TokenKind)
    requires WellFormed(st.env)
    ensures !NextIs(st, Equals) ==> MatchAssignment(st, varType) == Failure(UnexpectedTokenType(Some(Equals)))
    ensures MatchAssignment(st, varType).Success? ==> NextIs(st, Equals)
  {
  }

  /** A non-final variable may omit its value; it is then added uninitialized. */
  lemma OptionalInitializer(st: PState, name: string, varType: TokenKind)
    requires WellFormed(st.env) && !NextIs(st, Equals)
    ensures MatchOptionalAssignment(st, name, varType) == AddVariableToScope(st, name, VarInfo(varType, 0))
  {
  }

  // ---- assignments -----------------------------------------------------------------------------

  /** The failures an assignment reports first: an undeclared target, and a
      final target once `=` has been read. */
  lemma AssignmentFailures(st: PState)
    requires WellFormed(st.env)
    ensures LookupVariable(st.env, Name(st.curr)).Failure? ==>
      ParseAssignment(st) == Failure(UndeclaredVariableUsage(Name(st.curr)))
    ensures LookupVariable(st.env, Name(st.curr)).Success? && NextIs(st, Equals) && Advance(st).Success? ==>
      LookupVariable(st.env, Name(st.curr)).value < |st.env.store| &&
      (st.env.store[LookupVariable(st.env, Name(st.curr)).value].IsFinal() ==>
        ParseAssignment(st) == Failure(CannotChangeFinalVariable))
  {
    if LookupVariable(st.env, Name(st.curr)).Success? {
      LookupVariableInStore(st.env, Name(st.curr));
    }
  }

  /** Assigning the same variable twice flips its INITIALIZED bit back: the
      scope is as it was before the first assignment. */
  lemma AssignTwiceRestores(st: PState, st': PState)
    requires WellFormed(st.env) && ParseAssignment(st).Success?
    requires st'.env == ParseAssignment(st).value.env && Name(st'.curr) == Name(st.curr)
    requires ParseAssignment(st').Success?
    ensures ParseAssignment(st').value.env == st.env
  {
    var ref := LookupVariable(st.env, Name(st.curr)).value;
    ToggleTwiceRestores(st.env, ref, st'.env);
    assert LookupVariable(st'.env, Name(st'.curr)) == Success(ref);
  }

  /** Flipping a stored variable's INITIALIZED bit twice restores the store. */
  lemma ToggleTwiceRestores(env: Env, ref: Ref, env1: Env)
    requires ref < |env.store| && env1 == Update(env, ref, env.store[ref].Toggle(Initialized))
    ensures env1.chain == env.chain && ref < |env1.store|
    ensures Update(env1, ref, env1.store[ref].Toggle(Initialized)) == env
  {
    var info := env.store[ref];
    ToggleInvolutive(info.attributes, Initialized);
    assert info.Toggle(Initialized).Toggle(Initialized) == info;
    assert env1.store[ref := info] == env.store;
  }

  // ---- method declarations ---------------------------------------------------------------------

  /** A parameter's symbol is initialized, is final exactly when `final`
      was read first, and has the type that follows. */
  lemma ParameterSymbolAttributes(st: PState)
    requires WellFormed(st.env) && ParameterSymbol(st).Success?
    ensures var info := ParameterSymbol(st).value.1;
      info.IsInitialized() && (info.IsFinal() <==> NextIs(st, TokenKind.Final)) && info.varType in VariableTypes
  {
    var f := NextTokenIs(st, TokenKind.Final).value;
    var t := MatchVariableType(f.1).value;
    DeclaredAttributes(t.1);
  }

  /** A declaration without an identifier after `void`, or whose name starts
      with `_`, is accepted without being parsed further and declares nothing;
      otherwise the method is declared in the innermost scope, where the name
      was free, only after the closing `{` of its header, and the line ends
      there. */
  lemma SubRoutineDeclarationShape(st: PState)
    requires WellFormed(st.env) && ParseSubRoutineDeclaration(st).Success?
    ensures var r := ParseSubRoutineDeclaration(st).value;
      (!NextIs(st, Id) ==> r == st)
      && (NextIs(st, Id) && ValidateMethodName(Name(st.next)).Fail? ==> r == Advance(st).value && r.env == st.env)
      && (NextIs(st, Id) && ValidateMethodName(Name(st.next)).Pass? ==>
            Find(st.env.chain[0].methods, Name(st.next)).None?
            && Find(r.env.chain[0].methods, Name(st.next)).Some?
            && r.curr.Some? && r.curr.value.kind == LBrace && r.next.None?)
  {
    if NextIs(st, Id) && ValidateMethodName(Name(st.next)).Pass? {
      var s1 := Advance(st).value;
      MethodHeaderDeclares(s1, Name(st.next));
    }
  }

  /** The header of a declaration enters the method into the innermost scope,
      where its name was free, once `{` has been read; nothing may follow. */
  lemma MethodHeaderDeclares(st: PState, methodName: string)
    requires WellFormed(st.env) && MethodHeader(st, methodName).Success?
    ensures var r := MethodHeader(st, methodName).value;
      Find(st.env.chain[0].methods, methodName).None?
      && Find(r.env.chain[0].methods, methodName).Some?
      && r.curr.Some? && r.curr.value.kind == LBrace && r.next.None?
  {
    var s2 := Expect(st, LParen).value;
    var p := DeclaredParameters(s2).value;
    var s4 := Expect(p.0, LBrace).value;
    var s5 := AddMethodToScope(s4, methodName, p.1).value;
    assert s4.env.chain[0].methods == st.env.chain[0].methods;
    assert Find(s5.env.chain[0].methods, methodName).Some?;
  }

  // ---- parameter lists -------------------------------------------------------------------------

  /** How many tokens one parameter takes: `final type name` or `type name`. */
  ghost function ParameterWidth(c: seq<Token>): nat {
    if |c| >= 1 && c[0].kind == TokenKind.Final then 3 else 2
  }

  /** Exactly one parameter: `[final] type name`. */
  ghost predicate OneParameter(c: seq<Token>) {
    var w := ParameterWidth(c);
    |c| == w && c[w - 2].kind in VariableTypes && c[w - 1].kind == Id
  }

  /** The name one parameter's tokens declare, and the symbol the builder
      makes for it: of the given type, initialized, and final when `final`
      comes first. */
  ghost function DeclaredParameter(c: seq<Token>): (string, VarInfo)
    requires |c| >= ParameterWidth(c)
  {
    var w := ParameterWidth(c);
    (Name(Some(c[w - 1])), Built(c[w - 2].kind, if w == 3 then [Initialized, Attribute.Final] else [Initialized]))
  }

  /** Parameters separated by commas. */
  ghost predicate ParameterTokens(c: seq<Token>)
    decreases |c|
  {
    var w := ParameterWidth(c);
    |c| >= w && OneParameter(c[..w]) && (|c| == w || (c[w].kind == Comma && ParameterTokens(c[w + 1..])))
  }

  /** The names and symbols a parameter list declares, in order. */
  ghost function ParsedParameters(c: seq<Token>): seq<(string, VarInfo)>
    decreases |c|
  {
    var w := ParameterWidth(c);
    if |c| < w then [] else [DeclaredParameter(c[..w])] + if |c| > w then ParsedParameters(c[w + 1..]) else []
  }

  /** The symbols of declared parameters, in order. */
  ghost function SymbolsOf(ps: seq<(string, VarInfo)>): seq<VarInfo>
    decreases |ps|
  {
    if ps == [] then [] else [ps[0].1] + SymbolsOf(ps[1..])
  }

  /** Each name is new: not in `used` and not among the names before it. */
  ghost predicate FreshNames(used: set<string>, ps: seq<(string, VarInfo)>)
    decreases |ps|
  {
    ps == [] || (ps[0].0 !in used && FreshNames(used + {ps[0].0}, ps[1..]))
  }

  /** A parameter table after the names of `ps` enter it, in order, bound to
      the store entries from `base` on. */
  ghost function Entered(table: map<string, Ref>, ps: seq<(string, VarInfo)>, base: nat): map<string, Ref>
    decreases |ps|
  {
    if ps == [] then table else Entered(table[ps[0].0 := base], ps[1..], base + 1)
  }

  /** With fresh names, the table after `Entered` binds the `i`-th name to
      entry `base + i`, which holds the `i`-th symbol, and keeps every entry
      it had. */
  lemma {:induction false} EnteredBinds(table: map<string, Ref>, ps: seq<(string, VarInfo)>, base: nat)
    requires FreshNames(table.Keys, ps)
    ensures |SymbolsOf(ps)| == |ps|
    ensures forall i :: 0 <= i < |ps| ==>
      ps[i].0 in Entered(table, ps, base) && Entered(table, ps, base)[ps[i].0] == base + i && SymbolsOf(ps)[i] == ps[i].1
    ensures forall x :: x in table ==> x in Entered(table, ps, base) && Entered(table, ps, base)[x] == table[x]
    decreases |ps|
  {
    if ps != [] {
      var t' := table[ps[0].0 := base];
      assert t'.Keys == table.Keys + {ps[0].0};
      EnteredBinds(t', ps[1..], base + 1);
      forall i | 0 <= i < |ps|
        ensures ps[i].0 in Entered(table, ps, base) && Entered(table, ps, base)[ps[i].0] == base + i && SymbolsOf(ps)[i] == ps[i].1
      {
        if i > 0 {
          assert ps[i] == ps[1..][i - 1];
        }
      }
    }
  }

  /** Consumption over two runs of tokens is the first run, then the second. */
  lemma ConsumedThen(st: PState, s1: PState, r: PState)
    requires Later(st, s1) && Later(s1, r)
    ensures Later(st, r) && Consumed(st, r) == Consumed(st, s1) + Consumed(s1, r)
  {
    var u, v, w := Upcoming(st), Upcoming(s1), Upcoming(r);
    assert w == u[|u| - |w|..] by {
      forall k | 0 <= k < |w| ensures w[k] == u[|u| - |w| + k] {
        assert w[k] == v[|v| - |w| + k];
      }
    }
    var c := Before(u, v) + Before(v, w);
    assert |c| == |u| - |w|;
    forall k | 0 <= k < |c| ensures c[k] == u[k] {
      if k >= |u| - |v| {
        assert c[k] == v[k - (|u| - |v|)];
      }
    }
  }

  /** One parameter, a comma, and more tokens. */
  lemma ParameterThenMore(c1: seq<Token>, t: Token, c2: seq<Token>)
    requires OneParameter(c1) && t.kind == Comma
    ensures ParsedParameters(c1 + [t] + c2) == [DeclaredParameter(c1)] + ParsedParameters(c2)
    ensures ParameterTokens(c1 + [t] + c2) <==> ParameterTokens(c2)
  {
    var c := c1 + [t] + c2;
    var w := ParameterWidth(c1);
    assert ParameterWidth(c) == w && c[..w] == c1 && c[w] == t && c[w + 1..] == c2;
  }

  /** One parameter alone. */
  lemma ParameterAlone(c: seq<Token>)
    requires OneParameter(c)
    ensures ParsedParameters(c) == [DeclaredParameter(c)] && ParameterTokens(c)
  {
    assert c[..ParameterWidth(c)] == c;
  }

  /** `[final] type name` read from the lookahead on: one parameter, whose
      name is the identifier just read and whose symbol is the builder's. */
  lemma ParameterRead(st: PState)
    requires WellFormed(st.env) && ParameterSymbol(st).Success? && Expect(ParameterSymbol(st).value.0, Id).Success?
    ensures var t := ParameterSymbol(st).value;
      var s3 := Expect(t.0, Id).value;
      Later(st, s3) && OneParameter(Consumed(st, s3)) && DeclaredParameter(Consumed(st, s3)) == (Name(s3.curr), t.1)
  {
    var f := NextTokenIs(st, TokenKind.Final).value;
    var t := MatchVariableType(f.1).value;
    var s3 := Expect(t.0, Id).value;
    if f.0 {
      FinalParameterRead(st, f.1, t.0, s3, t.1);
    } else {
      PlainParameterRead(st, t.0, s3, t.1);
    }
  }

  /** `type name`, token by token. */
  lemma PlainParameterRead(st: PState, s2: PState, s3: PState, varType: TokenKind)
    requires NextIs(st, varType) && varType in VariableTypes && Upcoming(s2) == Upcoming(st)[1..]
    requires NextIs(s2, Id) && Upcoming(s3) == Upcoming(s2)[1..] && s3.curr == s2.next
    ensures Later(st, s3) && OneParameter(Consumed(st, s3))
    ensures DeclaredParameter(Consumed(st, s3)) == (Name(s3.curr), Built(varType, [Initialized]))
  {
    ConsumedOne(s2, s3);
    ConsumedOne(st, s2);
    ConsumedThen(st, s2, s3);
    PlainParameterTokens(st.next.value, s2.next.value);
  }

  /** `final type name`, token by token. */
  lemma FinalParameterRead(st: PState, s1: PState, s2: PState, s3: PState, varType: TokenKind)
    requires NextIs(st, TokenKind.Final) && Upcoming(s1) == Upcoming(st)[1..] && s1.curr == st.next
    requires NextIs(s1, varType) && varType in VariableTypes && Upcoming(s2) == Upcoming(s1)[1..] && s2.curr == s1.next
    requires NextIs(s2, Id) && Upcoming(s3) == Upcoming(s2)[1..] && s3.curr == s2.next
    ensures Later(st, s3) && OneParameter(Consumed(st, s3))
    ensures DeclaredParameter(Consumed(st, s3)) == (Name(s3.curr), Built(varType, [Initialized, Attribute.Final]))
  {
    ConsumedOne(s2, s3);
    ConsumedAfterTwo(st, s1, s2, s3);
    assert Consumed(st, s3) == [st.next.value, s1.next.value, s2.next.value];
  }

  /** `type name` as two tokens. */
  lemma PlainParameterTokens(a: Token, b: Token)
    requires a.kind in VariableTypes && b.kind == Id
    ensures OneParameter([a, b]) && DeclaredParameter([a, b]) == (Name(Some(b)), Built(a.kind, [Initialized]))
  {
    assert a.kind != TokenKind.Final;
  }

  /** `matchParameter` reads one parameter and enters its name, new to the
      method's table, bound to a new store entry holding its symbol. */
  lemma MatchParameterDeclares(st: PState, m: MethodInfo)
    requires WellFormed(st.env) && MethodOk(m, |st.env.store|) && MatchParameter(st, m).Success?
    ensures var (s, m') := MatchParameter(st, m).value;
      OneDeclares(st, s, ToMap<Ref>(m.params), ToMap<Ref>(m'.params))
  {
    var t := ParameterSymbol(st).value;
    var s3 := Expect(t.0, Id).value;
    ParameterRead(st);
    var name := Name(s3.curr);
    var r := AddParameterToMethod(s3, m, name, t.1);
    assert MatchParameter(st, m) == r;
    assert s3.env == st.env;
    EnterParameter(m, name, |st.env.store|, r.value.1);
    assert Upcoming(r.value.0) == Upcoming(s3);
  }

  /** A name inserted into a parameter table it was missing from. */
  lemma EnterParameter(m: MethodInfo, name: string, ref: Ref, m': MethodInfo)
    requires Sorted(m.params) && Find(m.params, name).None? && m'.params == Insert<Ref>(m.params, name, ref)
    ensures name !in ToMap<Ref>(m.params) && ToMap<Ref>(m'.params) == ToMap<Ref>(m.params)[name := ref]
  {
    ToMapFind(m.params, name);
    InsertContents(m.params, name, ref);
  }

  /** Between `st` and `s` a comma-separated parameter list was read; each
      of its names, new to `before` and to the names ahead of it, was bound to
      a new store entry holding its symbol, in order, giving `after`. */
  ghost predicate ListDeclares(st: PState, s: PState, before: map<string, Ref>, after: map<string, Ref>) {
    Later(st, s) && ParameterTokens(Consumed(st, s))
    && var ps := ParsedParameters(Consumed(st, s));
    s.env.store == st.env.store + SymbolsOf(ps) && FreshNames(before.Keys, ps)
    && after == Entered(before, ps, |st.env.store|)
  }

  /** Between `st` and `s` one parameter was read and its name, new to
      `before`, bound to a new store entry holding its symbol, giving `after`. */
  ghost predicate OneDeclares(st: PState, s: PState, before: map<string, Ref>, after: map<string, Ref>) {
    Later(st, s) && OneParameter(Consumed(st, s))
    && var d := DeclaredParameter(Consumed(st, s));
    s.env.store == st.env.store + [d.1] && d.0 !in before && after == before[d.0 := |st.env.store|]
  }

  /** The loop over the parameters reads a comma-separated list and enters
      each name, new to the table and to the names before it, bound to a new
      store entry holding its symbol, in order. */
  lemma {:induction false} ParameterListDeclares(st: PState, m: MethodInfo)
    requires WellFormed(st.env) && MethodOk(m, |st.env.store|) && ParameterList(st, m).Success?
    ensures var (s, m') := ParameterList(st, m).value;
      ListDeclares(st, s, ToMap<Ref>(m.params), ToMap<Ref>(m'.params))
    decreases Left(st)
  {
    var p := MatchParameter(st, m).value;
    MatchParameterDeclares(st, m);
    if NextIs(p.0, Comma) {
      var s := Advance(p.0).value;
      ParameterListDeclares(s, p.1);
      var r := ParameterList(s, p.1).value;
      MoreParameters(st, p.0, s, r.0, ToMap<Ref>(m.params), ToMap<Ref>(p.1.params), ToMap<Ref>(r.1.params));
    } else {
      LastParameter(st, p.0, ToMap<Ref>(m.params), ToMap<Ref>(p.1.params));
    }
  }

  /** A parameter, a comma and a list make a list. */
  lemma MoreParameters(st: PState, p: PState, s: PState, r: PState, before: map<string, Ref>, mid: map<string, Ref>, after: map<string, Ref>)
    requires OneDeclares(st, p, before, mid)
    requires NextIs(p, Comma) && Upcoming(s) == Upcoming(p)[1..] && s.env == p.env
    requires ListDeclares(s, r, mid, after)
    ensures ListDeclares(st, r, before, after)
  {
    ConsumedOne(p, s);
    ConsumedThen(p, s, r);
    ConsumedThen(st, p, r);
    var c1, t, c2 := Consumed(st, p), p.next.value, Consumed(s, r);
    assert Consumed(st, r) == c1 + [t] + c2;
    ParameterThenMore(c1, t, c2);
    ConsStore(c1, t, c2, st.env.store, p.env.store, r.env.store);
    ConsFresh(c1, t, c2, before, mid, |st.env.store|);
    ConsEntered(c1, t, c2, before, mid, |st.env.store|);
  }

  /** The store after a parameter, a comma and a list: the first symbol,
      then the list's. */
  lemma ConsStore(c1: seq<Token>, t: Token, c2: seq<Token>, s0: seq<VarInfo>, s1: seq<VarInfo>, s2: seq<VarInfo>)
    requires OneParameter(c1) && t.kind == Comma
    requires s1 == s0 + [DeclaredParameter(c1).1] && s2 == s1 + SymbolsOf(ParsedParameters(c2))
    ensures s2 == s0 + SymbolsOf(ParsedParameters(c1 + [t] + c2))
  {
    ParameterThenMore(c1, t, c2);
    var d := DeclaredParameter(c1);
    var ps2 := ParsedParameters(c2);
    DeclaredFirst(d, ps2, map[], 0);
    AppendAssociates(s0, [d.1], SymbolsOf(ps2));
  }

  /** The names of a parameter, a comma and a list are fresh when the first
      is and the list's are fresh after it. */
  lemma ConsFresh(c1: seq<Token>, t: Token, c2: seq<Token>, before: map<string, Ref>, mid: map<string, Ref>, base: nat)
    requires OneParameter(c1) && t.kind == Comma
    requires DeclaredParameter(c1).0 !in before && mid == before[DeclaredParameter(c1).0 := base]
    requires FreshNames(mid.Keys, ParsedParameters(c2))
    ensures FreshNames(before.Keys, ParsedParameters(c1 + [t] + c2))
  {
    ParameterThenMore(c1, t, c2);
    var d := DeclaredParameter(c1);
    DeclaredFirst(d, ParsedParameters(c2), before, base);
    assert mid.Keys == before.Keys + {d.0};
  }

  /** The table after a parameter, a comma and a list. */
  lemma ConsEntered(c1: seq<Token>, t: Token, c2: seq<Token>, before: map<string, Ref>, mid: map<string, Ref>, base: nat)
    requires OneParameter(c1) && t.kind == Comma
    requires mid == before[DeclaredParameter(c1).0 := base]
    ensures Entered(mid, ParsedParameters(c2), base + 1) == Entered(before, ParsedParameters(c1 + [t] + c2), base)
  {
    ParameterThenMore(c1, t, c2);
    DeclaredFirst(DeclaredParameter(c1), ParsedParameters(c2), before, base);
  }

  lemma AppendAssociates<T>(a: seq<T>, b: seq<T>, c: seq<T>)
    ensures (a + b) + c == a + (b + c)
  {
  }

  /** The store entries, freshness and table of a list whose first parameter
      is `d`. */
  lemma DeclaredFirst(d: (string, VarInfo), ps: seq<(string, VarInfo)>, before: map<string, Ref>, base: nat)
    ensures SymbolsOf([d] + ps) == [d.1] + SymbolsOf(ps)
    ensures FreshNames(before.Keys, [d] + ps) <==> d.0 !in before.Keys && FreshNames(before.Keys + {d.0}, ps)
    ensures Entered(before, [d] + ps, base) == Entered(before[d.0 := base], ps, base + 1)
  {
    assert ([d] + ps)[1..] == ps;
  }

  /** One parameter alone is a list. */
  lemma LastParameter(st: PState, p: PState, before: map<string, Ref>, after: map<string, Ref>)
    requires OneDeclares(st, p, before, after)
    ensures ListDeclares(st, p, before, after)
  {
    var c := Consumed(st, p);
    ParameterAlone(c);
    var d := DeclaredParameter(c);
    assert SymbolsOf([d]) == [d.1];
    assert ([d])[1..] == [];
  }

  /** The parameter part of a declaration: a possibly empty parameter list
      and `)`. Each name, distinct from the others, is bound to a new entry
      after the store `before` holding its symbol, in order, giving `after`
      and the method's `table`. */
  ghost predicate ParameterPart(c: seq<Token>, before: seq<VarInfo>, after: seq<VarInfo>, table: map<string, Ref>) {
    |c| >= 1 && c[|c| - 1].kind == RParen
    && var list := c[..|c| - 1];
    var ps := ParsedParameters(list);
    (list == [] || ParameterTokens(list))
    && after == before + SymbolsOf(ps) && FreshNames({}, ps) && table == Entered(map[], ps, |before|)
  }

  /** Between `st` and `s` the parameter part of a declaration was read. */
  ghost predicate ParametersDeclare(st: PState, s: PState, table: map<string, Ref>) {
    Later(st, s) && ParameterPart(Consumed(st, s), st.env.store, s.env.store, table)
  }

  /** `DeclaredParameters` reads the parameter part of a declaration and
      gives the method a table of exactly its parameters. */
  lemma DeclaredParametersDeclare(st: PState)
    requires WellFormed(st.env) && DeclaredParameters(st).Success?
    ensures var (s, mi) := DeclaredParameters(st).value;
      ParametersDeclare(st, s, ToMap<Ref>(mi.params))
  {
    if NextIs(st, RParen) {
      NoParameters(st, Advance(st).value);
    } else {
      var q := ParameterList(st, MethodInfo([])).value;
      ParameterListDeclares(st, MethodInfo([]));
      ParametersClosed(st, q.0, Expect(q.0, RParen).value, ToMap<Ref>(q.1.params));
    }
  }

  /** `)` at once: no parameters. */
  lemma NoParameters(st: PState, s: PState)
    requires NextIs(st, RParen) && Upcoming(s) == Upcoming(st)[1..] && s.env == st.env
    ensures ParametersDeclare(st, s, map[])
  {
    ConsumedOne(st, s);
    assert Consumed(st, s)[..0] == [];
    assert st.env.store + SymbolsOf([]) == st.env.store;
  }

  /** A parameter list and `)`. */
  lemma ParametersClosed(st: PState, q: PState, s: PState, table: map<string, Ref>)
    requires ListDeclares(st, q, map[], table)
    requires NextIs(q, RParen) && Upcoming(s) == Upcoming(q)[1..] && s.env == q.env
    ensures ParametersDeclare(st, s, table)
  {
    ConsumedOne(q, s);
    ConsumedThen(st, q, s);
    var c := Consumed(st, s);
    assert c[..|c| - 1] == Consumed(st, q);
    var empty: map<string, Ref> := map[];
    assert empty.Keys == {};
  }

  /** After `r`, the header read from `st` on: `(`, the parameter part and a
      last `{`, with the method entered under its name with the table of
      exactly the parameters read. */
  ghost predicate HeaderDeclares(st: PState, r: PState, methodName: string)
  {
    |r.env.chain| > 0
    && var methods := ToMap<MethodInfo>(r.env.chain[0].methods);
    Later(st, r) && |Consumed(st, r)| >= 3 && methodName in methods
    && var c := Consumed(st, r);
    c[0].kind == LParen && c[|c| - 1].kind == LBrace
    && ParameterPart(c[1..|c| - 1], st.env.store, r.env.store, ToMap<Ref>(methods[methodName].params))
  }

  /** The header of a declaration, `( [parameters] ) {`, enters the method
      with a table of exactly its parameters, each bound to a new store entry
      holding its symbol. */
  lemma MethodHeaderParameters(st: PState, methodName: string)
    requires WellFormed(st.env) && MethodHeader(st, methodName).Success?
    ensures HeaderDeclares(st, MethodHeader(st, methodName).value, methodName)
  {
    var s2 := Expect(st, LParen).value;
    var p := DeclaredParameters(s2).value;
    var s4 := Expect(p.0, LBrace).value;
    var s5 := AddMethodToScope(s4, methodName, p.1).value;
    MethodEntered(s4, methodName, p.1);
    DeclaredParametersDeclare(s2);
    HeaderTokens(st, s2, p.0, s4, s5, methodName, p.1);
  }

  /** `addMethodToScope` enters the method under its name and leaves the
      tokens and the store alone. */
  lemma MethodEntered(st: PState, methodName: string, m: MethodInfo)
    requires WellFormed(st.env) && MethodOk(m, |st.env.store|) && AddMethodToScope(st, methodName, m).Success?
    ensures var r := AddMethodToScope(st, methodName, m).value;
      var methods := ToMap<MethodInfo>(r.env.chain[0].methods);
      methodName in methods && methods[methodName] == m
      && Upcoming(r) == Upcoming(st) && r.env.store == st.env.store
  {
  }

  /** `(`, the parameter part and `{`, read token by token. */
  lemma HeaderTokens(st: PState, s2: PState, q: PState, s4: PState, r: PState, methodName: string, m: MethodInfo)
    requires NextIs(st, LParen) && Upcoming(s2) == Upcoming(st)[1..] && s2.env == st.env
    requires ParametersDeclare(s2, q, ToMap<Ref>(m.params))
    requires NextIs(q, LBrace) && Upcoming(s4) == Upcoming(q)[1..] && Upcoming(r) == Upcoming(s4) && r.env.store == q.env.store
    requires |r.env.chain| > 0
    requires var methods := ToMap<MethodInfo>(r.env.chain[0].methods); methodName in methods && methods[methodName] == m
    ensures HeaderDeclares(st, r, methodName)
  {
    ConsumedOne(st, s2);
    ConsumedOne(q, s4);
    ConsumedThen(s2, q, s4);
    ConsumedThen(st, s2, s4);
    var c := Consumed(st, r);
    assert c == [st.next.value] + Consumed(s2, q) + [q.next.value];
    assert c[1..|c| - 1] == Consumed(s2, q);
  }

  // ---- declaration lists -----------------------------------------------------------------------

  /** The width of the first declarator of `c`: a name, `=` and a value, or
      a name alone. */
  ghost function DeclaratorWidth(c: seq<Token>): nat {
    if |c| >= 3 && c[1].kind == Equals then 3 else 1
  }

  /** One declarator: a name, then `=` and a value, which a final declarator
      must have. */
  ghost predicate OneDeclarator(c: seq<Token>, final: bool) {
    |c| >= 1 && c[0].kind == Id && |c| == DeclaratorWidth(c) && (final ==> |c| == 3)
  }

  /** Declarators separated by commas. */
  ghost predicate DeclaratorTokens(c: seq<Token>, final: bool)
    decreases |c|
  {
    var w := DeclaratorWidth(c);
    |c| >= w && OneDeclarator(c[..w], final)
    && (|c| == w || (c[w].kind == Comma && DeclaratorTokens(c[w + 1..], final)))
  }

  /** The variable the first declarator of a `varType` declaration names,
      with the value it starts with: final and initialized, initialized when
      it is given a value, or neither. */
  ghost function DeclaredVariable(c: seq<Token>, varType: TokenKind, final: bool): (string, VarInfo)
    requires |c| >= 1
  {
    (Name(Some(c[0])),
      if final then Built(varType, [Attribute.Final, Initialized])
      else if DeclaratorWidth(c) == 3 then Built(varType, [Initialized])
      else Built(varType, []))
  }

  /** The variables a declarator list names, in order. */
  ghost function DeclaredVariables(c: seq<Token>, varType: TokenKind, final: bool): seq<(string, VarInfo)>
    decreases |c|
  {
    var w := DeclaratorWidth(c);
    if |c| < w then []
    else [DeclaredVariable(c, varType, final)] + if |c| > w then DeclaredVariables(c[w + 1..], varType, final) else []
  }

  /** `after` is `before` with the variables `ds` declared in the innermost
      scope: each name, new to that scope and to the names ahead of it, is
      bound to a new store entry holding its value, in order; the outer
      scopes and the methods are kept. */
  ghost predicate VarsDeclared(before: Env, after: Env, ds: seq<(string, VarInfo)>) {
    |before.chain| > 0 && |after.chain| == |before.chain| && after.chain[1..] == before.chain[1..]
    && after.chain[0].methods == before.chain[0].methods
    && after.store == before.store + SymbolsOf(ds)
    && FreshNames(ToMap<Ref>(before.chain[0].vars).Keys, ds)
    && ToMap<Ref>(after.chain[0].vars) == Entered(ToMap<Ref>(before.chain[0].vars), ds, |before.store|)
  }

  /** Between `st` and `s` one declarator was read and its variable declared. */
  ghost predicate DeclaratorDeclares(st: PState, s: PState, varType: TokenKind, final: bool) {
    Later(st, s) && OneDeclarator(Consumed(st, s), final)
    && VarsDeclared(st.env, s.env, [DeclaredVariable(Consumed(st, s), varType, final)])
  }

  /** Between `st` and `s` a declarator list was read and its variables
      declared. */
  ghost predicate DeclaratorsDeclare(st: PState, s: PState, varType: TokenKind, final: bool) {
    Later(st, s) && DeclaratorTokens(Consumed(st, s), final)
    && VarsDeclared(st.env, s.env, DeclaredVariables(Consumed(st, s), varType, final))
  }

  /** After `r`, the line from `st` on was `skip` tokens, a declarator list
      and a last `;`, and the list's variables are declared. */
  ghost predicate LineDeclares(st: PState, r: PState, skip: nat, varType: TokenKind, final: bool) {
    Later(st, r) && r.next.None? && |Consumed(st, r)| >= skip + 1
    && var c := Consumed(st, r);
    c[|c| - 1].kind == Semicolon && DeclaratorTokens(c[skip..|c| - 1], final)
    && VarsDeclared(st.env, r.env, DeclaredVariables(c[skip..|c| - 1], varType, final))
  }

  /** The variables of a declarator list: at least one, the first named by
      its first token, each final and initialized in a final declaration, and
      otherwise uninitialized or initialized. */
  lemma {:induction false} DeclaredValues(c: seq<Token>, varType: TokenKind, final: bool)
    requires DeclaratorTokens(c, final)
    ensures var ds := DeclaredVariables(c, varType, final);
      |ds| >= 1 && ds[0].0 == Name(Some(c[0]))
      && forall i :: 0 <= i < |ds| ==>
        if final then ds[i].1 == Built(varType, [Attribute.Final, Initialized])
        else ds[i].1 == Built(varType, []) || ds[i].1 == Built(varType, [Initialized])
    decreases |c|
  {
    var w := DeclaratorWidth(c);
    if |c| > w {
      DeclaredValues(c[w + 1..], varType, final);
    }
  }

  /** One new symbol entering the innermost scope declares it. */
  lemma AddedVariable(env: Env, name: string, info: VarInfo, after: Env)
    requires WellFormed(env) && AddVariable(Allocate(env, info).0, name, |env.store|).Success?
    requires after == AddVariable(Allocate(env, info).0, name, |env.store|).value
    ensures VarsDeclared(env, after, [(name, info)])
  {
    ToMapFind(env.chain[0].vars, name);
    DeclaredFirst((name, info), [], ToMap<Ref>(env.chain[0].vars), |env.store|);
    assert [(name, info)] + [] == [(name, info)];
  }

  /** A declaration, then a list, declare the variable and then the list's. */
  lemma DeclaredThen(e0: Env, e1: Env, e2: Env, d: (string, VarInfo), ds: seq<(string, VarInfo)>)
    requires VarsDeclared(e0, e1, [d]) && VarsDeclared(e1, e2, ds)
    ensures VarsDeclared(e0, e2, [d] + ds)
  {
    var t0 := ToMap<Ref>(e0.chain[0].vars);
    DeclaredFirst(d, [], t0, |e0.store|);
    assert [d] + [] == [d];
    DeclaredFirst(d, ds, t0, |e0.store|);
    assert ToMap<Ref>(e1.chain[0].vars).Keys == t0.Keys + {d.0};
    AppendAssociates(e0.store, [d.1], SymbolsOf(ds));
  }

  /** A name, `=` and a value, read token by token. */
  lemma ThreeTokensRead(st: PState, s1: PState, s2: PState, s3: PState)
    requires st.next.Some? && s1.next.Some? && s2.next.Some?
    requires Upcoming(s1) == Upcoming(st)[1..] && Upcoming(s2) == Upcoming(s1)[1..] && Upcoming(s3) == Upcoming(s2)[1..]
    ensures Later(st, s3) && Consumed(st, s3) == [st.next.value, s1.next.value, s2.next.value]
  {
    ConsumedOne(s2, s3);
    ConsumedAfterTwo(st, s1, s2, s3);
  }

  /** A declarator read between `st` and `r` whose variable entered the
      innermost scope is declared. */
  lemma DeclaratorAdded(st: PState, r: PState, varType: TokenKind, final: bool, name: string, info: VarInfo)
    requires WellFormed(st.env) && Later(st, r) && OneDeclarator(Consumed(st, r), final)
    requires DeclaredVariable(Consumed(st, r), varType, final) == (name, info)
    requires AddVariable(Allocate(st.env, info).0, name, |st.env.store|).Success?
    requires r.env == AddVariable(Allocate(st.env, info).0, name, |st.env.store|).value
    ensures DeclaratorDeclares(st, r, varType, final)
  {
    AddedVariable(st.env, name, info, r.env);
  }

  /** A name alone, read and declared uninitialized. */
  lemma PlainDeclaratorRead(st: PState, s1: PState, r: PState, varType: TokenKind)
    requires WellFormed(st.env) && NextIs(st, Id) && Upcoming(s1) == Upcoming(st)[1..] && !NextIs(s1, Equals)
    requires Upcoming(r) == Upcoming(s1) && r.next == s1.next
    requires AddVariable(Allocate(st.env, Built(varType, [])).0, Name(st.next), |st.env.store|).Success?
    requires r.env == AddVariable(Allocate(st.env, Built(varType, [])).0, Name(st.next), |st.env.store|).value
    ensures DeclaratorDeclares(st, r, varType, false) && Consumed(st, r) == [st.next.value] && !NextIs(r, Equals)
  {
    ConsumedOne(st, r);
    DeclaratorAdded(st, r, varType, false, Name(st.next), Built(varType, []));
  }

  /** The declarator `name = value`. */
  lemma ValueDeclarator(a: Token, b: Token, v: Token, varType: TokenKind, final: bool)
    requires a.kind == Id && b.kind == Equals
    ensures OneDeclarator([a, b, v], final)
    ensures DeclaredVariable([a, b, v], varType, final) ==
      (Name(Some(a)), if final then Built(varType, [Attribute.Final, Initialized]) else Built(varType, [Initialized]))
  {
  }

  /** A name, `=` and a value, read and declared initialized, and final in
      a final declaration. */
  lemma ValueDeclaratorRead(st: PState, s1: PState, s2: PState, s3: PState, r: PState, varType: TokenKind, final: bool, info: VarInfo)
    requires WellFormed(st.env) && NextIs(st, Id) && Upcoming(s1) == Upcoming(st)[1..]
    requires NextIs(s1, Equals) && Upcoming(s2) == Upcoming(s1)[1..]
    requires s2.next.Some? && Upcoming(s3) == Upcoming(s2)[1..] && Upcoming(r) == Upcoming(s3)
    requires info == if final then Built(varType, [Attribute.Final, Initialized]) else Built(varType, [Initialized])
    requires AddVariable(Allocate(st.env, info).0, Name(st.next), |st.env.store|).Success?
    requires r.env == AddVariable(Allocate(st.env, info).0, Name(st.next), |st.env.store|).value
    ensures DeclaratorDeclares(st, r, varType, final) && Consumed(st, r)[0] == st.next.value && |Consumed(st, r)| == 3
  {
    ThreeTokensRead(st, s1, s2, s3);
    ValueDeclarator(st.next.value, s1.next.value, s2.next.value, varType, final);
    DeclaratorAdded(st, r, varType, final, Name(st.next), info);
  }

  /** A non-final declarator with `=`, read and declared initialized. */
  lemma InitializedDeclaratorRead(st: PState, s1: PState, r: PState, varType: TokenKind)
    requires WellFormed(st.env) && NextIs(st, Id) && Advance(st) == Success(s1) && NextIs(s1, Equals)
    requires Advance(s1).Success?
    requires AddToScopeIfSemanticallyCorrect(Advance(s1).value, Name(s1.curr), Built(varType, [Initialized])) == Success(r)
    ensures DeclaratorDeclares(st, r, varType, false) && Consumed(st, r)[0] == st.next.value && |Consumed(st, r)| == 3
  {
    var info := Built(varType, [Initialized]);
    var s2 := Advance(s1).value;
    var s3 := MatchAssignmentTokenType(s2, info.varType).value;
    assert AddVariableToScope(s3, Name(s1.curr), info) == Success(r);
    ValueDeclaratorRead(st, s1, s2, s3, r, varType, false, info);
  }

  /** One declarator of a non-final declaration declares its name, with its
      value when `=` follows and uninitialized otherwise. */
  lemma NonFinalDeclaratorDeclares(st: PState, varType: TokenKind)
    requires WellFormed(st.env) && NonFinalDeclarator(st, varType).Success?
    ensures var r := NonFinalDeclarator(st, varType).value;
      DeclaratorDeclares(st, r, varType, false) && Consumed(st, r)[0] == st.next.value
      && (|Consumed(st, r)| == 1 ==> !NextIs(r, Equals))
  {
    var s1 := Expect(st, Id).value;
    var name := Name(s1.curr);
    var r := NonFinalDeclarator(st, varType).value;
    assert MatchOptionalAssignment(s1, name, varType) == Success(r);
    if NextIs(s1, Equals) {
      InitializedDeclaratorRead(st, s1, r, varType);
    } else {
      assert AddVariableToScope(s1, name, Built(varType, [])) == Success(r);
      PlainDeclaratorRead(st, s1, r, varType);
    }
  }

  /** One declarator of a final declaration reads `=` and a value and
      declares its name final and initialized. */
  lemma FinalDeclaratorDeclares(st: PState, varType: TokenKind)
    requires WellFormed(st.env) && FinalDeclarator(st, varType).Success?
    ensures var r := FinalDeclarator(st, varType).value;
      DeclaratorDeclares(st, r, varType, true) && Consumed(st, r)[0] == st.next.value
  {
    var s1 := Expect(st, Id).value;
    var r := FinalDeclarator(st, varType).value;
    assert MatchAssignment(s1, varType) == Success(r);
    var s2 := Expect(s1, Equals).value;
    var info := Built(varType, [Attribute.Final, Initialized]);
    assert AddToScopeIfSemanticallyCorrect(s2, Name(s1.curr), info) == Success(r);
    var s3 := MatchAssignmentTokenType(s2, info.varType).value;
    assert AddVariableToScope(s3, Name(s1.curr), info) == Success(r);
    ValueDeclaratorRead(st, s1, s2, s3, r, varType, true, info);
  }

  /** A declarator, a comma and a list make a list. */
  lemma DeclaratorThenMore(c1: seq<Token>, t: Token, c2: seq<Token>, varType: TokenKind, final: bool)
    requires OneDeclarator(c1, final) && t.kind == Comma && DeclaratorTokens(c2, final)
    ensures DeclaratorTokens(c1 + [t] + c2, final)
    ensures DeclaredVariables(c1 + [t] + c2, varType, final)
      == [DeclaredVariable(c1, varType, final)] + DeclaredVariables(c2, varType, final)
  {
    var c := c1 + [t] + c2;
    var w := |c1|;
    assert c[1] == if w == 1 then t else c1[1];
    assert DeclaratorWidth(c) == w;
    assert c[..w] == c1 && c[w] == t && c[w + 1..] == c2;
  }

  /** One declarator alone is a list. */
  lemma LastDeclarator(st: PState, p: PState, varType: TokenKind, final: bool)
    requires DeclaratorDeclares(st, p, varType, final)
    ensures DeclaratorsDeclare(st, p, varType, final)
  {
    var c := Consumed(st, p);
    assert c[..|c|] == c;
    assert DeclaredVariables(c, varType, final) == [DeclaredVariable(c, varType, final)];
  }

  /** The tokens read before a comma, the comma, and the tokens read after it. */
  lemma ConsumedAround(st: PState, p: PState, s: PState, r: PState)
    requires Later(st, p) && p.next.Some? && Upcoming(s) == Upcoming(p)[1..] && Later(s, r)
    ensures Later(st, r) && Consumed(st, r) == Consumed(st, p) + [p.next.value] + Consumed(s, r)
  {
    ConsumedOne(p, s);
    ConsumedThen(p, s, r);
    ConsumedThen(st, p, r);
  }

  /** A declarator, a comma and a list, read in turn. */
  lemma MoreDeclarators(st: PState, p: PState, s: PState, r: PState, varType: TokenKind, final: bool)
    requires DeclaratorDeclares(st, p, varType, final)
    requires NextIs(p, Comma) && Upcoming(s) == Upcoming(p)[1..] && s.env == p.env
    requires DeclaratorsDeclare(s, r, varType, final)
    ensures DeclaratorsDeclare(st, r, varType, final)
  {
    ConsumedAround(st, p, s, r);
    var c1, t, c2 := Consumed(st, p), p.next.value, Consumed(s, r);
    DeclaratorThenMore(c1, t, c2, varType, final);
    DeclaredThen(st.env, p.env, r.env, DeclaredVariable(c1, varType, final), DeclaredVariables(c2, varType, final));
  }

  /** The loop over the declarators of a non-final declaration reads a
      comma-separated list of names, each with an optional value, and
      declares each name, new to the innermost scope and to the names before
      it, bound to a new store entry: initialized when it was given a value,
      uninitialized otherwise. Outer scopes are kept. */
  lemma {:induction false} NonFinalDeclaratorsDeclare(st: PState, varType: TokenKind)
    requires WellFormed(st.env) && NonFinalDeclarators(st, varType).Success?
    ensures DeclaratorsDeclare(st, NonFinalDeclarators(st, varType).value, varType, false)
    decreases Left(st)
  {
    var p := NonFinalDeclarator(st, varType).value;
    NonFinalDeclaratorDeclares(st, varType);
    if NextIs(p, Comma) {
      var s := Advance(p).value;
      NonFinalDeclaratorsDeclare(s, varType);
      MoreDeclarators(st, p, s, NonFinalDeclarators(s, varType).value, varType, false);
    } else {
      LastDeclarator(st, p, varType, false);
    }
  }

  /** The loop over the declarators of a final declaration reads a
      comma-separated list of names, each with `=` and a value, and declares
      each name, new to the innermost scope and to the names before it, bound
      to a new store entry, final and initialized. Outer scopes are kept. */
  lemma {:induction false} FinalDeclaratorsDeclare(st: PState, varType: TokenKind)
    requires WellFormed(st.env) && FinalDeclarators(st, varType).Success?
    ensures DeclaratorsDeclare(st, FinalDeclarators(st, varType).value, varType, true)
    decreases Left(st)
  {
    var p := FinalDeclarator(st, varType).value;
    FinalDeclaratorDeclares(st, varType);
    if NextIs(p, Comma) {
      var s := Advance(p).value;
      FinalDeclaratorsDeclare(s, varType);
      MoreDeclarators(st, p, s, FinalDeclarators(s, varType).value, varType, true);
    } else {
      LastDeclarator(st, p, varType, true);
    }
  }

  /** `skip` tokens, a declarator list and `;`, read in turn. */
  lemma ListThenSemicolon(st: PState, s1: PState, s2: PState, r: PState, skip: nat, varType: TokenKind, final: bool)
    requires skip <= 1 && Later(st, s1) && |Consumed(st, s1)| == skip && s1.env == st.env
    requires DeclaratorsDeclare(s1, s2, varType, final)
    requires NextIs(s2, Semicolon) && Upcoming(r) == Upcoming(s2)[1..] && r.env == s2.env && r.next.None?
    ensures LineDeclares(st, r, skip, varType, final)
  {
    ConsumedOne(s2, r);
    ConsumedThen(s1, s2, r);
    ConsumedThen(st, s1, r);
    var c := Consumed(st, r);
    assert c == Consumed(st, s1) + Consumed(s1, s2) + [s2.next.value];
    assert c[skip..|c| - 1] == Consumed(s1, s2);
  }

  lemma NothingConsumed(st: PState)
    ensures Later(st, st) && Consumed(st, st) == []
  {
    assert Upcoming(st)[|Upcoming(st)|..] == [];
  }

  /** A non-final declaration line: a declarator list and `;`, with the
      list's variables declared. */
  lemma NonFinalDeclarationDeclares(st: PState, varType: TokenKind)
    requires WellFormed(st.env) && ParseNonFinalVariableDeclaration(st, varType).Success?
    ensures LineDeclares(st, ParseNonFinalVariableDeclaration(st, varType).value, 0, varType, false)
  {
    var s1 := NonFinalDeclarators(st, varType).value;
    var s2 := Expect(s1, Semicolon).value;
    NonFinalDeclaratorsDeclare(st, varType);
    NothingConsumed(st);
    ListThenSemicolon(st, st, s1, s2, 0, varType, false);
  }

  /** A final declaration line: the type, a declarator list, each with a
      value, and `;`, with the list's variables declared final. */
  lemma FinalDeclarationDeclares(st: PState, varType: TokenKind)
    requires WellFormed(st.env) && ParseFinalVariableDeclaration(st, varType).Success?
    ensures NextIs(st, varType) && LineDeclares(st, ParseFinalVariableDeclaration(st, varType).value, 1, varType, true)
  {
    var s1 := Expect(st, varType).value;
    var s2 := FinalDeclarators(s1, varType).value;
    var s3 := Expect(s2, Semicolon).value;
    FinalDeclaratorsDeclare(s1, varType);
    ConsumedOne(st, s1);
    ListThenSemicolon(st, s1, s2, s3, 1, varType, true);
  }

  /** `parseVariableDeclaration` declares the variables of its line: final
      ones of the type after `final`, or non-final ones of the type the line
      starts with. */
  lemma VariableDeclarationDeclares(st: PState)
    requires WellFormed(st.env) && st.curr.Some? && ParseVariableDeclaration(st).Success?
    ensures var r := ParseVariableDeclaration(st).value;
      if st.curr.value.kind == TokenKind.Final then st.next.Some? && LineDeclares(st, r, 1, st.next.value.kind, true)
      else LineDeclares(st, r, 0, st.curr.value.kind, false)
  {
    if st.curr.value.kind == TokenKind.Final {
      FinalDeclarationDeclares(st, st.next.value.kind);
    } else {
      NonFinalDeclarationDeclares(st, st.curr.value.kind);
    }
  }

  /** The value after a declarator's `=` fits a `varType` variable: its token
      kind has a row, an identifier value is usable as that type, and the
      tokenizer can go on past it. */
  ghost predicate ValueFits(st: PState, varType: TokenKind) {
    WellFormed(st.env) && st.next.Some? && !(st.rest.tokens == [] && st.rest.failsAfter)
    && AssignmentRow(varType).Some? && st.next.value.kind in AssignmentRow(varType).value
    && (st.next.value.kind == Id ==> VerifyVariableUsage(st.env, varType, Name(st.next)).Pass?)
  }

  /** A declarator naming a variable the innermost scope already holds is
      refused. Without a value, and with a value that fits, it is refused
      because the name is taken. */
  lemma HeldNameRefused(st: PState, varType: TokenKind)
    requires WellFormed(st.env) && NextIs(st, Id) && Find(st.env.chain[0].vars, Name(st.next)).Some?
    ensures NonFinalDeclarator(st, varType).Failure? && FinalDeclarator(st, varType).Failure?
    ensures Advance(st).Success? && !NextIs(Advance(st).value, Equals) ==>
      NonFinalDeclarator(st, varType) == Failure(VariableAlreadyDeclared)
    ensures (Advance(st).Success? && NextIs(Advance(st).value, Equals) && Advance(Advance(st).value).Success?
        && ValueFits(Advance(Advance(st).value).value, varType)) ==>
      NonFinalDeclarator(st, varType) == FinalDeclarator(st, varType) == Failure(VariableAlreadyDeclared)
  {
    if Advance(st).Success? {
      var s1 := Advance(st).value;
      assert Expect(st, Id) == Success(s1);
      OptionalAssignmentRefused(s1, varType);
      AssignmentRefused(s1, varType);
    }
  }

  /** The value part of a non-final declarator of a held name fails. */
  lemma OptionalAssignmentRefused(s1: PState, varType: TokenKind)
    requires WellFormed(s1.env) && Find(s1.env.chain[0].vars, Name(s1.curr)).Some?
    ensures MatchOptionalAssignment(s1, Name(s1.curr), varType).Failure?
    ensures !NextIs(s1, Equals) ==> MatchOptionalAssignment(s1, Name(s1.curr), varType) == Failure(VariableAlreadyDeclared)
    ensures NextIs(s1, Equals) && Advance(s1).Success? && ValueFits(Advance(s1).value, varType) ==>
      MatchOptionalAssignment(s1, Name(s1.curr), varType) == Failure(VariableAlreadyDeclared)
  {
    if NextIs(s1, Equals) && Advance(s1).Success? {
      DeclaredAttributes(varType);
      HeldNameRefusedAfterEquals(Advance(s1).value, Name(s1.curr), Built(varType, [Initialized]), varType);
    }
  }

  /** The value part of a final declarator of a held name fails. */
  lemma AssignmentRefused(s1: PState, varType: TokenKind)
    requires WellFormed(s1.env) && Find(s1.env.chain[0].vars, Name(s1.curr)).Some?
    ensures MatchAssignment(s1, varType).Failure?
    ensures NextIs(s1, Equals) && Advance(s1).Success? && ValueFits(Advance(s1).value, varType) ==>
      MatchAssignment(s1, varType) == Failure(VariableAlreadyDeclared)
  {
    if NextIs(s1, Equals) && Advance(s1).Success? {
      DeclaredAttributes(varType);
      HeldNameRefusedAfterEquals(Advance(s1).value, Name(s1.curr), Built(varType, [Attribute.Final, Initialized]), varType);
    }
  }

  /** After `=`, a declaration of a held name fails, and fails because the
      name is taken when the value fits. */
  lemma HeldNameRefusedAfterEquals(s2: PState, name: string, info: VarInfo, varType: TokenKind)
    requires WellFormed(s2.env) && Find(s2.env.chain[0].vars, name).Some? && info.varType == varType
    ensures AddToScopeIfSemanticallyCorrect(s2, name, info).Failure?
    ensures ValueFits(s2, varType) ==> AddToScopeIfSemanticallyCorrect(s2, name, info) == Failure(VariableAlreadyDeclared)
  {
    if ValueFits(s2, varType) {
      var s3 := Advance(s2).value;
      assert MatchAssignmentTokenType(s2, varType) == Success(s3);
      assert VerifyUsageIfNecessary(s3, varType).Pass?;
    }
  }

  /** The first declarator the parser reads is the first declarator of a list
      the tokens start with, and when the list goes on a comma follows it. */
  lemma FirstDeclaratorRead(st: PState, p: PState, c: seq<Token>, final: bool)
    requires Later(st, p) && OneDeclarator(Consumed(st, p), final) && Coherent(p)
    requires |Consumed(st, p)| == 1 ==> !NextIs(p, Equals)
    requires DeclaratorTokens(c, final) && |c| <= Left(st) && c == Upcoming(st)[..|c|]
    requires |c| > DeclaratorWidth(c)
    ensures Consumed(st, p) == c[..DeclaratorWidth(c)] && NextIs(p, Comma)
    ensures Upcoming(p) == Upcoming(st)[DeclaratorWidth(c)..]
  {
    var u, k := Upcoming(st), |Consumed(st, p)|;
    assert Consumed(st, p) == u[..k] && Upcoming(p) == u[k..];
    if |u| > k {
      assert p.next == Some(u[k]);
    }
    FirstDeclaratorMatch(u, Consumed(st, p), c, final);
  }

  /** A declarator at the start of `u`, not followed by `=` when it is a
      name alone, is the first declarator of a longer list `u` starts with,
      and a comma follows it. */
  lemma FirstDeclaratorMatch(u: seq<Token>, c1: seq<Token>, c: seq<Token>, final: bool)
    requires OneDeclarator(c1, final) && |c1| <= |u| && c1 == u[..|c1|]
    requires |c1| == 1 && |u| > 1 ==> u[1].kind != Equals
    requires DeclaratorTokens(c, final) && |c| <= |u| && c == u[..|c|] && |c| > DeclaratorWidth(c)
    ensures |c1| == DeclaratorWidth(c) && c1 == c[..|c1|] && u[|c1|].kind == Comma
  {
    assert c[1] == u[1];
  }

  /** A non-final declarator list the tokens start with fails when one of
      its names is held by the innermost scope, or repeats a name before it. */
  lemma {:induction false} NonFinalDeclaratorsRefuse(st: PState, varType: TokenKind, c: seq<Token>)
    requires WellFormed(st.env) && Coherent(st)
    requires DeclaratorTokens(c, false) && |c| <= Left(st) && c == Upcoming(st)[..|c|]
    requires !FreshNames(ToMap<Ref>(st.env.chain[0].vars).Keys, DeclaredVariables(c, varType, false))
    ensures NonFinalDeclarators(st, varType).Failure?
    decreases Left(st), 1
  {
    var name := DeclaredVariable(c, varType, false).0;
    ToMapFind(st.env.chain[0].vars, name);
    TokensStartWith(st, c);
    if name in ToMap<Ref>(st.env.chain[0].vars) {
      HeldNameRefused(st, varType);
    } else {
      NonFinalRepeatRefused(st, varType, c);
    }
  }

  /** The case of a first name new to the innermost scope: a later name is
      held or repeated. */
  lemma {:induction false} NonFinalRepeatRefused(st: PState, varType: TokenKind, c: seq<Token>)
    requires WellFormed(st.env) && Coherent(st)
    requires DeclaratorTokens(c, false) && |c| <= Left(st) && c == Upcoming(st)[..|c|]
    requires !FreshNames(ToMap<Ref>(st.env.chain[0].vars).Keys, DeclaredVariables(c, varType, false))
    requires DeclaredVariable(c, varType, false).0 !in ToMap<Ref>(st.env.chain[0].vars).Keys
    ensures NonFinalDeclarators(st, varType).Failure?
    decreases Left(st), 0
  {
    if NonFinalDeclarator(st, varType).Success? {
      var p := NonFinalDeclarator(st, varType).value;
      NonFinalDeclaratorContinues(st, varType, c);
      if Advance(p).Success? {
        var s := Advance(p).value;
        NonFinalDeclaratorsRefuse(s, varType, c[DeclaratorWidth(c) + 1..]);
        assert NonFinalDeclarators(st, varType) == NonFinalDeclarators(s, varType);
      }
    }
  }

  /** A final declarator list the tokens start with fails when one of its
      names is held by the innermost scope, or repeats a name before it. */
  lemma {:induction false} FinalDeclaratorsRefuse(st: PState, varType: TokenKind, c: seq<Token>)
    requires WellFormed(st.env) && Coherent(st)
    requires DeclaratorTokens(c, true) && |c| <= Left(st) && c == Upcoming(st)[..|c|]
    requires !FreshNames(ToMap<Ref>(st.env.chain[0].vars).Keys, DeclaredVariables(c, varType, true))
    ensures FinalDeclarators(st, varType).Failure?
    decreases Left(st), 1
  {
    var name := DeclaredVariable(c, varType, true).0;
    ToMapFind(st.env.chain[0].vars, name);
    TokensStartWith(st, c);
    if name in ToMap<Ref>(st.env.chain[0].vars) {
      HeldNameRefused(st, varType);
    } else {
      FinalRepeatRefused(st, varType, c);
    }
  }

  /** The case of a first name new to the innermost scope: a later name is
      held or repeated. */
  lemma {:induction false} FinalRepeatRefused(st: PState, varType: TokenKind, c: seq<Token>)
    requires WellFormed(st.env) && Coherent(st)
    requires DeclaratorTokens(c, true) && |c| <= Left(st) && c == Upcoming(st)[..|c|]
    requires !FreshNames(ToMap<Ref>(st.env.chain[0].vars).Keys, DeclaredVariables(c, varType, true))
    requires DeclaredVariable(c, varType, true).0 !in ToMap<Ref>(st.env.chain[0].vars).Keys
    ensures FinalDeclarators(st, varType).Failure?
    decreases Left(st), 0
  {
    if FinalDeclarator(st, varType).Success? {
      var p := FinalDeclarator(st, varType).value;
      FinalDeclaratorContinues(st, varType, c);
      if Advance(p).Success? {
        var s := Advance(p).value;
        FinalDeclaratorsRefuse(s, varType, c[DeclaratorWidth(c) + 1..]);
        assert FinalDeclarators(st, varType) == FinalDeclarators(s, varType);
      }
    }
  }

  /** Tokens a coherent state starts with begin at its lookahead. */
  lemma TokensStartWith(st: PState, c: seq<Token>)
    requires Coherent(st) && 1 <= |c| <= Left(st) && c == Upcoming(st)[..|c|]
    ensures st.next == Some(c[0])
  {
    assert Upcoming(st)[0] == c[0];
  }

  /** The first declarator of a non-final list whose first name is new and
      whose names are not all new is followed by a comma and the rest. */
  lemma NonFinalDeclaratorContinues(st: PState, varType: TokenKind, c: seq<Token>)
    requires WellFormed(st.env) && Coherent(st) && NonFinalDeclarator(st, varType).Success?
    requires DeclaratorTokens(c, false) && |c| <= Left(st) && c == Upcoming(st)[..|c|]
    requires !FreshNames(ToMap<Ref>(st.env.chain[0].vars).Keys, DeclaredVariables(c, varType, false))
    requires DeclaredVariable(c, varType, false).0 !in ToMap<Ref>(st.env.chain[0].vars).Keys
    ensures var p := NonFinalDeclarator(st, varType).value;
      NextIs(p, Comma) && |c| > DeclaratorWidth(c)
      && (Advance(p).Success? ==>
        var s := Advance(p).value;
        var more := c[DeclaratorWidth(c) + 1..];
        WellFormed(s.env) && Coherent(s) && Left(s) < Left(st)
        && DeclaratorTokens(more, false) && |more| <= Left(s) && more == Upcoming(s)[..|more|]
        && !FreshNames(ToMap<Ref>(s.env.chain[0].vars).Keys, DeclaredVariables(more, varType, false)))
  {
    NonFinalDeclaratorDeclares(st, varType);
    ListContinues(st, NonFinalDeclarator(st, varType).value, c, varType, false);
  }

  /** The first declarator of a final list whose first name is new and
      whose names are not all new is followed by a comma and the rest. */
  lemma FinalDeclaratorContinues(st: PState, varType: TokenKind, c: seq<Token>)
    requires WellFormed(st.env) && Coherent(st) && FinalDeclarator(st, varType).Success?
    requires DeclaratorTokens(c, true) && |c| <= Left(st) && c == Upcoming(st)[..|c|]
    requires !FreshNames(ToMap<Ref>(st.env.chain[0].vars).Keys, DeclaredVariables(c, varType, true))
    requires DeclaredVariable(c, varType, true).0 !in ToMap<Ref>(st.env.chain[0].vars).Keys
    ensures var p := FinalDeclarator(st, varType).value;
      NextIs(p, Comma) && |c| > DeclaratorWidth(c)
      && (Advance(p).Success? ==>
        var s := Advance(p).value;
        var more := c[DeclaratorWidth(c) + 1..];
        WellFormed(s.env) && Coherent(s) && Left(s) < Left(st)
        && DeclaratorTokens(more, true) && |more| <= Left(s) && more == Upcoming(s)[..|more|]
        && !FreshNames(ToMap<Ref>(s.env.chain[0].vars).Keys, DeclaredVariables(more, varType, true)))
  {
    FinalDeclaratorDeclares(st, varType);
    ListContinues(st, FinalDeclarator(st, varType).value, c, varType, true);
  }

  /** When the first declarator of a list whose names are not all new was
      read and declared, a comma follows, and past it the rest of the list
      starts the tokens and holds a name the innermost scope already has. */
  lemma ListContinues(st: PState, p: PState, c: seq<Token>, varType: TokenKind, final: bool)
    requires WellFormed(st.env) && Coherent(st) && Step(st, p) && DeclaratorDeclares(st, p, varType, final)
    requires |Consumed(st, p)| == 1 ==> !NextIs(p, Equals)
    requires DeclaratorTokens(c, final) && |c| <= Left(st) && c == Upcoming(st)[..|c|]
    requires !FreshNames(ToMap<Ref>(st.env.chain[0].vars).Keys, DeclaredVariables(c, varType, final))
    requires DeclaredVariable(c, varType, final).0 !in ToMap<Ref>(st.env.chain[0].vars).Keys
    ensures NextIs(p, Comma) && |c| > DeclaratorWidth(c)
    ensures Advance(p).Success? ==>
      var s := Advance(p).value;
      var more := c[DeclaratorWidth(c) + 1..];
      WellFormed(s.env) && Coherent(s) && Left(s) < Left(st)
      && DeclaratorTokens(more, final) && |more| <= Left(s) && more == Upcoming(s)[..|more|]
      && !FreshNames(ToMap<Ref>(s.env.chain[0].vars).Keys, DeclaredVariables(more, varType, final))
  {
    var more := RestOfList(c, varType, final, ToMap<Ref>(st.env.chain[0].vars).Keys);
    FirstDeclaratorRead(st, p, c, final);
    if Advance(p).Success? {
      ListGoesOn(st, p, Advance(p).value, c, varType, final);
    }
  }

  /** A list whose names are not all new, and whose first name is new, goes
      on past its first declarator with names not all new after it. */
  lemma RestOfList(c: seq<Token>, varType: TokenKind, final: bool, used: set<string>) returns (more: seq<Token>)
    requires DeclaratorTokens(c, final) && !FreshNames(used, DeclaredVariables(c, varType, final))
    requires DeclaredVariable(c, varType, final).0 !in used
    ensures |c| > DeclaratorWidth(c) && more == c[DeclaratorWidth(c) + 1..] && DeclaratorTokens(more, final)
    ensures !FreshNames(used + {DeclaredVariable(c, varType, final).0}, DeclaredVariables(more, varType, final))
  {
    var w := DeclaratorWidth(c);
    var d := DeclaredVariable(c, varType, final);
    var after := if |c| > w then DeclaredVariables(c[w + 1..], varType, final) else [];
    assert DeclaredVariables(c, varType, final) == [d] + after;
    DeclaredFirstFresh(d, after, used);
    assert after != [];
    more := c[w + 1..];
  }

  lemma DeclaredFirstFresh(d: (string, VarInfo), ps: seq<(string, VarInfo)>, used: set<string>)
    ensures FreshNames(used, [d] + ps) <==> d.0 !in used && FreshNames(used + {d.0}, ps)
  {
    assert ([d] + ps)[1..] == ps;
  }

  /** Past the first declarator and its comma, the rest of the list is what
      the tokens start with, and the innermost scope holds the first name. */
  lemma ListGoesOn(st: PState, p: PState, s: PState, c: seq<Token>, varType: TokenKind, final: bool)
    requires DeclaratorDeclares(st, p, varType, final) && Step(st, p) && Coherent(p)
    requires DeclaratorTokens(c, final) && |c| > DeclaratorWidth(c) && Consumed(st, p) == c[..DeclaratorWidth(c)]
    requires |c| <= Left(st) && Upcoming(p) == Upcoming(st)[DeclaratorWidth(c)..] && c == Upcoming(st)[..|c|]
    requires p.next.Some? && Upcoming(s) == Upcoming(p)[1..] && s.env == p.env && Coherent(s)
    ensures WellFormed(s.env) && Left(s) < Left(st)
    ensures var more := c[DeclaratorWidth(c) + 1..];
      |more| <= Left(s) && more == Upcoming(s)[..|more|]
    ensures ToMap<Ref>(s.env.chain[0].vars).Keys == ToMap<Ref>(st.env.chain[0].vars).Keys + {DeclaredVariable(c, varType, final).0}
  {
    var d := DeclaredVariable(Consumed(st, p), varType, final);
    assert d.0 == DeclaredVariable(c, varType, final).0;
    OneDeclaredKeys(st.env, p.env, d);
    RestAfterComma(Upcoming(st), Upcoming(p), Upcoming(s), c, DeclaratorWidth(c));
  }

  /** One declaration adds its name to the innermost scope's names. */
  lemma OneDeclaredKeys(before: Env, after: Env, d: (string, VarInfo))
    requires VarsDeclared(before, after, [d])
    ensures ToMap<Ref>(after.chain[0].vars).Keys == ToMap<Ref>(before.chain[0].vars).Keys + {d.0}
  {
    DeclaredFirst(d, [], ToMap<Ref>(before.chain[0].vars), |before.store|);
    assert [d] + [] == [d];
  }

  /** Past `w` tokens and a comma, the tokens start with the rest of `c`. */
  lemma RestAfterComma(u: seq<Token>, v: seq<Token>, x: seq<Token>, c: seq<Token>, w: nat)
    requires w < |c| <= |u| && v == u[w..] && |v| >= 1 && x == v[1..] && c == u[..|c|]
    ensures |c[w + 1..]| <= |x| && c[w + 1..] == x[..|c[w + 1..]|]
  {
    var more := c[w + 1..];
    assert x == u[w + 1..];
    forall i | 0 <= i < |more| ensures more[i] == x[i] {
      assert more[i] == c[w + 1 + i];
    }
  }

  /** `int a = 5, a = 7;` and the like: a name declared twice on one line is
      refused. */
  lemma SameNameTwiceRefused(st: PState, varType: TokenKind, first: Token, second: Token, e1: Token, v1: Token, comma: Token, e2: Token, v2: Token)
    requires WellFormed(st.env) && Coherent(st)
    requires first.kind == Id && second.kind == Id && first.value == second.value
    requires e1.kind == Equals && e2.kind == Equals && comma.kind == Comma
    requires |Upcoming(st)| >= 7 && Upcoming(st)[..7] == [first, e1, v1, comma, second, e2, v2]
    ensures NonFinalDeclarators(st, varType).Failure? && ParseNonFinalVariableDeclaration(st, varType).Failure?
  {
    var c := [first, e1, v1, comma, second, e2, v2];
    assert c[..3] == [first, e1, v1] && c[4..] == [second, e2, v2] && c[4..][..3] == c[4..];
    var d := DeclaredVariable(c, varType, false);
    assert DeclaredVariables(c, varType, false) == [d] + DeclaredVariables(c[4..], varType, false);
    assert DeclaredVariables(c[4..], varType, false) == [d];
    DeclaredFirstFresh(d, [d], ToMap<Ref>(st.env.chain[0].vars).Keys);
    DeclaredFirstFresh(d, [], ToMap<Ref>(st.env.chain[0].vars).Keys + {d.0});
    assert [d] + [] == [d];
    NonFinalDeclaratorsRefuse(st, varType, c);
  }

  /** `final int a;`: a final declarator without a value is refused for the
      missing `=`. */
  lemma FinalWithoutValueRefused(st: PState, t: Token, name: Token, semicolon: Token)
    requires WellFormed(st.env) && Coherent(st)
    requires name.kind == Id && semicolon.kind == Semicolon && Upcoming(st) == [t, name, semicolon]
    ensures ParseFinalVariableDeclaration(st, t.kind) == Failure(UnexpectedTokenType(Some(Equals)))
  {
    TokensStartWith(st, Upcoming(st));
    var s1 := Advance(st).value;
    assert Expect(st, t.kind) == Success(s1);
    TokensStartWith(s1, Upcoming(s1));
    var s2 := Advance(s1).value;
    assert Expect(s1, Id) == Success(s2);
    TokensStartWith(s2, Upcoming(s2));
    FinalNeedsInitializer(s2, t.kind);
    assert FinalDeclarator(s1, t.kind) == MatchAssignment(s2, t.kind);
    assert FinalDeclarators(s1, t.kind) == Failure(UnexpectedTokenType(Some(Equals)));
  }

  // ---- condition and call lines ----

  /** The tokens between `st` and `r`: an opening token, a middle run, and two
      closing tokens, each single step as `Expect` takes it. */
  lemma Enclosed(st: PState, s1: PState, s2: PState, s3: PState, r: PState)
    requires st.next.Some? && Upcoming(s1) == Upcoming(st)[1..] && Later(s1, s2)
    requires s2.next.Some? && Upcoming(s3) == Upcoming(s2)[1..]
    requires s3.next.Some? && Upcoming(r) == Upcoming(s3)[1..]
    ensures Later(st, r)
    ensures var c := Consumed(st, r);
      |c| >= 3 && c[0] == st.next.value && c[|c| - 2] == s2.next.value && c[|c| - 1] == s3.next.value
      && c[1..|c| - 2] == Consumed(s1, s2)
  {
    ConsumedOne(st, s1);
    ConsumedOne(s2, s3);
    ConsumedOne(s3, r);
    ConsumedThen(s2, s3, r);
    ConsumedThen(s1, s2, r);
    ConsumedThen(st, s1, r);
    var c := Consumed(st, r);
    assert c == [st.next.value] + Consumed(s1, s2) + [s2.next.value, s3.next.value];
  }

  /** An accepted `if`/`while` header is `(`, a condition, `)` and `{`, and
      nothing after. */
  lemma ConditionalLineChecked(st: PState)
    requires WellFormed(st.env) && ParseConditional(st).Success?
    ensures var r := ParseConditional(st).value;
      Later(st, r) && r.next.None? && r.env == st.env
      && var c := Consumed(st, r);
      |c| >= 4 && c[0].kind == LParen && c[|c| - 2].kind == RParen && c[|c| - 1].kind == LBrace
      && ConditionTokens(st.env, c[1..|c| - 2])
  {
    var s1 := Expect(st, LParen).value;
    var s2 := Conditions(s1).value;
    var s3 := Expect(s2, RParen).value;
    var s4 := Expect(s3, LBrace).value;
    assert ParseConditional(st) == End(s4);
    ConditionLine(st.env, st, s1, s2, s3, s4);
  }

  lemma ConditionLine(env: Env, st: PState, s1: PState, s2: PState, s3: PState, r: PState)
    requires WellFormed(env)
    requires NextIs(st, LParen) && Upcoming(s1) == Upcoming(st)[1..]
    requires Later(s1, s2) && ConditionTokens(env, Consumed(s1, s2))
    requires NextIs(s2, RParen) && Upcoming(s3) == Upcoming(s2)[1..]
    requires NextIs(s3, LBrace) && Upcoming(r) == Upcoming(s3)[1..]
    ensures Later(st, r)
    ensures var c := Consumed(st, r);
      |c| >= 4 && c[0].kind == LParen && c[|c| - 2].kind == RParen && c[|c| - 1].kind == LBrace
      && ConditionTokens(env, c[1..|c| - 2])
  {
    Enclosed(st, s1, s2, s3, r);
  }

  /** An accepted method call names a visible method and is `(`, one argument
      per parameter as `ArgumentTokens` states, `)` and `;`, and nothing after. */
  lemma MethodCallChecked(st: PState)
    requires WellFormed(st.env) && ParseMethodCalling(st).Success?
    ensures LookupMethod(st.env, Name(st.curr)).Success?
    ensures RefsBelow(LookupMethod(st.env, Name(st.curr)).value.params, |st.env.store|)
    ensures var m := LookupMethod(st.env, Name(st.curr)).value;
      var r := ParseMethodCalling(st).value;
      Later(st, r) && r.next.None? && r.env == st.env
      && var c := Consumed(st, r);
      |c| >= 3 && c[0].kind == LParen && c[|c| - 2].kind == RParen && c[|c| - 1].kind == Semicolon
      && ArgumentTokens(st.env, m.params, c[1..|c| - 2])
  {
    var s1 := Expect(st, LParen).value;
    assert MatchParameters(s1, Name(st.curr)).Success?;
    var m := LookupMethod(st.env, Name(st.curr)).value;
    LookupMethodOk(st.env, Name(st.curr));
    var s2 := MatchParameters(s1, Name(st.curr)).value;
    assert MatchArguments(s1, m.params) == Success(s2);
    var s3 := Expect(s2, RParen).value;
    var s4 := Expect(s3, Semicolon).value;
    assert ParseMethodCalling(st) == End(s4);
    ArgumentsMatchParameters(s1, m.params);
    CallLine(st.env, m.params, st, s1, s2, s3, s4);
  }

  lemma CallLine(env: Env, params: seq<(string, Ref)>, st: PState, s1: PState, s2: PState, s3: PState, r: PState)
    requires WellFormed(env) && RefsBelow(params, |env.store|)
    requires NextIs(st, LParen) && Upcoming(s1) == Upcoming(st)[1..]
    requires Later(s1, s2) && ArgumentTokens(env, params, Consumed(s1, s2))
    requires NextIs(s2, RParen) && Upcoming(s3) == Upcoming(s2)[1..]
    requires NextIs(s3, Semicolon) && Upcoming(r) == Upcoming(s3)[1..]
    ensures Later(st, r)
    ensures var c := Consumed(st, r);
      |c| >= 3 && c[0].kind == LParen && c[|c| - 2].kind == RParen && c[|c| - 1].kind == Semicolon
      && ArgumentTokens(env, params, c[1..|c| - 2])
  {
    Enclosed(st, s1, s2, s3, r);
  }
}
