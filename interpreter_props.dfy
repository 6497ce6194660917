/** Properties of the interpreter: how the scope handler counts braces and
    moves through the scope chain, what the first pass records, and how a
    method body must end. */
module InterpreterProperties {
  import opened Wrappers
  import opened Errors
  import opened SymbolTables
  import opened Lexing
  import opened Environments
  import opened Statements
  import opened ParserSpec
  import opened ParserProperties
  import opened InterpreterSpec

  // ---- the scope handler ------------------------------------------------------------------

  /** An opening line adds one to the depth; a closing line takes one off and
      fails exactly at depth 0; any other line changes nothing. */
  lemma AcceptCountsBraces(h: Handler, line: string)
    requires HandlerOk(h)
    ensures ShouldOpenScope(line) ==> Accept(h, Some(line)).Success? && Accept(h, Some(line)).value.depth == h.depth + 1
    ensures ShouldCloseScope(line) ==>
      (Accept(h, Some(line)).Failure? <==> h.depth == 0)
      && (h.depth == 0 ==> Accept(h, Some(line)).error == MismatchBraces)
      && (h.depth > 0 ==> Accept(h, Some(line)).value.depth == h.depth - 1)
    ensures !ShouldOpenScope(line) && !ShouldCloseScope(line) ==> Accept(h, Some(line)) == Success(h)
  {
    OpenAndCloseExclusive(line);
  }

  /** A handler that only counts never changes its scope; one that switches
      keeps the levels it started above: the held scope is always `depth`
      levels in front of the same outer chain. */
  lemma AcceptKeepsOuterChain(h: Handler, line: Option<string>)
    requires HandlerOk(h) && Accept(h, line).Success?
    ensures var h' := Accept(h, line).value;
      (h.mode == MaintainOnly ==> h'.scope == h.scope)
      && (h.mode == MaintainAndSwitch ==>
            |h'.scope.chain| - h'.depth == |h.scope.chain| - h.depth
            && h'.scope.chain[h'.depth..] == h.scope.chain[h.depth..])
  {
    var h' := Accept(h, line).value;
    if h.mode == MaintainAndSwitch && line.Some? {
      if ShouldOpenScope(line.value) {
        assert h'.scope.chain == [Level([], [])] + h.scope.chain;
        assert h'.scope.chain[h'.depth..] == h.scope.chain[h.depth..];
      } else if ShouldCloseScope(line.value) {
        assert h'.scope.chain == h.scope.chain[1..];
        assert h'.scope.chain[h'.depth..] == h.scope.chain[h.depth..];
      }
    }
  }

  /** A closing line right after an opening one gives the scope back. */
  lemma OpenThenCloseRestores(h: Handler, opening: string, closing: string)
    requires HandlerOk(h) && ShouldOpenScope(opening) && ShouldCloseScope(closing)
    ensures Accept(h, Some(opening)).Success?
    ensures Accept(Accept(h, Some(opening)).value, Some(closing)) == Success(h.(lastDepth := h.depth + 1))
  {
    OpenAndCloseExclusive(opening);
    OpenAndCloseExclusive(closing);
    var h1 := Accept(h, Some(opening)).value;
    if h.mode == MaintainAndSwitch {
      assert h1.scope.chain[1..] == h.scope.chain;
    }
  }

  // ---- the first pass ---------------------------------------------------------------------

  /** The statement kind of the line at index `i`. */
  ghost function LineStatement(lines: seq<string>, i: nat): Option<StatementKind>
    requires i < |lines|
  {
    Classify(Lex(lines[i]))
  }

  /** Line number `lineNumber` (counted from 1) declares a method. */
  ghost predicate DeclaresAt(lines: seq<string>, lineNumber: nat) {
    1 <= lineNumber <= |lines| && LineStatement(lines, lineNumber - 1) == Some(MethodDeclaration)
  }

  /** Line numbers in file order, each within the first `n` lines and each a
      method declaration. */
  ghost predicate DeclarationLines(lines: seq<string>, n: nat, decls: seq<nat>) {
    (forall i, j :: 0 <= i < j < |decls| ==> decls[i] < decls[j])
    && forall i :: 0 <= i < |decls| ==> decls[i] <= n && DeclaresAt(lines, decls[i])
  }

  /** A line inside a block is not parsed: only the handler sees it. */
  lemma NestedLinesNotParsed(line: string, lineNumber: nat, p: FirstPassState)
    requires FirstPassOk(p) && p.handler.depth > 0 && PreProcessLine(line, lineNumber, p).Success?
    ensures PreProcessLine(line, lineNumber, p).value.global == p.global
    ensures PreProcessLine(line, lineNumber, p).value.decls == p.decls
  {
  }

  /** One line of the first pass keeps the recorded lines in order and adds
      the line only when it is a method declaration. */
  lemma PreProcessRecords(lines: seq<string>, n: nat, p: FirstPassState)
    requires n < |lines| && FirstPassOk(p) && DeclarationLines(lines, n, p.decls)
    requires PreProcessLine(lines[n], n + 1, p).Success?
    ensures DeclarationLines(lines, n + 1, PreProcessLine(lines[n], n + 1, p).value.decls)
  {
    var decls := PreProcessLine(lines[n], n + 1, p).value.decls;
    if p.handler.depth == 0 {
      var parsed := ParseLine(p.global, lines[n]).value;
      ParseClassifies(p.global, Lex(lines[n]));
      assert parsed.0 == LineStatement(lines, n);
      if parsed.0 == Some(MethodDeclaration) {
        assert decls == p.decls + [n + 1];
        DeclarationAppended(lines, n, p.decls);
        return;
      }
    }
    assert decls == p.decls;
    DeclarationLinesLater(lines, n, p.decls);
  }

  lemma DeclarationAppended(lines: seq<string>, n: nat, decls: seq<nat>)
    requires n < |lines| && DeclarationLines(lines, n, decls) && LineStatement(lines, n) == Some(MethodDeclaration)
    ensures DeclarationLines(lines, n + 1, decls + [n + 1])
  {
    var d := decls + [n + 1];
    DeclaresNext(lines, n);
    forall i | 0 <= i < |d|
      ensures d[i] <= n + 1 && DeclaresAt(lines, d[i])
    {
      if i < |decls| {
        assert d[i] == decls[i];
      }
    }
  }

  lemma DeclaresNext(lines: seq<string>, n: nat)
    requires n < |lines| && LineStatement(lines, n) == Some(MethodDeclaration)
    ensures DeclaresAt(lines, n + 1)
  {
  }

  lemma DeclarationLinesLater(lines: seq<string>, n: nat, decls: seq<nat>)
    requires DeclarationLines(lines, n, decls)
    ensures DeclarationLines(lines, n + 1, decls)
  {
  }

  /** The first pass records, in file order, only lines that declare a method. */
  lemma {:induction false} FirstPassRecords(lines: seq<string>, n: nat, p: FirstPassState)
    requires n <= |lines| && FirstPassOk(p) && DeclarationLines(lines, n, p.decls)
    requires FirstPassFrom(lines, n, p).Success?
    ensures DeclarationLines(lines, |lines|, FirstPassFrom(lines, n, p).value.decls)
    decreases |lines| - n
  {
    if n < |lines| {
      PreProcessRecords(lines, n, p);
      FirstPassRecords(lines, n + 1, PreProcessLine(lines[n], n + 1, p).value);
    }
  }

  /** What a line adds to the brace depth. */
  function BraceChange(line: string): int {
    if ShouldOpenScope(line) then 1 else if ShouldCloseScope(line) then -1 else 0
  }

  /** One line of the first pass changes the depth by the line's braces and
      records the line exactly when it declares a method at depth 0. */
  lemma PreProcessStep(line: string, lineNumber: nat, p: FirstPassState)
    requires FirstPassOk(p) && PreProcessLine(line, lineNumber, p).Success?
    ensures var q := PreProcessLine(line, lineNumber, p).value;
      q.handler.depth == p.handler.depth + BraceChange(line)
      && q.decls == p.decls + if p.handler.depth == 0 && Classify(Lex(line)) == Some(MethodDeclaration) then [lineNumber] else []
  {
    AcceptCountsBraces(p.handler, line);
    OpenAndCloseExclusive(line);
    if p.handler.depth == 0 {
      ParseClassifies(p.global, Lex(line));
    }
  }

  /** The brace depth before the line at index `k`: the opening lines above
      it less the closing ones. */
  ghost function DepthBefore(lines: seq<string>, k: nat): int
    requires k <= |lines|
  {
    if k == 0 then 0 else DepthBefore(lines, k - 1) + BraceChange(lines[k - 1])
  }

  /** Line number `ln` declares a method outside every block. */
  ghost predicate DeclaresAtTop(lines: seq<string>, ln: nat) {
    1 <= ln <= |lines| && DepthBefore(lines, ln - 1) == 0 && LineStatement(lines, ln - 1) == Some(MethodDeclaration)
  }

  /** For each line, whether it declares a method outside every block. */
  ghost function TopMarks(lines: seq<string>): (marks: seq<bool>)
    ensures |marks| == |lines|
  {
    seq(|lines|, k requires 0 <= k < |lines| => DeclaresAtTop(lines, k + 1))
  }

  /** The numbers (counted from 1) of the marked positions among the first
      `n`, in order. */
  ghost function Marked(marks: seq<bool>, n: nat): seq<nat>
    requires n <= |marks|
  {
    if n == 0 then [] else Marked(marks, n - 1) + if marks[n - 1] then [n] else []
  }

  /** A number is listed exactly when its position is marked. */
  lemma {:induction false} MarkedMembers(marks: seq<bool>, n: nat)
    requires n <= |marks|
    ensures forall ln: nat :: ln in Marked(marks, n) <==> 1 <= ln <= n && marks[ln - 1]
  {
    if n > 0 {
      MarkedMembers(marks, n - 1);
    }
  }

  /** The listed numbers are in increasing order. */
  lemma {:induction false} MarkedIncreasing(marks: seq<bool>, n: nat)
    requires n <= |marks|
    ensures forall i, j :: 0 <= i < j < |Marked(marks, n)| ==> Marked(marks, n)[i] < Marked(marks, n)[j]
  {
    if n > 0 {
      MarkedIncreasing(marks, n - 1);
      MarkedMembers(marks, n - 1);
      var d := Marked(marks, n - 1);
      if marks[n - 1] {
        forall i, j | 0 <= i < j < |d| + 1
          ensures Marked(marks, n)[i] < Marked(marks, n)[j]
        {
          if j == |d| {
            assert Marked(marks, n)[i] == d[i] && d[i] in d;
          }
        }
      }
    }
  }

  /** The numbers of the lines among the first `n` that declare a method
      outside every block, in file order. */
  ghost function DeclaredLines(lines: seq<string>, n: nat): seq<nat>
    requires n <= |lines|
  {
    Marked(TopMarks(lines), n)
  }

  /** The first-pass state agrees with the lines above line `n`: its depth is
      their brace count and it has recorded their declarations. */
  ghost predicate AgreesAbove(lines: seq<string>, n: nat, p: FirstPassState)
    requires n <= |lines|
  {
    p.handler.depth == DepthBefore(lines, n) && p.decls == DeclaredLines(lines, n)
  }

  /** A state that changes by one line's braces and records the line when
      it declares a method at depth 0 agrees with the lines after it. */
  lemma AgreesBelow(lines: seq<string>, n: nat, p: FirstPassState, q: FirstPassState)
    requires n < |lines| && AgreesAbove(lines, n, p)
    requires q.handler.depth == p.handler.depth + BraceChange(lines[n])
    requires q.decls == p.decls + if p.handler.depth == 0 && LineStatement(lines, n) == Some(MethodDeclaration) then [n + 1] else []
    ensures AgreesAbove(lines, n + 1, q)
  {
    assert TopMarks(lines)[n] == DeclaresAtTop(lines, n + 1);
  }

  /** One line of the first pass keeps the state in agreement with the lines. */
  lemma PreProcessAgrees(lines: seq<string>, n: nat, p: FirstPassState)
    requires n < |lines| && FirstPassOk(p) && AgreesAbove(lines, n, p)
    requires PreProcessLine(lines[n], n + 1, p).Success?
    ensures AgreesAbove(lines, n + 1, PreProcessLine(lines[n], n + 1, p).value)
  {
    PreProcessStep(lines[n], n + 1, p);
    AgreesBelow(lines, n, p, PreProcessLine(lines[n], n + 1, p).value);
  }

  /** From a state that agrees with the lines above line `n`, the first pass
      records exactly the declarations at depth 0. */
  lemma {:induction false} FirstPassExact(lines: seq<string>, n: nat, p: FirstPassState)
    requires n <= |lines| && FirstPassOk(p) && AgreesAbove(lines, n, p)
    requires FirstPassFrom(lines, n, p).Success?
    ensures FirstPassFrom(lines, n, p).value.decls == DeclaredLines(lines, |lines|)
    decreases |lines| - n
  {
    if n < |lines| {
      var q := PreProcessLine(lines[n], n + 1, p).value;
      PreProcessAgrees(lines, n, p);
      FirstPassExact(lines, n + 1, q);
    }
  }

  /** The declared lines of a file list each line that declares a method
      outside every block, and no other, in file order. */
  lemma DeclaredLinesExactly(lines: seq<string>)
    ensures forall ln: nat :: ln in DeclaredLines(lines, |lines|) <==> DeclaresAtTop(lines, ln)
    ensures forall i, j :: 0 <= i < j < |DeclaredLines(lines, |lines|)| ==>
      DeclaredLines(lines, |lines|)[i] < DeclaredLines(lines, |lines|)[j]
  {
    var marks := TopMarks(lines);
    assert DeclaredLines(lines, |lines|) == Marked(marks, |lines|);
    MarkedMembers(marks, |lines|);
    MarkedIncreasing(marks, |lines|);
    forall ln: nat
      ensures ln in Marked(marks, |lines|) <==> DeclaresAtTop(lines, ln)
    {
      if 1 <= ln <= |lines| {
        assert marks[ln - 1] == DeclaresAtTop(lines, ln);
      }
    }
  }

  /** `doFirstPass` on the whole file records exactly its declared lines. */
  lemma FirstPassDeclarations(lines: seq<string>)
    requires FirstPass(lines).Success?
    ensures DeclarationLines(lines, |lines|, FirstPass(lines).value.1)
    ensures FirstPass(lines).value.1 == DeclaredLines(lines, |lines|)
  {
    var p0 := FirstPassState(Handler(EmptyScope(), MaintainOnly, 0, 0), EmptyScope(), []);
    FirstPassRecords(lines, 0, p0);
    FirstPassExact(lines, 0, p0);
  }

  // ---- the second pass --------------------------------------------------------------------

  /** After `skipUntil(bound)` from an earlier line the reader returns line `bound`. */
  lemma SkipThenReadsBound(lines: seq<string>, n: nat, bound: nat)
    requires n < bound <= |lines|
    ensures ReadAt(lines, SkipUntil(n, bound, |lines|)) == (Some(lines[bound - 1]), bound)
  {
  }

  /** After the parameters are added, each parameter's name resolves to its
      symbol and every other name resolves as before. */
  lemma {:induction false} ParametersResolve(scope: Env, params: seq<(string, Ref)>, name: string)
    requires WellFormed(scope) && RefsBelow(params, |scope.store|) && Sorted(params)
    requires AddParameters(scope, params).Success?
    ensures var r := AddParameters(scope, params).value;
      (Find(params, name).Some? ==> LookupVariable(r, name) == Success(Find(params, name).value))
      && (Find(params, name).None? ==> LookupVariable(r, name) == LookupVariable(scope, name))
    decreases |params|
  {
    if params != [] {
      var s1 := AddVariable(scope, params[0].0, params[0].1).value;
      AddVariableWellFormed(scope, params[0].0, params[0].1);
      SortedTail(params);
      ParametersResolve(s1, params[1..], name);
      AddVariableThenLookup(scope, params[0].0, params[0].1, name);
    }
  }

  /** A method body gets the parameters of the `ordinal`-th method of the
      global scope in ascending name order (not in file order); it fails when
      there is no such method or a parameter's name is already in the scope. */
  lemma BodyGetsOrdinalParameters(scope: Env, global: Env, ordinal: nat, lineNumber: nat, name: string)
    requires WellFormed(scope) && WellFormed(global) && |global.store| <= |scope.store|
    ensures ordinal >= |global.chain[0].methods| ==> InitScopeWithMethodParameters(scope, global, ordinal, lineNumber).Failure?
    ensures InitScopeWithMethodParameters(scope, global, ordinal, lineNumber).Success? ==>
      var params := global.chain[0].methods[ordinal].1.params;
      var r := InitScopeWithMethodParameters(scope, global, ordinal, lineNumber).value;
      (Find(params, name).Some? ==> LookupVariable(r, name) == Success(Find(params, name).value))
      && (Find(params, name).None? ==> LookupVariable(r, name) == LookupVariable(scope, name))
  {
    if ordinal < |global.chain[0].methods| && InitScopeWithMethodParameters(scope, global, ordinal, lineNumber).Success? {
      var params := global.chain[0].methods[ordinal].1.params;
      assert MethodOk(global.chain[0].methods[ordinal].1, |global.store|);
      RefsBelowGrow(params, |global.store|, |scope.store|);
      ParametersResolve(scope, params, name);
    }
  }

  /** `kinds` holds the statement kind of every line. */
  ghost predicate Classified(lines: seq<string>, kinds: seq<Option<StatementKind>>) {
    |kinds| == |lines| && forall k {:trigger LineStatement(lines, k)} :: 0 <= k < |lines| ==> kinds[k] == LineStatement(lines, k)
  }

  /** The statement of the line `back` lines before line number `m` (the
      line at index `m - back`), where the lines before index `n` were already
      read: the one before `n` as `statement`, the one before that as
      `prevStatement`, and none earlier. */
  ghost function ReadBack(kinds: seq<Option<StatementKind>>, n: nat, statement: Option<StatementKind>,
                          prevStatement: Option<StatementKind>, m: nat, back: nat): Option<StatementKind>
    requires m <= |kinds| && 1 <= back
  {
    var k := m - back;
    if k >= n then kinds[k]
    else if k == n - 1 then statement
    else if k == n - 2 then prevStatement
    else None
  }

  /** A method body that is accepted ends with a `return` line followed by a
      closing line; a blank or comment line between them is a statement too. */
  lemma {:induction false} BodyEndsWithReturn(lines: seq<string>, kinds: seq<Option<StatementKind>>, n: nat, h: Handler,
                                              statement: Option<StatementKind>, prevStatement: Option<StatementKind>)
    requires n <= |lines| && Classified(lines, kinds) && HandlerOk(h) && h.mode == MaintainAndSwitch
    requires ProcessMethodFrom(lines, n, h, statement, prevStatement).Success?
    ensures var m := ProcessMethodFrom(lines, n, h, statement, prevStatement).value.0;
      ReadBack(kinds, n, statement, prevStatement, m, 1) == Some(StatementKind.CloseScope)
      && ReadBack(kinds, n, statement, prevStatement, m, 2) == Some(ReturnStatement)
    decreases |lines| - n, 1
  {
    if n == |lines| {
      ReadBackAtStart(kinds, n, statement, prevStatement);
    } else {
      var h1 := Accept(h, Some(lines[n])).value;
      LineKind(lines, kinds, n, h1.scope);
      if h1.depth != 0 {
        BodyEndsWithReturnStep(lines, kinds, n, h, statement, prevStatement);
      } else {
        ReadBackAfterOne(kinds, n, statement, prevStatement);
      }
    }
  }

  /** The inductive step of `BodyEndsWithReturn`: a line that leaves the body
      open shifts the remembered statements by one. */
  lemma {:induction false} BodyEndsWithReturnStep(lines: seq<string>, kinds: seq<Option<StatementKind>>, n: nat, h: Handler,
                                                  statement: Option<StatementKind>, prevStatement: Option<StatementKind>)
    requires n < |lines| && Classified(lines, kinds) && HandlerOk(h) && h.mode == MaintainAndSwitch
    requires ProcessMethodFrom(lines, n, h, statement, prevStatement).Success?
    requires Accept(h, Some(lines[n])).Success? && Accept(h, Some(lines[n])).value.depth != 0
    ensures var m := ProcessMethodFrom(lines, n, h, statement, prevStatement).value.0;
      ReadBack(kinds, n, statement, prevStatement, m, 1) == Some(StatementKind.CloseScope)
      && ReadBack(kinds, n, statement, prevStatement, m, 2) == Some(ReturnStatement)
    decreases |lines| - n, 0
  {
    var h1 := Accept(h, Some(lines[n])).value;
    LineKind(lines, kinds, n, h1.scope);
    var h2 := h1.(scope := ParseLine(h1.scope, lines[n]).value.1);
    assert ProcessMethodFrom(lines, n, h, statement, prevStatement) == ProcessMethodFrom(lines, n + 1, h2, kinds[n], statement);
    BodyEndsWithReturn(lines, kinds, n + 1, h2, kinds[n], statement);
    ReadBackShift(kinds, n, statement, prevStatement, ProcessMethodFrom(lines, n + 1, h2, kinds[n], statement).value.0);
  }

  /** A line that parses is classified as `kinds` says. */
  lemma LineKind(lines: seq<string>, kinds: seq<Option<StatementKind>>, n: nat, scope: Env)
    requires n < |lines| && Classified(lines, kinds) && WellFormed(scope)
    ensures ParseLine(scope, lines[n]).Success? ==> ParseLine(scope, lines[n]).value.0 == kinds[n]
  {
    if ParseLine(scope, lines[n]).Success? {
      ParseClassifies(scope, Lex(lines[n]));
      assert ParseLine(scope, lines[n]).value.0 == LineStatement(lines, n);
    }
  }

  /** Right after line `n` the statements read last are the remembered ones. */
  lemma ReadBackAtStart(kinds: seq<Option<StatementKind>>, n: nat, statement: Option<StatementKind>,
                        prevStatement: Option<StatementKind>)
    requires n <= |kinds|
    ensures ReadBack(kinds, n, statement, prevStatement, n, 1) == statement
    ensures ReadBack(kinds, n, statement, prevStatement, n, 2) == prevStatement
  {
  }

  /** One line after line `n` the statements read last are that line's and
      the one remembered last. */
  lemma ReadBackAfterOne(kinds: seq<Option<StatementKind>>, n: nat, statement: Option<StatementKind>,
                         prevStatement: Option<StatementKind>)
    requires n < |kinds|
    ensures ReadBack(kinds, n, statement, prevStatement, n + 1, 1) == kinds[n]
    ensures ReadBack(kinds, n, statement, prevStatement, n + 1, 2) == statement
  {
  }

  /** Reading one more line moves the two remembered statements along. */
  lemma ReadBackShift(kinds: seq<Option<StatementKind>>, n: nat, statement: Option<StatementKind>,
                      prevStatement: Option<StatementKind>, m: nat)
    requires n < m <= |kinds|
    ensures ReadBack(kinds, n + 1, kinds[n], statement, m, 1) == ReadBack(kinds, n, statement, prevStatement, m, 1)
    ensures ReadBack(kinds, n + 1, kinds[n], statement, m, 2) == ReadBack(kinds, n, statement, prevStatement, m, 2)
  {
  }

  /** From the line after the declaration: the last two lines of an accepted
      body are a `return` and a closing line, so a body has at least two lines. */
  lemma MethodBodyShape(lines: seq<string>, n: nat, h: Handler)
    requires n <= |lines| && HandlerOk(h) && h.mode == MaintainAndSwitch
    requires ProcessMethodFrom(lines, n, h, None, None).Success?
    ensures var m := ProcessMethodFrom(lines, n, h, None, None).value.0;
      n + 2 <= m && LineStatement(lines, m - 2) == Some(ReturnStatement)
      && LineStatement(lines, m - 1) == Some(StatementKind.CloseScope)
  {
    BodyEndsWithReturn(lines, Kinds(lines), n, h, None, None);
    FirstReadLines(lines, Kinds(lines), n, ProcessMethodFrom(lines, n, h, None, None).value.0);
  }

  /** A successful method pass from before its declaration line is the body
      processed from the line after it, with a switching handler, so that
      `MethodBodyShape` describes the lines it reads. */
  lemma MethodPassIsBody(lines: seq<string>, decls: seq<nat>, ordinal: nat, n: nat, global: Env) returns (h: Handler)
    requires ordinal < |decls| && n < decls[ordinal] <= |lines| && WellFormed(global) && |global.chain| == 1
    requires MethodPass(lines, decls, ordinal, n, global).Success?
    ensures HandlerOk(h) && h.mode == MaintainAndSwitch
    ensures MethodPass(lines, decls, ordinal, n, global) == ProcessMethodFrom(lines, decls[ordinal], h, None, None)
  {
    DuplicateTopWellFormed(global);
    var h0 := Handler(DuplicateTop(global), MaintainAndSwitch, 0, 0);
    var bound := decls[ordinal];
    SkipThenReadsBound(lines, n, bound);
    var h1 := Accept(h0, Some(lines[bound - 1])).value;
    var scope := InitScopeWithMethodParameters(h1.scope, global, ordinal, bound).value;
    h := h1.(scope := scope);
  }

  /** The statement kinds of all lines. */
  ghost function Kinds(lines: seq<string>): (kinds: seq<Option<StatementKind>>)
    ensures Classified(lines, kinds)
  {
    seq(|lines|, k requires 0 <= k < |lines| => LineStatement(lines, k))
  }

  /** With nothing read before line `n`, a `return` and a closing line read
      last are lines at or after `n`. */
  lemma FirstReadLines(lines: seq<string>, kinds: seq<Option<StatementKind>>, n: nat, m: nat)
    requires Classified(lines, kinds) && m <= |lines|
    requires ReadBack(kinds, n, None, None, m, 1) == Some(StatementKind.CloseScope)
    requires ReadBack(kinds, n, None, None, m, 2) == Some(ReturnStatement)
    ensures n + 2 <= m && LineStatement(lines, m - 2) == Some(ReturnStatement)
    ensures LineStatement(lines, m - 1) == Some(StatementKind.CloseScope)
  {
  }
}
