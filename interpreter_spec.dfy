/** What the interpreter does to a file, as functions on values: the brace
    recognizers of the scope handler, the handler's step on one line, the
    first pass over the global lines, and the second pass over each method
    body. The file is the sequence of its lines; a reader that has read `n`
    lines is at line number `n`, and the next line it returns is `lines[n]`.
    The classes of module `Interpreting` are proved to do exactly this. */
module InterpreterSpec {
  import opened Wrappers
  import opened Tokens
  import opened Errors
  import opened SymbolTables
  import opened Lexing
  import opened Environments
  import opened Statements
  import opened Semantics
  import opened ParserSpec

  /** An error the interpreter reports, with the line number it is reported
      at; the first pass reports its errors without one. */
  datatype Report = Report(error: Error, line: Option<nat>)

  /** A failure of a step of the second pass, reported at line `n`. */
  function At<T>(r: Result<T, Error>, n: nat): (r': Result<T, Report>)
    ensures r.Success? <==> r'.Success?
    ensures r.Success? ==> r'.value == r.value
    ensures r.Failure? ==> r'.error == Report(r.error, Some(n))
  {
    match r
    case Success(v) => Success(v)
    case Failure(e) => Failure(Report(e, Some(n)))
  }

  /** A failure of the parser inside `processMethod`, which catches the
      parser's checked exceptions and reports them at line `n`; a null
      dereference escapes the `catch` and carries no line. */
  function ParsedAt<T>(r: Result<T, Error>, n: nat): (r': Result<T, Report>)
    ensures r.Success? <==> r'.Success?
    ensures r.Success? ==> r'.value == r.value
    ensures r.Failure? ==> r'.error.error == r.error
  {
    match r
    case Success(v) => Success(v)
    case Failure(e) => Failure(Report(e, if NullDereference(e) then None else Some(n)))
  }

  // ---- brace recognizers -----------------------------------------------------------------

  /** The start of the run of `\s` characters that ends `line[..e]`. */
  function SpaceSuffixStart(line: string, e: nat): (i: nat)
    requires e <= |line|
    ensures i <= e && (i == 0 || !IsRegexSpace(line[i - 1]))
    ensures forall j :: i <= j < e ==> IsRegexSpace(line[j])
    decreases e
  {
    if e == 0 || !IsRegexSpace(line[e - 1]) then e else SpaceSuffixStart(line, e - 1)
  }

  /** The end of the run of `\s` characters that starts `line[s..]`. */
  function SpacePrefixEnd(line: string, s: nat): (i: nat)
    requires s <= |line|
    ensures s <= i <= |line| && (i == |line| || !IsRegexSpace(line[i]))
    ensures forall j :: s <= j < i ==> IsRegexSpace(line[j])
    decreases |line| - s
  {
    if s == |line| || !IsRegexSpace(line[s]) then s else SpacePrefixEnd(line, s + 1)
  }

  /** `line.matches(".*?\\{\\s*")`: the last character that is not `\s` is
      `{`, and no line terminator comes before it. */
  function MatchesOpening(line: string): bool {
    var e := SpaceSuffixStart(line, |line|);
    e > 0 && line[e - 1] == '{' && forall j :: 0 <= j < e - 1 ==> !IsLineTerminator(line[j])
  }

  /** `line.matches("\\s*}\\s*")`: a single `}` between runs of `\s`. */
  function MatchesClosing(line: string): bool {
    var s := SpacePrefixEnd(line, 0);
    s < |line| && line[s] == '}' && SpaceSuffixStart(line, |line|) == s + 1
  }

  /** The language of `.*?\{\s*`, read off the pattern. */
  ghost predicate OpeningShape(line: string) {
    exists i :: 0 <= i < |line| && line[i] == '{'
      && (forall j :: 0 <= j < i ==> !IsLineTerminator(line[j]))
      && (forall j :: i < j < |line| ==> IsRegexSpace(line[j]))
  }

  /** The language of `\s*}\s*`, read off the pattern. */
  ghost predicate ClosingShape(line: string) {
    exists i :: 0 <= i < |line| && line[i] == '}'
      && forall j :: 0 <= j < |line| && j != i ==> IsRegexSpace(line[j])
  }

  /** `shouldOpenScope` */
  function ShouldOpenScope(line: string): (r: bool)
    ensures r <==> !IsComment(line) && OpeningShape(line)
  {
    MatchesOpeningShape(line);
    !IsComment(line) && MatchesOpening(line)
  }

  /** `shouldCloseScope` */
  function ShouldCloseScope(line: string): (r: bool)
    ensures r <==> !IsComment(line) && ClosingShape(line)
  {
    MatchesClosingShape(line);
    !IsComment(line) && MatchesClosing(line)
  }

  lemma MatchesOpeningShape(line: string)
    ensures MatchesOpening(line) <==> OpeningShape(line)
  {
    var e := SpaceSuffixStart(line, |line|);
    if MatchesOpening(line) {
      assert line[e - 1] == '{';
    }
    if OpeningShape(line) {
      var i :| 0 <= i < |line| && line[i] == '{'
        && (forall j :: 0 <= j < i ==> !IsLineTerminator(line[j]))
        && (forall j :: i < j < |line| ==> IsRegexSpace(line[j]));
      assert !IsRegexSpace(line[i]);
      assert e == i + 1;
    }
  }

  lemma MatchesClosingShape(line: string)
    ensures MatchesClosing(line) <==> ClosingShape(line)
  {
    var s, e := SpacePrefixEnd(line, 0), SpaceSuffixStart(line, |line|);
    if MatchesClosing(line) {
      assert line[s] == '}';
    }
    if ClosingShape(line) {
      var i :| 0 <= i < |line| && line[i] == '}' && forall j :: 0 <= j < |line| && j != i ==> IsRegexSpace(line[j]);
      assert !IsRegexSpace(line[i]);
      assert s == i;
      assert e == i + 1;
    }
  }

  /** No line both opens and closes a scope. */
  lemma OpenAndCloseExclusive(line: string)
    ensures !(ShouldOpenScope(line) && ShouldCloseScope(line))
  {
    if MatchesOpening(line) && MatchesClosing(line) {
      assert false;
    }
  }

  // ---- the scope handler ------------------------------------------------------------------

  datatype Mode = MaintainOnly | MaintainAndSwitch

  /** The scope handler's fields. `lastScope` is always the parent of the held
      scope, which in an `Env` is the chain without its first level. */
  datatype Handler = Handler(scope: Env, mode: Mode, depth: int, lastDepth: int)

  /** A handler that may be given a line: a non-negative depth and, when it
      switches scopes, at least one scope level per open brace. */
  ghost predicate HandlerOk(h: Handler) {
    WellFormed(h.scope) && 0 <= h.depth && (h.mode == MaintainAndSwitch ==> h.depth < |h.scope.chain|)
  }

  /** `new Scope(scope)` in front of the held scope. */
  function OpenScope(h: Handler): (h': Handler)
    requires WellFormed(h.scope)
    ensures WellFormed(h'.scope)
  {
    PushScopeWellFormed(h.scope);
    h.(scope := PushScope(h.scope))
  }

  /** Back to the parent of the held scope. */
  function CloseScope(h: Handler): (h': Handler)
    requires WellFormed(h.scope) && |h.scope.chain| > 1
    ensures WellFormed(h'.scope)
  {
    h.(scope := Env(h.scope.store, h.scope.chain[1..]))
  }

  /** `switchIfNeeded` */
  function SwitchIfNeeded(h: Handler): (h': Handler)
    requires WellFormed(h.scope) && (h.mode == MaintainAndSwitch && h.depth < h.lastDepth ==> |h.scope.chain| > 1)
    ensures WellFormed(h'.scope)
  {
    if h.mode == MaintainAndSwitch then
      if h.depth > h.lastDepth then OpenScope(h)
      else if h.depth < h.lastDepth then CloseScope(h)
      else h
    else h
  }

  /** `accept`: a `null` line and a line that neither opens nor closes leave
      the handler alone; a close below depth 0 fails. */
  function Accept(h: Handler, line: Option<string>): (r: Result<Handler, Error>)
    requires HandlerOk(h)
    ensures r.Success? ==> HandlerOk(r.value) && r.value.mode == h.mode && r.value.scope.store == h.scope.store
  {
    if line.None? then Success(h)
    else if ShouldOpenScope(line.value) then
      Success(SwitchIfNeeded(h.(lastDepth := h.depth, depth := h.depth + 1)))
    else if ShouldCloseScope(line.value) then
      var h1 := h.(lastDepth := h.depth, depth := h.depth - 1);
      if h1.depth < 0 then Failure(MismatchBraces) else Success(SwitchIfNeeded(h1))
    else Success(h)
  }

  // ---- first pass ---------------------------------------------------------------------------

  /** `verifyGlobalStatement`: a statement allowed at the top level, and the
      line of each method declaration appended to `decls`. */
  function VerifyGlobalStatement(decls: seq<nat>, statement: Option<StatementKind>, lineNumber: nat): (r: Result<seq<nat>, Error>)
    ensures statement.None? ==> r == Success(decls)
    ensures r.Success? ==> r.value == decls + (if statement == Some(MethodDeclaration) then [lineNumber] else [])
  {
    if statement.None? then Success(decls)
    else
      var o := Semantics.VerifyGlobalStatement(statement.value);
      if o.Fail? then Failure(o.error)
      else if statement.value == MethodDeclaration then Success(decls + [lineNumber])
      else Success(decls)
  }

  /** The first pass between two lines: the handler that counts braces, the
      global scope, and the method declaration lines found so far. */
  datatype FirstPassState = FirstPassState(handler: Handler, global: Env, decls: seq<nat>)

  ghost predicate FirstPassOk(p: FirstPassState) {
    HandlerOk(p.handler) && p.handler.mode == MaintainOnly && WellFormed(p.global)
  }

  /** `preProcessLine`: a line is parsed, with the global parser, only when
      the depth before it is 0; then the handler counts its braces. */
  function PreProcessLine(line: string, lineNumber: nat, p: FirstPassState): (r: Result<FirstPassState, Error>)
    requires FirstPassOk(p)
    ensures r.Success? ==> FirstPassOk(r.value) && |r.value.global.chain| == |p.global.chain|
  {
    var q :- if p.handler.depth == 0 then
               var parsed :- ParseLine(p.global, line);
               var decls :- VerifyGlobalStatement(p.decls, parsed.0, lineNumber);
               Success((parsed.1, decls))
             else Success((p.global, p.decls));
    var h :- Accept(p.handler, Some(line));
    Success(FirstPassState(h, q.0, q.1))
  }

  /** The loop of `doFirstPass` from line number `n` on. */
  function FirstPassFrom(lines: seq<string>, n: nat, p: FirstPassState): (r: Result<FirstPassState, Error>)
    requires FirstPassOk(p)
    ensures r.Success? ==> FirstPassOk(r.value) && |r.value.global.chain| == |p.global.chain|
    decreases |lines| - n
  {
    if n >= |lines| then Success(p)
    else
      var p' :- PreProcessLine(lines[n], n + 1, p);
      FirstPassFrom(lines, n + 1, p')
  }

  /** `FirstPassFrom` one line at a time: the first line that fails stops it. */
  lemma FirstPassFromStep(lines: seq<string>, n: nat, p: FirstPassState)
    requires FirstPassOk(p)
    ensures n >= |lines| ==> FirstPassFrom(lines, n, p) == Success(p)
    ensures n < |lines| ==>
      var q := PreProcessLine(lines[n], n + 1, p);
      FirstPassFrom(lines, n, p) == if q.Success? then FirstPassFrom(lines, n + 1, q.value) else Failure(q.error)
  {
  }

  /** `new Scope()` */
  function EmptyScope(): (env: Env)
    ensures WellFormed(env) && |env.chain| == 1
  {
    Env([], [Level([], [])])
  }

  /** `doFirstPass` on a fresh global scope: the global scope it builds and the
      method declaration lines it records. */
  function FirstPass(lines: seq<string>): (r: Result<(Env, seq<nat>), Error>)
    ensures r.Success? ==> WellFormed(r.value.0) && |r.value.0.chain| == 1
  {
    var p :- FirstPassFrom(lines, 0, FirstPassState(Handler(EmptyScope(), MaintainOnly, 0, 0), EmptyScope(), []));
    Success((p.global, p.decls))
  }

  // ---- second pass --------------------------------------------------------------------------

  /** The line number after `skipUntil(reader, bound)` from line number `n`:
      the reader stops at `bound - 1`, or at the end of the file. */
  function SkipUntil(n: nat, bound: int, count: nat): (n': nat)
    requires n <= count
    ensures n <= n' <= count
  {
    if n + 1 < bound then (if bound - 1 < count then bound - 1 else count) else n
  }

  /** `readLine` at line number `n`: the next line, or `null` at the end. */
  function ReadAt(lines: seq<string>, n: nat): (r: (Option<string>, nat))
    requires n <= |lines|
    ensures n <= r.1 <= |lines|
    ensures r.0.None? <==> n == |lines|
    ensures r.0.Some? ==> r.1 >= 1 && r.0.value == lines[r.1 - 1]
  {
    if n < |lines| then (Some(lines[n]), n + 1) else (None, n)
  }

  /** The loop of `initScopeWithMethodParameters`: each parameter, in name
      order, enters the innermost scope. */
  function AddParameters(scope: Env, params: seq<(string, Ref)>): (r: Result<Env, Error>)
    requires WellFormed(scope) && RefsBelow(params, |scope.store|)
    ensures r.Success? ==> (WellFormed(r.value) && r.value.store == scope.store
      && |r.value.chain| == |scope.chain| && r.value.chain[1..] == scope.chain[1..])
    decreases |params|
  {
    if params == [] then Success(scope)
    else
      var s1 :- AddVariable(scope, params[0].0, params[0].1);
      AddVariableWellFormed(scope, params[0].0, params[0].1);
      AddParameters(s1, params[1..])
  }

  /** `initScopeWithMethodParameters`: the parameters of the `ordinal`-th
      method of the global scope, in ascending name order, enter `scope`;
      either failure is reported as `FailedMethodScopeInitialization`. */
  function InitScopeWithMethodParameters(scope: Env, global: Env, ordinal: nat, lineNumber: nat): (r: Result<Env, Report>)
    requires WellFormed(scope) && WellFormed(global) && |global.store| <= |scope.store|
    ensures r.Success? ==> (WellFormed(r.value) && r.value.store == scope.store
      && |r.value.chain| == |scope.chain| && r.value.chain[1..] == scope.chain[1..])
    ensures r.Failure? ==> r.error == Report(FailedMethodScopeInitialization, Some(lineNumber))
  {
    var m := MethodByOrdinal(global, ordinal);
    if m.Failure? then Failure(Report(FailedMethodScopeInitialization, Some(lineNumber)))
    else
      assert MethodOk(global.chain[0].methods[ordinal].1, |global.store|);
      RefsBelowGrow(m.value.params, |global.store|, |scope.store|);
      var r := AddParameters(scope, m.value.params);
      if r.Failure? then Failure(Report(FailedMethodScopeInitialization, Some(lineNumber))) else Success(r.value)
  }

  /** `validateMethodStatement`: a statement allowed inside a method body. */
  function ValidateMethodStatement(statement: Option<StatementKind>, lineNumber: nat): (o: Outcome<Report>)
    ensures o.Pass? <==> statement.None? || statement.value != MethodDeclaration
    ensures o.Fail? ==> o.error == Report(UnexpectedMethodStatement, Some(lineNumber))
  {
    if statement.None? then Pass
    else
      var o := VerifyMethodStatement(statement.value);
      if o.Fail? then Fail(Report(o.error, Some(lineNumber))) else Pass
  }

  /** `verifyCorrectMethodClosing`: the last two lines read were a `return`
      and then a closing brace. */
  function VerifyCorrectMethodClosing(statement: Option<StatementKind>, prevStatement: Option<StatementKind>, lineNumber: nat): (o: Outcome<Report>)
    ensures o.Pass? <==> prevStatement == Some(ReturnStatement) && statement == Some(StatementKind.CloseScope)
    ensures o.Fail? ==> o.error == Report(MissingReturnStatement, Some(lineNumber))
  {
    if !(prevStatement == Some(ReturnStatement) && statement == Some(StatementKind.CloseScope)) then
      Fail(Report(MissingReturnStatement, Some(lineNumber)))
    else Pass
  }

  /** One line of a method body, numbered `lineNumber`: counted by the
      handler, parsed in the counted scope, and its statement validated. */
  function MethodLine(h: Handler, line: string, lineNumber: nat): (r: Result<(Handler, Option<StatementKind>), Report>)
    requires HandlerOk(h) && h.mode == MaintainAndSwitch
    ensures r.Success? ==> HandlerOk(r.value.0) && r.value.0.mode == MaintainAndSwitch
    ensures r.Failure? ==> r.error.line == if NullDereference(r.error.error) then None else Some(lineNumber)
  {
    var h1 :- At(Accept(h, Some(line)), lineNumber);
    var parsed :- ParsedAt(ParseLine(h1.scope, line), lineNumber);
    var o := ValidateMethodStatement(parsed.0, lineNumber);
    if o.Fail? then Failure(o.error) else Success((h1.(scope := parsed.1), parsed.0))
  }

  /** The loop of `processMethod` from line number `n` on: each line is first
      counted by the handler and then parsed in the handler's scope; the body
      ends after the first line that brings the depth back to 0, or at the end
      of the file. The result is the line number reached and the scope. */
  function ProcessMethodFrom(lines: seq<string>, n: nat, h: Handler, statement: Option<StatementKind>,
                             prevStatement: Option<StatementKind>): (r: Result<(nat, Env), Report>)
    requires n <= |lines| && HandlerOk(h) && h.mode == MaintainAndSwitch
    ensures r.Success? ==> n <= r.value.0 <= |lines| && WellFormed(r.value.1) && |h.scope.store| <= |r.value.1.store|
    decreases |lines| - n
  {
    if n == |lines| then
      var o := VerifyCorrectMethodClosing(statement, prevStatement, n);
      if o.Fail? then Failure(o.error) else Success((n, h.scope))
    else
      var h1 :- At(Accept(h, Some(lines[n])), n + 1);
      var parsed :- ParsedAt(ParseLine(h1.scope, lines[n]), n + 1);
      var o := ValidateMethodStatement(parsed.0, n + 1);
      if o.Fail? then Failure(o.error)
      else
        var h2 := h1.(scope := parsed.1);
        if h2.depth == 0 then
          var o' := VerifyCorrectMethodClosing(parsed.0, statement, n + 1);
          if o'.Fail? then Failure(o'.error) else Success((n + 1, h2.scope))
        else ProcessMethodFrom(lines, n + 1, h2, parsed.0, statement)
  }

  /** `ProcessMethodFrom` one line at a time, through `MethodLine`. */
  lemma ProcessMethodFromStep(lines: seq<string>, n: nat, h: Handler, statement: Option<StatementKind>,
                              prevStatement: Option<StatementKind>)
    requires n < |lines| && HandlerOk(h) && h.mode == MaintainAndSwitch
    ensures var m := MethodLine(h, lines[n], n + 1);
      ProcessMethodFrom(lines, n, h, statement, prevStatement) ==
        if m.Failure? then Failure(m.error)
        else if m.value.0.depth == 0 then
          var o := VerifyCorrectMethodClosing(m.value.1, statement, n + 1);
          if o.Fail? then Failure(o.error) else Success((n + 1, m.value.0.scope))
        else ProcessMethodFrom(lines, n + 1, m.value.0, m.value.1, statement)
  {
  }

  /** One iteration of `doSecondPass`: a handler on a duplicate of the global
      scope, the reader moved to the declaration line, that line counted (it
      opens the body's scope), the parameters added, and the body processed. */
  function MethodPass(lines: seq<string>, decls: seq<nat>, ordinal: nat, n: nat, global: Env): (r: Result<(nat, Env), Report>)
    requires ordinal < |decls| && n <= |lines| && WellFormed(global) && |global.chain| == 1
    ensures r.Success? ==> n <= r.value.0 <= |lines| && |global.store| <= |r.value.1.store|
  {
    DuplicateTopWellFormed(global);
    var h := Handler(DuplicateTop(global), MaintainAndSwitch, 0, 0);
    var n1 := SkipUntil(n, decls[ordinal], |lines|);
    var (line, n2) := ReadAt(lines, n1);
    var h1 :- At(Accept(h, line), n2);
    var scope :- InitScopeWithMethodParameters(h1.scope, global, ordinal, n2);
    ProcessMethodFrom(lines, n2, h1.(scope := scope), None, None)
  }

  /** The loop of `doSecondPass` from the `ordinal`-th declaration on. The
      symbol objects a body changes are shared with the global scope (a
      method's parameters), so the store a body leaves is the one the next
      body starts from. */
  function SecondPassFrom(lines: seq<string>, decls: seq<nat>, ordinal: nat, n: nat, global: Env): (r: Result<Env, Report>)
    requires n <= |lines| && WellFormed(global) && |global.chain| == 1
    ensures r.Success? ==> WellFormed(r.value) && r.value.chain == global.chain
    decreases |decls| - ordinal
  {
    if ordinal >= |decls| then Success(global)
    else
      var p :- MethodPass(lines, decls, ordinal, n, global);
      LevelOkGrow(global.chain[0], |global.store|, |p.1.store|);
      SecondPassFrom(lines, decls, ordinal + 1, p.0, Env(p.1.store, global.chain))
  }

  /** `interpret`: the first pass, then the second; first-pass errors carry
      no line number. */
  function Interpret(lines: seq<string>): (r: Result<Env, Report>)
    ensures FirstPass(lines).Failure? ==> r == Failure(Report(FirstPass(lines).error, None))
    ensures r.Success? ==> FirstPass(lines).Success?
    ensures r.Success? ==> WellFormed(r.value) && r.value.chain == FirstPass(lines).value.0.chain
  {
    match FirstPass(lines)
    case Failure(e) => Failure(Report(e, None))
    case Success(p) => SecondPassFrom(lines, p.1, 0, 0, p.0)
  }
}
