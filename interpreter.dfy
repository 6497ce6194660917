/** The interpreter objects: a line reader over the file, the scope handler
    that follows the braces, and the interpreter with its two passes. Each
    method is proved to do what the matching `InterpreterSpec` function says:
    on success the fields are that function's result, on failure the error
    (and its line number) is that function's error. */
module Interpreting {
  import opened Wrappers
  import opened Errors
  import opened Environments
  import opened Statements
  import Semantics
  import opened ParserSpec
  import opened Parsing
  import opened InterpreterSpec

  /** A `LineNumberReader` over the lines of the file: `lineNumber` counts the
      lines read so far. */
  class LineReader {
    const lines: seq<string>
    var lineNumber: nat

    ghost predicate Valid()
      reads this
    {
      lineNumber <= |lines|
    }

    constructor (lines: seq<string>)
      ensures this.lines == lines && lineNumber == 0 && Valid()
    {
      this.lines := lines;
      lineNumber := 0;
    }

    /** `readLine`: the next line, or `None` at the end of the file, where the
        count stays as it is. */
    method ReadLine() returns (line: Option<string>)
      requires Valid()
      modifies this`lineNumber
      ensures Valid() && (line, lineNumber) == ReadAt(lines, old(lineNumber))
    {
      if lineNumber < |lines| {
        line := Some(lines[lineNumber]);
        lineNumber := lineNumber + 1;
      } else {
        line := None;
      }
    }
  }

  /** `ScopeHandler`: the depth of braces and, in `MaintainAndSwitch` mode,
      the scope that belongs to that depth. */
  class ScopeHandler {
    var scope: Env
    const mode: Mode
    var depth: int
    var lastDepth: int

    /** The handler as an `InterpreterSpec` value. */
    ghost function State(): Handler
      reads this
    {
      Handler(scope, mode, depth, lastDepth)
    }

    ghost predicate Valid()
      reads this
    {
      HandlerOk(State())
    }

    constructor (globalScope: Env, mode: Mode)
      requires WellFormed(globalScope)
      ensures State() == Handler(globalScope, mode, 0, 0) && Valid()
    {
      scope := globalScope;
      this.mode := mode;
      depth, lastDepth := 0, 0;
    }

    /** `isGlobalScope` */
    function IsGlobalScope(): bool
      reads this
    {
      depth == 0
    }

    /** `accept`: on success the handler is `InterpreterSpec.Accept`'s; a
        closing brace at depth 0 fails after the depth was already taken
        down to -1. */
    method Accept(line: Option<string>) returns (o: Outcome<Error>)
      requires Valid()
      modifies this
      ensures var g := InterpreterSpec.Accept(old(State()), line);
        if g.Success? then o.Pass? && State() == g.value && Valid()
        else o == Fail(g.error) && State() == old(State()).(lastDepth := old(depth), depth := old(depth) - 1)
    {
      o := Pass;
      if line.None? {
        return;
      }
      if ShouldOpenScope(line.value) {
        lastDepth, depth := depth, depth + 1;
        SwitchIfNeeded();
      } else if ShouldCloseScope(line.value) {
        lastDepth, depth := depth, depth - 1;
        if depth < 0 {
          return Fail(MismatchBraces);
        }
        SwitchIfNeeded();
      }
    }

    /** `switchIfNeeded` */
    method SwitchIfNeeded()
      requires WellFormed(scope) && (mode == MaintainAndSwitch && depth < lastDepth ==> |scope.chain| > 1)
      modifies this`scope
      ensures State() == InterpreterSpec.SwitchIfNeeded(old(State()))
    {
      if mode == MaintainAndSwitch {
        if depth > lastDepth {
          OpenScope();
        } else if depth < lastDepth {
          CloseScope();
        }
      }
    }

    /** `openScope`: a new empty scope in front of the held one. */
    method OpenScope()
      requires WellFormed(scope)
      modifies this`scope
      ensures State() == InterpreterSpec.OpenScope(old(State()))
    {
      scope := PushScope(scope);
    }

    /** `closeScope`: back to the parent of the held scope. */
    method CloseScope()
      requires WellFormed(scope) && |scope.chain| > 1
      modifies this`scope
      ensures State() == InterpreterSpec.CloseScope(old(State()))
    {
      scope := Env(scope.store, scope.chain[1..]);
    }
  }

  /** `Interpreter`: the global scope and the lines that declare methods,
      filled by the first pass and used by the second. */
  class Interpreter {
    const lines: seq<string>
    var methodDeclarationLines: seq<nat>
    var global: Env

    ghost predicate Valid()
      reads this
    {
      WellFormed(global) && |global.chain| == 1
    }

    constructor (lines: seq<string>)
      ensures this.lines == lines && global == EmptyScope() && methodDeclarationLines == [] && Valid()
    {
      this.lines := lines;
      global := EmptyScope();
      methodDeclarationLines := [];
    }

    /** `interpret`: the first pass, then the second. On a fresh interpreter
        this is `InterpreterSpec.Interpret`. */
    method Interpret() returns (o: Outcome<Report>)
      requires Valid()
      modifies this
      ensures var g1 := FirstPassFrom(lines, 0, FirstPassStart(old(global), old(methodDeclarationLines)));
        if g1.Failure? then o == Fail(Report(g1.error, None))
        else
          var g2 := SecondPassFrom(lines, g1.value.decls, 0, 0, g1.value.global);
          if g2.Success? then o.Pass? && global == g2.value && methodDeclarationLines == g1.value.decls && Valid()
          else o == Fail(g2.error)
      ensures old(global) == EmptyScope() && old(methodDeclarationLines) == [] ==>
        var g := InterpreterSpec.Interpret(lines);
        if g.Success? then o.Pass? && global == g.value else o == Fail(g.error)
    {
      var first := FirstPass();
      if first.Fail? {
        return Fail(Report(first.error, None));
      }
      o := SecondPass();
    }

    /** The state the first pass starts from. */
    static ghost function FirstPassStart(global: Env, decls: seq<nat>): FirstPassState
    {
      FirstPassState(Handler(global, MaintainOnly, 0, 0), global, decls)
    }

    /** `firstPass`: `doFirstPass` on a new reader. */
    method FirstPass() returns (o: Outcome<Error>)
      requires Valid()
      modifies this
      ensures var g := FirstPassFrom(lines, 0, FirstPassStart(old(global), old(methodDeclarationLines)));
        if g.Success? then o.Pass? && global == g.value.global && methodDeclarationLines == g.value.decls && Valid()
        else o == Fail(g.error)
    {
      var reader := new LineReader(lines);
      o := DoFirstPass(reader);
    }

    /** `doFirstPass`: every line goes to `preProcessLine` with the same
        counting handler and the same parser, which owns the global scope. */
    method DoFirstPass(reader: LineReader) returns (o: Outcome<Error>)
      requires Valid() && reader.Valid() && reader.lines == lines
      modifies this, reader
      ensures var g := FirstPassFrom(lines, old(reader.lineNumber), FirstPassStart(old(global), old(methodDeclarationLines)));
        if g.Success? then o.Pass? && global == g.value.global && methodDeclarationLines == g.value.decls && Valid()
        else o == Fail(g.error)
    {
      var handler := new ScopeHandler(global, MaintainOnly);
      var parser := new Parser(global);
      ghost var goal := FirstPassFrom(lines, reader.lineNumber, FirstPassStart(global, methodDeclarationLines));
      while true
        invariant reader.Valid() && handler.Valid() && handler.mode == MaintainOnly && parser.Valid()
        invariant |parser.scope.chain| == 1
        invariant goal == FirstPassFrom(lines, reader.lineNumber, FirstPassState(handler.State(), parser.scope, methodDeclarationLines))
        decreases |lines| - reader.lineNumber
      {
        var done;
        o, done := FirstPassStep(reader, handler, parser);
        if o.Fail? {
          return;
        }
        if done {
          break;
        }
      }
      global := parser.scope;
      o := Pass;
    }

    /** One turn of the `doFirstPass` loop: read a line and, unless the file
        has ended, pre-process it. */
    method FirstPassStep(reader: LineReader, handler: ScopeHandler, parser: Parser) returns (o: Outcome<Error>, done: bool)
      requires reader.Valid() && reader.lines == lines && handler.Valid() && handler.mode == MaintainOnly && parser.Valid()
      modifies this`methodDeclarationLines, reader, handler, parser
      ensures var before := FirstPassState(old(handler.State()), old(parser.scope), old(methodDeclarationLines));
        var after := FirstPassState(handler.State(), parser.scope, methodDeclarationLines);
        var g := FirstPassFrom(lines, old(reader.lineNumber), before);
        if o.Fail? then g == Failure(o.error)
        else
          reader.Valid() && handler.Valid() && handler.mode == MaintainOnly && parser.Valid()
          && |parser.scope.chain| == |old(parser.scope.chain)|
          && (if done then g == Success(after) else old(reader.lineNumber) < reader.lineNumber && g == FirstPassFrom(lines, reader.lineNumber, after))
    {
      ghost var n := reader.lineNumber;
      ghost var before := FirstPassState(handler.State(), parser.scope, methodDeclarationLines);
      FirstPassFromStep(lines, n, before);
      var line := reader.ReadLine();
      if line.None? {
        return Pass, true;
      }
      ghost var q := InterpreterSpec.PreProcessLine(lines[n], n + 1, before);
      assert line.value == lines[n] && reader.lineNumber == n + 1;
      assert before == FirstPassState(handler.State(), parser.scope, methodDeclarationLines);
      o := PreProcessLine(line.value, reader.lineNumber, handler, parser);
      done := false;
      if o.Fail? {
        assert q.Failure? && o.error == q.error;
      }
    }

    /** `preProcessLine`: parse the line only at depth 0, then count its braces. */
    method PreProcessLine(line: string, lineNumber: nat, handler: ScopeHandler, parser: Parser) returns (o: Outcome<Error>)
      requires handler.Valid() && handler.mode == MaintainOnly && parser.Valid()
      modifies this`methodDeclarationLines, handler, parser
      ensures var g := InterpreterSpec.PreProcessLine(line, lineNumber,
                FirstPassState(old(handler.State()), old(parser.scope), old(methodDeclarationLines)));
        if g.Success? then
          o.Pass? && handler.State() == g.value.handler && parser.scope == g.value.global
          && methodDeclarationLines == g.value.decls && handler.Valid() && parser.Valid()
        else o == Fail(g.error)
    {
      if handler.IsGlobalScope() {
        var statement := parser.Parse(line);
        if statement.Failure? {
          return Fail(statement.error);
        }
        o := VerifyGlobalStatement(statement.value, lineNumber);
        if o.Fail? {
          return;
        }
      }
      o := handler.Accept(Some(line));
    }

    /** `verifyGlobalStatement`: the line of a method declaration is appended. */
    method VerifyGlobalStatement(statement: Option<StatementKind>, lineNumber: nat) returns (o: Outcome<Error>)
      modifies this`methodDeclarationLines
      ensures var g := InterpreterSpec.VerifyGlobalStatement(old(methodDeclarationLines), statement, lineNumber);
        if g.Success? then o.Pass? && methodDeclarationLines == g.value
        else o == Fail(g.error) && methodDeclarationLines == old(methodDeclarationLines)
    {
      if statement.None? {
        return Pass;
      }
      o := Semantics.VerifyGlobalStatement(statement.value);
      if o.Pass? && statement.value == MethodDeclaration {
        methodDeclarationLines := methodDeclarationLines + [lineNumber];
      }
    }

    /** `secondPass`: `doSecondPass` on a new reader. */
    method SecondPass() returns (o: Outcome<Report>)
      requires Valid()
      modifies this`global
      ensures var g := SecondPassFrom(lines, methodDeclarationLines, 0, 0, old(global));
        if g.Success? then o.Pass? && global == g.value && Valid() else o == Fail(g.error)
    {
      var reader := new LineReader(lines);
      o := DoSecondPass(reader);
    }

    /** `doSecondPass`: for each recorded declaration, a switching handler on
        a copy of the global scope reads the declaration line, the method's
        parameters enter the new scope, and the body is processed. */
    method DoSecondPass(reader: LineReader) returns (o: Outcome<Report>)
      requires Valid() && reader.Valid() && reader.lines == lines
      modifies this`global, reader
      ensures var g := SecondPassFrom(lines, methodDeclarationLines, 0, old(reader.lineNumber), old(global));
        if g.Success? then o.Pass? && global == g.value && Valid() else o == Fail(g.error)
    {
      ghost var goal := SecondPassFrom(lines, methodDeclarationLines, 0, reader.lineNumber, global);
      var methodOrdinal := 0;
      while methodOrdinal < |methodDeclarationLines|
        invariant Valid() && reader.Valid()
        invariant goal == SecondPassFrom(lines, methodDeclarationLines, methodOrdinal, reader.lineNumber, global)
        decreases |methodDeclarationLines| - methodOrdinal
      {
        var p := MethodPass(reader, methodOrdinal);
        if p.Failure? {
          return Fail(p.error);
        }
        LevelOkGrow(global.chain[0], |global.store|, |p.value.store|);
        global := Env(p.value.store, global.chain);
        methodOrdinal := methodOrdinal + 1;
      }
      o := Pass;
    }

    /** One iteration of `doSecondPass`; the result is the scope the body
        leaves, whose symbols the global scope shares. */
    method MethodPass(reader: LineReader, methodOrdinal: nat) returns (r: Result<Env, Report>)
      requires Valid() && reader.Valid() && reader.lines == lines && methodOrdinal < |methodDeclarationLines|
      modifies reader
      ensures reader.Valid()
      ensures var g := InterpreterSpec.MethodPass(lines, methodDeclarationLines, methodOrdinal, old(reader.lineNumber), global);
        if g.Success? then r == Success(g.value.1) && reader.lineNumber == g.value.0 else r == Failure(g.error)
    {
      DuplicateTopWellFormed(global);
      var handler := new ScopeHandler(DuplicateTop(global), MaintainAndSwitch);
      SkipUntil(reader, methodDeclarationLines[methodOrdinal]);
      var line := reader.ReadLine();
      var a := handler.Accept(line);
      if a.Fail? {
        return Failure(Report(a.error, Some(reader.lineNumber)));
      }
      var init := InitScopeWithMethodParameters(handler, methodOrdinal, reader.lineNumber);
      if init.Fail? {
        return Failure(init.error);
      }
      var o := ProcessMethod(reader, handler);
      r := if o.Fail? then Failure(o.error) else Success(handler.scope);
    }

    /** `skipUntil`: read on until the reader has counted `lineNumBound - 1`
        lines, or the file ends. */
    method SkipUntil(reader: LineReader, lineNumBound: int)
      requires reader.Valid()
      modifies reader`lineNumber
      ensures reader.Valid() && reader.lineNumber == InterpreterSpec.SkipUntil(old(reader.lineNumber), lineNumBound, |reader.lines|)
    {
      if reader.lineNumber + 1 < lineNumBound {
        for i := reader.lineNumber + 1 to lineNumBound
          invariant reader.Valid()
          invariant reader.lineNumber == if i - 1 < |reader.lines| then i - 1 else |reader.lines|
        {
          var _ := reader.ReadLine();
        }
      }
    }

    /** `initScopeWithMethodParameters`: the parameters of the
        `methodOrdinal`-th method, in name order, enter the handler's scope. */
    method InitScopeWithMethodParameters(handler: ScopeHandler, methodOrdinal: nat, lineNumber: nat) returns (o: Outcome<Report>)
      requires Valid() && handler.Valid() && |global.store| <= |handler.scope.store|
      modifies handler`scope
      ensures var g := InterpreterSpec.InitScopeWithMethodParameters(old(handler.scope), global, methodOrdinal, lineNumber);
        if g.Success? then o.Pass? && handler.scope == g.value && handler.Valid() else o == Fail(g.error)
    {
      var methodSymbol := MethodByOrdinal(global, methodOrdinal);
      if methodSymbol.Failure? {
        return Fail(Report(FailedMethodScopeInitialization, Some(lineNumber)));
      }
      var params := methodSymbol.value.params;
      assert MethodOk(global.chain[0].methods[methodOrdinal].1, |global.store|);
      RefsBelowGrow(params, |global.store|, |handler.scope.store|);
      ghost var goal := AddParameters(handler.scope, params);
      ghost var scope0 := handler.scope;
      for i := 0 to |params|
        invariant WellFormed(handler.scope) && handler.scope.store == scope0.store
        invariant |handler.scope.chain| == |scope0.chain| && handler.scope.chain[1..] == scope0.chain[1..]
        invariant goal == AddParameters(handler.scope, params[i..])
      {
        assert params[i..][1..] == params[i + 1..];
        var added := AddVariable(handler.scope, params[i].0, params[i].1);
        if added.Failure? {
          return Fail(Report(FailedMethodScopeInitialization, Some(lineNumber)));
        }
        AddVariableWellFormed(handler.scope, params[i].0, params[i].1);
        handler.scope := added.value;
      }
      o := Pass;
    }

    /** `processMethod`: each line of the body is counted, parsed in the
        handler's scope and validated, until the depth is back to 0 or the
        file ends; then the body must have ended with `return` and `}`. */
    method ProcessMethod(reader: LineReader, handler: ScopeHandler) returns (o: Outcome<Report>)
      requires reader.Valid() && reader.lines == lines && handler.Valid() && handler.mode == MaintainAndSwitch
      modifies reader, handler
      ensures reader.Valid()
      ensures var g := ProcessMethodFrom(lines, old(reader.lineNumber), old(handler.State()), None, None);
        if g.Success? then o.Pass? && reader.lineNumber == g.value.0 && handler.scope == g.value.1 else o == Fail(g.error)
    {
      var statement: Option<StatementKind>, prevStatement: Option<StatementKind> := None, None;
      ghost var goal := ProcessMethodFrom(lines, reader.lineNumber, handler.State(), statement, prevStatement);
      while true
        invariant reader.Valid() && handler.Valid() && handler.mode == MaintainAndSwitch
        invariant goal == ProcessMethodFrom(lines, reader.lineNumber, handler.State(), statement, prevStatement)
        decreases |lines| - reader.lineNumber
      {
        ghost var n := reader.lineNumber;
        ghost var h := handler.State();
        if n < |lines| {
          ProcessMethodFromStep(lines, n, h, statement, prevStatement);
        }
        var line := reader.ReadLine();
        if line.None? {
          break;
        }
        assert line.value == lines[n] && reader.lineNumber == n + 1 && handler.State() == h;
        ghost var m := MethodLine(h, lines[n], n + 1);
        var parsed;
        o, parsed := ProcessLine(line.value, reader.lineNumber, handler);
        if o.Fail? {
          assert m.Failure? && o.error == m.error;
          return;
        }
        assert m.Success? && handler.State() == m.value.0 && parsed == m.value.1;
        prevStatement, statement := statement, parsed;
        if handler.IsGlobalScope() {
          break;
        }
      }
      o := VerifyCorrectMethodClosing(statement, prevStatement, reader.lineNumber);
    }

    /** The body of the `processMethod` loop for the line numbered
        `lineNumber`: count it, parse it in the handler's scope (which the
        parser changes in place), and validate its statement. */
    method ProcessLine(line: string, lineNumber: nat, handler: ScopeHandler) returns (o: Outcome<Report>, statement: Option<StatementKind>)
      requires handler.Valid() && handler.mode == MaintainAndSwitch
      modifies handler
      ensures var m := MethodLine(old(handler.State()), line, lineNumber);
        if m.Failure? then o == Fail(m.error)
        else o.Pass? && handler.State() == m.value.0 && statement == m.value.1 && handler.Valid()
    {
      var a := handler.Accept(Some(line));
      if a.Fail? {
        return Fail(Report(a.error, Some(lineNumber))), None;
      }
      var parser := new Parser(handler.scope);
      var parsed := parser.Parse(line);
      if parsed.Failure? {
        return Fail(ParsedAt(parsed, lineNumber).error), None;
      }
      statement := parsed.value;
      handler.scope := parser.scope;
      o := ValidateMethodStatement(statement, lineNumber);
    }
  }
}
