/** Scopes: a variable table and a method table, linked to the enclosing scope.
    Lookups walk the chain innermost first. The views at the end of the module
    read a chain off the heap as an `Environments.Env`, the value the parser and
    interpreter specifications work on. */
module Scopes {
  import opened Wrappers
  import opened Tokens
  import opened Errors
  import opened SymbolTables
  import opened Symbols
  import opened Environments

  /** The parameter tables of the listed methods. */
  ghost function ParamTablesOf(ms: seq<(string, MethodSymbol)>): set<SymbolTableImpl<VariableSymbol>> {
    set i | 0 <= i < |ms| :: ms[i].1.parameters
  }

  class Scope {
    /** Strictly greater than the depth of every enclosing scope. */
    ghost const depth: nat
    const variablesTable: SymbolTableImpl<VariableSymbol>
    const methodsTable: SymbolTableImpl<MethodSymbol>
    const prev: Scope?

    /** The tables are tagged with this scope's depth and the chain ends. */
    ghost predicate ChainOk()
      decreases depth
    {
      variablesTable.role == VariableTable(depth) && methodsTable.role == MethodTable(depth)
      && (prev != null ==> prev.depth < depth && prev.ChainOk())
    }

    /** A new scope with empty tables and no enclosing scope. */
    constructor ()
      ensures ChainOk() && prev == null && depth == 0
      ensures fresh(variablesTable) && fresh(methodsTable)
      ensures variablesTable.Valid() && variablesTable.entries == []
      ensures methodsTable.Valid() && methodsTable.entries == []
    {
      depth := 0;
      variablesTable := new SymbolTableImpl<VariableSymbol>(VariableTable(0));
      methodsTable := new SymbolTableImpl<MethodSymbol>(MethodTable(0));
      prev := null;
    }

    /** A new scope with empty tables nested in `prev`. */
    constructor Nested(prev: Scope)
      requires prev.ChainOk()
      ensures ChainOk() && this.prev == prev && depth == prev.depth + 1
      ensures fresh(variablesTable) && fresh(methodsTable)
      ensures variablesTable.Valid() && variablesTable.entries == []
      ensures methodsTable.Valid() && methodsTable.entries == []
    {
      depth := prev.depth + 1;
      variablesTable := new SymbolTableImpl<VariableSymbol>(VariableTable(prev.depth + 1));
      methodsTable := new SymbolTableImpl<MethodSymbol>(MethodTable(prev.depth + 1));
      this.prev := prev;
    }

    /** The scope `duplicate` builds: no enclosing scope, a new empty variable
        table, and the given method table itself. */
    constructor Sharing(methods: SymbolTableImpl<MethodSymbol>, ghost depth: nat)
      requires methods.role == MethodTable(depth)
      ensures ChainOk() && prev == null && this.depth == depth && methodsTable == methods
      ensures fresh(variablesTable) && variablesTable.Valid() && variablesTable.entries == []
    {
      this.depth := depth;
      variablesTable := new SymbolTableImpl<VariableSymbol>(VariableTable(depth));
      methodsTable := methods;
      prev := null;
    }

    /** This scope and the scopes enclosing it, innermost first. */
    ghost function Chain(): (c: seq<Scope>)
      requires ChainOk()
      ensures |c| > 0 && c[0] == this
      ensures forall k :: 0 <= k < |c| ==> c[k].ChainOk()
      decreases depth
    {
      [this] + (if prev == null then [] else prev.Chain())
    }

    /** The method tables of the chain. */
    ghost function MethodTableSet(): set<SymbolTableImpl<MethodSymbol>>
      requires ChainOk()
      decreases depth
    {
      {methodsTable} + (if prev == null then {} else prev.MethodTableSet())
    }

    /** The variable tables of the chain and the parameter tables of its methods. */
    ghost function VarTableSet(): set<SymbolTableImpl<VariableSymbol>>
      requires ChainOk()
      reads MethodTableSet()
      decreases depth
    {
      {variablesTable} + ParamTablesOf(methodsTable.entries)
      + (if prev == null then {} else prev.VarTableSet())
    }

    /** `addVariable`: refused when this scope's own table holds the name. */
    method AddVariable(identifier: string, symbol: VariableSymbol, ghost objs: seq<VariableSymbol>)
      returns (o: Outcome<Error>)
      requires ChainOk() && Tracked(this, objs) && symbol in objs
      modifies variablesTable
      ensures Tracked(this, objs)
      ensures var r := Environments.AddVariable(old(EnvOf(this, objs)), identifier, IndexOf(objs, symbol));
        if r.Failure? then o == Fail(r.error) && EnvOf(this, objs) == old(EnvOf(this, objs))
        else o == Pass && EnvOf(this, objs) == r.value
    {
      ghost var es := variablesTable.entries;
      ghost var store, outer, methods := StoreOf(objs), OuterOf(this, objs), MethodsOf(methodsTable.entries, objs);
      Recompose(this, objs);
      TablesApart(this, objs);
      o := variablesTable.Add(identifier, symbol);
      assert forall i :: 0 <= i < |objs| ==> objs[i].Info() == old(objs[i].Info());
      assert StoreOf(objs) == store && OuterOf(this, objs) == outer && MethodsOf(methodsTable.entries, objs) == methods;
      assert prev != null ==> ChainTracked(prev, objs);
      assert methodsTable.Valid() && forall i :: 0 <= i < |methodsTable.entries| ==> MethodTracked(methodsTable.entries[i].1, objs);
      VariableAdded(this, objs, es, identifier, symbol);
    }

    /** `addMethod`: refused when this scope's own table holds the name. */
    method AddMethod(methodName: string, symbol: MethodSymbol, ghost objs: seq<VariableSymbol>)
      returns (o: Outcome<Error>)
      requires ChainOk() && Tracked(this, objs) && MethodTracked(symbol, objs)
      modifies methodsTable
      ensures Tracked(this, objs)
      ensures var r := Environments.AddMethod(old(EnvOf(this, objs)), methodName, old(MethodView(symbol, objs)));
        if r.Failure? then o == Fail(r.error) && EnvOf(this, objs) == old(EnvOf(this, objs))
        else o == Pass && EnvOf(this, objs) == r.value
    {
      ghost var ms := methodsTable.entries;
      ghost var store, outer, vars := StoreOf(objs), OuterOf(this, objs), RefsOf(variablesTable.entries, objs);
      ghost var methods, view := MethodsOf(ms, objs), MethodView(symbol, objs);
      Recompose(this, objs);
      TablesApart(this, objs);
      o := methodsTable.Add(methodName, symbol);
      assert forall i :: 0 <= i < |objs| ==> objs[i].Info() == old(objs[i].Info());
      assert StoreOf(objs) == store && OuterOf(this, objs) == outer;
      assert MethodsOf(ms, objs) == methods && MethodView(symbol, objs) == view;
      assert prev != null ==> ChainTracked(prev, objs);
      assert variablesTable.Valid() && TableTracked(variablesTable.entries, objs);
      MethodAdded(this, objs, ms, methodName, symbol);
    }

    /** `lookupVariable`: the binding of the innermost scope holding the name. */
    function LookupVariable(identifier: string): (r: Result<VariableSymbol, Error>)
      requires ChainOk()
      reads VarTableSet(), MethodTableSet()
      ensures variablesTable.Contains(identifier) ==> r == Success(variablesTable.Contents()[identifier])
      ensures r.Failure? ==> r.error == NoSuchSymbol
      decreases depth
    {
      if variablesTable.Contains(identifier) then variablesTable.Get(identifier)
      else if prev == null then Failure(NoSuchSymbol)
      else prev.LookupVariable(identifier)
    }

    /** `lookupMethod(String)`: the binding of the innermost scope holding the name. */
    function LookupMethod(methodName: string): (r: Result<MethodSymbol, Error>)
      requires ChainOk()
      reads MethodTableSet()
      ensures methodsTable.Contains(methodName) ==> r == Success(methodsTable.Contents()[methodName])
      ensures r.Failure? ==> r.error == NoSuchSymbol
      decreases depth
    {
      if methodsTable.Contains(methodName) then methodsTable.Get(methodName)
      else if prev == null then Failure(NoSuchSymbol)
      else prev.LookupMethod(methodName)
    }

    /** `lookupMethod(int)`: counts through this scope's own methods in
        ascending name order. */
    method LookupMethodByOrdinal(methodOrdinal: int) returns (r: Result<MethodSymbol, Error>)
      requires methodsTable.Valid()
      ensures 0 <= methodOrdinal < |methodsTable.entries| ==> r == Success(methodsTable.entries[methodOrdinal].1)
      ensures !(0 <= methodOrdinal < |methodsTable.entries|) ==> r == Failure(NoSuchSymbol)
    {
      var entries := methodsTable.Iterator();
      var i := 0;
      while i < |entries|
        invariant 0 <= i <= |entries|
        invariant 0 <= methodOrdinal ==> i <= methodOrdinal
      {
        if i == methodOrdinal {
          return Success(entries[i].1);
        }
        i := i + 1;
      }
      return Failure(NoSuchSymbol);
    }

    /** `duplicate`: a parentless scope whose variable table holds copies of
        this scope's variables and whose method table is this scope's own. */
    method Duplicate(ghost objs: seq<VariableSymbol>) returns (scope: Scope, ghost objs': seq<VariableSymbol>)
      requires ChainOk() && Tracked(this, objs)
      ensures fresh(scope) && scope.ChainOk() && scope.prev == null
      ensures scope.methodsTable == methodsTable
      ensures |objs'| >= |objs| && objs'[..|objs|] == objs
      ensures forall i :: |objs| <= i < |objs'| ==> fresh(objs'[i])
      ensures Tracked(scope, objs')
      ensures WellFormed(EnvOf(this, objs))
      ensures EnvOf(scope, objs') == DuplicateTop(EnvOf(this, objs))
    {
      TrackedWellFormed(this, objs);
      TablesAllocated(this);
      VarTablesAllocated(this);
      scope := new Scope.Sharing(methodsTable, depth);
      var entries := variablesTable.Iterator();
      ghost var copies := CopyInto(entries, scope.variablesTable);
      objs' := objs + copies;
      assert objs'[..|objs|] == objs && objs'[|objs|..] == copies;
      DuplicateView(this, objs, scope, objs');
    }

    /** The loop of `duplicate`: adds a copy of each entry to `target`, in order. */
    static method CopyInto(entries: seq<(string, VariableSymbol)>, target: SymbolTableImpl<VariableSymbol>)
      returns (ghost copies: seq<VariableSymbol>)
      requires Sorted(entries) && target.Valid() && target.entries == []
      modifies target
      ensures target.Valid() && |copies| == |entries| && target.entries == CopiedEntries(entries, copies)
      ensures forall j :: 0 <= j < |copies| ==> fresh(copies[j]) && copies[j].Info() == entries[j].1.Info()
      ensures forall i, j :: 0 <= i < j < |copies| ==> copies[i] != copies[j]
    {
      copies := [];
      for i := 0 to |entries|
        invariant target.Valid() && |copies| == i && |target.entries| == i
        invariant forall j :: 0 <= j < i ==> target.entries[j] == (entries[j].0, copies[j])
        invariant forall j :: 0 <= j < i ==> fresh(copies[j])
        invariant forall j :: 0 <= j < i ==> copies[j].varType == entries[j].1.varType
        invariant forall j :: 0 <= j < i ==> copies[j].attributes == entries[j].1.attributes
        invariant forall j, k :: 0 <= j < k < i ==> copies[j] != copies[k]
      {
        var copy := AppendCopy(target, entries[i].0, entries[i].1);
        copies := copies + [copy];
      }
    }

    /** One turn of the copy loop: a copy of `original` is added under `name`,
        which sorts after every identifier already in `target`, so it lands last. */
    static method AppendCopy(target: SymbolTableImpl<VariableSymbol>, name: string, original: VariableSymbol)
      returns (copy: VariableSymbol)
      requires target.Valid() && forall j :: 0 <= j < |target.entries| ==> Less(target.entries[j].0, name)
      modifies target
      ensures fresh(copy) && copy.varType == original.varType && copy.attributes == original.attributes
      ensures target.Valid() && target.entries == old(target.entries) + [(name, copy)]
    {
      copy := new VariableSymbol.Copy(original);
      InsertGreatest(target.entries, name, copy);
      var _ := target.Add(name, copy);
    }
  }

  /** A table's keys paired with the given symbols, position by position. */
  ghost function CopiedEntries(es: seq<(string, VariableSymbol)>, copies: seq<VariableSymbol>): (r: seq<(string, VariableSymbol)>)
    requires |copies| == |es|
    ensures |r| == |es| && forall i :: 0 <= i < |es| ==> r[i] == (es[i].0, copies[i])
  {
    seq(|es|, i requires 0 <= i < |es| => (es[i].0, copies[i]))
  }

  /** The scope `duplicate` builds stands for `DuplicateTop` of the original. */
  lemma DuplicateView(s: Scope, objs: seq<VariableSymbol>, scope: Scope, objs': seq<VariableSymbol>)
    requires s.ChainOk() && Tracked(s, objs) && scope.ChainOk() && scope.prev == null
    requires scope.methodsTable == s.methodsTable
    requires |objs'| == |objs| + |s.variablesTable.entries| && objs'[..|objs|] == objs && Injective(objs')
    requires scope.variablesTable.Valid()
    requires scope.variablesTable.entries == CopiedEntries(s.variablesTable.entries, objs'[|objs|..])
    requires forall j :: 0 <= j < |s.variablesTable.entries| ==>
      objs'[|objs| + j].Info() == s.variablesTable.entries[j].1.Info()
    ensures WellFormed(EnvOf(s, objs))
    ensures Tracked(scope, objs')
    ensures EnvOf(scope, objs') == DuplicateTop(EnvOf(s, objs))
  {
    TrackedWellFormed(s, objs);
    var n := |objs|;
    var es := s.variablesTable.entries;
    var copies := scope.variablesTable.entries;
    var ms := s.methodsTable.entries;
    var env := EnvOf(s, objs);
    var vars := env.chain[0].vars;
    assert vars == RefsOf(es, objs);
    var d := DuplicateTop(env);
    assert objs' == objs + objs'[n..];
    forall o | o in objs ensures IndexOf(objs', o) == IndexOf(objs, o) {
      IndexOfPrefix(objs, objs'[n..], o);
    }
    // the store
    assert TableTracked(es, objs);
    DuplicateStore(env, es, objs, objs');
    // the variables
    CopiedRefs(es, objs', n);
    DuplicateTopVars(env);
    assert RefsOf(copies, objs') == d.chain[0].vars;
    // the methods
    forall i | 0 <= i < |ms| ensures MethodView(ms[i].1, objs') == MethodView(ms[i].1, objs) && MethodTracked(ms[i].1, objs') {
      var m := ms[i].1;
      assert MethodTracked(m, objs);
      assert RefsOf(m.parameters.entries, objs') == RefsOf(m.parameters.entries, objs);
    }
    assert MethodsOf(ms, objs') == MethodsOf(ms, objs);
    assert LevelOf(scope, objs') == d.chain[0];
    // tracking
    forall i | 0 <= i < |copies| ensures copies[i].1 in objs' {
      assert copies[i].1 == objs'[n..][i] == objs'[n + i];
    }
  }

  /** The store of the copies is the store `DuplicateTop` builds. */
  lemma DuplicateStore(env: Env, es: seq<(string, VariableSymbol)>, objs: seq<VariableSymbol>, objs': seq<VariableSymbol>)
    requires |env.chain| > 0 && env.store == StoreOf(objs) && env.chain[0].vars == RefsOf(es, objs)
    requires TableTracked(es, objs) && RefsBelow(env.chain[0].vars, |env.store|)
    requires |objs'| == |objs| + |es| && objs'[..|objs|] == objs
    requires forall j :: 0 <= j < |es| ==> objs'[|objs| + j].Info() == es[j].1.Info()
    ensures StoreOf(objs') == DuplicateTop(env).store
  {
    var n := |objs|;
    var d := DuplicateTop(env);
    forall i | 0 <= i < |objs'| ensures StoreOf(objs')[i] == d.store[i] {
      if i < n {
        assert objs'[i] == objs[i];
        assert d.store[i] == env.store[i];
      } else {
        var k := i - n;
        assert n + k == i;
        assert objs'[n + k].Info() == es[k].1.Info();
        DuplicateTopStore(env, k);
        assert env.chain[0].vars[k].1 == IndexOf(objs, es[k].1);
      }
    }
  }

  lemma CopiedRefs(es: seq<(string, VariableSymbol)>, objs': seq<VariableSymbol>, n: nat)
    requires Injective(objs') && |objs'| == n + |es|
    ensures RefsOf(CopiedEntries(es, objs'[n..]), objs') == seq(|es|, i requires 0 <= i < |es| => (es[i].0, n + i))
  {
    forall i | 0 <= i < |es| ensures IndexOf(objs', objs'[n..][i]) == n + i {
      IndexOfInjective(objs', n + i);
    }
  }

  // ---- views -------------------------------------------------------------------------

  /** No symbol object is tracked twice. */
  ghost predicate Injective(objs: seq<VariableSymbol>) {
    forall i, j :: 0 <= i < |objs| && 0 <= j < |objs| && objs[i] == objs[j] ==> i == j
  }

  /** The store index of a tracked symbol (`|objs|` for an untracked one). */
  ghost function IndexOf(objs: seq<VariableSymbol>, o: VariableSymbol): (i: nat)
    ensures i <= |objs|
    ensures o in objs ==> i < |objs| && objs[i] == o
    ensures o !in objs ==> i == |objs|
  {
    if objs == [] then 0 else if objs[0] == o then 0 else 1 + IndexOf(objs[1..], o)
  }

  lemma IndexOfInjective(objs: seq<VariableSymbol>, i: nat)
    requires Injective(objs) && i < |objs|
    ensures IndexOf(objs, objs[i]) == i
  {
  }

  /** Tracking more symbols does not move the tracked ones. */
  lemma {:induction false} IndexOfPrefix(objs: seq<VariableSymbol>, more: seq<VariableSymbol>, o: VariableSymbol)
    requires o in objs
    ensures IndexOf(objs + more, o) == IndexOf(objs, o)
  {
    if objs[0] != o {
      assert (objs + more)[1..] == objs[1..] + more;
      IndexOfPrefix(objs[1..], more, o);
    }
  }

  /** A variable table read as references into the store. */
  ghost function RefsOf(es: seq<(string, VariableSymbol)>, objs: seq<VariableSymbol>): (r: seq<(string, Ref)>)
    ensures |r| == |es| && forall i :: 0 <= i < |es| ==> r[i] == (es[i].0, IndexOf(objs, es[i].1))
  {
    seq(|es|, i requires 0 <= i < |es| => (es[i].0, IndexOf(objs, es[i].1)))
  }

  ghost function MethodView(m: MethodSymbol, objs: seq<VariableSymbol>): MethodInfo
    reads m.parameters
  {
    MethodInfo(RefsOf(m.parameters.entries, objs))
  }

  /** A method table read as values. */
  ghost function MethodsOf(ms: seq<(string, MethodSymbol)>, objs: seq<VariableSymbol>): (r: seq<(string, MethodInfo)>)
    reads ParamTablesOf(ms)
    ensures |r| == |ms| && forall i :: 0 <= i < |ms| ==> r[i] == (ms[i].0, MethodView(ms[i].1, objs))
  {
    seq(|ms|, i requires 0 <= i < |ms| reads ParamTablesOf(ms) => (ms[i].0, MethodView(ms[i].1, objs)))
  }

  ghost function LevelOf(s: Scope, objs: seq<VariableSymbol>): Level
    reads s.variablesTable, s.methodsTable, ParamTablesOf(s.methodsTable.entries)
  {
    Level(RefsOf(s.variablesTable.entries, objs), MethodsOf(s.methodsTable.entries, objs))
  }

  /** The chain from `s` outwards read as values. */
  ghost function ChainOf(s: Scope, objs: seq<VariableSymbol>): (c: seq<Level>)
    requires s.ChainOk()
    reads s.VarTableSet(), s.MethodTableSet()
    ensures |c| > 0 && c[0] == LevelOf(s, objs)
    decreases s.depth
  {
    [LevelOf(s, objs)] + (if s.prev == null then [] else ChainOf(s.prev, objs))
  }

  /** The tracked symbols' current values, in tracking order. */
  ghost function StoreOf(objs: seq<VariableSymbol>): (st: seq<VarInfo>)
    reads objs
    ensures |st| == |objs| && forall i :: 0 <= i < |objs| ==> st[i] == objs[i].Info()
  {
    seq(|objs|, i requires 0 <= i < |objs| reads objs => objs[i].Info())
  }

  /** The environment a scope chain and its tracked symbols stand for. */
  ghost function EnvOf(s: Scope, objs: seq<VariableSymbol>): Env
    requires s.ChainOk()
    reads s.VarTableSet(), s.MethodTableSet(), objs
  {
    Env(StoreOf(objs), ChainOf(s, objs))
  }

  // ---- tracking ------------------------------------------------------------------------

  ghost predicate TableTracked(es: seq<(string, VariableSymbol)>, objs: seq<VariableSymbol>) {
    forall i :: 0 <= i < |es| ==> es[i].1 in objs
  }

  ghost predicate MethodTracked(m: MethodSymbol, objs: seq<VariableSymbol>)
    reads m.parameters
  {
    m.parameters.role == ParameterTable && m.parameters.Valid() && TableTracked(m.parameters.entries, objs)
  }

  ghost predicate ScopeTracked(s: Scope, objs: seq<VariableSymbol>)
    reads s.variablesTable, s.methodsTable, ParamTablesOf(s.methodsTable.entries)
  {
    s.variablesTable.Valid() && s.methodsTable.Valid() && TableTracked(s.variablesTable.entries, objs)
    && forall i :: 0 <= i < |s.methodsTable.entries| ==> MethodTracked(s.methodsTable.entries[i].1, objs)
  }

  ghost predicate ChainTracked(s: Scope, objs: seq<VariableSymbol>)
    requires s.ChainOk()
    reads s.VarTableSet(), s.MethodTableSet()
    decreases s.depth
  {
    ScopeTracked(s, objs) && (s.prev != null ==> ChainTracked(s.prev, objs))
  }

  /** Every symbol the chain's tables hold is tracked, once. */
  ghost predicate Tracked(s: Scope, objs: seq<VariableSymbol>)
    requires s.ChainOk()
    reads s.VarTableSet(), s.MethodTableSet()
  {
    Injective(objs) && ChainTracked(s, objs)
  }

  lemma {:induction false} TablesAllocated(s: Scope)
    requires s.ChainOk()
    ensures forall t :: t in s.MethodTableSet() ==> allocated(t)
    decreases s.depth
  {
    if s.prev != null {
      TablesAllocated(s.prev);
    }
  }

  /** The chain outside the innermost scope, read as values. */
  ghost function OuterOf(s: Scope, objs: seq<VariableSymbol>): seq<Level>
    requires s.ChainOk()
    reads s.VarTableSet(), s.MethodTableSet()
  {
    if s.prev == null then [] else ChainOf(s.prev, objs)
  }

  /** A tracked chain read as an environment: the innermost level over the
      store, in front of the enclosing chain. */
  lemma Recompose(s: Scope, objs: seq<VariableSymbol>)
    requires s.ChainOk() && Injective(objs) && ScopeTracked(s, objs)
    requires s.prev != null ==> ChainTracked(s.prev, objs)
    ensures Tracked(s, objs)
    ensures EnvOf(s, objs) ==
      Env(StoreOf(objs), [Level(RefsOf(s.variablesTable.entries, objs), MethodsOf(s.methodsTable.entries, objs))] + OuterOf(s, objs))
  {
  }

  /** Inserting a name into the innermost variable table (which held `es`) is
      `AddVariable` on the view; a name already there is refused by both. */
  lemma VariableInserted(store: seq<VarInfo>, es: seq<(string, VariableSymbol)>, methods: seq<(string, MethodInfo)>,
                         outer: seq<Level>, k: string, v: VariableSymbol, objs: seq<VariableSymbol>)
    requires Sorted(es)
    ensures Sorted(RefsOf(es, objs))
    ensures var r := Environments.AddVariable(Env(store, [Level(RefsOf(es, objs), methods)] + outer), k, IndexOf(objs, v));
      (r.Failure? <==> Find(es, k).Some?)
      && (Find(es, k).None? ==> r == Success(Env(store, [Level(RefsOf(Insert(es, k, v), objs), methods)] + outer)))
  {
    RefsOfSorted(es, objs);
    RefsOfFind(es, objs, k);
    if Find(es, k).None? {
      RefsOfInsert(es, k, v, objs);
    }
  }

  /** Inserting a name into the innermost method table (which held `ms`) is
      `AddMethod` on the view. */
  lemma MethodInserted(store: seq<VarInfo>, vars: seq<(string, Ref)>, ms: seq<(string, MethodSymbol)>,
                       outer: seq<Level>, k: string, m: MethodSymbol, objs: seq<VariableSymbol>)
    requires Sorted(ms) && Find(ms, k).None?
    ensures Sorted(MethodsOf(ms, objs))
    ensures Environments.AddMethod(Env(store, [Level(vars, MethodsOf(ms, objs))] + outer), k, MethodView(m, objs))
      == Success(Env(store, [Level(vars, MethodsOf(Insert(ms, k, m), objs))] + outer))
  {
    MethodsOfInsert(ms, k, m, objs);
  }

  /** The chain after `addVariable` ran on a variable table that held `es`. */
  lemma VariableAdded(s: Scope, objs: seq<VariableSymbol>, es: seq<(string, VariableSymbol)>, k: string, v: VariableSymbol)
    requires s.ChainOk() && Injective(objs) && v in objs
    requires s.prev != null ==> ChainTracked(s.prev, objs)
    requires s.methodsTable.Valid() && forall i :: 0 <= i < |s.methodsTable.entries| ==> MethodTracked(s.methodsTable.entries[i].1, objs)
    requires Sorted(es) && TableTracked(es, objs)
    requires s.variablesTable.Valid()
    requires Find(es, k).Some? ==> s.variablesTable.entries == es
    requires Find(es, k).None? ==> s.variablesTable.entries == Insert(es, k, v)
    ensures Tracked(s, objs)
    ensures var before := Env(StoreOf(objs), [Level(RefsOf(es, objs), MethodsOf(s.methodsTable.entries, objs))] + OuterOf(s, objs));
      var r := Environments.AddVariable(before, k, IndexOf(objs, v));
      (r.Failure? <==> Find(es, k).Some?)
      && (r.Failure? ==> r.error == SymbolAlreadyExists && EnvOf(s, objs) == before)
      && (r.Success? ==> EnvOf(s, objs) == r.value)
  {
    VariableInserted(StoreOf(objs), es, MethodsOf(s.methodsTable.entries, objs), OuterOf(s, objs), k, v, objs);
    if Find(es, k).None? {
      TableTrackedInsert(es, k, v, objs);
    }
    Recompose(s, objs);
  }

  /** The chain after `addMethod` ran on a method table that held `ms`. */
  lemma MethodAdded(s: Scope, objs: seq<VariableSymbol>, ms: seq<(string, MethodSymbol)>, k: string, m: MethodSymbol)
    requires s.ChainOk() && Injective(objs) && MethodTracked(m, objs)
    requires s.prev != null ==> ChainTracked(s.prev, objs)
    requires s.variablesTable.Valid() && TableTracked(s.variablesTable.entries, objs)
    requires Sorted(ms) && forall i :: 0 <= i < |ms| ==> MethodTracked(ms[i].1, objs)
    requires s.methodsTable.Valid()
    requires Find(ms, k).Some? ==> s.methodsTable.entries == ms
    requires Find(ms, k).None? ==> s.methodsTable.entries == Insert(ms, k, m)
    ensures Tracked(s, objs)
    ensures var before := Env(StoreOf(objs), [Level(RefsOf(s.variablesTable.entries, objs), MethodsOf(ms, objs))] + OuterOf(s, objs));
      var r := Environments.AddMethod(before, k, MethodView(m, objs));
      (r.Failure? <==> Find(ms, k).Some?)
      && (r.Failure? ==> r.error == SymbolAlreadyExists && EnvOf(s, objs) == before)
      && (r.Success? ==> EnvOf(s, objs) == r.value)
  {
    MethodsOfFind(ms, objs, k);
    MethodsOfSorted(ms, objs);
    if Find(ms, k).None? {
      MethodInserted(StoreOf(objs), RefsOf(s.variablesTable.entries, objs), ms, OuterOf(s, objs), k, m, objs);
      MethodTrackedInsert(ms, k, m, objs);
    }
    Recompose(s, objs);
  }

  /** `lookupVariable` on the heap finds a name exactly when the lookup on the
      view does, and the symbol it finds is the one the view's reference names. */
  lemma {:induction false} LookupVariableView(s: Scope, objs: seq<VariableSymbol>, name: string)
    requires s.ChainOk() && Tracked(s, objs)
    ensures var r := s.LookupVariable(name);
      var v := Environments.LookupVariable(EnvOf(s, objs), name);
      (r.Success? <==> v.Success?) && (r.Failure? ==> r.error == NoSuchSymbol)
      && (r.Success? ==> r.value in objs && v.value == IndexOf(objs, r.value))
    decreases s.depth
  {
    var es := s.variablesTable.entries;
    var ts := VarTables(ChainOf(s, objs));
    ToMapFind(es, name);
    RefsOfFind(es, objs, name);
    assert ts[0] == RefsOf(es, objs);
    assert Environments.LookupVariable(EnvOf(s, objs), name) == Lookup(ts, name);
    if Find(es, name).Some? {
      var i := FindIndex(es, name);
      assert es[i].1 in objs;
      assert Lookup(ts, name) == Success(IndexOf(objs, Find(es, name).value));
    } else if s.prev == null {
      assert ts[1..] == [];
      assert Lookup(ts, name) == Failure(NoSuchSymbol);
    } else {
      LookupVariableView(s.prev, objs, name);
      assert ts[1..] == VarTables(ChainOf(s.prev, objs));
      assert Lookup(ts, name) == Environments.LookupVariable(EnvOf(s.prev, objs), name);
    }
  }

  /** `lookupMethod(String)` on the heap agrees with the lookup on the view. */
  lemma {:induction false} LookupMethodView(s: Scope, objs: seq<VariableSymbol>, name: string)
    requires s.ChainOk() && Tracked(s, objs)
    ensures var r := s.LookupMethod(name);
      var v := Environments.LookupMethod(EnvOf(s, objs), name);
      (r.Success? <==> v.Success?) && (r.Failure? ==> r.error == NoSuchSymbol)
      && (r.Success? ==> MethodTracked(r.value, objs) && v.value == MethodView(r.value, objs))
    decreases s.depth
  {
    var ms := s.methodsTable.entries;
    var ts := MethodTables(ChainOf(s, objs));
    ToMapFind(ms, name);
    MethodsOfFind(ms, objs, name);
    assert ts[0] == MethodsOf(ms, objs);
    assert Environments.LookupMethod(EnvOf(s, objs), name) == Lookup(ts, name);
    if Find(ms, name).Some? {
      var i := FindIndex(ms, name);
      assert MethodTracked(ms[i].1, objs);
      assert Lookup(ts, name) == Success(MethodView(Find(ms, name).value, objs));
    } else if s.prev == null {
      assert ts[1..] == [];
      assert Lookup(ts, name) == Failure(NoSuchSymbol);
    } else {
      LookupMethodView(s.prev, objs, name);
      assert ts[1..] == MethodTables(ChainOf(s.prev, objs));
      assert Lookup(ts, name) == Environments.LookupMethod(EnvOf(s.prev, objs), name);
    }
  }

  /** A new scope nested in `prev` stands for `PushScope` of `prev`'s view. */
  lemma NestedView(s: Scope, objs: seq<VariableSymbol>)
    requires s.ChainOk() && s.prev != null && Tracked(s.prev, objs)
    requires s.variablesTable.Valid() && s.variablesTable.entries == []
    requires s.methodsTable.Valid() && s.methodsTable.entries == []
    ensures Tracked(s, objs)
    ensures EnvOf(s, objs) == PushScope(EnvOf(s.prev, objs))
  {
  }

  /** Tracking a new symbol appends its value to the store: `Allocate` on the view. */
  lemma TrackNew(s: Scope, objs: seq<VariableSymbol>, o: VariableSymbol)
    requires s.ChainOk() && Tracked(s, objs) && o !in objs
    ensures Tracked(s, objs + [o])
    ensures IndexOf(objs + [o], o) == |objs|
    ensures EnvOf(s, objs + [o]) == Allocate(EnvOf(s, objs), o.Info()).0
  {
    ChainGrow(s, objs, [o]);
    StoreAppend(objs, o);
    InjectiveAppend(objs, o);
    IndexOfInjective(objs + [o], |objs|);
  }

  lemma StoreAppend(objs: seq<VariableSymbol>, o: VariableSymbol)
    ensures StoreOf(objs + [o]) == StoreOf(objs) + [o.Info()]
  {
  }

  lemma InjectiveAppend(objs: seq<VariableSymbol>, o: VariableSymbol)
    requires Injective(objs) && o !in objs
    ensures Injective(objs + [o])
  {
    var objs' := objs + [o];
    forall i, j | 0 <= i < j < |objs'| ensures objs'[i] != objs'[j] {
      if j == |objs| { assert objs'[i] == objs[i]; }
    }
  }

  /** Tracking more symbols changes nothing the chain's view holds. */
  lemma {:induction false} ChainGrow(s: Scope, objs: seq<VariableSymbol>, more: seq<VariableSymbol>)
    requires s.ChainOk() && ChainTracked(s, objs)
    ensures ChainTracked(s, objs + more) && ChainOf(s, objs + more) == ChainOf(s, objs)
    decreases s.depth
  {
    forall o | o in objs ensures IndexOf(objs + more, o) == IndexOf(objs, o) {
      IndexOfPrefix(objs, more, o);
    }
    var ms := s.methodsTable.entries;
    forall i | 0 <= i < |ms| ensures MethodTracked(ms[i].1, objs + more) && MethodView(ms[i].1, objs + more) == MethodView(ms[i].1, objs) {
      assert MethodTracked(ms[i].1, objs);
    }
    assert LevelOf(s, objs + more) == LevelOf(s, objs);
    if s.prev != null {
      ChainGrow(s.prev, objs, more);
    }
  }

  /** The innermost scope's own tables are none of the other tables the chain reads. */
  lemma TablesApart(s: Scope, objs: seq<VariableSymbol>)
    requires s.ChainOk() && ChainTracked(s, objs)
    ensures forall t :: t in ParamTablesOf(s.methodsTable.entries) ==>
      allocated(t) && t != s.variablesTable && t as object != s.methodsTable as object
    ensures s.prev != null ==> forall t :: t in s.prev.VarTableSet() ==>
      allocated(t) && t != s.variablesTable && t as object != s.methodsTable as object
    ensures s.prev != null ==> forall t :: t in s.prev.MethodTableSet() ==>
      allocated(t) && t != s.methodsTable && t as object != s.variablesTable as object
  {
    TrackedRoles(s, objs);
    if s.prev != null {
      TrackedRoles(s.prev, objs);
      TablesAllocated(s.prev);
      VarTablesAllocated(s.prev);
    }
    forall t | t in ParamTablesOf(s.methodsTable.entries) ensures allocated(t) {
      var i :| 0 <= i < |s.methodsTable.entries| && t == s.methodsTable.entries[i].1.parameters;
    }
  }

  lemma {:induction false} VarTablesAllocated(s: Scope)
    requires s.ChainOk()
    ensures forall t :: t in s.VarTableSet() ==> allocated(t)
    decreases s.depth
  {
    forall t | t in ParamTablesOf(s.methodsTable.entries) ensures allocated(t) {
      var i :| 0 <= i < |s.methodsTable.entries| && t == s.methodsTable.entries[i].1.parameters;
    }
    if s.prev != null {
      VarTablesAllocated(s.prev);
    }
  }

  /** The tables a chain reads are tagged with depths no greater than its own,
      so the innermost scope's tables are not among the outer scopes' ones. */
  lemma {:induction false} TrackedRoles(s: Scope, objs: seq<VariableSymbol>)
    requires s.ChainOk() && ChainTracked(s, objs)
    ensures forall t :: t in s.VarTableSet() ==>
      t.role == ParameterTable || (t.role.VariableTable? && t.role.depth <= s.depth)
    ensures forall t :: t in s.MethodTableSet() ==> t.role.MethodTable? && t.role.depth <= s.depth
    ensures s.prev != null ==> s.variablesTable !in s.prev.VarTableSet() && s.methodsTable !in s.prev.MethodTableSet()
    ensures s.variablesTable !in ParamTablesOf(s.methodsTable.entries)
    decreases s.depth
  {
    if s.prev != null {
      TrackedRoles(s.prev, objs);
    }
    forall t | t in ParamTablesOf(s.methodsTable.entries) ensures t.role == ParameterTable {
      var i :| 0 <= i < |s.methodsTable.entries| && t == s.methodsTable.entries[i].1.parameters;
      assert MethodTracked(s.methodsTable.entries[i].1, objs);
    }
  }

  lemma RefsOfSorted(es: seq<(string, VariableSymbol)>, objs: seq<VariableSymbol>)
    requires Sorted(es)
    ensures Sorted(RefsOf(es, objs))
  {
  }

  lemma MethodsOfSorted(ms: seq<(string, MethodSymbol)>, objs: seq<VariableSymbol>)
    requires Sorted(ms)
    ensures Sorted(MethodsOf(ms, objs))
  {
  }

  lemma {:induction false} RefsOfFind(es: seq<(string, VariableSymbol)>, objs: seq<VariableSymbol>, k: string)
    ensures Find(RefsOf(es, objs), k).Some? <==> Find(es, k).Some?
    ensures Find(es, k).Some? ==> Find(RefsOf(es, objs), k).value == IndexOf(objs, Find(es, k).value)
  {
    if es != [] && es[0].0 != k {
      assert RefsOf(es, objs)[1..] == RefsOf(es[1..], objs);
      RefsOfFind(es[1..], objs, k);
    }
  }

  lemma {:induction false} MethodsOfFind(ms: seq<(string, MethodSymbol)>, objs: seq<VariableSymbol>, k: string)
    ensures Find(MethodsOf(ms, objs), k).Some? <==> Find(ms, k).Some?
    ensures Find(ms, k).Some? ==> Find(MethodsOf(ms, objs), k).value == MethodView(Find(ms, k).value, objs)
  {
    if ms != [] && ms[0].0 != k {
      assert MethodsOf(ms, objs)[1..] == MethodsOf(ms[1..], objs);
      MethodsOfFind(ms[1..], objs, k);
    }
  }

  /** Reading a table as references commutes with inserting into it. */
  lemma {:induction false} RefsOfInsert(es: seq<(string, VariableSymbol)>, k: string, v: VariableSymbol, objs: seq<VariableSymbol>)
    requires Sorted(es) && Find(es, k).None?
    ensures Sorted(RefsOf(es, objs)) && Find(RefsOf(es, objs), k).None?
    ensures RefsOf(Insert(es, k, v), objs) == Insert(RefsOf(es, objs), k, IndexOf(objs, v))
  {
    RefsOfSorted(es, objs);
    RefsOfFind(es, objs, k);
    if es != [] && !Less(k, es[0].0) {
      SortedTail(es);
      RefsOfInsert(es[1..], k, v, objs);
      assert RefsOf(es, objs)[1..] == RefsOf(es[1..], objs);
    }
  }

  lemma {:induction false} MethodsOfInsert(ms: seq<(string, MethodSymbol)>, k: string, m: MethodSymbol, objs: seq<VariableSymbol>)
    requires Sorted(ms) && Find(ms, k).None?
    ensures Sorted(MethodsOf(ms, objs)) && Find(MethodsOf(ms, objs), k).None?
    ensures MethodsOf(Insert(ms, k, m), objs) == Insert(MethodsOf(ms, objs), k, MethodView(m, objs))
  {
    MethodsOfSorted(ms, objs);
    MethodsOfFind(ms, objs, k);
    if ms != [] && !Less(k, ms[0].0) {
      SortedTail(ms);
      MethodsOfInsert(ms[1..], k, m, objs);
      assert MethodsOf(ms, objs)[1..] == MethodsOf(ms[1..], objs);
    }
  }

  lemma TableTrackedInsert(es: seq<(string, VariableSymbol)>, k: string, v: VariableSymbol, objs: seq<VariableSymbol>)
    requires Sorted(es) && Find(es, k).None? && TableTracked(es, objs) && v in objs
    ensures TableTracked(Insert(es, k, v), objs)
  {
    var r := Insert(es, k, v);
    forall i | 0 <= i < |r| ensures r[i].1 in objs {
      FindListed(r, i);
      var j := FindIndex(r, r[i].0);
      SortedKeyUnique(r, i, j);
      if r[i].0 != k {
        var j' := FindIndex(es, r[i].0);
      }
    }
  }

  lemma MethodTrackedInsert(ms: seq<(string, MethodSymbol)>, k: string, m: MethodSymbol, objs: seq<VariableSymbol>)
    requires Sorted(ms) && Find(ms, k).None? && MethodTracked(m, objs)
    requires forall i :: 0 <= i < |ms| ==> MethodTracked(ms[i].1, objs)
    ensures forall i :: 0 <= i < |Insert(ms, k, m)| ==> MethodTracked(Insert(ms, k, m)[i].1, objs)
  {
    var r := Insert(ms, k, m);
    forall i | 0 <= i < |r| ensures MethodTracked(r[i].1, objs) {
      FindListed(r, i);
      var j := FindIndex(r, r[i].0);
      SortedKeyUnique(r, i, j);
      if r[i].0 != k {
        var j' := FindIndex(ms, r[i].0);
      }
    }
  }

  /** A tracked chain stands for a well-formed environment. */
  lemma {:induction false} TrackedWellFormed(s: Scope, objs: seq<VariableSymbol>)
    requires s.ChainOk() && Tracked(s, objs)
    ensures WellFormed(EnvOf(s, objs))
    decreases s.depth
  {
    var env := EnvOf(s, objs);
    LevelTracked(s, objs);
    if s.prev != null {
      TrackedWellFormed(s.prev, objs);
      forall k | 1 <= k < |env.chain| ensures LevelOk(env.chain[k], |env.store|) {
        assert env.chain[k] == ChainOf(s.prev, objs)[k - 1];
      }
    }
  }

  lemma LevelTracked(s: Scope, objs: seq<VariableSymbol>)
    requires ScopeTracked(s, objs)
    ensures LevelOk(LevelOf(s, objs), |objs|)
  {
    RefsOfSorted(s.variablesTable.entries, objs);
    MethodsOfSorted(s.methodsTable.entries, objs);
    var ms := s.methodsTable.entries;
    forall i | 0 <= i < |ms| ensures MethodOk(MethodsOf(ms, objs)[i].1, |objs|) {
      assert MethodTracked(ms[i].1, objs);
      RefsOfSorted(ms[i].1.parameters.entries, objs);
    }
  }
}
