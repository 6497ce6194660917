/** The value model of a scope chain: every variable symbol lives in a store and
    the tables hold references (store indices) to it, so one symbol reachable
    from two tables (a method's parameter table and the method body's scope) is
    one store entry, exactly as one object is in the heap. */
module Environments {
  import opened Wrappers
  import opened Tokens
  import opened Errors
  import opened SymbolTables
  import opened Symbols

  /** The index of a variable symbol in the store. */
  type Ref = nat

  /** A method symbol: its parameter table. The return marker is never read. */
  datatype MethodInfo = MethodInfo(params: seq<(string, Ref)>)

  /** One scope: its variable table and its method table. */
  datatype Level = Level(vars: seq<(string, Ref)>, methods: seq<(string, MethodInfo)>)

  /** The symbol store and the scope chain, innermost scope first. */
  datatype Env = Env(store: seq<VarInfo>, chain: seq<Level>)

  ghost predicate RefsBelow(es: seq<(string, Ref)>, n: nat) {
    forall i :: 0 <= i < |es| ==> es[i].1 < n
  }

  ghost predicate MethodOk(m: MethodInfo, n: nat) {
    Sorted(m.params) && RefsBelow(m.params, n)
  }

  ghost predicate LevelOk(l: Level, n: nat) {
    Sorted(l.vars) && RefsBelow(l.vars, n) && Sorted(l.methods)
    && forall i :: 0 <= i < |l.methods| ==> MethodOk(l.methods[i].1, n)
  }

  /** Tables sorted, every reference inside the store, and at least one scope. */
  ghost predicate WellFormed(env: Env) {
    |env.chain| > 0 && forall k :: 0 <= k < |env.chain| ==> LevelOk(env.chain[k], |env.store|)
  }

  // ---- lookups -----------------------------------------------------------------

  /** Innermost-first lookup through a list of tables. */
  function Lookup<V>(tables: seq<seq<(string, V)>>, name: string): (r: Result<V, Error>)
    ensures r.Failure? ==> r.error == NoSuchSymbol
  {
    if tables == [] then Failure(NoSuchSymbol)
    else match Find(tables[0], name)
      case Some(v) => Success(v)
      case None => Lookup(tables[1..], name)
  }

  /** Lookup fails exactly when no table holds the name. */
  lemma {:induction false} LookupFails<V>(tables: seq<seq<(string, V)>>, name: string)
    ensures Lookup(tables, name).Failure? <==> forall k :: 0 <= k < |tables| ==> Find(tables[k], name).None?
  {
    if tables != [] {
      LookupFails(tables[1..], name);
      assert forall k :: 0 < k < |tables| ==> tables[1..][k - 1] == tables[k];
    }
  }

  /** A successful lookup returns the binding of the innermost table that
      holds the name. */
  lemma {:induction false} LookupWitness<V>(tables: seq<seq<(string, V)>>, name: string) returns (k: nat)
    requires Lookup(tables, name).Success?
    ensures k < |tables| && Find(tables[k], name) == Some(Lookup(tables, name).value)
    ensures forall j :: 0 <= j < k ==> Find(tables[j], name).None?
  {
    if Find(tables[0], name).Some? {
      k := 0;
    } else {
      var k' := LookupWitness(tables[1..], name);
      k := k' + 1;
      assert forall j :: 0 < j < k ==> tables[1..][j - 1] == tables[j];
    }
  }

  function VarTables(chain: seq<Level>): (ts: seq<seq<(string, Ref)>>)
    ensures |ts| == |chain| && forall k :: 0 <= k < |chain| ==> ts[k] == chain[k].vars
  {
    seq(|chain|, k requires 0 <= k < |chain| => chain[k].vars)
  }

  function MethodTables(chain: seq<Level>): (ts: seq<seq<(string, MethodInfo)>>)
    ensures |ts| == |chain| && forall k :: 0 <= k < |chain| ==> ts[k] == chain[k].methods
  {
    seq(|chain|, k requires 0 <= k < |chain| => chain[k].methods)
  }

  /** `Scope.lookupVariable`. */
  function LookupVariable(env: Env, name: string): (r: Result<Ref, Error>)
    ensures r.Failure? <==> forall k :: 0 <= k < |env.chain| ==> Find(env.chain[k].vars, name).None?
    ensures r.Failure? ==> r.error == NoSuchSymbol
  {
    LookupFails(VarTables(env.chain), name);
    Lookup(VarTables(env.chain), name)
  }

  /** `Scope.lookupMethod(String)`. */
  function LookupMethod(env: Env, name: string): (r: Result<MethodInfo, Error>)
    ensures r.Failure? <==> forall k :: 0 <= k < |env.chain| ==> Find(env.chain[k].methods, name).None?
    ensures r.Failure? ==> r.error == NoSuchSymbol
  {
    LookupFails(MethodTables(env.chain), name);
    Lookup(MethodTables(env.chain), name)
  }

  /** `Scope.lookupMethod(int)`: the ordinal-th method of the innermost scope
      alone, in ascending name order. */
  function MethodByOrdinal(env: Env, ordinal: int): (r: Result<MethodInfo, Error>)
    requires |env.chain| > 0
    ensures r.Success? <==> 0 <= ordinal < |env.chain[0].methods|
    ensures r.Success? ==> r.value == env.chain[0].methods[ordinal].1
    ensures r.Failure? ==> r.error == NoSuchSymbol
  {
    if 0 <= ordinal < |env.chain[0].methods| then Success(env.chain[0].methods[ordinal].1)
    else Failure(NoSuchSymbol)
  }

  /** A variable found in a well-formed environment is in the store. */
  lemma LookupVariableInStore(env: Env, name: string)
    requires WellFormed(env) && LookupVariable(env, name).Success?
    ensures LookupVariable(env, name).value < |env.store|
  {
    var k := LookupWitness(VarTables(env.chain), name);
    var i :| 0 <= i < |env.chain[k].vars| && env.chain[k].vars[i] == (name, LookupVariable(env, name).value);
  }

  /** A method found in a well-formed environment has sorted, stored parameters. */
  lemma LookupMethodOk(env: Env, name: string)
    requires WellFormed(env) && LookupMethod(env, name).Success?
    ensures MethodOk(LookupMethod(env, name).value, |env.store|)
  {
    var k := LookupWitness(MethodTables(env.chain), name);
    var i :| 0 <= i < |env.chain[k].methods| && env.chain[k].methods[i] == (name, LookupMethod(env, name).value);
  }

  // ---- updates -----------------------------------------------------------------

  /** `new VariableSymbol(...)`: a new store entry, referenced by nothing yet. */
  function Allocate(env: Env, info: VarInfo): (Env, Ref) {
    (Env(env.store + [info], env.chain), |env.store|)
  }

  /** The store after a symbol object is changed in place. */
  function Update(env: Env, ref: Ref, info: VarInfo): Env
    requires ref < |env.store|
  {
    Env(env.store[ref := info], env.chain)
  }

  /** `Scope.addVariable` on the innermost scope: refused only when the
      innermost scope already holds the name, so an outer name may be shadowed. */
  function AddVariable(env: Env, name: string, ref: Ref): (r: Result<Env, Error>)
    requires |env.chain| > 0 && Sorted(env.chain[0].vars)
    ensures r.Failure? <==> Find(env.chain[0].vars, name).Some?
    ensures r.Failure? ==> r.error == SymbolAlreadyExists
    ensures r.Success? ==>
      r.value.store == env.store && |r.value.chain| == |env.chain| && r.value.chain[1..] == env.chain[1..]
      && r.value.chain[0].methods == env.chain[0].methods && Sorted(r.value.chain[0].vars)
      && ToMap(r.value.chain[0].vars) == ToMap(env.chain[0].vars)[name := ref]
  {
    var top := env.chain[0];
    if Find(top.vars, name).Some? then Failure(SymbolAlreadyExists)
    else
      InsertContents(top.vars, name, ref);
      Success(Env(env.store, [Level(Insert(top.vars, name, ref), top.methods)] + env.chain[1..]))
  }

  /** `Scope.addMethod` on the innermost scope. */
  function AddMethod(env: Env, name: string, m: MethodInfo): (r: Result<Env, Error>)
    requires |env.chain| > 0 && Sorted(env.chain[0].methods)
    ensures r.Failure? <==> Find(env.chain[0].methods, name).Some?
    ensures r.Failure? ==> r.error == SymbolAlreadyExists
    ensures r.Success? ==>
      r.value.store == env.store && |r.value.chain| == |env.chain| && r.value.chain[1..] == env.chain[1..]
      && r.value.chain[0].vars == env.chain[0].vars && Sorted(r.value.chain[0].methods)
      && ToMap(r.value.chain[0].methods) == ToMap(env.chain[0].methods)[name := m]
  {
    var top := env.chain[0];
    if Find(top.methods, name).Some? then Failure(SymbolAlreadyExists)
    else
      InsertContents(top.methods, name, m);
      Success(Env(env.store, [Level(top.vars, Insert(top.methods, name, m))] + env.chain[1..]))
  }

  /** `new Scope(prev)`: an empty scope in front of the chain. */
  function PushScope(env: Env): (r: Env)
    ensures r.store == env.store && |r.chain| == |env.chain| + 1 && r.chain[1..] == env.chain
    ensures r.chain[0] == Level([], [])
  {
    Env(env.store, [Level([], [])] + env.chain)
  }

  /** `Scope.duplicate` read on values: one scope whose variables are new store
      entries holding copies of the innermost scope's variables, allocated in
      ascending name order, and whose methods are the innermost scope's. */
  function DuplicateTop(env: Env): (r: Env)
    requires |env.chain| > 0 && RefsBelow(env.chain[0].vars, |env.store|)
    ensures |r.chain| == 1 && r.chain[0].methods == env.chain[0].methods
    ensures |r.store| == |env.store| + |env.chain[0].vars| && r.store[..|env.store|] == env.store
  {
    var vars := env.chain[0].vars;
    var n := |env.store|;
    Env(env.store + seq(|vars|, i requires 0 <= i < |vars| => env.store[vars[i].1]),
        [Level(seq(|vars|, i requires 0 <= i < |vars| => (vars[i].0, n + i)), env.chain[0].methods)])
  }

  // ---- properties ----------------------------------------------------------------

  /** After a successful `addVariable` the name resolves to the new symbol and
      every other name resolves as before. */
  lemma AddVariableThenLookup(env: Env, name: string, ref: Ref, other: string)
    requires |env.chain| > 0 && Sorted(env.chain[0].vars) && AddVariable(env, name, ref).Success?
    ensures LookupVariable(AddVariable(env, name, ref).value, name) == Success(ref)
    ensures other != name ==>
      LookupVariable(AddVariable(env, name, ref).value, other) == LookupVariable(env, other)
  {
    var env' := AddVariable(env, name, ref).value;
    var ts, ts' := VarTables(env.chain), VarTables(env'.chain);
    ToMapFind(env'.chain[0].vars, name);
    ToMapFind(env'.chain[0].vars, other);
    ToMapFind(env.chain[0].vars, other);
    assert ts'[1..] == ts[1..];
  }

  /** A new empty scope hides nothing: every lookup resolves as before. */
  lemma PushScopeTransparent(env: Env, name: string)
    ensures LookupVariable(PushScope(env), name) == LookupVariable(env, name)
    ensures LookupMethod(PushScope(env), name) == LookupMethod(env, name)
  {
    assert VarTables(PushScope(env).chain)[1..] == VarTables(env.chain);
    assert MethodTables(PushScope(env).chain)[1..] == MethodTables(env.chain);
  }

  lemma DuplicateTopVars(env: Env)
    requires |env.chain| > 0 && RefsBelow(env.chain[0].vars, |env.store|)
    ensures var vars := env.chain[0].vars;
      DuplicateTop(env).chain[0].vars == seq(|vars|, i requires 0 <= i < |vars| => (vars[i].0, |env.store| + i))
  {
  }

  /** The new store entries of `duplicate` hold the values of the innermost
      scope's variables, in the order of their names. */
  lemma DuplicateTopStore(env: Env, k: nat)
    requires |env.chain| > 0 && RefsBelow(env.chain[0].vars, |env.store|) && k < |env.chain[0].vars|
    ensures DuplicateTop(env).store[|env.store| + k] == env.store[env.chain[0].vars[k].1]
  {
  }

  /** After `duplicate` a variable of the innermost scope resolves to a new
      store entry holding a copy of its value (the `i`-th new entry for the
      `i`-th name), and no other variable resolves. */
  lemma DuplicateTopLookupVariable(env: Env, name: string) returns (i: nat)
    requires WellFormed(env)
    ensures var r := DuplicateTop(env); var vars := env.chain[0].vars;
      (LookupVariable(r, name).Success? <==> Find(vars, name).Some?)
      && (Find(vars, name).Some? ==>
            i < |vars| && vars[i] == (name, Find(vars, name).value)
            && LookupVariable(r, name) == Success(|env.store| + i)
            && r.store[|env.store| + i] == env.store[vars[i].1])
  {
    var r := DuplicateTop(env);
    var vars, vars' := env.chain[0].vars, r.chain[0].vars;
    i := FindSameKeys(vars, vars', name);
    var ts := VarTables(r.chain);
    assert ts[0] == vars' && ts[1..] == [];
    assert Lookup(ts[1..], name) == Failure(NoSuchSymbol);
    if Find(vars, name).Some? {
      DuplicateTopStore(env, i);
    }
  }

  /** After `duplicate` methods resolve in the innermost scope's table alone. */
  lemma DuplicateTopLookupMethod(env: Env, name: string)
    requires WellFormed(env)
    ensures LookupMethod(DuplicateTop(env), name) == Lookup([env.chain[0].methods], name)
  {
    var ts := MethodTables(DuplicateTop(env).chain);
    assert ts == [env.chain[0].methods];
  }

  lemma DuplicateTopWellFormed(env: Env)
    requires WellFormed(env)
    ensures WellFormed(DuplicateTop(env))
  {
    var r := DuplicateTop(env);
    var l := r.chain[0];
    forall i | 0 <= i < |l.methods| ensures MethodOk(l.methods[i].1, |r.store|) {
      assert MethodOk(l.methods[i].1, |env.store|);
    }
  }

  // ---- well-formedness -------------------------------------------------------------

  lemma RefsBelowGrow(es: seq<(string, Ref)>, n: nat, m: nat)
    requires RefsBelow(es, n) && n <= m
    ensures RefsBelow(es, m)
  {
  }

  lemma LevelOkGrow(l: Level, n: nat, m: nat)
    requires LevelOk(l, n) && n <= m
    ensures LevelOk(l, m)
  {
  }

  lemma AllocateWellFormed(env: Env, info: VarInfo)
    requires WellFormed(env)
    ensures WellFormed(Allocate(env, info).0) && Allocate(env, info).1 < |Allocate(env, info).0.store|
  {
    forall k | 0 <= k < |env.chain| ensures LevelOk(env.chain[k], |env.store| + 1) {
      LevelOkGrow(env.chain[k], |env.store|, |env.store| + 1);
    }
  }

  lemma UpdateWellFormed(env: Env, ref: Ref, info: VarInfo)
    requires WellFormed(env) && ref < |env.store|
    ensures WellFormed(Update(env, ref, info))
  {
  }

  /** Inserting keeps every reference below a bound that bounds both sides. */
  lemma InsertRefsBelow(es: seq<(string, Ref)>, name: string, ref: Ref, n: nat)
    requires Sorted(es) && Find(es, name).None? && RefsBelow(es, n) && ref < n
    ensures RefsBelow(Insert(es, name, ref), n)
  {
    var r := Insert<Ref>(es, name, ref);
    forall i | 0 <= i < |r| ensures r[i].1 < n {
      FindListed(r, i);
      var x := r[i].0;
      var j := FindIndex(r, x);
      SortedKeyUnique(r, i, j);
      if x != name {
        var j' := FindIndex<Ref>(es, x);
      }
    }
  }

  lemma InsertMethodsOk(ms: seq<(string, MethodInfo)>, name: string, m: MethodInfo, n: nat)
    requires Sorted(ms) && Find(ms, name).None? && MethodOk(m, n)
    requires forall i :: 0 <= i < |ms| ==> MethodOk(ms[i].1, n)
    ensures forall i :: 0 <= i < |Insert(ms, name, m)| ==> MethodOk(Insert(ms, name, m)[i].1, n)
  {
    var r := Insert(ms, name, m);
    forall i | 0 <= i < |r| ensures MethodOk(r[i].1, n) {
      FindListed(r, i);
      var x := r[i].0;
      var j := FindIndex(r, x);
      SortedKeyUnique(r, i, j);
      if x != name {
        var j' := FindIndex(ms, x);
      }
    }
  }

  lemma AddVariableWellFormed(env: Env, name: string, ref: Ref)
    requires WellFormed(env) && ref < |env.store| && AddVariable(env, name, ref).Success?
    ensures WellFormed(AddVariable(env, name, ref).value)
  {
    InsertRefsBelow(env.chain[0].vars, name, ref, |env.store|);
    var env' := AddVariable(env, name, ref).value;
    assert env'.chain[0].vars == Insert(env.chain[0].vars, name, ref);
    forall k | 1 <= k < |env'.chain| ensures env'.chain[k] == env.chain[k] {
      assert env'.chain[1..][k - 1] == env.chain[1..][k - 1];
    }
  }

  lemma AddMethodWellFormed(env: Env, name: string, m: MethodInfo)
    requires WellFormed(env) && MethodOk(m, |env.store|) && AddMethod(env, name, m).Success?
    ensures WellFormed(AddMethod(env, name, m).value)
  {
    InsertMethodsOk(env.chain[0].methods, name, m, |env.store|);
    var env' := AddMethod(env, name, m).value;
    assert env'.chain[0].methods == Insert(env.chain[0].methods, name, m);
    forall k | 1 <= k < |env'.chain| ensures env'.chain[k] == env.chain[k] {
      assert env'.chain[1..][k - 1] == env.chain[1..][k - 1];
    }
  }

  lemma PushScopeWellFormed(env: Env)
    requires WellFormed(env)
    ensures WellFormed(PushScope(env))
  {
    var r := PushScope(env);
    forall k | 1 <= k < |r.chain| ensures r.chain[k] == env.chain[k - 1] {
      assert r.chain[1..][k - 1] == env.chain[k - 1];
    }
  }
}
