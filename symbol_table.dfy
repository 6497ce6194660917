/** Symbol tables: maps from identifiers to symbols that refuse duplicates and
    list their entries in ascending identifier order (the source keeps them in a
    `TreeMap`).

    The abstract view of a table (the `SymbolTable` interface) is its
    `Contents()` map; `SymbolTableImpl` keeps a strictly sorted list of entries,
    and `ToMapFind` ties a lookup in the list to the map. The list functions are generic so that the parser's specification
    can use the same tables over plain values. */
module SymbolTables {
  import opened Wrappers
  import opened Errors

  // ---- identifier order ----------------------------------------------------

  /** `String.compareTo(a, b) < 0`: lexicographic order on character codes, a
      proper prefix coming first. */
  predicate Less(a: string, b: string)
    decreases |a|
  {
    if |a| == 0 then |b| > 0
    else if |b| == 0 then false
    else if a[0] != b[0] then a[0] < b[0]
    else Less(a[1..], b[1..])
  }

  lemma {:induction false} LessIrreflexive(a: string)
    ensures !Less(a, a)
    decreases |a|
  {
    if |a| > 0 { LessIrreflexive(a[1..]); }
  }

  lemma {:induction false} LessTransitive(a: string, b: string, c: string)
    requires Less(a, b) && Less(b, c)
    ensures Less(a, c)
    decreases |a|
  {
    if |a| > 0 && |b| > 0 && |c| > 0 && a[0] == b[0] == c[0] {
      LessTransitive(a[1..], b[1..], c[1..]);
    }
  }

  lemma {:induction false} LessTotal(a: string, b: string)
    requires a != b
    ensures Less(a, b) || Less(b, a)
    decreases |a|
  {
    if |a| > 0 && |b| > 0 && a[0] == b[0] {
      assert a == [a[0]] + a[1..] && b == [b[0]] + b[1..];
      LessTotal(a[1..], b[1..]);
    }
  }

  lemma {:induction false} LessAsymmetric(a: string, b: string)
    requires Less(a, b)
    ensures !Less(b, a)
    decreases |a|
  {
    if |a| > 0 && |b| > 0 && a[0] == b[0] {
      LessAsymmetric(a[1..], b[1..]);
    }
  }

  // ---- entry lists -----------------------------------------------------------

  /** Strictly ascending identifiers, hence no identifier twice. */
  ghost predicate Sorted<V>(es: seq<(string, V)>) {
    forall i, j {:trigger Less(es[i].0, es[j].0)} :: 0 <= i < j < |es| ==> Less(es[i].0, es[j].0)
  }

  /** The value stored for `k`, if any. */
  function Find<V>(es: seq<(string, V)>, k: string): (r: Option<V>)
    ensures r.Some? ==> (k, r.value) in es
  {
    if es == [] then None
    else if es[0].0 == k then Some(es[0].1)
    else Find(es[1..], k)
  }

  /** Where a found identifier sits. */
  lemma {:induction false} FindIndex<V>(es: seq<(string, V)>, k: string) returns (i: nat)
    requires Find(es, k).Some?
    ensures i < |es| && es[i] == (k, Find(es, k).value)
  {
    if es[0].0 == k {
      i := 0;
    } else {
      var j := FindIndex(es[1..], k);
      i := j + 1;
    }
  }

  /** A sorted tail holds no identifier at most its head's. */
  lemma SortedTail<V>(es: seq<(string, V)>)
    requires Sorted(es) && es != []
    ensures Sorted(es[1..])
    ensures Find(es[1..], es[0].0).None?
  {
    if Find(es[1..], es[0].0).Some? {
      var i := FindIndex(es[1..], es[0].0);
      assert es[i + 1].0 == es[0].0;
      LessIrreflexive(es[0].0);
    }
  }

  /** In a sorted list an identifier sits at one index only. */
  lemma SortedKeyUnique<V>(es: seq<(string, V)>, i: nat, j: nat)
    requires Sorted(es) && i < |es| && j < |es| && es[i].0 == es[j].0
    ensures i == j
  {
    if i != j {
      LessIrreflexive(es[i].0);
    }
  }

  /** The map an entry list stands for. */
  ghost function ToMap<V>(es: seq<(string, V)>): map<string, V>
  {
    if es == [] then map[] else ToMap(es[1..])[es[0].0 := es[0].1]
  }

  /** `ToMap` holds exactly what `Find` finds. */
  lemma {:induction false} ToMapFind<V>(es: seq<(string, V)>, k: string)
    ensures k in ToMap(es) <==> Find(es, k).Some?
    ensures k in ToMap(es) ==> ToMap(es)[k] == Find(es, k).value
  {
    if es != [] && es[0].0 != k {
      ToMapFind(es[1..], k);
    }
  }

  /** Every listed identifier is found. */
  lemma {:induction false} FindListed<V>(es: seq<(string, V)>, i: nat)
    requires i < |es|
    ensures Find(es, es[i].0).Some?
  {
    if i > 0 && es[0].0 != es[i].0 {
      FindListed(es[1..], i - 1);
    }
  }

  /** Inserts a new identifier at its place in the order (`TreeMap.put`). */
  function Insert<V>(es: seq<(string, V)>, k: string, v: V): (r: seq<(string, V)>)
    requires Sorted(es) && Find(es, k).None?
    ensures Sorted(r)
    ensures |r| == |es| + 1
    ensures forall x :: Find(r, x) == if x == k then Some(v) else Find(es, x)
  {
    if es == [] then [(k, v)]
    else if Less(k, es[0].0) then
      InsertFirst(es, k, v);
      [(k, v)] + es
    else
      SortedTail(es);
      var tail := Insert(es[1..], k, v);
      InsertLater(es, k, v, tail);
      [es[0]] + tail
  }

  lemma InsertFirst<V>(es: seq<(string, V)>, k: string, v: V)
    requires Sorted(es) && es != [] && Less(k, es[0].0)
    ensures Sorted([(k, v)] + es)
    ensures forall x :: Find([(k, v)] + es, x) == if x == k then Some(v) else Find(es, x)
  {
    var r := [(k, v)] + es;
    assert r[1..] == es;
    forall i | 1 <= i < |r| ensures Less(k, r[i].0) {
      if i > 1 { LessTransitive(k, es[0].0, es[i - 1].0); }
    }
  }

  lemma InsertLater<V>(es: seq<(string, V)>, k: string, v: V, tail: seq<(string, V)>)
    requires Sorted(es) && es != [] && !Less(k, es[0].0) && Find(es, k).None?
    requires Sorted(tail)
    requires forall x :: Find(tail, x) == if x == k then Some(v) else Find(es[1..], x)
    ensures Sorted([es[0]] + tail)
    ensures forall x :: Find([es[0]] + tail, x) == if x == k then Some(v) else Find(es, x)
  {
    var r := [es[0]] + tail;
    assert r[1..] == tail;
    assert es[0].0 != k;
    LessTotal(k, es[0].0);
    forall j | 0 <= j < |tail| ensures Less(es[0].0, tail[j].0) {
      var x := tail[j].0;
      FindListed(tail, j);
      if x != k {
        var i := FindIndex(es[1..], x);
        assert es[i + 1].0 == x;
      }
    }
    SortedTail(es);
  }

  /** Inserting adds exactly the new entry to the contents. */
  lemma InsertContents<V>(es: seq<(string, V)>, k: string, v: V)
    requires Sorted(es) && Find(es, k).None?
    ensures ToMap(Insert(es, k, v)) == ToMap(es)[k := v]
  {
    var r := Insert(es, k, v);
    forall x | true
      ensures x in ToMap(r) <==> x in ToMap(es)[k := v]
      ensures x in ToMap(r) ==> ToMap(r)[x] == ToMap(es)[k := v][x]
    {
      ToMapFind(r, x);
      ToMapFind(es, x);
    }
  }

  /** Inserting a key greater than every present one appends it. */
  lemma {:induction false} InsertGreatest<V>(es: seq<(string, V)>, k: string, v: V)
    requires Sorted(es) && forall j :: 0 <= j < |es| ==> Less(es[j].0, k)
    ensures Find(es, k).None?
    ensures Insert(es, k, v) == es + [(k, v)]
  {
    if es != [] {
      GreatestOfTail(es, k);
      InsertGreatest(es[1..], k, v);
      InsertAfterFirst(es, k, v);
      ConsAppend(es, (k, v));
    }
  }

  lemma ConsAppend<T>(s: seq<T>, x: T)
    requires s != []
    ensures [s[0]] + (s[1..] + [x]) == s + [x]
  {
    assert s == [s[0]] + s[1..];
  }

  /** A missing key that does not go before the first entry is inserted
      into the tail. */
  lemma InsertAfterFirst<V>(es: seq<(string, V)>, k: string, v: V)
    requires es != [] && Sorted(es) && Sorted(es[1..]) && es[0].0 != k && !Less(k, es[0].0) && Find(es[1..], k).None?
    ensures Find(es, k).None? && Insert(es, k, v) == [es[0]] + Insert(es[1..], k, v)
  {
  }

  /** A key greater than every present one is not the first and is greater
      than every key of the tail. */
  lemma GreatestOfTail<V>(es: seq<(string, V)>, k: string)
    requires es != [] && Sorted(es) && forall j :: 0 <= j < |es| ==> Less(es[j].0, k)
    ensures es[0].0 != k && !Less(k, es[0].0) && Sorted(es[1..])
    ensures forall j :: 0 <= j < |es[1..]| ==> Less(es[1..][j].0, k)
  {
    LessIrreflexive(k);
    LessNotBoth(es[0].0, k);
    SortedTail(es);
    forall j | 0 <= j < |es[1..]| ensures Less(es[1..][j].0, k) { assert es[1..][j] == es[j + 1]; }
  }

  /** Two lists with the same keys in the same order find a key at the same
      position. */
  lemma {:induction false} FindSameKeys<A, B>(a: seq<(string, A)>, b: seq<(string, B)>, k: string) returns (i: nat)
    requires |a| == |b| && forall j :: 0 <= j < |a| ==> a[j].0 == b[j].0
    ensures Find(a, k).Some? <==> Find(b, k).Some?
    ensures Find(a, k).Some? ==> i < |a| && a[i] == (k, Find(a, k).value) && b[i] == (k, Find(b, k).value)
  {
    if a == [] || a[0].0 == k {
      i := 0;
    } else {
      var i' := FindSameKeys(a[1..], b[1..], k);
      i := i' + 1;
    }
  }

  /** `Less` is never symmetric. */
  lemma LessNotBoth(a: string, b: string)
    ensures !(Less(a, b) && Less(b, a))
  {
    if Less(a, b) { LessAsymmetric(a, b); }
  }

  lemma LessTrichotomy(a: string, b: string)
    ensures a == b || Less(a, b) || Less(b, a)
  {
    if a != b { LessTotal(a, b); }
  }

  /** An entry list stands for the empty map only when it is empty. */
  lemma ToMapEmpty<V>(es: seq<(string, V)>)
    ensures ToMap(es) == map[] <==> es == []
  {
    if es != [] {
      ToMapFind(es, es[0].0);
    }
  }

  /** Two sorted lists with the same contents start with the same entry. */
  lemma SameHead<V>(a: seq<(string, V)>, b: seq<(string, V)>)
    requires Sorted(a) && Sorted(b) && ToMap(a) == ToMap(b) && a != [] && b != []
    ensures a[0] == b[0]
  {
    var x, y := a[0].0, b[0].0;
    ToMapFind(a, x);
    ToMapFind(b, x);
    ToMapFind(a, y);
    ToMapFind(b, y);
    var i := FindIndex(b, x);
    var j := FindIndex(a, y);
    assert i == 0 || Less(y, x);
    assert j == 0 || Less(x, y);
    LessNotBoth(x, y);
    LessTrichotomy(x, y);
  }

  /** Two sorted lists with the same contents are the same list: the order of
      iteration depends only on which identifiers are present, not on the order
      in which they were added. */
  lemma {:induction false} SortedUnique<V>(a: seq<(string, V)>, b: seq<(string, V)>)
    requires Sorted(a) && Sorted(b) && ToMap(a) == ToMap(b)
    ensures a == b
    decreases |a|
  {
    ToMapEmpty(a);
    ToMapEmpty(b);
    if a != [] {
      SameHead(a, b);
      SortedTail(a);
      SortedTail(b);
      forall k | true
        ensures k in ToMap(a[1..]) <==> k in ToMap(b[1..])
        ensures k in ToMap(a[1..]) ==> ToMap(a[1..])[k] == ToMap(b[1..])[k]
      {
        ToMapFind(a, k);
        ToMapFind(b, k);
        ToMapFind(a[1..], k);
        ToMapFind(b[1..], k);
      }
      SortedUnique(a[1..], b[1..]);
      assert a == [a[0]] + a[1..] && b == [b[0]] + b[1..];
    }
  }

  /** What a table holds and, for the tables of a scope, the scope's nesting
      depth. A ghost tag fixed at construction: tables with different tags are
      different objects, which keeps the frames of the scope chain apart. */
  datatype Role = VariableTable(depth: nat) | MethodTable(depth: nat) | ParameterTable

  /** A table mapping identifiers to symbols of type `E`. */
  class SymbolTableImpl<E> {
    ghost const role: Role

    /** The table's entries in ascending identifier order. */
    var entries: seq<(string, E)>

    ghost predicate Valid()
      reads this
    {
      Sorted(entries)
    }

    /** The identifier-to-symbol map the table stands for. */
    ghost function Contents(): map<string, E>
      reads this
    {
      ToMap(entries)
    }

    constructor (ghost role: Role)
      ensures Valid() && entries == [] && Contents() == map[]
      ensures this.role == role
    {
      this.role := role;
      entries := [];
    }

    /** Adds a new identifier; an identifier already present is refused and the
        table is left as it was. */
    method Add(identifier: string, value: E) returns (o: Outcome<Error>)
      requires Valid()
      modifies this
      ensures Valid()
      ensures Find(old(entries), identifier).Some? ==> o == Fail(SymbolAlreadyExists) && entries == old(entries)
      ensures Find(old(entries), identifier).None? ==> o == Pass && entries == Insert(old(entries), identifier, value)
    {
      ToMapFind(entries, identifier);
      if Contains(identifier) {
        return Fail(SymbolAlreadyExists);
      }
      entries := Insert(entries, identifier, value);
      return Pass;
    }

    /** The symbol stored for an identifier, or `NoSuchSymbol`. */
    function Get(identifier: string): (r: Result<E, Error>)
      reads this
      ensures identifier in Contents() ==> r == Success(Contents()[identifier])
      ensures identifier !in Contents() ==> r == Failure(NoSuchSymbol)
    {
      ToMapFind(entries, identifier);
      match Find(entries, identifier)
      case Some(v) => Success(v)
      case None => Failure(NoSuchSymbol)
    }

    function Contains(identifier: string): (b: bool)
      reads this
      ensures b <==> identifier in Contents()
    {
      ToMapFind(entries, identifier);
      Find(entries, identifier).Some?
    }

    /** The entries in ascending identifier order: the only sorted listing of
        the table's contents (see `SortedUnique`). */
    function Iterator(): (es: seq<(string, E)>)
      reads this
      requires Valid()
      ensures Sorted(es) && ToMap(es) == Contents()
    {
      entries
    }
  }
}
