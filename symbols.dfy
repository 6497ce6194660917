/** Variable symbols (a type and an attribute byte toggled bit by bit), the
    builder that assembles them, and method symbols (a return marker and a
    parameter table). */
module Symbols {
  import opened Wrappers
  import opened Tokens
  import opened Errors
  import opened SymbolTables

  /** `VariableSymbol.Attribute`: each attribute owns one bit of the byte. */
  datatype Attribute = Final | Initialized

  function Bit(a: Attribute): bv8 {
    match a
    case Final => 0x01
    case Initialized => 0x02
  }

  /** The bits of all the given attributes, or-ed together from left to right. */
  function MaskOf(attrs: seq<Attribute>): (m: bv8)
    ensures m == (if Attribute.Final in attrs then 0x01 else 0) | (if Initialized in attrs then 0x02 else 0)
  {
    if attrs == [] then 0
    else
      var init := attrs[..|attrs| - 1];
      assert forall a :: a in attrs <==> a in init || a == attrs[|attrs| - 1];
      MaskOf(init) | Bit(attrs[|attrs| - 1])
  }

  /** The attribute byte after flipping the bit of `a`. */
  function Toggled(bits: bv8, a: Attribute): bv8 {
    bits ^ Bit(a)
  }

  /** `isActivated`: true when some given attribute's bit is set. */
  predicate Activated(bits: bv8, attrs: seq<Attribute>) {
    bits & MaskOf(attrs) != 0
  }

  /** `isActivated` asks for ANY of the given attributes, not all of them. */
  lemma ActivatedAny(bits: bv8, attrs: seq<Attribute>)
    ensures Activated(bits, attrs) <==> exists a :: a in attrs && bits & Bit(a) != 0
  {
    if Activated(bits, attrs) {
      if bits & 0x01 != 0 && Attribute.Final in attrs {
        assert Attribute.Final in attrs && bits & Bit(Attribute.Final) != 0;
      } else {
        assert Initialized in attrs && bits & Bit(Initialized) != 0;
      }
    }
  }

  /** Toggling the same attribute twice restores the byte. */
  lemma ToggleInvolutive(bits: bv8, a: Attribute)
    ensures Toggled(Toggled(bits, a), a) == bits
  {
  }

  /** Toggling flips the attribute's own bit and leaves every other bit alone. */
  lemma ToggleFlipsOnlyItsBit(bits: bv8, a: Attribute, b: Attribute)
    ensures Activated(Toggled(bits, a), [a]) <==> !Activated(bits, [a])
    ensures a != b ==> (Activated(Toggled(bits, b), [a]) <==> Activated(bits, [a]))
  {
  }

  /** A fresh builder made final and initialized, in either order, has both bits. */
  lemma FinalAndInitializedCommute()
    ensures Toggled(Toggled(0, Initialized), Attribute.Final) == Toggled(Toggled(0, Attribute.Final), Initialized) == 0x03
    ensures Activated(0x03, [Attribute.Final]) && Activated(0x03, [Initialized])
  {
  }

  /** The value of a variable symbol: its type and attribute byte. */
  datatype VarInfo = VarInfo(varType: TokenKind, attributes: bv8) {
    predicate IsFinal() { Activated(attributes, [Attribute.Final]) }
    predicate IsInitialized() { Activated(attributes, [Initialized]) }

    function Toggle(a: Attribute): VarInfo {
      VarInfo(varType, Toggled(attributes, a))
    }
  }

  class VariableSymbol {
    var varType: TokenKind
    var attributes: bv8

    ghost function Info(): VarInfo
      reads this
    {
      VarInfo(varType, attributes)
    }

    /** A symbol of the given type with no attribute set. */
    constructor (symbolType: TokenKind)
      ensures varType == symbolType && attributes == 0
    {
      varType := symbolType;
      attributes := 0;
    }

    /** A separate object with the same type and attributes. */
    constructor Copy(other: VariableSymbol)
      ensures varType == other.varType && attributes == other.attributes
    {
      varType := other.varType;
      attributes := other.attributes;
    }

    method SetType(t: TokenKind)
      modifies this`varType
      ensures varType == t
    {
      varType := t;
    }

    /** True iff at least one of the given attributes is set. */
    function IsActivated(attrs: seq<Attribute>): (b: bool)
      reads this`attributes
      ensures b <==> exists a :: a in attrs && attributes & Bit(a) != 0
    {
      ActivatedAny(attributes, attrs);
      Activated(attributes, attrs)
    }

    /** Flips the attribute's bit; the type and the other bit stay. */
    method Toggle(a: Attribute)
      modifies this`attributes
      ensures attributes == Toggled(old(attributes), a)
      ensures Info() == old(Info()).Toggle(a)
    {
      var mask := GetMask([a]);
      attributes := attributes ^ mask;
    }

    /** The or of the attributes' bits, accumulated in a loop. */
    static method GetMask(attrs: seq<Attribute>) returns (mask: bv8)
      ensures mask == MaskOf(attrs)
    {
      mask := 0;
      for i := 0 to |attrs|
        invariant mask == MaskOf(attrs[..i])
      {
        assert attrs[..i + 1][..i] == attrs[..i];
        mask := mask | Bit(attrs[i]);
      }
      assert attrs[..|attrs|] == attrs;
    }
  }

  /** Assembles a variable symbol; every step changes the one symbol it holds. */
  class VariableSymbolBuilder {
    const variableSymbol: VariableSymbol

    /** A builder holding a new `VOID` symbol with no attributes. */
    constructor ()
      ensures fresh(variableSymbol)
      ensures variableSymbol.varType == Void && variableSymbol.attributes == 0
    {
      variableSymbol := new VariableSymbol(Void);
    }

    /** A builder holding a new symbol of the given type with no attributes. */
    constructor OfType(t: TokenKind)
      ensures fresh(variableSymbol)
      ensures variableSymbol.varType == t && variableSymbol.attributes == 0
    {
      variableSymbol := new VariableSymbol(t);
    }

    method SetType(t: TokenKind) returns (b: VariableSymbolBuilder)
      modifies variableSymbol`varType
      ensures b == this && variableSymbol.varType == t
    {
      variableSymbol.SetType(t);
      return this;
    }

    /** Toggles (does not set) the final bit. */
    method MakeFinal() returns (b: VariableSymbolBuilder)
      modifies variableSymbol`attributes
      ensures b == this
      ensures variableSymbol.attributes == Toggled(old(variableSymbol.attributes), Attribute.Final)
    {
      variableSymbol.Toggle(Attribute.Final);
      return this;
    }

    /** Toggles (does not set) the initialized bit. */
    method MakeInitialized() returns (b: VariableSymbolBuilder)
      modifies variableSymbol`attributes
      ensures b == this
      ensures variableSymbol.attributes == Toggled(old(variableSymbol.attributes), Initialized)
    {
      variableSymbol.Toggle(Initialized);
      return this;
    }

    /** The held symbol itself, not a copy: later builder calls change it. */
    function Build(): (s: VariableSymbol)
      ensures s == variableSymbol
    {
      variableSymbol
    }
  }

  /** A method: its return marker and its parameters, kept in a table. */
  class MethodSymbol {
    const returnType: VariableSymbol
    const parameters: SymbolTableImpl<VariableSymbol>

    /** A method with the given return marker and no parameters. */
    constructor (returnType: VariableSymbol)
      ensures this.returnType == returnType
      ensures fresh(parameters) && parameters.Valid() && parameters.entries == []
      ensures parameters.role == ParameterTable
    {
      this.returnType := returnType;
      parameters := new SymbolTableImpl<VariableSymbol>(ParameterTable);
    }

    /** Adds a parameter; a name already taken is refused. */
    method AddParameter(paramName: string, paramSymbol: VariableSymbol) returns (o: Outcome<Error>)
      requires parameters.Valid()
      modifies parameters
      ensures parameters.Valid()
      ensures Find(old(parameters.entries), paramName).Some? ==>
        o == Fail(SymbolAlreadyExists) && parameters.entries == old(parameters.entries)
      ensures Find(old(parameters.entries), paramName).None? ==>
        o == Pass && parameters.entries == Insert(old(parameters.entries), paramName, paramSymbol)
    {
      o := parameters.Add(paramName, paramSymbol);
    }

    /** The parameters in ascending name order, not declaration order. */
    function Iterator(): (es: seq<(string, VariableSymbol)>)
      reads parameters
      requires parameters.Valid()
      ensures Sorted(es) && ToMap(es) == parameters.Contents()
    {
      parameters.Iterator()
    }
  }
}
