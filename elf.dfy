/**
 * The ELF extractor: classes rebuilt from a symbol table alone. Each
 * symbol's demangled name says which class it belongs to; a function
 * symbol becomes a method and an object symbol a static field whose type
 * is guessed from its size. The demangler's output (the Itanium C++ ABI
 * names decoded by the retdec demangler) and `demangleName` are inputs
 * carried by each symbol.
 */
module ElfExtractor {
  import opened Wrappers
  import opened Strings
  import opened DebugTypes

  /** `e_ident[EI_CLASS]` of the ELF header (section 1 of the ELF specification): 32- or 64-bit objects. */
  datatype ElfClass = Class32 | Class64

  /** The demangler's built-in types (`cName::st_type`); `TOther` is any code the extractor does not spell. */
  datatype Builtin =
    | TVoid | TWchar | TBool | TChar | TSchar | TUchar | TShort | TUshort | TInt | TUint
    | TLong | TUlong | TLongLong | TUlongLong | TInt128 | TUint128 | TFloat | TDouble | TLongDouble | TFloat128
    | TEllipsis | TDd | TDe | TDf | TDh | TChar32 | TChar16 | TAuto | TNullptr
    | TOther

  /**
   * A parameter type as the demangler describes it (`cName::type_t`), with
   * what `printpexpr` and `printname` print for it already applied.
   */
  datatype ParamType =
    | Unknown
    | PExpr(text: string)
    | BuiltinType(builtin: Builtin)
    | Num(num: int)
    | NamedType(name: string)
    | OtherParam

  /**
   * What `demangleToClass` yields for a symbol: whether it has a name,
   * that name printed in full (`printname`), whether the return type is a
   * pointer, the calling convention, the static and virtual flags, and the
   * parameter types.
   */
  datatype Demangled = Demangled(
    named: bool,
    qualifiedName: string,
    returnIsPointer: bool,
    functionCall: int,
    isStatic: bool,
    isVirtual: bool,
    parameters: seq<ParamType>)

  datatype SymbolKind = Func | Object | OtherKind

  /**
   * A symbol-table entry: its raw (mangled) name, type, value and size, the
   * demangler's reading of it, and what `demangleName` gives for it
   * without (`plainName`) and with (`variableName`) its second argument set.
   */
  datatype Symbol = Symbol(
    name: string,
    kind: SymbolKind,
    value: nat,
    size: nat,
    demangled: Demangled,
    plainName: string,
    variableName: string)

  // ------------------------------------------------------------ getTypeFromSize

  /**
   * `getTypeFromSize(size)`: the symbol size, truncated to a 32-bit `int`,
   * picks a type name; 8 bytes read as `double` in a 32-bit object and as
   * `long` in a 64-bit one.
   */
  function TypeFromSize(cls: ElfClass, size: nat): (name: string)
    ensures size % 0x1_0000_0000 == 1 ==> name == "char"
    ensures size % 0x1_0000_0000 == 2 ==> name == "short"
    ensures size % 0x1_0000_0000 == 8 ==> name == (if cls == Class32 then "double" else "long")
    ensures size % 0x1_0000_0000 !in {1, 2, 8} ==> name == "int"
  {
    var truncated := size % 0x1_0000_0000;
    if truncated == 1 then "char"
    else if truncated == 2 then "short"
    else if truncated == 8 then (match cls case Class32 => "double" case Class64 => "long")
    else "int"
  }

  // ------------------------------------------------------------ getTypePtr

  /** The fixed spelling of each built-in type. */
  function BuiltinSpelling(b: Builtin): string
  {
    match b
    case TVoid => "void"
    case TWchar => "wchar_t"
    case TBool => "bool"
    case TChar => "char"
    case TSchar => "signed char"
    case TUchar => "unsigned char"
    case TShort => "short"
    case TUshort => "unsigned short"
    case TInt => "int"
    case TUint => "unsigned int"
    case TLong => "long"
    case TUlong => "unsigned long"
    case TLongLong => "long long"
    case TUlongLong => "unsigned long long"
    case TInt128 => "__int128"
    case TUint128 => "unsigned __int128"
    case TFloat => "float"
    case TDouble => "double"
    case TLongDouble => "long double"
    case TFloat128 => "__float128"
    case TEllipsis => "ellipsis"
    case TDd => "IEEE 754r decimal floating point (64 bits)"
    case TDe => "IEEE 754r decimal floating point (128 bits)"
    case TDf => "IEEE 754r decimal floating point (32 bits)"
    case TDh => "IEEE 754r half-precision floating point (16 bits)"
    case TChar32 => "char32_t"
    case TChar16 => "char16_t"
    case TAuto => "auto"
    case TNullptr => "std::nullptr_t"
    case TOther => ""
  }

  /** Among built-ins, only `void` is spelled "void", so only it is dropped from the arguments. */
  lemma OnlyVoidSpelledVoid(b: Builtin)
    ensures BuiltinSpelling(b) == "void" <==> b == TVoid
  {
  }

  /** The text `getTypePtr` builds for a parameter type. */
  function Spelling(p: ParamType): string
  {
    match p
    case Unknown => ""
    case PExpr(text) => text
    case BuiltinType(b) => BuiltinSpelling(b)
    case Num(n) => IntText(n)
    case NamedType(name) => name
    case OtherParam => ""
  }

  /**
   * `getTypePtr(cname, ttype)`: a named type is a pointer to a class, a
   * built-in is a base type, and no other flag is set.
   */
  function ParamTypePtr(p: ParamType): (t: TypePtr)
    ensures t.typeName == Spelling(p)
    ensures t.isPointer <==> p.NamedType?
    ensures t.isBaseType <==> p.BuiltinType?
    ensures !t.isReference && !t.isConstant && !t.isArray && t.arraySize == 0
  {
    MakeTypePtr(Spelling(p), p.NamedType?).(isBaseType := p.BuiltinType?)
  }

  /** What `getTypePtr` appends to `allDependentClasses`: the name of a named type. */
  function NamePushed(p: ParamType): (pushed: seq<string>)
    ensures pushed == [] || pushed == [ParamTypePtr(p).typeName]
  {
    if p.NamedType? then [p.name] else []
  }

  function ParamsPushed(params: seq<ParamType>): seq<string>
  {
    if params == [] then [] else ParamsPushed(params[..|params| - 1]) + NamePushed(params[|params| - 1])
  }

  // ------------------------------------------------------------ getMethod

  /** The parameters that are not spelled "void", in order. */
  function NonVoid(params: seq<ParamType>): seq<ParamType>
  {
    if params == [] then []
    else
      var init := NonVoid(params[..|params| - 1]);
      var p := params[|params| - 1];
      if Spelling(p) == "void" then init else init + [p]
  }

  /** Only parameters of the list, none spelled "void", are kept. */
  lemma {:induction false} NonVoidKept(params: seq<ParamType>)
    ensures forall p :: p in NonVoid(params) ==> p in params && Spelling(p) != "void"
  {
    if params != [] {
      var init := params[..|params| - 1];
      NonVoidKept(init);
      assert forall p :: p in init ==> p in params;
    }
  }

  /** `"arg" + std::to_string(n)`: the name of the n-th numbered argument. */
  function ArgName(n: nat): (name: string)
    ensures |name| > 3 && name[..3] == "arg" && name[3..] == NatText(n)
  {
    "arg" + NatText(n)
  }

  /** The arguments the parameter loop of `getMethod` appends, numbered by `argNum`. */
  function Params(params: seq<ParamType>): seq<Argument>
  {
    if params == [] then []
    else
      var init := Params(params[..|params| - 1]);
      var t := ParamTypePtr(params[|params| - 1]);
      if t.typeName == "void" then init else init + [Argument(ArgName(|init| + 1), Some(t))]
  }

  /** One more parameter of the loop in `getMethod`: appended unless void, numbered after those before it. */
  lemma ParamsStep(params: seq<ParamType>, i: nat)
    requires i < |params|
    ensures var prev := Params(params[..i]); var t := ParamTypePtr(params[i]);
      Params(params[..i + 1]) == if t.typeName == "void" then prev else prev + [Argument(ArgName(|prev| + 1), Some(t))]
    ensures ParamsPushed(params[..i + 1]) == ParamsPushed(params[..i]) + NamePushed(params[i])
  {
    assert params[..i + 1][..i] == params[..i];
  }

  /** `ParamsStep` with the arguments and dependents that come before the loop. */
  lemma ParamsAppended(args: seq<Argument>, start: seq<string>, params: seq<ParamType>, i: nat)
    requires i < |params|
    ensures ParamTypePtr(params[i]).typeName == "void" ==>
      args + Params(params[..i + 1]) == args + Params(params[..i])
    ensures ParamTypePtr(params[i]).typeName != "void" ==>
      args + Params(params[..i + 1]) ==
        (args + Params(params[..i])) + [Argument(ArgName(|Params(params[..i])| + 1), Some(ParamTypePtr(params[i])))]
    ensures start + ParamsPushed(params[..i + 1]) == (start + ParamsPushed(params[..i])) + NamePushed(params[i])
  {
    ParamsStep(params, i);
  }

  /**
   * The non-void parameters become the arguments arg1, arg2, … in order:
   * the numbering has no gaps, whatever `void` parameters were skipped.
   */
  lemma {:induction false} ParamsNumbered(params: seq<ParamType>)
    ensures |Params(params)| == |NonVoid(params)|
    ensures forall i :: 0 <= i < |NonVoid(params)| ==>
      Params(params)[i] == Argument(ArgName(i + 1), Some(ParamTypePtr(NonVoid(params)[i])))
  {
    ParamsCount(params);
    forall i | 0 <= i < |NonVoid(params)|
      ensures Params(params)[i] == Argument(ArgName(i + 1), Some(ParamTypePtr(NonVoid(params)[i])))
    {
      ParamsAt(params, i);
    }
  }

  lemma {:induction false} ParamsCount(params: seq<ParamType>)
    ensures |Params(params)| == |NonVoid(params)|
  {
    if params != [] {
      ParamsCount(params[..|params| - 1]);
    }
  }

  lemma {:induction false} ParamsAt(params: seq<ParamType>, i: nat)
    requires i < |NonVoid(params)|
    ensures i < |Params(params)|
    ensures Params(params)[i] == Argument(ArgName(i + 1), Some(ParamTypePtr(NonVoid(params)[i])))
  {
    var init := params[..|params| - 1];
    var p := params[|params| - 1];
    ParamsCount(init);
    var prev := Params(init);
    var nv := NonVoid(init);
    if Spelling(p) == "void" {
      assert Params(params) == prev && NonVoid(params) == nv;
      ParamsAt(init, i);
    } else {
      assert Params(params) == prev + [Argument(ArgName(|prev| + 1), Some(ParamTypePtr(p)))];
      assert NonVoid(params) == nv + [p];
      if i < |nv| {
        ParamsAt(init, i);
      }
    }
  }

  /** The method before its numbered arguments: name, return type, flags and the `self` argument. */
  function MethodHead(sym: Symbol): Method
  {
    var d := sym.demangled;
    var ctor := RFind(d.qualifiedName, "::") == -1;
    var name := if ctor then sym.plainName else d.qualifiedName;
    var returnType := if ctor then MakeTypePtr("", false) else MakeTypePtr("int", d.returnIsPointer);
    var self := if d.isStatic then [Argument("self", Some(MakeTypePtr(name, true)))] else [];
    NewMethod().(name := name, returnType := Some(returnType), address := sym.value, callType := d.functionCall,
                 isStatic := d.isStatic, isVirtual := d.isVirtual, accessibility := PUBLIC, args := self)
  }

  /** `getMethod(sym)`. */
  function SymbolMethod(sym: Symbol): Method
  {
    var head := MethodHead(sym);
    head.(args := head.args + Params(sym.demangled.parameters))
  }

  /**
   * A function symbol's method: a name without `::` is a constructor or
   * destructor, named by `demangleName` and returning nothing; otherwise it
   * returns `int`, a pointer when the demangled return type is one. The
   * method is public, at the symbol's address, and has a leading `self`
   * argument exactly when it is static, then the non-void parameters as
   * arg1, arg2, ….
   */
  lemma GetMethodShape(sym: Symbol)
    ensures var m := SymbolMethod(sym);
      var d := sym.demangled;
      m.address == sym.value && m.accessibility == PUBLIC && m.isStatic == d.isStatic && m.isVirtual == d.isVirtual &&
      (RFind(d.qualifiedName, "::") == -1 ==> m.name == sym.plainName && m.returnType == Some(MakeTypePtr("", false))) &&
      (RFind(d.qualifiedName, "::") != -1 ==>
        m.name == d.qualifiedName && m.returnType == Some(MakeTypePtr("int", d.returnIsPointer)))
    ensures var m := SymbolMethod(sym);
      var d := sym.demangled;
      d.isStatic ==>
        |m.args| == 1 + |NonVoid(d.parameters)| && m.args[0] == Argument("self", Some(MakeTypePtr(m.name, true))) &&
        m.args[1..] == Params(d.parameters)
    ensures var d := sym.demangled;
      !d.isStatic ==> SymbolMethod(sym).args == Params(d.parameters)
    ensures |Params(sym.demangled.parameters)| == |NonVoid(sym.demangled.parameters)|
    ensures forall i :: 0 <= i < |NonVoid(sym.demangled.parameters)| ==>
      Params(sym.demangled.parameters)[i] ==
        Argument(ArgName(i + 1), Some(ParamTypePtr(NonVoid(sym.demangled.parameters)[i]))) &&
      Params(sym.demangled.parameters)[i].typePtr.value.typeName != "void"
  {
    var d := sym.demangled;
    var numbered := NonVoid(d.parameters);
    ParamsNumbered(d.parameters);
    var m := SymbolMethod(sym);
    if d.isStatic {
      assert m.args == [Argument("self", Some(MakeTypePtr(m.name, true)))] + Params(d.parameters);
    }
    NonVoidKept(d.parameters);
    forall i | 0 <= i < |numbered|
      ensures Params(d.parameters)[i].typePtr.value.typeName != "void"
    {
      assert numbered[i] in numbered;
    }
  }

  // ------------------------------------------------------------ getTypes

  /** The class part of a demangled name: the text before the last `::`, or all of it when there is none. */
  function ClassPart(s: string): (c: string)
    ensures RFind(s, "::") == -1 ==> c == s
    ensures RFind(s, "::") >= 0 ==>
      |c| + 2 <= |s| && s[..|c|] == c && s[|c|..|c| + 2] == "::" &&
      forall k :: |c| < k <= |s| ==> !OccursAt(s, "::", k)
  {
    var k := RFind(s, "::");
    if k < 0 then s else s[..k]
  }

  /** The requested name a symbol is filed under, if any: its class part, when that is requested and not empty. */
  function Owner(names: seq<string>, sym: Symbol): (owner: Option<string>)
    ensures owner.Some? ==> owner.value in names && owner.value != []
  {
    if !sym.demangled.named then None
    else
      var c := ClassPart(sym.demangled.qualifiedName);
      if c in names && c != [] then Some(c) else None
  }

  /** `s.rfind(typeName + "::") == 0`: strips the class prefix when its last occurrence is at the start. */
  function StripOwner(s: string, typeName: string): (r: string)
    ensures RFind(s, typeName + "::") == 0 ==> s == typeName + "::" + r
    ensures RFind(s, typeName + "::") != 0 ==> r == s
  {
    if RFind(s, typeName + "::") == 0 then s[|typeName| + 2..] else s
  }

  /** The static field an object symbol becomes. */
  function ObjectField(cls: ElfClass, sym: Symbol, typeName: string): (f: Field)
    ensures f.name == StripOwner(sym.demangled.qualifiedName, typeName)
    ensures f.isStatic && f.accessibility == PUBLIC && f.offset == 0 && f.address == sym.value
    ensures f.typePtr == Some(MakeTypePtr(TypeFromSize(cls, sym.size), false))
  {
    MakeField(StripOwner(sym.demangled.qualifiedName, typeName), MakeTypePtr(TypeFromSize(cls, sym.size), false), 0)
      .(isStatic := true, address := sym.value, accessibility := PUBLIC)
  }

  /** `isDuplicated(type, method)`: a method of the type already sits at the address. */
  predicate Duplicated(t: Type, m: Method)
  {
    exists i :: 0 <= i < |t.allMethods| && t.allMethods[i].address == m.address
  }

  /** The argument is a pointer to the type named `n`. */
  predicate PointsTo(a: Argument, n: string)
  {
    a.typePtr.Some? && a.typePtr.value.isPointer && a.typePtr.value.typeName == n
  }

  /** The type names of the pointer-typed arguments, in order. */
  function PointerTypes(args: seq<Argument>): (names: seq<string>)
    ensures forall n :: n in names <==> exists a :: a in args && PointsTo(a, n)
  {
    if args == [] then []
    else
      var a := args[|args| - 1];
      var init := PointerTypes(args[..|args| - 1]);
      assert args == args[..|args| - 1] + [a];
      PointsToSnoc(args[..|args| - 1], a, init);
      if a.typePtr.Some? && a.typePtr.value.isPointer then init + [a.typePtr.value.typeName] else init
  }

  /** One more argument adds its type name to the names pointed to exactly when it is a pointer. */
  lemma PointsToSnoc(args: seq<Argument>, a: Argument, names: seq<string>)
    requires forall n :: n in names <==> exists x :: x in args && PointsTo(x, n)
    ensures var names' := if a.typePtr.Some? && a.typePtr.value.isPointer then names + [a.typePtr.value.typeName] else names;
      forall n :: n in names' <==> exists x :: x in args + [a] && PointsTo(x, n)
  {
    var names' := if a.typePtr.Some? && a.typePtr.value.isPointer then names + [a.typePtr.value.typeName] else names;
    forall n
      ensures n in names' <==> exists x :: x in args + [a] && PointsTo(x, n)
    {
      if exists x :: x in args + [a] && PointsTo(x, n) {
        var x :| x in args + [a] && PointsTo(x, n);
        if x != a {
          assert x in args;
        }
      }
      if n in names {
        var x :| x in args && PointsTo(x, n);
        assert x in args + [a];
      }
      if PointsTo(a, n) {
        assert a in args + [a];
      }
    }
  }

  /** Some method of the list has an argument that points to the type named `n`. */
  predicate PointedToBy(methods: seq<Method>, n: string)
  {
    exists m, a :: m in methods && a in m.args && PointsTo(a, n)
  }

  /** A type's dependents are exactly the types its methods' arguments point to. */
  ghost predicate DependentsFromMethods(t: Type)
  {
    forall n :: n in t.dependentTypes <==> PointedToBy(t.allMethods, n)
  }

  /** Adding a method keeps the dependents those of the methods' pointer arguments. */
  lemma WithMethodDependents(t: Type, m: Method)
    requires DependentsFromMethods(t)
    ensures DependentsFromMethods(WithMethod(t, m))
  {
    var t' := WithMethod(t, m);
    var stripped := t'.allMethods[|t'.allMethods| - 1];
    assert stripped.args == m.args;
    forall n
      ensures n in t'.dependentTypes <==> PointedToBy(t'.allMethods, n)
    {
      if PointedToBy(t'.allMethods, n) {
        var x, a :| x in t'.allMethods && a in x.args && PointsTo(a, n);
        if x in t.allMethods {
          assert PointedToBy(t.allMethods, n);
        } else {
          assert x == stripped;
          assert n in PointerTypes(m.args);
        }
      }
      if n in t.dependentTypes {
        var x, a :| x in t.allMethods && a in x.args && PointsTo(a, n);
        assert x in t'.allMethods;
      }
      if n in PointerTypes(m.args) {
        var a :| a in m.args && PointsTo(a, n);
        assert stripped in t'.allMethods && a in stripped.args;
      }
    }
  }

  /** A new method joins the type: its pointer types become dependents, and it is added, stripped of `Type::`, to both lists. */
  function WithMethod(t: Type, m: Method): Type
  {
    var stripped := m.(name := StripOwner(m.name, t.name));
    t.(dependentTypes := t.dependentTypes + PointerTypes(m.args),
       allMethods := t.allMethods + [stripped],
       fullyDefinedMethods := t.fullyDefinedMethods + [stripped])
  }

  /** The types being gathered, by name, and the names in the order they were first met. */
  datatype Groups = Groups(types: map<string, Type>, keys: seq<string>)

  ghost predicate GroupsWellFormed(names: seq<string>, g: Groups)
  {
    (forall k :: k in g.types <==> k in g.keys) &&
    (forall k :: k in g.types ==>
      g.types[k].name == k && k in names && k != [] && g.types[k].allMethods == g.types[k].fullyDefinedMethods)
  }

  /** One pass of the symbol loop of `getTypes`. */
  function GroupStep(cls: ElfClass, names: seq<string>, g: Groups, sym: Symbol): Groups
  {
    match Owner(names, sym)
    case None => g
    case Some(n) =>
      var t := if n in g.types then g.types[n] else NewType(n);
      var keys := if n in g.types then g.keys else g.keys + [n];
      var updated := match sym.kind
        case Func => (var m := SymbolMethod(sym); if Duplicated(t, m) then t else WithMethod(t, m))
        case Object => t.(fields := t.fields + [ObjectField(cls, sym, t.name)])
        case OtherKind => t;
      Groups(g.types[n := updated], keys)
  }

  function Group(cls: ElfClass, names: seq<string>, symbols: seq<Symbol>): Groups
  {
    if symbols == [] then Groups(map[], [])
    else GroupStep(cls, names, Group(cls, names, symbols[..|symbols| - 1]), symbols[|symbols| - 1])
  }

  /**
   * Every gathered type is filed under its own name, which was requested
   * and is not empty, and its two method lists are the same list.
   */
  lemma {:induction false} GroupWellFormed(cls: ElfClass, names: seq<string>, symbols: seq<Symbol>)
    ensures GroupsWellFormed(names, Group(cls, names, symbols))
  {
    if symbols != [] {
      GroupWellFormed(cls, names, symbols[..|symbols| - 1]);
    }
  }

  /** One more symbol of the loop in `getTypes`. */
  lemma GroupPrefixStep(cls: ElfClass, names: seq<string>, symbols: seq<Symbol>, i: nat)
    requires i < |symbols|
    ensures Group(cls, names, symbols[..i + 1]) == GroupStep(cls, names, Group(cls, names, symbols[..i]), symbols[i])
    ensures GroupPushed(names, symbols[..i + 1]) == GroupPushed(names, symbols[..i]) + SymbolPushed(names, symbols[i])
  {
    assert symbols[..i + 1][..i] == symbols[..i];
  }

  /** The dependents after one more symbol, starting from any list. */
  lemma PushedStep(start: seq<string>, names: seq<string>, symbols: seq<Symbol>, i: nat)
    requires i < |symbols|
    ensures start + GroupPushed(names, symbols[..i + 1]) == (start + GroupPushed(names, symbols[..i])) + SymbolPushed(names, symbols[i])
  {
    assert symbols[..i + 1][..i] == symbols[..i];
  }

  /** What one symbol appends to `allDependentClasses`: the named parameter types of a filed function symbol. */
  function SymbolPushed(names: seq<string>, sym: Symbol): seq<string>
  {
    if Owner(names, sym).Some? && sym.kind == Func then ParamsPushed(sym.demangled.parameters) else []
  }

  /** What the symbol loop appends to `allDependentClasses`: the named parameter types of each filed function symbol. */
  function GroupPushed(names: seq<string>, symbols: seq<Symbol>): seq<string>
  {
    if symbols == [] then []
    else
      var sym := symbols[|symbols| - 1];
      GroupPushed(names, symbols[..|symbols| - 1]) + SymbolPushed(names, sym)
  }

  /** A type's dependents after `sort()` and `unique()`. */
  function Finished(t: Type): (r: Type)
    ensures StrictlySorted(r.dependentTypes)
    ensures forall n :: n in r.dependentTypes <==> n in t.dependentTypes
  {
    t.(dependentTypes := SortUnique(t.dependentTypes))
  }

  /** `getTypes(typesList)`: the gathered types in the map's order, by name. */
  function ElfTypes(cls: ElfClass, names: seq<string>, symbols: seq<Symbol>): (r: seq<Type>)
    ensures StrictlySorted(Names(r))
    ensures forall i :: 0 <= i < |r| ==>
      r[i].name in names && r[i].name != [] && r[i].allMethods == r[i].fullyDefinedMethods &&
      StrictlySorted(r[i].dependentTypes)
  {
    var g := Group(cls, names, symbols);
    GroupWellFormed(cls, names, symbols);
    var order := SortUnique(g.keys);
    var r := seq(|order|, i requires 0 <= i < |order| => Finished(g.types[order[i]]));
    assert Names(r) == order;
    r
  }

  /** `getTypes` element by element: the i-th result is the type filed under the i-th name in order. */
  lemma ElfTypesOrder(cls: ElfClass, names: seq<string>, symbols: seq<Symbol>)
    ensures var g := Group(cls, names, symbols); var order := SortUnique(g.keys); var r := ElfTypes(cls, names, symbols);
      (forall k :: k in order ==> k in g.types) &&
      |r| == |order| &&
      (forall i :: 0 <= i < |order| ==> r[i] == Finished(g.types[order[i]]))
  {
    GroupWellFormed(cls, names, symbols);
  }

  /** Every gathered type's dependents are the types its methods' arguments point to. */
  lemma {:induction false} GroupDependents(cls: ElfClass, names: seq<string>, symbols: seq<Symbol>)
    ensures forall k :: k in Group(cls, names, symbols).types ==> DependentsFromMethods(Group(cls, names, symbols).types[k])
  {
    if symbols != [] {
      var init := symbols[..|symbols| - 1];
      var sym := symbols[|symbols| - 1];
      GroupDependents(cls, names, init);
      var g := Group(cls, names, init);
      assert forall k :: k in g.types ==> DependentsFromMethods(g.types[k]);
      assert Group(cls, names, symbols) == GroupStep(cls, names, g, sym);
      if Owner(names, sym).Some? {
        var n := Owner(names, sym).value;
        var t := if n in g.types then g.types[n] else NewType(n);
        if n in g.types {
          assert DependentsFromMethods(g.types[n]);
        } else {
          assert t.dependentTypes == [] && t.allMethods == [];
          forall k ensures k in t.dependentTypes <==> PointedToBy(t.allMethods, k) {
            assert !PointedToBy([], k);
          }
        }
        assert DependentsFromMethods(t);
        var updated := GroupStep(cls, names, g, sym).types[n];
        if sym.kind == Func && !Duplicated(t, SymbolMethod(sym)) {
          WithMethodDependents(t, SymbolMethod(sym));
          assert updated == WithMethod(t, SymbolMethod(sym));
        } else {
          assert updated.dependentTypes == t.dependentTypes && updated.allMethods == t.allMethods;
        }
        assert DependentsFromMethods(updated);
      }
    }
  }

  /**
   * After `sort()` and `unique()`, the dependents of each type `getTypes`
   * returns are exactly the names its methods' pointer-typed arguments
   * refer to. This includes the `self` argument of a static method, whose
   * type is the method's name before `Type::` is stripped.
   */
  lemma ElfTypesDependents(cls: ElfClass, names: seq<string>, symbols: seq<Symbol>)
    ensures var r := ElfTypes(cls, names, symbols);
      forall i, n :: 0 <= i < |r| ==>
        (n in r[i].dependentTypes <==>
          exists m, a :: m in r[i].allMethods && a in m.args &&
            a.typePtr.Some? && a.typePtr.value.isPointer && a.typePtr.value.typeName == n)
  {
    GroupDependents(cls, names, symbols);
    ElfTypesOrder(cls, names, symbols);
    var g := Group(cls, names, symbols);
    var order := SortUnique(g.keys);
    var r := ElfTypes(cls, names, symbols);
    forall i, n | 0 <= i < |r|
      ensures n in r[i].dependentTypes <==>
        exists m, a :: m in r[i].allMethods && a in m.args &&
          a.typePtr.Some? && a.typePtr.value.isPointer && a.typePtr.value.typeName == n
    {
      var t := g.types[order[i]];
      assert r[i] == Finished(t);
      assert DependentsFromMethods(t);
      assert n in r[i].dependentTypes <==> PointedToBy(t.allMethods, n);
      assert r[i].allMethods == t.allMethods;
      if PointedToBy(t.allMethods, n) {
        var m, a :| m in t.allMethods && a in m.args && PointsTo(a, n);
        assert m in r[i].allMethods && a in m.args && a.typePtr.Some? && a.typePtr.value.isPointer && a.typePtr.value.typeName == n;
      }
      if exists m, a :: m in r[i].allMethods && a in m.args &&
          a.typePtr.Some? && a.typePtr.value.isPointer && a.typePtr.value.typeName == n {
        var m, a :| m in r[i].allMethods && a in m.args &&
          a.typePtr.Some? && a.typePtr.value.isPointer && a.typePtr.value.typeName == n;
        assert PointsTo(a, n);
      }
    }
  }

  /** Some symbol is filed under the requested name `k`. */
  predicate Filed(names: seq<string>, symbols: seq<Symbol>, k: string)
  {
    exists i :: 0 <= i < |symbols| && Owner(names, symbols[i]) == Some(k)
  }

  lemma FiledStep(names: seq<string>, symbols: seq<Symbol>, k: string)
    requires symbols != []
    ensures Filed(names, symbols, k) <==>
      Filed(names, symbols[..|symbols| - 1], k) || Owner(names, symbols[|symbols| - 1]) == Some(k)
  {
    var init := symbols[..|symbols| - 1];
    if Filed(names, init, k) {
      var i :| 0 <= i < |init| && Owner(names, init[i]) == Some(k);
      assert symbols[i] == init[i];
    }
    if Filed(names, symbols, k) {
      var i :| 0 <= i < |symbols| && Owner(names, symbols[i]) == Some(k);
      if i < |init| {
        assert init[i] == symbols[i];
      }
    }
  }

  /** `getTypes` returns a type for exactly the requested names some symbol was filed under. */
  lemma {:induction false} GroupKeys(cls: ElfClass, names: seq<string>, symbols: seq<Symbol>)
    ensures forall k :: k in Group(cls, names, symbols).types <==> Filed(names, symbols, k)
  {
    if symbols != [] {
      var init := symbols[..|symbols| - 1];
      var sym := symbols[|symbols| - 1];
      GroupKeys(cls, names, init);
      var g := Group(cls, names, init);
      assert Group(cls, names, symbols) == GroupStep(cls, names, g, sym);
      forall k ensures k in Group(cls, names, symbols).types <==> Filed(names, symbols, k) {
        FiledStep(names, symbols, k);
      }
    }
  }

  /** No two methods of a type share an address. */
  predicate DistinctAddresses(t: Type)
  {
    forall i, j :: 0 <= i < j < |t.allMethods| ==> t.allMethods[i].address != t.allMethods[j].address
  }

  /** Dropping every function symbol whose address a method already has keeps the addresses of each type distinct. */
  lemma {:induction false} GroupAddressesDistinct(cls: ElfClass, names: seq<string>, symbols: seq<Symbol>)
    ensures forall k :: k in Group(cls, names, symbols).types ==> DistinctAddresses(Group(cls, names, symbols).types[k])
  {
    if symbols != [] {
      var init := symbols[..|symbols| - 1];
      var sym := symbols[|symbols| - 1];
      GroupAddressesDistinct(cls, names, init);
      var g := Group(cls, names, init);
      if Owner(names, sym).Some? && sym.kind == Func {
        var n := Owner(names, sym).value;
        var t := if n in g.types then g.types[n] else NewType(n);
        var m := SymbolMethod(sym);
        if !Duplicated(t, m) {
          var t' := WithMethod(t, m);
          assert forall i :: 0 <= i < |t.allMethods| ==> t'.allMethods[i] == t.allMethods[i];
          assert t'.allMethods[|t.allMethods|].address == m.address;
          assert DistinctAddresses(t');
        }
      }
    }
  }

  /** Some method of the type sits at the address `x`. */
  predicate HasMethodAt(t: Type, x: nat)
  {
    exists j :: 0 <= j < |t.allMethods| && t.allMethods[j].address == x
  }

  /** Some function symbol filed under `k` has the address `x`. */
  predicate FuncFiledAt(names: seq<string>, symbols: seq<Symbol>, k: string, x: nat)
  {
    exists i :: 0 <= i < |symbols| && symbols[i].kind == Func && Owner(names, symbols[i]) == Some(k) && symbols[i].value == x
  }

  lemma FuncFiledAtStep(names: seq<string>, symbols: seq<Symbol>, k: string, x: nat)
    requires symbols != []
    ensures var s := symbols[|symbols| - 1];
      FuncFiledAt(names, symbols, k, x) <==>
        FuncFiledAt(names, symbols[..|symbols| - 1], k, x) || (s.kind == Func && Owner(names, s) == Some(k) && s.value == x)
  {
    var init := symbols[..|symbols| - 1];
    if FuncFiledAt(names, init, k, x) {
      var i :| 0 <= i < |init| && init[i].kind == Func && Owner(names, init[i]) == Some(k) && init[i].value == x;
      assert symbols[i] == init[i];
    }
    if FuncFiledAt(names, symbols, k, x) {
      var i :| 0 <= i < |symbols| && symbols[i].kind == Func && Owner(names, symbols[i]) == Some(k) && symbols[i].value == x;
      if i < |init| {
        assert init[i] == symbols[i];
      }
    }
  }

  /** One symbol keeps the method addresses of each type tied to the function symbols filed under it. */
  lemma GroupMethodAddressesStep(cls: ElfClass, names: seq<string>, init: seq<Symbol>, sym: Symbol, k: string, x: nat)
    requires forall k, x :: k in Group(cls, names, init).types ==>
      (HasMethodAt(Group(cls, names, init).types[k], x) <==> FuncFiledAt(names, init, k, x))
    requires k in Group(cls, names, init + [sym]).types
    ensures HasMethodAt(Group(cls, names, init + [sym]).types[k], x) <==> FuncFiledAt(names, init + [sym], k, x)
  {
    var symbols := init + [sym];
    assert symbols[..|symbols| - 1] == init;
    GroupKeys(cls, names, init);
    var g := Group(cls, names, init);
    assert Group(cls, names, symbols) == GroupStep(cls, names, g, sym);
    FuncFiledAtStep(names, symbols, k, x);
    if k !in g.types {
      assert !FuncFiledAt(names, init, k, x);
      assert !HasMethodAt(NewType(k), x);
    }
    if Owner(names, sym) == Some(k) && sym.kind == Func {
      var t := if k in g.types then g.types[k] else NewType(k);
      var m := SymbolMethod(sym);
      assert m.address == sym.value;
      WithMethodAt(t, m, x);
    }
  }

  /** Adding a method adds its address and keeps every other. */
  lemma WithMethodAt(t: Type, m: Method, x: nat)
    ensures HasMethodAt(WithMethod(t, m), x) <==> HasMethodAt(t, x) || m.address == x
  {
    var t' := WithMethod(t, m);
    assert t'.allMethods[|t.allMethods|].address == m.address;
    if HasMethodAt(t', x) {
      var j :| 0 <= j < |t'.allMethods| && t'.allMethods[j].address == x;
      if j < |t.allMethods| {
        assert t.allMethods[j] == t'.allMethods[j];
      }
    }
    if HasMethodAt(t, x) {
      var j :| 0 <= j < |t.allMethods| && t.allMethods[j].address == x;
      assert t'.allMethods[j] == t.allMethods[j];
    }
  }

  /**
   * Each gathered type has a method at exactly the addresses of the function
   * symbols filed under it; with `GroupAddressesDistinct`, the symbols that
   * share an address give exactly one method.
   */
  lemma {:induction false} GroupMethodAddresses(cls: ElfClass, names: seq<string>, symbols: seq<Symbol>)
    ensures forall k, x :: k in Group(cls, names, symbols).types ==>
      (HasMethodAt(Group(cls, names, symbols).types[k], x) <==> FuncFiledAt(names, symbols, k, x))
  {
    if symbols != [] {
      var init := symbols[..|symbols| - 1];
      GroupMethodAddresses(cls, names, init);
      assert init + [symbols[|symbols| - 1]] == symbols;
      forall k, x | k in Group(cls, names, symbols).types
        ensures HasMethodAt(Group(cls, names, symbols).types[k], x) <==> FuncFiledAt(names, symbols, k, x)
      {
        GroupMethodAddressesStep(cls, names, init, symbols[|symbols| - 1], k, x);
      }
    }
  }

  /** The static fields of the object symbols filed under `k`, in symbol order. */
  function ObjectFields(cls: ElfClass, names: seq<string>, symbols: seq<Symbol>, k: string): seq<Field>
  {
    if symbols == [] then []
    else
      var s := symbols[|symbols| - 1];
      var init := ObjectFields(cls, names, symbols[..|symbols| - 1], k);
      if s.kind == Object && Owner(names, s) == Some(k) then init + [ObjectField(cls, s, k)] else init
  }

  lemma {:induction false} ObjectFieldsUnfiled(cls: ElfClass, names: seq<string>, symbols: seq<Symbol>, k: string)
    requires !Filed(names, symbols, k)
    ensures ObjectFields(cls, names, symbols, k) == []
  {
    if symbols != [] {
      FiledStep(names, symbols, k);
      ObjectFieldsUnfiled(cls, names, symbols[..|symbols| - 1], k);
    }
  }

  /** Each gathered type's fields are those of the object symbols filed under it, in symbol order. */
  lemma {:induction false} GroupFields(cls: ElfClass, names: seq<string>, symbols: seq<Symbol>)
    ensures forall k :: k in Group(cls, names, symbols).types ==>
      Group(cls, names, symbols).types[k].fields == ObjectFields(cls, names, symbols, k)
  {
    if symbols != [] {
      var init := symbols[..|symbols| - 1];
      var sym := symbols[|symbols| - 1];
      GroupFields(cls, names, init);
      GroupKeys(cls, names, init);
      GroupWellFormed(cls, names, init);
      var g := Group(cls, names, init);
      var g' := Group(cls, names, symbols);
      assert g' == GroupStep(cls, names, g, sym);
      forall k | k in g'.types
        ensures g'.types[k].fields == ObjectFields(cls, names, symbols, k)
      {
        if k !in g.types {
          ObjectFieldsUnfiled(cls, names, init, k);
        }
      }
    }
  }

  /** `getType(name)`: there is a type exactly when some symbol is filed under the name, and it carries the name. */
  lemma GetTypeFound(cls: ElfClass, name: string, symbols: seq<Symbol>)
    ensures var r := ElfTypes(cls, [name], symbols);
      |r| <= 1 &&
      (|r| == 1 ==> r[0].name == name) &&
      (|r| == 1 <==> Filed([name], symbols, name))
  {
    var g := Group(cls, [name], symbols);
    GroupKeys(cls, [name], symbols);
    GroupWellFormed(cls, [name], symbols);
    var order := SortUnique(g.keys);
    var r := ElfTypes(cls, [name], symbols);
    assert forall k :: k in order ==> k == name;
    if |order| > 1 {
      assert Less(order[0], order[1]);
      LessIrreflexive(name);
    }
    assert |r| == |order|;
    if Filed([name], symbols, name) {
      assert name in g.types;
      assert name in order;
    }
  }

  // ------------------------------------------------------------ getTypesList and getAllGlobalVariables

  /** The non-empty `demangleName` results, in symbol order. */
  function PlainNames(symbols: seq<Symbol>): seq<string>
  {
    if symbols == [] then []
    else
      var s := symbols[|symbols| - 1];
      var init := PlainNames(symbols[..|symbols| - 1]);
      if s.plainName == [] then init else init + [s.plainName]
  }

  /** `getTypesList` collects exactly the non-empty `demangleName` results. */
  lemma {:induction false} PlainNamesMembers(symbols: seq<Symbol>)
    ensures forall n :: n in PlainNames(symbols) <==> n != [] && exists s :: s in symbols && s.plainName == n
  {
    if symbols != [] {
      PlainNamesMembers(symbols[..|symbols| - 1]);
      assert forall x :: x in symbols <==> x in symbols[..|symbols| - 1] || x == symbols[|symbols| - 1];
    }
  }

  /** The symbols `getAllGlobalVariables` keeps: objects at a non-zero address, not mangled outside a namespace. */
  predicate KeptGlobal(sym: Symbol)
  {
    sym.kind == Object && sym.value != 0 && !(StartsWith(sym.name, "_Z") && !StartsWith(sym.name, "_ZN"))
  }

  /** The field a kept object symbol becomes, named by `demangleName` or, when that is empty, by the raw name. */
  function GlobalField(cls: ElfClass, sym: Symbol): (f: Field)
    ensures f.name == (if sym.variableName != [] then sym.variableName else sym.name)
    ensures f.isStatic && f.accessibility == PUBLIC && f.offset == 0 && f.address == sym.value
    ensures f.typePtr == Some(MakeTypePtr(TypeFromSize(cls, sym.size), false))
  {
    MakeField(if sym.variableName != [] then sym.variableName else sym.name, MakeTypePtr(TypeFromSize(cls, sym.size), false), 0)
      .(isStatic := true, address := sym.value, accessibility := PUBLIC)
  }

  function Globals(cls: ElfClass, symbols: seq<Symbol>): (fields: seq<Field>)
    ensures |fields| <= |symbols|
  {
    if symbols == [] then []
    else
      var s := symbols[|symbols| - 1];
      var before := Globals(cls, symbols[..|symbols| - 1]);
      if KeptGlobal(s) then before + [GlobalField(cls, s)] else before
  }

  /**
   * The global variables are exactly the fields of the kept symbols: every
   * kept symbol gives one, and every field comes from a kept symbol, so none
   * sits at address 0.
   */
  lemma {:induction false} GlobalsAreKept(cls: ElfClass, symbols: seq<Symbol>)
    ensures forall s :: s in symbols && KeptGlobal(s) ==> GlobalField(cls, s) in Globals(cls, symbols)
    ensures forall f :: f in Globals(cls, symbols) ==>
      f.address != 0 && exists s :: s in symbols && KeptGlobal(s) && f == GlobalField(cls, s)
  {
    if symbols != [] {
      var init := symbols[..|symbols| - 1];
      var s := symbols[|symbols| - 1];
      GlobalsAreKept(cls, init);
      assert forall x :: x in symbols <==> x in init || x == s;
    }
  }

  // ------------------------------------------------------------ the extractor

  /** The first requested name equal to `s`, found by the scan with `break` in `getTypes`; empty when there is none. */
  method FindRequested(names: seq<string>, s: string) returns (name: string)
    ensures name == (if s in names then s else [])
  {
    name := [];
    var j := 0;
    while j < |names|
      invariant 0 <= j <= |names|
      invariant s !in names[..j] && name == []
    {
      if s == names[j] {
        name := names[j];
        return;
      }
      assert names[..j + 1] == names[..j] + [names[j]];
      j := j + 1;
    }
    assert names[..j] == names;
  }

  /** The requested class a symbol is filed under, found by the scan of the requested names. */
  method OwnerOf(names: seq<string>, sym: Symbol) returns (owner: Option<string>)
    ensures owner == Owner(names, sym)
  {
    owner := None;
    if sym.demangled.named {
      var name := FindRequested(names, ClassPart(sym.demangled.qualifiedName));
      if name != [] {
        owner := Some(name);
      }
    }
  }

  /** The pointer-typed arguments' names appended to a list of dependents, as the loop in `getTypes` does. */
  method AppendPointerTypes(deps: seq<string>, args: seq<Argument>) returns (r: seq<string>)
    ensures r == deps + PointerTypes(args)
  {
    r := deps;
    for i := 0 to |args|
      invariant r == deps + PointerTypes(args[..i])
    {
      assert args[..i + 1][..i] == args[..i];
      if args[i].typePtr.Some? && args[i].typePtr.value.isPointer {
        r := r + [args[i].typePtr.value.typeName];
      }
    }
    assert args[..|args|] == args;
  }

  /** The last loop of `getTypes`: the types in the given order, each with its dependents sorted and unique. */
  method FinishTypes(g: Groups, order: seq<string>) returns (types: seq<Type>)
    requires forall k :: k in order ==> k in g.types
    ensures |types| == |order|
    ensures forall j :: 0 <= j < |order| ==> types[j] == Finished(g.types[order[j]])
  {
    types := [];
    for k := 0 to |order|
      invariant |types| == k
      invariant forall j :: 0 <= j < k ==> types[j] == Finished(g.types[order[j]])
    {
      var t := g.types[order[k]];
      t := t.(dependentTypes := SortUnique(t.dependentTypes));
      types := types + [t];
    }
  }

  class Extractor {
    const symbols: seq<Symbol>
    const elfClass: ElfClass
    /** Every named type `getTypePtr` has met, in order, repeats included. */
    var allDependentClasses: seq<string>

    constructor(symbols: seq<Symbol>, elfClass: ElfClass)
      ensures this.symbols == symbols && this.elfClass == elfClass && allDependentClasses == []
    {
      this.symbols := symbols;
      this.elfClass := elfClass;
      allDependentClasses := [];
    }

    /** `getTypePtr(cname, ttype)`; a named type is also recorded as a dependent class. */
    method GetTypePtr(p: ParamType) returns (t: TypePtr)
      modifies this
      ensures t == ParamTypePtr(p)
      ensures allDependentClasses == old(allDependentClasses) + NamePushed(p)
    {
      var retvalue := "";
      match p {
        case Unknown =>
        case PExpr(text) => retvalue := retvalue + text;
        case BuiltinType(b) => retvalue := retvalue + BuiltinSpelling(b);
        case Num(n) => retvalue := retvalue + IntText(n);
        case NamedType(name) =>
          retvalue := retvalue + name;
          allDependentClasses := allDependentClasses + [name];
        case OtherParam =>
      }
      t := MakeTypePtr(retvalue, p.NamedType?);
      t := t.(isBaseType := p.BuiltinType?);
    }

    /** The part of `getMethod(sym)` before the parameter loop. */
    method GetMethodHead(sym: Symbol) returns (m: Method)
      ensures m == MethodHead(sym)
    {
      var d := sym.demangled;
      m := NewMethod();
      if RFind(d.qualifiedName, "::") == -1 {
        m := m.(name := sym.plainName, returnType := Some(MakeTypePtr("", false)));
      } else {
        m := m.(name := d.qualifiedName, returnType := Some(MakeTypePtr("int", d.returnIsPointer)));
      }
      m := m.(address := sym.value, callType := d.functionCall, isStatic := d.isStatic, isVirtual := d.isVirtual,
              accessibility := PUBLIC);
      if m.isStatic {
        m := m.(args := m.args + [Argument("self", Some(MakeTypePtr(m.name, true)))]);
      }
    }

    /** One parameter of the `argNum` loop: resolved, then appended and numbered unless it is `void`. */
    method AppendParam(args: seq<Argument>, argNum: nat, p: ParamType) returns (args': seq<Argument>, argNum': nat)
      modifies this
      ensures ParamTypePtr(p).typeName == "void" ==> args' == args && argNum' == argNum
      ensures ParamTypePtr(p).typeName != "void" ==>
        args' == args + [Argument(ArgName(argNum), Some(ParamTypePtr(p)))] && argNum' == argNum + 1
      ensures allDependentClasses == old(allDependentClasses) + NamePushed(p)
    {
      args', argNum' := args, argNum;
      var typePtr := GetTypePtr(p);
      if typePtr.typeName != "void" {
        var argName := ArgName(argNum);
        argNum' := argNum + 1;
        args' := args + [Argument(argName, Some(typePtr))];
      }
    }

    /** The `argNum` loop of `getMethod`: the parameters appended, numbered, after the head's arguments. */
    method AppendParams(head: seq<Argument>, params: seq<ParamType>) returns (args: seq<Argument>)
      modifies this
      ensures args == head + Params(params)
      ensures allDependentClasses == old(allDependentClasses) + ParamsPushed(params)
    {
      args := head;
      var argNum := 1;
      for i := 0 to |params|
        invariant args == head + Params(params[..i])
        invariant argNum == |Params(params[..i])| + 1
        invariant allDependentClasses == old(allDependentClasses) + ParamsPushed(params[..i])
      {
        ParamsAppended(head, old(allDependentClasses), params, i);
        args, argNum := AppendParam(args, argNum, params[i]);
      }
      assert params[..|params|] == params;
    }

    /** `getMethod(sym)`: the head of the method, then the `argNum` loop over the parameters. */
    method GetMethod(sym: Symbol) returns (m: Method)
      modifies this
      ensures m == SymbolMethod(sym)
      ensures allDependentClasses == old(allDependentClasses) + ParamsPushed(sym.demangled.parameters)
    {
      var head := GetMethodHead(sym);
      var args := AppendParams(head.args, sym.demangled.parameters);
      m := head.(args := args);
    }

    /** `isDuplicated(type, method)`: a linear scan for a method at the same address. */
    method IsDuplicated(t: Type, m: Method) returns (found: bool)
      ensures found <==> Duplicated(t, m)
    {
      for i := 0 to |t.allMethods|
        invariant forall j :: 0 <= j < i ==> t.allMethods[j].address != m.address
      {
        if t.allMethods[i].address == m.address {
          return true;
        }
      }
      return false;
    }

    /** One symbol of the loop in `getTypes`, filed under `n`. */
    method FileSymbol(names: seq<string>, g: Groups, sym: Symbol, n: string) returns (g': Groups)
      requires Owner(names, sym) == Some(n)
      modifies this
      ensures g' == GroupStep(elfClass, names, g, sym)
      ensures allDependentClasses == old(allDependentClasses) + SymbolPushed(names, sym)
    {
      var t := if n in g.types then g.types[n] else NewType(n);
      var keys := if n in g.types then g.keys else g.keys + [n];
      match sym.kind {
        case Func =>
          var m := GetMethod(sym);
          var duplicated := IsDuplicated(t, m);
          if !duplicated {
            var deps := AppendPointerTypes(t.dependentTypes, m.args);
            if RFind(m.name, t.name + "::") == 0 {
              m := m.(name := m.name[|t.name| + 2..]);
            }
            t := t.(dependentTypes := deps, allMethods := t.allMethods + [m], fullyDefinedMethods := t.fullyDefinedMethods + [m]);
          }
        case Object =>
          var fieldName := sym.demangled.qualifiedName;
          if RFind(fieldName, t.name + "::") == 0 {
            fieldName := fieldName[|t.name| + 2..];
          }
          var field := MakeField(fieldName, MakeTypePtr(TypeFromSize(elfClass, sym.size), false), 0);
          field := field.(isStatic := true, address := sym.value, accessibility := PUBLIC);
          t := t.(fields := t.fields + [field]);
        case OtherKind =>
      }
      g' := Groups(g.types[n := t], keys);
    }

    /** One pass of the symbol loop of `getTypes(typesList)`: the symbol is filed if its class was requested. */
    method VisitSymbol(names: seq<string>, g: Groups, sym: Symbol) returns (g': Groups)
      modifies this
      ensures g' == GroupStep(elfClass, names, g, sym)
      ensures allDependentClasses == old(allDependentClasses) + SymbolPushed(names, sym)
    {
      var owner := OwnerOf(names, sym);
      if owner.Some? {
        g' := FileSymbol(names, g, sym, owner.value);
      } else {
        g' := g;
      }
    }

    /** The symbol loop of `getTypes(typesList)`: each symbol filed under its requested class. */
    method GroupSymbols(names: seq<string>) returns (g: Groups)
      modifies this
      ensures g == Group(elfClass, names, symbols)
      ensures allDependentClasses == old(allDependentClasses) + GroupPushed(names, symbols)
    {
      g := Groups(map[], []);
      for i := 0 to |symbols|
        invariant g == Group(elfClass, names, symbols[..i])
        invariant allDependentClasses == old(allDependentClasses) + GroupPushed(names, symbols[..i])
      {
        GroupPrefixStep(elfClass, names, symbols, i);
        PushedStep(old(allDependentClasses), names, symbols, i);
        g := VisitSymbol(names, g, symbols[i]);
      }
      assert symbols[..|symbols|] == symbols;
    }

    /**
     * `getTypes(typesList)`: each symbol filed under its requested class,
     * then the types in name order with their dependents sorted and unique.
     */
    method GetTypes(names: seq<string>) returns (types: seq<Type>)
      modifies this
      ensures types == ElfTypes(elfClass, names, symbols)
      ensures allDependentClasses == old(allDependentClasses) + GroupPushed(names, symbols)
    {
      var g := GroupSymbols(names);
      ElfTypesOrder(elfClass, names, symbols);
      var order := SortUnique(g.keys);
      types := FinishTypes(g, order);
    }

    /** `getType(name)`: `getTypes` of the one name, its first result if any. */
    method GetType(name: string) returns (t: Option<Type>)
      modifies this
      ensures var r := ElfTypes(elfClass, [name], symbols); t == if |r| > 0 then Some(r[0]) else None
      ensures allDependentClasses == old(allDependentClasses) + GroupPushed([name], symbols)
    {
      var result := GetTypes([name]);
      t := if |result| > 0 then Some(result[0]) else None;
    }

    /** `getTypesList(showStructs)`: every non-empty `demangleName` result, sorted and unique; the flag is ignored. */
    method GetTypesList(showStructs: bool) returns (names: seq<string>)
      ensures names == SortUnique(PlainNames(symbols))
      ensures StrictlySorted(names)
      ensures forall n :: n in names <==> n != [] && exists s :: s in symbols && s.plainName == n
    {
      var collected := [];
      for i := 0 to |symbols|
        invariant collected == PlainNames(symbols[..i])
      {
        assert symbols[..i + 1][..i] == symbols[..i];
        var typedefName := symbols[i].plainName;
        if typedefName != [] {
          collected := collected + [typedefName];
        }
      }
      assert symbols[..|symbols|] == symbols;
      PlainNamesMembers(symbols);
      names := SortUnique(collected);
    }

    /** `getAllGlobalVariables()`: the kept object symbols as public static fields, in symbol order. */
    method GetAllGlobalVariables() returns (fields: seq<Field>)
      ensures fields == Globals(elfClass, symbols)
    {
      fields := [];
      for i := 0 to |symbols|
        invariant fields == Globals(elfClass, symbols[..i])
      {
        assert symbols[..i + 1][..i] == symbols[..i];
        var sym := symbols[i];
        var demangled := sym.variableName;
        if sym.kind == Object && sym.value != 0 && !(StartsWith(sym.name, "_Z") && !StartsWith(sym.name, "_ZN")) {
          var fieldType := MakeTypePtr(TypeFromSize(elfClass, sym.size), false);
          var name := if demangled != [] then demangled else sym.name;
          var field := MakeField(name, fieldType, 0);
          field := field.(isStatic := true, address := sym.value, accessibility := PUBLIC);
          fields := fields + [field];
        }
      }
      assert symbols[..|symbols|] == symbols;
    }
  }
}
