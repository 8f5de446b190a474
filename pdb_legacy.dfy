/**
 * The PDB extractor of the older application revision. Compared with the
 * library revision it resolves types without qualifier flags (a pointer
 * is followed silently, a const record is not recognised), has no nested
 * types, does not look up static-member addresses, and merges a global
 * function into EVERY skeleton of the same unqualified name, without an
 * argument check, never appending the ones that match nothing.
 */
module PdbLegacy {
  import opened Wrappers
  import opened Strings
  import opened DebugTypes
  import opened PdbRecords
  import Lib = PdbExtractor

  // ------------------------------------------------------------ getReturnTypeStr

  /** The record under every pointer layer. */
  function StripPointers(r: Record): (c: Record)
    ensures !c.PointerRecord?
  {
    if r.PointerRecord? then StripPointers(r.pointerTarget) else r
  }

  /**
   * `getReturnTypeStr(type)`: pointer layers are followed without a trace;
   * a base record gives its description, a class or struct its name with
   * the pointer flag, and anything else, a const record included, `int`.
   */
  function StrType(r: Record): (t: TypePtr)
    ensures StripPointers(r).BaseRecord? ==> t == MakeTypePtr(StripPointers(r).description, false)
    ensures IsType(StripPointers(r)) ==> t == MakeTypePtr(UniversalName(StripPointers(r)), true)
    ensures !StripPointers(r).BaseRecord? && !IsType(StripPointers(r)) ==> t == MakeTypePtr("int", false)
  {
    match r
    case BaseRecord(description) => MakeTypePtr(description, false)
    case PointerRecord(target) => StrType(target)
    case _ => if !IsType(r) then MakeTypePtr("int", false) else MakeTypePtr(UniversalName(r), true)
  }

  /** The dependent class `getReturnTypeStr` records. */
  function StrPushed(r: Record): (p: seq<string>)
    ensures p == if IsType(StripPointers(r)) then [UniversalName(StripPointers(r))] else []
  {
    if r.PointerRecord? then StrPushed(r.pointerTarget) else if IsType(r) then [UniversalName(r)] else []
  }

  /**
   * Without const layers both revisions resolve a record to the same name
   * and record the same dependents; only the flags differ. A const layer
   * turns any record into `int` here.
   */
  lemma {:induction false} RevisionsAgreeWithoutConst(r: Record)
    ensures !Lib.HasConst(r) ==> StrType(r).typeName == Lib.ResolvedType(r, false, false).typeName
    ensures !Lib.HasConst(r) ==> StrPushed(r) == Lib.Pushed(r)
    ensures r.ConstRecord? ==> StrType(r) == MakeTypePtr("int", false) && StrPushed(r) == []
  {
    if r.PointerRecord? {
      RevisionsAgreeWithoutConst(r.pointerTarget);
      assert Lib.Core(r) == Lib.Core(r.pointerTarget);
    }
  }

  function StrPushedAll(types: seq<Record>): seq<string>
  {
    if types == [] then [] else StrPushedAll(types[..|types| - 1]) + StrPushed(types[|types| - 1])
  }

  /** One more type resolved after the dependents `start`. */
  lemma StrPushedAllStep(start: seq<string>, types: seq<Record>, i: nat)
    requires i < |types|
    ensures start + StrPushedAll(types[..i + 1]) == (start + StrPushedAll(types[..i])) + StrPushed(types[i])
  {
    assert types[..i + 1][..i] == types[..i];
  }

  // ------------------------------------------------------------ getMethod

  /** A destructor gets an empty return type built with the pointer flag set. */
  function StrReturnOf(name: string, returnType: Record): TypePtr
  {
    if IsDestructorName(name) then MakeTypePtr("", true) else StrType(returnType)
  }

  function StrReturnPushed(name: string, returnType: Record): seq<string>
  {
    if IsDestructorName(name) then [] else StrPushed(returnType)
  }

  function NamedArguments(args: seq<FunctionArgument>): seq<Argument>
  {
    seq(|args|, i requires 0 <= i < |args| => Argument(args[i].name, Some(StrType(args[i].typeDef))))
  }

  function UnnamedArguments(types: seq<Record>): seq<Argument>
  {
    seq(|types|, i requires 0 <= i < |types| => Argument("", Some(StrType(types[i]))))
  }

  /** `getMethod(PDBFunction *)`: no accessibility is set. */
  function FunctionMethod(f: PdbFunction): Method
  {
    NewMethod().(
      name := f.name,
      returnType := Some(StrReturnOf(f.name, f.signature.returnType)),
      address := f.address,
      callType := f.signature.callType,
      isStatic := f.signature.thisTypeIndex == 0,
      isVariadic := f.signature.isVariadic,
      args := NamedArguments(f.arguments))
  }

  function FunctionPushed(f: PdbFunction): seq<string>
  {
    StrReturnPushed(f.name, f.signature.returnType) + StrPushedAll(Lib.ArgumentTypes(f.arguments))
  }

  /** `getMethod(PDBTypeFieldMember *)`: virtual when the vtable offset IS -1. */
  function MemberMethod(e: FieldEntry): Method
    requires e.typeDef.FunctionRecord?
  {
    var s := e.typeDef.signature;
    NewMethod().(
      name := e.name,
      returnType := Some(StrReturnOf(e.name, s.returnType)),
      callType := s.callType,
      isStatic := s.thisTypeIndex == 0,
      isVariadic := s.isVariadic,
      isVirtual := e.offset == -1,
      accessibility := PUBLIC,
      args := UnnamedArguments(s.argTypes))
  }

  function MemberPushed(e: FieldEntry): seq<string>
    requires e.typeDef.FunctionRecord?
  {
    StrReturnPushed(e.name, e.typeDef.signature.returnType) + StrPushedAll(e.typeDef.signature.argTypes)
  }

  /** The two revisions disagree on every field-list method's virtual flag. */
  lemma VirtualFlagInverted(e: FieldEntry)
    requires e.typeDef.FunctionRecord?
    ensures MemberMethod(e).isVirtual != Lib.MemberMethod(e).isVirtual
    ensures IsDestructorName(e.name) ==> MemberMethod(e).returnType.value.isPointer
  {
  }

  // ------------------------------------------------------------ getType

  /** A data member: `Field(name, type, offset)`, public, static iff a static member. */
  function PlainField(e: FieldEntry): Field
  {
    MakeField(e.name, StrType(e.typeDef), e.offset).(accessibility := PUBLIC, isStatic := e.kind == FieldStaticMember)
  }

  /** One field-list entry: a base stub, a method skeleton, or (for every other kind) a data member. */
  function WalkStep(p: Lib.Progress, e: FieldEntry): (q: Lib.Progress)
    requires e.kind == FieldOneMethod ==> e.typeDef.FunctionRecord?
    ensures q.t.name == p.t.name && q.t.fullyDefinedMethods == p.t.fullyDefinedMethods
  {
    if e.kind == FieldBase then p.(t := p.t.(baseTypes := p.t.baseTypes + [NewType(UniversalName(e.typeDef))]))
    else if e.kind == FieldOneMethod then
      Lib.Progress(p.t.(allMethods := p.t.allMethods + [MemberMethod(e)]), p.dependents + MemberPushed(e))
    else Lib.Progress(p.t.(fields := p.t.fields + [PlainField(e)]), p.dependents + StrPushed(e.typeDef))
  }

  function FieldWalk(entries: seq<FieldEntry>, p: Lib.Progress): (q: Lib.Progress)
    requires Lib.MethodsTyped(entries)
    ensures q.t.name == p.t.name && q.t.fullyDefinedMethods == p.t.fullyDefinedMethods
  {
    if entries == [] then p else WalkStep(FieldWalk(entries[..|entries| - 1], p), entries[|entries| - 1])
  }

  lemma FieldWalkStep(entries: seq<FieldEntry>, i: nat, p: Lib.Progress)
    requires Lib.MethodsTyped(entries) && i < |entries|
    ensures Lib.MethodsTyped(entries[..i]) && Lib.MethodsTyped(entries[..i + 1])
    ensures FieldWalk(entries[..i + 1], p) == WalkStep(FieldWalk(entries[..i], p), entries[i])
  {
    assert entries[..i + 1][..i] == entries[..i];
  }

  /** The entries that become data members here: everything but bases and methods. */
  function DataMembers(entries: seq<FieldEntry>): seq<Field>
  {
    if entries == [] then []
    else
      var e := entries[|entries| - 1];
      var before := DataMembers(entries[..|entries| - 1]);
      if e.kind != FieldBase && e.kind != FieldOneMethod then before + [PlainField(e)] else before
  }

  /** Nested-type entries are not special: they become data members like any other entry. */
  lemma {:induction false} NestedTypesBecomeFields(entries: seq<FieldEntry>, p: Lib.Progress)
    requires Lib.MethodsTyped(entries)
    ensures FieldWalk(entries, p).t.fields == p.t.fields + DataMembers(entries)
    ensures FieldWalk(entries, p).t.nestedTypes == p.t.nestedTypes
    ensures FieldWalk(entries, p).t.baseTypes == p.t.baseTypes + Lib.BaseStubs(entries)
  {
    if entries != [] {
      var init := entries[..|entries| - 1];
      assert Lib.MethodsTyped(init) by {
        assert forall e :: e in init ==> e in entries;
      }
      NestedTypesBecomeFields(init, p);
      var q := FieldWalk(init, p);
      var e := entries[|entries| - 1];
      assert FieldWalk(entries, p) == WalkStep(q, e);
      if e.kind == FieldBase {
        assert Lib.BaseStubs(entries) == Lib.BaseStubs(init) + [NewType(UniversalName(e.typeDef))];
      } else {
        assert Lib.BaseStubs(entries) == Lib.BaseStubs(init);
      }
    }
  }

  /**
   * One global function: every skeleton whose name is the function's name
   * without `<type>::` takes its arguments, address and static flag.
   */
  function Overwrite(methods: seq<Method>, m: Method, typeName: string): (r: seq<Method>)
    requires methods != [] ==> |typeName| + 2 <= |m.name|
    ensures |r| == |methods|
  {
    if methods == [] then methods
    else
      seq(|methods|, k requires 0 <= k < |methods| =>
        if methods[k].name == m.name[|typeName| + 2..]
        then methods[k].(args := m.args, address := m.address, isStatic := m.isStatic)
        else methods[k])
  }

  /**
   * The substring the merge compares is only taken when there is a
   * skeleton to compare it with.
   */
  predicate Strippable(functions: seq<PdbFunction>, typeName: string, skeletons: seq<Method>)
  {
    skeletons != [] ==> Lib.Qualified(functions, typeName)
  }

  function MergeStep(p: Lib.Progress, f: PdbFunction, typeName: string): (q: Lib.Progress)
    requires Lib.Owns(f, typeName) && p.t.allMethods != [] ==> |typeName| + 2 <= |f.name|
    ensures |q.t.allMethods| == |p.t.allMethods|
    ensures q.t.name == p.t.name && q.t.baseTypes == p.t.baseTypes
  {
    if !Lib.Owns(f, typeName) then p
    else
      var m := FunctionMethod(f);
      Lib.Progress(p.t.(allMethods := Overwrite(p.t.allMethods, m, typeName),
                        fullyDefinedMethods := p.t.fullyDefinedMethods + [m]),
                   p.dependents + FunctionPushed(f))
  }

  function Merge(p: Lib.Progress, functions: seq<PdbFunction>, typeName: string): (q: Lib.Progress)
    requires Strippable(functions, typeName, p.t.allMethods)
    ensures |q.t.allMethods| == |p.t.allMethods|
    ensures q.t.name == p.t.name && q.t.baseTypes == p.t.baseTypes
  {
    if functions == [] then p
    else
      var init := functions[..|functions| - 1];
      assert forall f :: f in init ==> f in functions;
      MergeStep(Merge(p, init, typeName), functions[|functions| - 1], typeName)
  }

  /** The last owned function whose unqualified name is `name`. */
  function LastOwnedNamed(functions: seq<PdbFunction>, typeName: string, name: string): Option<PdbFunction>
    requires Lib.Qualified(functions, typeName)
  {
    if functions == [] then None
    else
      var f := functions[|functions| - 1];
      assert forall g :: g in functions[..|functions| - 1] ==> g in functions;
      if Lib.Owns(f, typeName) && f.name[|typeName| + 2..] == name then Some(f)
      else LastOwnedNamed(functions[..|functions| - 1], typeName, name)
  }

  /** A skeleton after the merge: overwritten by the last owned function with its name, if any. */
  function ByLastOwned(s: Method, functions: seq<PdbFunction>, typeName: string): Method
    requires Lib.Qualified(functions, typeName)
  {
    match LastOwnedNamed(functions, typeName, s.name)
    case None => s
    case Some(f) => s.(args := FunctionMethod(f).args, address := f.address, isStatic := f.signature.thisTypeIndex == 0)
  }

  /**
   * Every skeleton stays where it is, keeps its name, and takes the
   * arguments, address and static flag of the LAST owned function with its
   * name, whatever the arguments; a skeleton no function names is
   * unchanged, and nothing is appended.
   */
  lemma {:induction false} MergeOverwritesByName(p: Lib.Progress, functions: seq<PdbFunction>, typeName: string)
    requires Lib.Qualified(functions, typeName)
    ensures |Merge(p, functions, typeName).t.allMethods| == |p.t.allMethods|
    ensures forall k :: 0 <= k < |p.t.allMethods| ==>
      Merge(p, functions, typeName).t.allMethods[k] == ByLastOwned(p.t.allMethods[k], functions, typeName)
  {
    if functions != [] {
      var init := functions[..|functions| - 1];
      var f := functions[|functions| - 1];
      assert forall g :: g in init ==> g in functions;
      MergeOverwritesByName(p, init, typeName);
      var q := Merge(p, init, typeName);
      assert Merge(p, functions, typeName) == MergeStep(q, f, typeName);
      forall k | 0 <= k < |p.t.allMethods|
        ensures Merge(p, functions, typeName).t.allMethods[k] == ByLastOwned(p.t.allMethods[k], functions, typeName)
      {
        var s := p.t.allMethods[k];
        assert q.t.allMethods[k] == ByLastOwned(s, init, typeName);
        assert q.t.allMethods[k].name == s.name;
        if Lib.Owns(f, typeName) && f.name[|typeName| + 2..] == s.name {
          assert LastOwnedNamed(functions, typeName, s.name) == Some(f);
        } else {
          assert LastOwnedNamed(functions, typeName, s.name) == LastOwnedNamed(init, typeName, s.name);
        }
      }
    }
  }

  /** The functions owned by the class, as `getMethod` builds them, in order. */
  function OwnedMethods(functions: seq<PdbFunction>, typeName: string): seq<Method>
  {
    if functions == [] then []
    else
      var f := functions[|functions| - 1];
      var before := OwnedMethods(functions[..|functions| - 1], typeName);
      if Lib.Owns(f, typeName) then before + [FunctionMethod(f)] else before
  }

  /** Every owned function is appended to the definitions with its qualified name, in order. */
  lemma {:induction false} MergeDefinesOwned(p: Lib.Progress, functions: seq<PdbFunction>, typeName: string)
    requires Strippable(functions, typeName, p.t.allMethods)
    ensures Merge(p, functions, typeName).t.fullyDefinedMethods == p.t.fullyDefinedMethods + OwnedMethods(functions, typeName)
  {
    if functions != [] {
      var init := functions[..|functions| - 1];
      assert forall f :: f in init ==> f in functions;
      MergeDefinesOwned(p, init, typeName);
    }
  }

  /**
   * What the extractor relies on for the class called `name`: only the field list of that
   * class is read, so only its one-method entries need a function record.
   */
  predicate Supported(pdb: PdbFile, name: string)
  {
    match LastDeclaration(pdb.fullyDefined, name)
    case None => true
    case Some(r) =>
      Lib.MethodsTyped(Lib.FieldEntries(pdb, r)) &&
      ((exists e :: e in Lib.FieldEntries(pdb, r) && e.kind == FieldOneMethod) ==>
        Lib.Qualified(pdb.functions, UniversalName(r)))
  }

  /** A walk adds a skeleton only for a one-method entry. */
  lemma {:induction false} SkeletonsFromMethods(entries: seq<FieldEntry>, p: Lib.Progress)
    requires Lib.MethodsTyped(entries) && p.t.allMethods == []
    ensures FieldWalk(entries, p).t.allMethods != [] ==> exists e :: e in entries && e.kind == FieldOneMethod
  {
    if entries != [] {
      var init := entries[..|entries| - 1];
      assert Lib.MethodsTyped(init) by {
        assert forall e :: e in init ==> e in entries;
      }
      SkeletonsFromMethods(init, p);
      if FieldWalk(init, p).t.allMethods != [] {
        var e :| e in init && e.kind == FieldOneMethod;
        assert e in entries;
      }
    }
  }

  /** `getType(name)` of this revision. */
  function TypeOf(pdb: PdbFile, name: string): Lib.Lookup
    requires Supported(pdb, name)
  {
    match LastDeclaration(pdb.fullyDefined, name)
    case None => Lib.Lookup(None, [])
    case Some(r) =>
      var typeName := UniversalName(r);
      var walked := FieldWalk(Lib.FieldEntries(pdb, r), Lib.Progress(NewType(typeName), []));
      SkeletonsFromMethods(Lib.FieldEntries(pdb, r), Lib.Progress(NewType(typeName), []));
      Lib.Finish(Merge(walked, pdb.functions, typeName))
  }

  /** The first global function with exactly the given name. */
  function FirstNamed(functions: seq<PdbFunction>, name: string): (r: Option<PdbFunction>)
    ensures r.Some? ==> r.value in functions && r.value.name == name
    ensures r.None? <==> forall f :: f in functions ==> f.name != name
  {
    if functions == [] then None
    else if functions[0].name == name then Some(functions[0])
    else
      assert forall f :: f in functions <==> f == functions[0] || f in functions[1..];
      FirstNamed(functions[1..], name)
  }

  /** The extractor of this revision over one loaded PDB file. */
  class LegacyExtractor {
    const pdb: PdbFile
    var allDependentClasses: seq<string>

    constructor(pdb: PdbFile)
      ensures this.pdb == pdb && allDependentClasses == []
    {
      this.pdb := pdb;
      allDependentClasses := [];
    }

    /** `getReturnTypeStr(type)`. */
    method GetReturnTypeStr(r: Record) returns (t: TypePtr)
      modifies this
      ensures t == StrType(r)
      ensures allDependentClasses == old(allDependentClasses) + StrPushed(r)
      decreases r
    {
      if r.BaseRecord? {
        return MakeTypePtr(r.description, false);
      } else if r.PointerRecord? {
        t := GetReturnTypeStr(r.pointerTarget);
        return;
      }
      if !IsType(r) {
        return MakeTypePtr("int", false);
      }
      var name := UniversalName(r);
      allDependentClasses := allDependentClasses + [name];
      t := MakeTypePtr(name, true);
    }

    /** `getMethod(PDBFunction *)`. */
    method GetFunctionMethod(f: PdbFunction) returns (m: Method)
      modifies this
      ensures m == FunctionMethod(f)
      ensures allDependentClasses == old(allDependentClasses) + FunctionPushed(f)
    {
      var returnType := GetMethodReturn(f.name, f.signature.returnType);
      var args := GetNamedArguments(f.arguments);
      m := NewMethod().(
        name := f.name,
        returnType := Some(returnType),
        address := f.address,
        callType := f.signature.callType,
        isStatic := f.signature.thisTypeIndex == 0,
        isVariadic := f.signature.isVariadic,
        args := args);
    }

    /** The return type `getMethod` sets: for a destructor, an empty one with the pointer flag. */
    method GetMethodReturn(name: string, returnType: Record) returns (t: TypePtr)
      modifies this
      ensures t == StrReturnOf(name, returnType)
      ensures allDependentClasses == old(allDependentClasses) + StrReturnPushed(name, returnType)
    {
      if IsDestructorName(name) {
        t := MakeTypePtr("", true);
      } else {
        t := GetReturnTypeStr(returnType);
      }
    }

    /** The argument loop of `getMethod(PDBFunction *)`. */
    method GetNamedArguments(arguments: seq<FunctionArgument>) returns (args: seq<Argument>)
      modifies this
      ensures args == NamedArguments(arguments)
      ensures allDependentClasses == old(allDependentClasses) + StrPushedAll(Lib.ArgumentTypes(arguments))
    {
      args := [];
      var types := Lib.ArgumentTypes(arguments);
      for i := 0 to |arguments|
        invariant |args| == i
        invariant forall j :: 0 <= j < i ==> args[j] == Argument(arguments[j].name, Some(StrType(arguments[j].typeDef)))
        invariant allDependentClasses == old(allDependentClasses) + StrPushedAll(types[..i])
      {
        StrPushedAllStep(old(allDependentClasses), types, i);
        var t := GetReturnTypeStr(arguments[i].typeDef);
        args := args + [Argument(arguments[i].name, Some(t))];
      }
      assert types[..|arguments|] == types;
    }

    /** The argument loop of `getMethod(PDBTypeFieldMember *)`. */
    method GetUnnamedArguments(types: seq<Record>) returns (args: seq<Argument>)
      modifies this
      ensures args == UnnamedArguments(types)
      ensures allDependentClasses == old(allDependentClasses) + StrPushedAll(types)
    {
      args := [];
      for i := 0 to |types|
        invariant |args| == i
        invariant forall j :: 0 <= j < i ==> args[j] == Argument("", Some(StrType(types[j])))
        invariant allDependentClasses == old(allDependentClasses) + StrPushedAll(types[..i])
      {
        StrPushedAllStep(old(allDependentClasses), types, i);
        var t := GetReturnTypeStr(types[i]);
        args := args + [Argument("", Some(t))];
      }
      assert types[..|types|] == types;
    }

    /** `getMethod(PDBTypeFieldMember *)`. */
    method GetMemberMethod(e: FieldEntry) returns (m: Method)
      requires e.typeDef.FunctionRecord?
      modifies this
      ensures m == MemberMethod(e)
      ensures allDependentClasses == old(allDependentClasses) + MemberPushed(e)
    {
      var s := e.typeDef.signature;
      var returnType := GetMethodReturn(e.name, s.returnType);
      var args := GetUnnamedArguments(s.argTypes);
      m := NewMethod().(
        name := e.name,
        returnType := Some(returnType),
        callType := s.callType,
        isStatic := s.thisTypeIndex == 0,
        isVariadic := s.isVariadic,
        isVirtual := e.offset == -1,
        accessibility := PUBLIC,
        args := args);
    }

    /**
     * `getMethod(name)`: the method of the first global function with
     * exactly that name, or none.
     */
    method GetMethodByName(name: string) returns (m: Option<Method>)
      modifies this
      ensures FirstNamed(pdb.functions, name).None? ==> m.None? && allDependentClasses == old(allDependentClasses)
      ensures FirstNamed(pdb.functions, name).Some? ==>
        var f := FirstNamed(pdb.functions, name).value;
        m == Some(FunctionMethod(f)) && allDependentClasses == old(allDependentClasses) + FunctionPushed(f)
    {
      var i := 0;
      while i < |pdb.functions|
        invariant 0 <= i <= |pdb.functions|
        invariant FirstNamed(pdb.functions, name) == FirstNamed(pdb.functions[i..], name)
      {
        assert pdb.functions[i..][1..] == pdb.functions[i + 1..];
        if pdb.functions[i].name == name {
          var found := GetFunctionMethod(pdb.functions[i]);
          return Some(found);
        }
        i := i + 1;
      }
      return None;
    }

    /** `getType(name)` of this revision. */
    method GetType(name: string) returns (result: Option<Type>)
      requires Supported(pdb, name)
      modifies this
      ensures Lib.Lookup(result, allDependentClasses) == TypeOf(pdb, name)
    {
      allDependentClasses := [];
      var decl := FindFullDeclaration(pdb.fullyDefined, name);
      if decl.None? {
        return None;
      }
      var r := decl.value;
      var entries := Lib.FieldEntries(pdb, r);
      assert Lib.MethodsTyped(entries);
      var t := NewType(UniversalName(r));
      if FieldListId(r) in pdb.fieldLists {
        t := WalkFieldList(entries, t);
      }
      ghost var walked := FieldWalk(entries, Lib.Progress(NewType(UniversalName(r)), []));
      assert Lib.Progress(t, allDependentClasses) == walked;
      SkeletonsFromMethods(entries, Lib.Progress(NewType(UniversalName(r)), []));
      t := MergeFunctions(t);
      if t.baseTypes != [] {
        allDependentClasses := allDependentClasses + [t.baseTypes[0].name];
      }
      allDependentClasses := SortUnique(allDependentClasses);
      t := t.(dependentTypes := allDependentClasses);
      result := Some(t);
    }

    method WalkFieldList(entries: seq<FieldEntry>, t: Type) returns (t': Type)
      requires Lib.MethodsTyped(entries)
      modifies this
      ensures Lib.Progress(t', allDependentClasses) == FieldWalk(entries, Lib.Progress(t, old(allDependentClasses)))
    {
      ghost var start := Lib.Progress(t, allDependentClasses);
      t' := t;
      var i := 0;
      while i < |entries|
        invariant 0 <= i <= |entries|
        invariant Lib.Progress(t', allDependentClasses) == FieldWalk(entries[..i], start)
      {
        FieldWalkStep(entries, i, start);
        var e := entries[i];
        if e.kind == FieldBase {
          t' := t'.(baseTypes := t'.baseTypes + [NewType(UniversalName(e.typeDef))]);
        } else if e.kind == FieldOneMethod {
          var m := GetMemberMethod(e);
          t' := t'.(allMethods := t'.allMethods + [m]);
        } else {
          var typePtr := GetReturnTypeStr(e.typeDef);
          var field := MakeField(e.name, typePtr, e.offset).(accessibility := PUBLIC);
          if e.kind == FieldStaticMember {
            field := field.(isStatic := true);
          }
          t' := t'.(fields := t'.fields + [field]);
        }
        i := i + 1;
      }
      assert entries[..i] == entries;
    }

    method MergeFunctions(t: Type) returns (t': Type)
      requires Strippable(pdb.functions, t.name, t.allMethods)
      modifies this
      ensures Lib.Progress(t', allDependentClasses) == Merge(Lib.Progress(t, old(allDependentClasses)), pdb.functions, t.name)
    {
      ghost var start := Lib.Progress(t, allDependentClasses);
      t' := t;
      var i := 0;
      while i < |pdb.functions|
        invariant 0 <= i <= |pdb.functions|
        invariant Strippable(pdb.functions[..i], t.name, t.allMethods)
        invariant Lib.Progress(t', allDependentClasses) == Merge(start, pdb.functions[..i], t.name)
      {
        assert pdb.functions[..i + 1][..i] == pdb.functions[..i];
        assert pdb.functions[i] in pdb.functions;
        var f := pdb.functions[i];
        if f.signature.owner.ClassRecord? && f.signature.owner.className == t.name {
          var m := GetFunctionMethod(f);
          var methods := OverwriteMatching(t'.allMethods, m, t.name);
          t' := t'.(allMethods := methods, fullyDefinedMethods := t'.fullyDefinedMethods + [m]);
        }
        i := i + 1;
      }
      assert pdb.functions[..i] == pdb.functions;
    }
  }

  /** The inner loop of the merge: every skeleton with the unqualified name is overwritten. */
  method OverwriteMatching(methods: seq<Method>, m: Method, typeName: string) returns (r: seq<Method>)
    requires methods != [] ==> |typeName| + 2 <= |m.name|
    ensures r == Overwrite(methods, m, typeName)
  {
    r := methods;
    var i := 0;
    while i < |r|
      invariant 0 <= i <= |r| == |methods|
      invariant r[..i] == Overwrite(methods, m, typeName)[..i]
      invariant r[i..] == methods[i..]
    {
      if r[i].name == m.name[|typeName| + 2..] {
        r := r[i := r[i].(args := m.args, address := m.address, isStatic := m.isStatic)];
      }
      i := i + 1;
    }
  }
}
