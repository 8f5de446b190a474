/**
 * The PDB extractor of the library revision: it turns a class or struct
 * record of a loaded PDB file into a `Type`. It walks the record's field
 * list (base classes, methods, nested types, data members), gives data
 * members the addresses of the matching global variables, and merges the
 * global functions owned by the class into the method skeletons of the
 * field list.
 *
 * The extractor keeps the dependent class names it meets in the member
 * `allDependentClasses`; `getType` clears it on entry, and a nested type
 * looked up in the middle of a field-list walk clears it again. The model
 * reproduces this: `TypeOf` gives the type together with the accumulator
 * it leaves behind.
 */
module PdbExtractor {
  import opened Wrappers
  import opened Strings
  import opened DebugTypes
  import opened PdbRecords

  // ------------------------------------------------------------ getReturnType

  /** The record under every const and pointer layer. */
  function Core(r: Record): (c: Record)
    ensures !c.ConstRecord? && !c.PointerRecord?
  {
    match r
    case ConstRecord(target) => Core(target)
    case PointerRecord(target) => Core(target)
    case _ => r
  }

  /** Some layer above the core is const. */
  predicate HasConst(r: Record)
  {
    match r
    case ConstRecord(_) => true
    case PointerRecord(target) => HasConst(target)
    case _ => false
  }

  /** Some layer above the core is a pointer. */
  predicate HasPointer(r: Record)
  {
    match r
    case ConstRecord(target) => HasPointer(target)
    case PointerRecord(_) => true
    case _ => false
  }

  /**
   * `getReturnType(type, flags)`, with bit 1 of `flags` as `constant` and
   * bit 2 as `pointer`. Every const layer and every pointer layer only sets
   * its bit, so how many there were and in which order is lost; a base
   * record keeps its description, a class or struct its name and always the
   * pointer flag, and every other record becomes a plain `int`.
   */
  function ResolvedType(r: Record, constant: bool, pointer: bool): (t: TypePtr)
    ensures Core(r).BaseRecord? ==>
      t == TypePtr(Core(r).description, pointer || HasPointer(r), false, constant || HasConst(r), false, 0, true)
    ensures IsType(Core(r)) ==>
      t == TypePtr(UniversalName(Core(r)), true, false, constant || HasConst(r), false, 0, false)
    ensures !Core(r).BaseRecord? && !IsType(Core(r)) ==> t == MakeTypePtr("int", false)
  {
    match r
    case BaseRecord(description) =>
      MakeTypePtr(description, false).(isBaseType := true, isConstant := constant, isPointer := pointer)
    case ConstRecord(target) => ResolvedType(target, true, pointer)
    case PointerRecord(target) => ResolvedType(target, constant, true)
    case _ =>
      if !IsType(r) then MakeTypePtr("int", false)
      else MakeTypePtr(UniversalName(r), true).(isConstant := constant, isPointer := pointer || true)
  }

  /** The dependent class `getReturnType` records: the core's name when it is a class or struct. */
  function Pushed(r: Record): (p: seq<string>)
    ensures p == if IsType(Core(r)) then [UniversalName(Core(r))] else []
  {
    match r
    case ConstRecord(target) => Pushed(target)
    case PointerRecord(target) => Pushed(target)
    case _ => if IsType(r) then [UniversalName(r)] else []
  }

  /** Const-then-pointer and pointer-then-const resolve alike, and a doubled layer adds nothing. */
  lemma QualifierOrderLost(r: Record)
    ensures ResolvedType(ConstRecord(PointerRecord(r)), false, false) == ResolvedType(PointerRecord(ConstRecord(r)), false, false)
    ensures ResolvedType(ConstRecord(ConstRecord(r)), false, false) == ResolvedType(ConstRecord(r), false, false)
    ensures ResolvedType(PointerRecord(PointerRecord(r)), false, false) == ResolvedType(PointerRecord(r), false, false)
  {
  }

  /** The dependents recorded for a list of type records, in order. */
  function PushedAll(types: seq<Record>): seq<string>
  {
    if types == [] then [] else PushedAll(types[..|types| - 1]) + Pushed(types[|types| - 1])
  }

  /** One more type resolved after the dependents `start`. */
  lemma PushedAllStep(start: seq<string>, types: seq<Record>, i: nat)
    requires i < |types|
    ensures start + PushedAll(types[..i + 1]) == (start + PushedAll(types[..i])) + Pushed(types[i])
  {
    assert types[..i + 1][..i] == types[..i];
  }

  // ------------------------------------------------------------ getMethod

  /** The return type of a method: empty for a destructor, else the resolved record. */
  function ReturnOf(name: string, returnType: Record): TypePtr
  {
    if IsDestructorName(name) then MakeTypePtr("", false) else ResolvedType(returnType, false, false)
  }

  function ReturnPushed(name: string, returnType: Record): seq<string>
  {
    if IsDestructorName(name) then [] else Pushed(returnType)
  }

  function ArgumentTypes(args: seq<FunctionArgument>): (types: seq<Record>)
    ensures |types| == |args|
    ensures forall i :: 0 <= i < |args| ==> types[i] == args[i].typeDef
  {
    seq(|args|, i requires 0 <= i < |args| => args[i].typeDef)
  }

  function NamedArguments(args: seq<FunctionArgument>): seq<Argument>
  {
    seq(|args|, i requires 0 <= i < |args| => Argument(args[i].name, Some(ResolvedType(args[i].typeDef, false, false))))
  }

  lemma NamedArgumentsStep(args: seq<FunctionArgument>, i: nat)
    requires i < |args|
    ensures NamedArguments(args[..i + 1]) ==
      NamedArguments(args[..i]) + [Argument(args[i].name, Some(ResolvedType(args[i].typeDef, false, false)))]
  {
  }

  function UnnamedArguments(types: seq<Record>): seq<Argument>
  {
    seq(|types|, i requires 0 <= i < |types| => Argument("", Some(ResolvedType(types[i], false, false))))
  }

  /** `getMethod(PDBFunction *)`: a public method from a global function. */
  function FunctionMethod(f: PdbFunction): Method
  {
    NewMethod().(
      name := f.name,
      returnType := Some(ReturnOf(f.name, f.signature.returnType)),
      address := f.address,
      callType := f.signature.callType,
      isStatic := f.signature.thisTypeIndex == 0,
      isVariadic := f.signature.isVariadic,
      accessibility := PUBLIC,
      args := NamedArguments(f.arguments))
  }

  /** The dependents `getMethod(PDBFunction *)` records: return type first, then the arguments. */
  function FunctionPushed(f: PdbFunction): seq<string>
  {
    ReturnPushed(f.name, f.signature.returnType) + PushedAll(ArgumentTypes(f.arguments))
  }

  /** `getMethod(PDBTypeFieldMember *)`: a public skeleton from a one-method field-list entry. */
  function MemberMethod(e: FieldEntry): Method
    requires e.typeDef.FunctionRecord?
  {
    var s := e.typeDef.signature;
    NewMethod().(
      name := e.name,
      returnType := Some(ReturnOf(e.name, s.returnType)),
      callType := s.callType,
      isStatic := s.thisTypeIndex == 0,
      isVariadic := s.isVariadic,
      isVirtual := e.offset != -1,
      vftableOffset := e.offset,
      accessibility := PUBLIC,
      args := UnnamedArguments(s.argTypes))
  }

  function MemberPushed(e: FieldEntry): seq<string>
    requires e.typeDef.FunctionRecord?
  {
    ReturnPushed(e.name, e.typeDef.signature.returnType) + PushedAll(e.typeDef.signature.argTypes)
  }

  /**
   * A field-list method is virtual exactly when it has a vtable offset,
   * has no address, and has one unnamed argument per argument type.
   */
  lemma MemberMethodShape(e: FieldEntry)
    requires e.typeDef.FunctionRecord?
    ensures MemberMethod(e).isVirtual <==> e.offset != -1
    ensures MemberMethod(e).address == 0
    ensures |MemberMethod(e).args| == |e.typeDef.signature.argTypes|
    ensures forall a :: a in MemberMethod(e).args ==> a.name == []
  {
  }

  // ------------------------------------------------------------ the field-list walk

  /** A type under construction together with the dependent-class accumulator. */
  datatype Progress = Progress(t: Type, dependents: seq<string>)

  /** What `getType` returns, with the accumulator it leaves in the extractor. */
  datatype Lookup = Lookup(result: Option<Type>, dependents: seq<string>)

  /**
   * A nested type is looked up under a strictly longer name than its
   * parent, and a lookup only goes further when some record carries the
   * name, so the nesting is bounded by the longest record name.
   */
  function Measure(pdb: PdbFile, name: string): nat
  {
    var longest := MaxNameLength(pdb.fullyDefined);
    if |name| <= longest then longest - |name| + 1 else 0
  }

  /** The field list of a class or struct record; a missing list is read as empty. */
  function FieldEntries(pdb: PdbFile, r: Record): seq<FieldEntry>
  {
    if FieldListId(r) in pdb.fieldLists then pdb.fieldLists[FieldListId(r)] else []
  }

  predicate MethodsTyped(entries: seq<FieldEntry>)
  {
    forall e :: e in entries && e.kind == FieldOneMethod ==> e.typeDef.FunctionRecord?
  }

  /** A data member: `Field(name, type, offset)`, public, static iff a static member. */
  function PlainField(e: FieldEntry): Field
  {
    MakeField(e.name, ResolvedType(e.typeDef, false, false), e.offset).(
      accessibility := PUBLIC, isStatic := e.kind == FieldStaticMember)
  }

  /** `getType(name)`: the type, or none when no class or struct record carries the name. */
  function TypeOf(pdb: PdbFile, name: string): Lookup
    requires WellFormed(pdb)
    decreases Measure(pdb, name), 1, 1
  {
    match LastDeclaration(pdb.fullyDefined, name)
    case None => Lookup(None, [])
    case Some(r) => Assemble(pdb, r, name)
  }

  /** The type `getType` builds from the record `r` it found for `name`. */
  function Assemble(pdb: PdbFile, r: Record, name: string): Lookup
    requires WellFormed(pdb) && r in pdb.fullyDefined && Declares(r, name)
    decreases Measure(pdb, name), 1, 0
  {
    var walked := Walked(pdb, r);
    var placed := walked.t.(fields := WithAddresses(walked.t.fields, pdb.globals, name));
    Finish(Merge(Unshared(Progress(placed, walked.dependents)), pdb.functions, UniversalName(r)).p)
  }

  /** The walk over the field list of `r`, from an empty type and an empty accumulator. */
  function Walked(pdb: PdbFile, r: Record): Progress
    requires WellFormed(pdb) && r in pdb.fullyDefined && IsType(r)
    decreases Measure(pdb, UniversalName(r)), 0, |FieldEntries(pdb, r)| + 1
  {
    var typeName := UniversalName(r);
    MaxNameLengthBounds(pdb.fullyDefined, r);
    FieldWalk(pdb, FieldEntries(pdb, r), typeName, Progress(NewType(typeName), []))
  }

  /** The last steps of `getType`: the first base joins the dependents, which are sorted and made unique. */
  function Finish(p: Progress): Lookup
  {
    var deps := SortUnique(if p.t.baseTypes != [] then p.dependents + [p.t.baseTypes[0].name] else p.dependents);
    Lookup(Some(p.t.(dependentTypes := deps)), deps)
  }

  /** The field-list entries handled in order. */
  function FieldWalk(pdb: PdbFile, entries: seq<FieldEntry>, typeName: string, p: Progress): (q: Progress)
    requires WellFormed(pdb) && MethodsTyped(entries)
    requires |typeName| <= MaxNameLength(pdb.fullyDefined)
    ensures q.t.name == p.t.name && q.t.fullyDefinedMethods == p.t.fullyDefinedMethods
    decreases Measure(pdb, typeName), 0, |entries|
  {
    if entries == [] then p
    else WalkStep(pdb, FieldWalk(pdb, entries[..|entries| - 1], typeName, p), entries[|entries| - 1], typeName)
  }

  /** One field-list entry: a base stub, a method skeleton, a nested type, or a data member. */
  function WalkStep(pdb: PdbFile, p: Progress, e: FieldEntry, typeName: string): (q: Progress)
    requires WellFormed(pdb) && (e.kind == FieldOneMethod ==> e.typeDef.FunctionRecord?)
    requires |typeName| <= MaxNameLength(pdb.fullyDefined)
    ensures q.t.name == p.t.name && q.t.fullyDefinedMethods == p.t.fullyDefinedMethods
    decreases Measure(pdb, typeName), 0, 0
  {
    match e.kind
    case FieldBase => p.(t := p.t.(baseTypes := p.t.baseTypes + [NewType(UniversalName(e.typeDef))]))
    case FieldOneMethod => Progress(p.t.(allMethods := p.t.allMethods + [MemberMethod(e)]), p.dependents + MemberPushed(e))
    case FieldNestType =>
      var nested := TypeOf(pdb, typeName + "::" + e.name);
      var stub := if nested.result.Some? then nested.result.value.(name := e.name) else NewType(e.name);
      Progress(p.t.(nestedTypes := p.t.nestedTypes + [stub]), nested.dependents)
    case _ => Progress(p.t.(fields := p.t.fields + [PlainField(e)]), p.dependents + Pushed(e.typeDef))
  }

  lemma FieldWalkStep(pdb: PdbFile, entries: seq<FieldEntry>, i: nat, typeName: string, p: Progress)
    requires WellFormed(pdb) && MethodsTyped(entries)
    requires |typeName| <= MaxNameLength(pdb.fullyDefined)
    requires i < |entries|
    ensures MethodsTyped(entries[..i]) && MethodsTyped(entries[..i + 1])
    ensures FieldWalk(pdb, entries[..i + 1], typeName, p) ==
      WalkStep(pdb, FieldWalk(pdb, entries[..i], typeName, p), entries[i], typeName)
  {
    assert entries[..i + 1][..i] == entries[..i];
  }

  // The reference lists of the classification, one per kind of entry.

  function BaseStubs(entries: seq<FieldEntry>): seq<Type>
  {
    if entries == [] then []
    else
      var e := entries[|entries| - 1];
      var before := BaseStubs(entries[..|entries| - 1]);
      if e.kind == FieldBase then before + [NewType(UniversalName(e.typeDef))] else before
  }

  function MemberMethods(entries: seq<FieldEntry>): seq<Method>
    requires MethodsTyped(entries)
  {
    if entries == [] then []
    else
      var e := entries[|entries| - 1];
      var before := MemberMethods(entries[..|entries| - 1]);
      if e.kind == FieldOneMethod then before + [MemberMethod(e)] else before
  }

  function NestedNames(entries: seq<FieldEntry>): seq<string>
  {
    if entries == [] then []
    else
      var e := entries[|entries| - 1];
      var before := NestedNames(entries[..|entries| - 1]);
      if e.kind == FieldNestType then before + [e.name] else before
  }

  /** Every entry that is not a base, a method or a nested type is a data member. */
  predicate IsDataMember(e: FieldEntry)
  {
    e.kind != FieldBase && e.kind != FieldOneMethod && e.kind != FieldNestType
  }

  function DataMembers(entries: seq<FieldEntry>): seq<Field>
  {
    if entries == [] then []
    else
      var e := entries[|entries| - 1];
      var before := DataMembers(entries[..|entries| - 1]);
      if IsDataMember(e) then before + [PlainField(e)] else before
  }

  /**
   * The walk sorts bases, methods and data members into their own lists,
   * in order: bases become name-only stubs, one-method entries skeletons,
   * and every other entry that is not a nested type a public field, static
   * iff a static member.
   */
  lemma FieldWalkClassifies(pdb: PdbFile, entries: seq<FieldEntry>, typeName: string, p: Progress)
    requires WellFormed(pdb) && MethodsTyped(entries)
    requires |typeName| <= MaxNameLength(pdb.fullyDefined)
    ensures FieldWalk(pdb, entries, typeName, p).t.baseTypes == p.t.baseTypes + BaseStubs(entries)
    ensures FieldWalk(pdb, entries, typeName, p).t.allMethods == p.t.allMethods + MemberMethods(entries)
    ensures FieldWalk(pdb, entries, typeName, p).t.fields == p.t.fields + DataMembers(entries)
  {
    FieldWalkBases(pdb, entries, typeName, p);
    FieldWalkMethods(pdb, entries, typeName, p);
    FieldWalkFields(pdb, entries, typeName, p);
  }

  /** The entries without their last one still have typed methods. */
  lemma InitTyped(entries: seq<FieldEntry>)
    requires entries != [] && MethodsTyped(entries)
    ensures MethodsTyped(entries[..|entries| - 1])
  {
    assert forall e :: e in entries[..|entries| - 1] ==> e in entries;
  }

  lemma {:induction false} FieldWalkBases(pdb: PdbFile, entries: seq<FieldEntry>, typeName: string, p: Progress)
    requires WellFormed(pdb) && MethodsTyped(entries)
    requires |typeName| <= MaxNameLength(pdb.fullyDefined)
    ensures FieldWalk(pdb, entries, typeName, p).t.baseTypes == p.t.baseTypes + BaseStubs(entries)
    decreases |entries|
  {
    if entries == [] {
      assert p.t.baseTypes + [] == p.t.baseTypes;
    } else {
      var init := entries[..|entries| - 1];
      var e := entries[|entries| - 1];
      InitTyped(entries);
      FieldWalkBases(pdb, init, typeName, p);
      var q := FieldWalk(pdb, init, typeName, p);
      assert FieldWalk(pdb, entries, typeName, p) == WalkStep(pdb, q, e, typeName);
      if e.kind == FieldBase {
        var stub := NewType(UniversalName(e.typeDef));
        assert p.t.baseTypes + BaseStubs(init) + [stub] == p.t.baseTypes + (BaseStubs(init) + [stub]);
      }
    }
  }

  lemma {:induction false} FieldWalkMethods(pdb: PdbFile, entries: seq<FieldEntry>, typeName: string, p: Progress)
    requires WellFormed(pdb) && MethodsTyped(entries)
    requires |typeName| <= MaxNameLength(pdb.fullyDefined)
    ensures FieldWalk(pdb, entries, typeName, p).t.allMethods == p.t.allMethods + MemberMethods(entries)
    decreases |entries|
  {
    if entries == [] {
      assert p.t.allMethods + [] == p.t.allMethods;
    } else {
      var init := entries[..|entries| - 1];
      var e := entries[|entries| - 1];
      InitTyped(entries);
      FieldWalkMethods(pdb, init, typeName, p);
      var q := FieldWalk(pdb, init, typeName, p);
      assert FieldWalk(pdb, entries, typeName, p) == WalkStep(pdb, q, e, typeName);
      if e.kind == FieldOneMethod {
        var m := MemberMethod(e);
        assert p.t.allMethods + MemberMethods(init) + [m] == p.t.allMethods + (MemberMethods(init) + [m]);
      }
    }
  }

  lemma {:induction false} FieldWalkFields(pdb: PdbFile, entries: seq<FieldEntry>, typeName: string, p: Progress)
    requires WellFormed(pdb) && MethodsTyped(entries)
    requires |typeName| <= MaxNameLength(pdb.fullyDefined)
    ensures FieldWalk(pdb, entries, typeName, p).t.fields == p.t.fields + DataMembers(entries)
    decreases |entries|
  {
    if entries == [] {
      assert p.t.fields + [] == p.t.fields;
    } else {
      var init := entries[..|entries| - 1];
      var e := entries[|entries| - 1];
      InitTyped(entries);
      FieldWalkFields(pdb, init, typeName, p);
      var q := FieldWalk(pdb, init, typeName, p);
      assert FieldWalk(pdb, entries, typeName, p) == WalkStep(pdb, q, e, typeName);
      if IsDataMember(e) {
        var f := PlainField(e);
        assert p.t.fields + DataMembers(init) + [f] == p.t.fields + (DataMembers(init) + [f]);
      }
    }
  }

  /** Nested types keep the entry's name, whether or not the lookup under `<type>::<name>` found them. */
  lemma {:induction false} FieldWalkNests(pdb: PdbFile, entries: seq<FieldEntry>, typeName: string, p: Progress)
    requires WellFormed(pdb) && MethodsTyped(entries)
    requires |typeName| <= MaxNameLength(pdb.fullyDefined)
    ensures Names(FieldWalk(pdb, entries, typeName, p).t.nestedTypes) == Names(p.t.nestedTypes) + NestedNames(entries)
    decreases |entries|
  {
    if entries != [] {
      var init := entries[..|entries| - 1];
      assert MethodsTyped(init) by {
        assert forall e :: e in init ==> e in entries;
      }
      FieldWalkNests(pdb, init, typeName, p);
      var q := FieldWalk(pdb, init, typeName, p);
      var e := entries[|entries| - 1];
      var n := WalkStep(pdb, q, e, typeName).t.nestedTypes;
      if e.kind == FieldNestType {
        assert n == q.t.nestedTypes + [n[|n| - 1]];
        assert Names(n) == Names(q.t.nestedTypes) + [e.name];
      } else {
        assert n == q.t.nestedTypes;
      }
    }
  }

  // ------------------------------------------------------------ addresses of static members

  /** The address of the last global variable called `qualified`, else `default`. */
  function LastAddress(globals: seq<GlobalVariable>, qualified: string, default: nat): nat
  {
    if globals == [] then default
    else if globals[|globals| - 1].name == qualified then globals[|globals| - 1].address
    else LastAddress(globals[..|globals| - 1], qualified, default)
  }

  /** One global variable checked against every field (the inner loop). */
  function AssignAddress(fields: seq<Field>, g: GlobalVariable, name: string): seq<Field>
  {
    seq(|fields|, k requires 0 <= k < |fields| =>
      if g.name == name + "::" + fields[k].name then fields[k].(address := g.address) else fields[k])
  }

  /** Every global variable checked against every field (the outer loop). */
  function WithAddresses(fields: seq<Field>, globals: seq<GlobalVariable>, name: string): (r: seq<Field>)
    ensures |r| == |fields|
  {
    if globals == [] then fields
    else AssignAddress(WithAddresses(fields, globals[..|globals| - 1], name), globals[|globals| - 1], name)
  }

  /**
   * A field gets an address only from a global variable named exactly
   * `<query>::<field>`, the last such variable wins, and nothing else
   * about the field changes.
   */
  lemma {:induction false} AddressFromLastGlobal(fields: seq<Field>, globals: seq<GlobalVariable>, name: string)
    ensures forall k :: 0 <= k < |fields| ==>
      WithAddresses(fields, globals, name)[k] ==
        fields[k].(address := LastAddress(globals, name + "::" + fields[k].name, fields[k].address))
  {
    if globals != [] {
      AddressFromLastGlobal(fields, globals[..|globals| - 1], name);
    }
  }

  // ------------------------------------------------------------ merging the global functions

  /** The function is a member of the class called `typeName`. */
  predicate Owns(f: PdbFunction, typeName: string)
  {
    f.signature.owner.ClassRecord? && f.signature.owner.className == typeName
  }

  /** Owned functions carry the class prefix, so stripping it is defined. */
  predicate Qualified(functions: seq<PdbFunction>, typeName: string)
  {
    forall f :: f in functions && Owns(f, typeName) ==> |typeName| + 2 <= |f.name|
  }

  /** 1 when the first argument is the `this` pointer, else 0. */
  function ThisOffset(m: Method): nat
  {
    if |m.args| > 0 && m.args[0].name == "this" then 1 else 0
  }

  /**
   * The skeleton `candidate` describes the method `m` of class `typeName`:
   * same name once the class prefix is stripped, same arity once a leading
   * `this` is skipped, and pairwise-equal argument types.
   */
  predicate Matches(candidate: Method, m: Method, typeName: string)
    requires |typeName| + 2 <= |m.name|
  {
    candidate.name == m.name[|typeName| + 2..] &&
    |m.args| - ThisOffset(m) == |candidate.args| &&
    forall j :: ThisOffset(m) <= j < |m.args| ==> m.args[j].typePtr == candidate.args[j - ThisOffset(m)].typePtr
  }

  /** The first skeleton from index `k` on that `m` matches, or -1. */
  function FirstMatch(methods: seq<Method>, m: Method, typeName: string, k: nat): (i: int)
    requires |typeName| + 2 <= |m.name|
    ensures -1 <= i < |methods|
    ensures i >= 0 ==> k <= i && Matches(methods[i], m, typeName)
    ensures i >= 0 ==> forall x :: k <= x < i ==> !Matches(methods[x], m, typeName)
    ensures i == -1 ==> forall x :: k <= x < |methods| ==> !Matches(methods[x], m, typeName)
    decreases |methods| - k
  {
    if k >= |methods| then -1
    else if Matches(methods[k], m, typeName) then k
    else FirstMatch(methods, m, typeName, k + 1)
  }

  /**
   * The state of the merge: the type and the accumulator, and `shared`, which
   * gives for each entry of `allMethods` the position of the same object in
   * `fullyDefinedMethods`, or -1. A function that matches no skeleton is one
   * object pushed onto both lists, so an update made later through
   * `allMethods` shows in `fullyDefinedMethods` too.
   */
  datatype Merging = Merging(p: Progress, shared: seq<int>)

  /** `shared` pairs entries of the two lists that are one object: distinct positions, equal methods. */
  predicate Aliases(t: Type, shared: seq<int>)
  {
    |shared| == |t.allMethods| &&
    (forall k :: 0 <= k < |shared| ==> -1 <= shared[k] < |t.fullyDefinedMethods|) &&
    (forall k :: 0 <= k < |shared| && shared[k] >= 0 ==> t.fullyDefinedMethods[shared[k]] == t.allMethods[k]) &&
    (forall k, l :: 0 <= k < l < |shared| && shared[k] >= 0 ==> shared[k] != shared[l])
  }

  /** The start of the merge: no skeleton of the walk is also a definition. */
  function Unshared(p: Progress): (s: Merging)
    ensures s.p == p && |s.shared| == |p.t.allMethods|
    ensures forall k :: 0 <= k < |s.shared| ==> s.shared[k] == -1
  {
    Merging(p, seq(|p.t.allMethods|, _ => -1))
  }

  /**
   * One global function: an owned one updates the arguments, address and
   * static flag of its first matching skeleton (and so of the definition
   * that is the same object, if any) and is appended to the definitions as
   * it is; unmatched, it is appended to both lists, as one object, with its
   * class prefix stripped. A function of another class changes nothing.
   */
  function MergeStep(s: Merging, f: PdbFunction, typeName: string): Merging
    requires Owns(f, typeName) ==> |typeName| + 2 <= |f.name|
    requires |s.shared| == |s.p.t.allMethods|
  {
    var p := s.p;
    if !Owns(f, typeName) then s
    else
      var m := FunctionMethod(f);
      var i := FirstMatch(p.t.allMethods, m, typeName, 0);
      var deps := p.dependents + FunctionPushed(f);
      if i >= 0 then
        var found := p.t.allMethods[i];
        var updated := found.(args := m.args, address := m.address, isStatic := m.isStatic);
        var defs := p.t.fullyDefinedMethods;
        var defs' := if 0 <= s.shared[i] < |defs| then defs[s.shared[i] := updated] else defs;
        Merging(Progress(p.t.(allMethods := p.t.allMethods[i := updated], fullyDefinedMethods := defs' + [m]), deps), s.shared)
      else
        var renamed := m.(name := m.name[|typeName| + 2..]);
        Merging(Progress(p.t.(allMethods := p.t.allMethods + [renamed], fullyDefinedMethods := p.t.fullyDefinedMethods + [renamed]), deps),
                s.shared + [|p.t.fullyDefinedMethods|])
  }

  /** One merge step keeps the pairing of shared entries: a shared definition follows every update of its twin. */
  lemma MergeStepAliases(s: Merging, f: PdbFunction, typeName: string)
    requires Owns(f, typeName) ==> |typeName| + 2 <= |f.name|
    requires Aliases(s.p.t, s.shared)
    ensures Aliases(MergeStep(s, f, typeName).p.t, MergeStep(s, f, typeName).shared)
  {
    if Owns(f, typeName) {
      var m := FunctionMethod(f);
      var i := FirstMatch(s.p.t.allMethods, m, typeName, 0);
      var t := MergeStep(s, f, typeName).p.t;
      var shared := MergeStep(s, f, typeName).shared;
      if i >= 0 {
        var updated := t.allMethods[i];
        forall k | 0 <= k < |shared| && shared[k] >= 0 ensures t.fullyDefinedMethods[shared[k]] == t.allMethods[k] {
          if k != i {
            assert shared[k] != shared[i] by {
              if k < i { assert s.shared[k] != s.shared[i]; } else if s.shared[i] >= 0 { assert s.shared[i] != s.shared[k]; }
            }
          }
        }
      } else {
        var n := |s.p.t.fullyDefinedMethods|;
        forall k, l | 0 <= k < l < |shared| && shared[k] >= 0 ensures shared[k] != shared[l] {
          if l == |s.shared| {
            assert shared[k] == s.shared[k] < n;
          }
        }
      }
    }
  }

  /**
   * A function that matches an entry appended earlier without a match
   * changes the definition that is the same object: it then carries the
   * new arguments, address and static flag, and still equals its twin.
   */
  lemma MatchReachesSharedDefinition(s: Merging, f: PdbFunction, typeName: string)
    requires Owns(f, typeName) && |typeName| + 2 <= |f.name|
    requires Aliases(s.p.t, s.shared)
    requires FirstMatch(s.p.t.allMethods, FunctionMethod(f), typeName, 0) >= 0
    requires s.shared[FirstMatch(s.p.t.allMethods, FunctionMethod(f), typeName, 0)] >= 0
    ensures var i := FirstMatch(s.p.t.allMethods, FunctionMethod(f), typeName, 0);
      var d := MergeStep(s, f, typeName).p.t.fullyDefinedMethods[s.shared[i]];
      d == MergeStep(s, f, typeName).p.t.allMethods[i] &&
      d.args == FunctionMethod(f).args && d.address == FunctionMethod(f).address && d.isStatic == FunctionMethod(f).isStatic &&
      d.name == s.p.t.allMethods[i].name
  {
    MergeStepAliases(s, f, typeName);
  }

  function Merge(s: Merging, functions: seq<PdbFunction>, typeName: string): (q: Merging)
    requires Qualified(functions, typeName) && Aliases(s.p.t, s.shared)
    ensures Aliases(q.p.t, q.shared)
    ensures q.p.t.name == s.p.t.name && q.p.t.baseTypes == s.p.t.baseTypes
  {
    if functions == [] then s
    else
      var init := functions[..|functions| - 1];
      assert forall f :: f in init ==> f in functions;
      var q := Merge(s, init, typeName);
      MergeStepAliases(q, functions[|functions| - 1], typeName);
      MergeStep(q, functions[|functions| - 1], typeName)
  }

  /** The functions owned by the class, in order. */
  function Owned(functions: seq<PdbFunction>, typeName: string): (r: seq<PdbFunction>)
    ensures forall f :: f in r ==> f in functions && Owns(f, typeName)
  {
    if functions == [] then []
    else
      var f := functions[|functions| - 1];
      var before := Owned(functions[..|functions| - 1], typeName);
      if Owns(f, typeName) then before + [f] else before
  }

  /**
   * `after` keeps every skeleton of `before` at its position, with at most
   * its arguments, address and static flag changed, and differs from it in
   * nothing but its two method lists.
   */
  predicate KeepsSkeletons(before: Type, after: Type)
  {
    |after.allMethods| >= |before.allMethods| &&
    (forall k :: 0 <= k < |before.allMethods| ==>
      after.allMethods[k].(args := before.allMethods[k].args, address := before.allMethods[k].address,
                           isStatic := before.allMethods[k].isStatic) == before.allMethods[k]) &&
    after.(allMethods := before.allMethods, fullyDefinedMethods := before.fullyDefinedMethods) == before
  }

  /** The merge over one more function of a list is one more step. */
  lemma MergeSnoc(s: Merging, functions: seq<PdbFunction>, i: nat, typeName: string)
    requires i < |functions| && Qualified(functions, typeName) && Aliases(s.p.t, s.shared)
    ensures Qualified(functions[..i], typeName) && Qualified(functions[..i + 1], typeName)
    ensures Owns(functions[i], typeName) ==> |typeName| + 2 <= |functions[i].name|
    ensures Merge(s, functions[..i + 1], typeName) == MergeStep(Merge(s, functions[..i], typeName), functions[i], typeName)
  {
    assert functions[..i + 1][..i] == functions[..i];
    assert functions[i] in functions;
    assert forall f :: f in functions[..i + 1] ==> f in functions;
  }

  lemma KeepsSkeletonsTransitive(a: Type, b: Type, c: Type)
    requires KeepsSkeletons(a, b) && KeepsSkeletons(b, c)
    ensures KeepsSkeletons(a, c)
  {
    forall k | 0 <= k < |a.allMethods|
      ensures c.allMethods[k].(args := a.allMethods[k].args, address := a.allMethods[k].address,
                               isStatic := a.allMethods[k].isStatic) == a.allMethods[k]
    {
      assert b.allMethods[k].(args := a.allMethods[k].args, address := a.allMethods[k].address,
                              isStatic := a.allMethods[k].isStatic) == a.allMethods[k];
    }
  }

  lemma MergeStepKeepsSkeletons(q: Merging, f: PdbFunction, typeName: string)
    requires Owns(f, typeName) ==> |typeName| + 2 <= |f.name|
    requires |q.shared| == |q.p.t.allMethods|
    ensures KeepsSkeletons(q.p.t, MergeStep(q, f, typeName).p.t)
  {
    if Owns(f, typeName) {
      var m := FunctionMethod(f);
      var i := FirstMatch(q.p.t.allMethods, m, typeName, 0);
      var after := MergeStep(q, f, typeName).p.t;
      if i >= 0 {
        var found := q.p.t.allMethods[i];
        assert after.allMethods == q.p.t.allMethods[i := found.(args := m.args, address := m.address, isStatic := m.isStatic)];
      } else {
        assert after.allMethods == q.p.t.allMethods + [m.(name := m.name[|typeName| + 2..])];
      }
    }
  }

  /**
   * The merge keeps every existing skeleton at its position and changes at
   * most its arguments, address and static flag; it only appends.
   */
  lemma {:induction false} MergeKeepsSkeletons(s: Merging, functions: seq<PdbFunction>, typeName: string)
    requires Qualified(functions, typeName) && Aliases(s.p.t, s.shared)
    ensures KeepsSkeletons(s.p.t, Merge(s, functions, typeName).p.t)
  {
    if functions != [] {
      var init := functions[..|functions| - 1];
      assert forall f :: f in init ==> f in functions;
      MergeKeepsSkeletons(s, init, typeName);
      var q := Merge(s, init, typeName);
      MergeStepKeepsSkeletons(q, functions[|functions| - 1], typeName);
      KeepsSkeletonsTransitive(s.p.t, q.p.t, Merge(s, functions, typeName).p.t);
    }
  }

  /**
   * `d` is the definition of `f`: the method as `getMethod` built it, or,
   * when it is shared with `allMethods`, that method with the class prefix
   * stripped and with the arguments, address and static flag of whatever
   * later function matched it.
   */
  predicate DefinedAs(d: Method, f: PdbFunction, typeName: string, isShared: bool)
    requires |typeName| + 2 <= |f.name|
  {
    var m := FunctionMethod(f);
    if isShared then d.(args := m.args, address := m.address, isStatic := m.isStatic) == m.(name := m.name[|typeName| + 2..])
    else d == m
  }

  /**
   * `defs` is `start` followed by one definition per function of `owned`,
   * in order, each as `DefinedAs` allows for its position being shared or not.
   */
  predicate DefinesAll(defs: seq<Method>, start: seq<Method>, owned: seq<PdbFunction>, typeName: string, shared: seq<int>)
    requires forall g :: g in owned ==> |typeName| + 2 <= |g.name|
  {
    |defs| == |start| + |owned| &&
    defs[..|start|] == start &&
    forall j :: 0 <= j < |owned| ==> DefinedAs(defs[|start| + j], owned[j], typeName, |start| + j in shared)
  }

  /**
   * Every owned function, and only those, is appended to the definitions,
   * in order: as `getMethod` built it when it matched a skeleton, and
   * otherwise stripped and shared with `allMethods`, where later matches
   * update it. Shared positions all lie among the new definitions.
   */
  lemma {:induction false} MergeDefinesOwned(p: Progress, functions: seq<PdbFunction>, typeName: string)
    requires Qualified(functions, typeName)
    ensures DefinesAll(Merge(Unshared(p), functions, typeName).p.t.fullyDefinedMethods, p.t.fullyDefinedMethods,
                       Owned(functions, typeName), typeName, Merge(Unshared(p), functions, typeName).shared)
    ensures forall k :: 0 <= k < |Merge(Unshared(p), functions, typeName).shared| ==>
      Merge(Unshared(p), functions, typeName).shared[k] == -1 ||
      |p.t.fullyDefinedMethods| <= Merge(Unshared(p), functions, typeName).shared[k]
  {
    var start := p.t.fullyDefinedMethods;
    if functions == [] {
      assert start[..|start|] == start;
    } else {
      var init := functions[..|functions| - 1];
      assert forall f :: f in init ==> f in functions;
      MergeDefinesOwned(p, init, typeName);
      var f := functions[|functions| - 1];
      var q := Merge(Unshared(p), init, typeName);
      assert Merge(Unshared(p), functions, typeName) == MergeStep(q, f, typeName);
      MergeDefinesStep(start, Owned(init, typeName), q, f, typeName);
      if Owns(f, typeName) {
        assert Owned(functions, typeName) == Owned(init, typeName) + [f];
      } else {
        assert Owned(functions, typeName) == Owned(init, typeName);
      }
    }
  }

  /** One more function: an owned one adds its definition, and a match carries into a shared definition. */
  lemma MergeDefinesStep(start: seq<Method>, owned: seq<PdbFunction>, q: Merging, f: PdbFunction, typeName: string)
    requires Owns(f, typeName) ==> |typeName| + 2 <= |f.name|
    requires forall g :: g in owned ==> |typeName| + 2 <= |g.name|
    requires Aliases(q.p.t, q.shared)
    requires DefinesAll(q.p.t.fullyDefinedMethods, start, owned, typeName, q.shared)
    requires forall k :: 0 <= k < |q.shared| ==> q.shared[k] == -1 || |start| <= q.shared[k]
    ensures var owned' := if Owns(f, typeName) then owned + [f] else owned;
      (forall g :: g in owned' ==> |typeName| + 2 <= |g.name|) &&
      DefinesAll(MergeStep(q, f, typeName).p.t.fullyDefinedMethods, start, owned', typeName, MergeStep(q, f, typeName).shared)
    ensures forall k :: 0 <= k < |MergeStep(q, f, typeName).shared| ==>
      MergeStep(q, f, typeName).shared[k] == -1 || |start| <= MergeStep(q, f, typeName).shared[k]
  {
    if Owns(f, typeName) {
      var r := MergeStep(q, f, typeName);
      var owned' := owned + [f];
      assert forall g :: g in owned' ==> g in owned || g == f;
      forall j | 0 <= j < |owned'|
        ensures DefinedAs(r.p.t.fullyDefinedMethods[|start| + j], owned'[j], typeName, |start| + j in r.shared)
      {
        MergeDefinesStepAt(start, owned, q, f, typeName, j);
      }
      assert r.p.t.fullyDefinedMethods[..|start|] == q.p.t.fullyDefinedMethods[..|start|];
    }
  }

  /** The definition at one position after an owned function: new at the end, kept or following its twin before it. */
  lemma MergeDefinesStepAt(start: seq<Method>, owned: seq<PdbFunction>, q: Merging, f: PdbFunction, typeName: string, j: nat)
    requires Owns(f, typeName) && |typeName| + 2 <= |f.name|
    requires forall g :: g in owned ==> |typeName| + 2 <= |g.name|
    requires Aliases(q.p.t, q.shared)
    requires DefinesAll(q.p.t.fullyDefinedMethods, start, owned, typeName, q.shared)
    requires forall k :: 0 <= k < |q.shared| ==> q.shared[k] == -1 || |start| <= q.shared[k]
    requires j <= |owned|
    ensures |start| + j < |MergeStep(q, f, typeName).p.t.fullyDefinedMethods|
    ensures DefinedAs(MergeStep(q, f, typeName).p.t.fullyDefinedMethods[|start| + j], (owned + [f])[j], typeName,
                      |start| + j in MergeStep(q, f, typeName).shared)
  {
    var m := FunctionMethod(f);
    var i := FirstMatch(q.p.t.allMethods, m, typeName, 0);
    var defs := q.p.t.fullyDefinedMethods;
    var r := MergeStep(q, f, typeName);
    if j == |owned| {
      if i >= 0 {
        assert |start| + j !in r.shared by {
          forall k | 0 <= k < |r.shared| ensures r.shared[k] != |start| + j { }
        }
      } else {
        assert r.shared[|q.shared|] == |start| + j;
      }
    } else {
      assert (owned + [f])[j] == owned[j];
      var x := |start| + j;
      if i < 0 {
        assert x in r.shared <==> x in q.shared by {
          assert r.shared == q.shared + [|defs|];
        }
      } else if q.shared[i] == x {
        assert defs[x] == q.p.t.allMethods[i];
        assert x in q.shared;
      }
    }
  }


  // ------------------------------------------------------------ the extractor

  /** The extractor over one loaded PDB file. */
  class Extractor {
    const pdb: PdbFile
    var allDependentClasses: seq<string>

    constructor(pdb: PdbFile)
      ensures this.pdb == pdb && allDependentClasses == []
    {
      this.pdb := pdb;
      allDependentClasses := [];
    }

    /** `getReturnType(type, flags)`; records a class or struct core as a dependent. */
    method GetReturnType(r: Record, constant: bool, pointer: bool) returns (t: TypePtr)
      modifies this
      ensures t == ResolvedType(r, constant, pointer)
      ensures allDependentClasses == old(allDependentClasses) + Pushed(r)
      decreases r
    {
      if r.BaseRecord? {
        t := MakeTypePtr(r.description, false).(isBaseType := true);
        if constant { t := t.(isConstant := true); }
        if pointer { t := t.(isPointer := true); }
        return;
      } else if r.ConstRecord? {
        t := GetReturnType(r.constTarget, true, pointer);
        return;
      } else if r.PointerRecord? {
        t := GetReturnType(r.pointerTarget, constant, true);
        return;
      }
      if !IsType(r) {
        return MakeTypePtr("int", false);
      }
      var name := UniversalName(r);
      allDependentClasses := allDependentClasses + [name];
      t := MakeTypePtr(name, true);
      if constant { t := t.(isConstant := true); }
      if pointer { t := t.(isPointer := true); }
    }

    /** `getMethod(PDBFunction *)`. */
    method GetFunctionMethod(f: PdbFunction) returns (m: Method)
      modifies this
      ensures m == FunctionMethod(f)
      ensures allDependentClasses == old(allDependentClasses) + FunctionPushed(f)
      ensures m.name == f.name && m.address == f.address && m.accessibility == PUBLIC
      ensures IsDestructorName(f.name) ==> m.returnType == Some(MakeTypePtr("", false))
      ensures m.isStatic <==> f.signature.thisTypeIndex == 0
      ensures |m.args| == |f.arguments|
      ensures forall i :: 0 <= i < |f.arguments| ==> m.args[i].name == f.arguments[i].name
    {
      var returnType := GetMethodReturn(f.name, f.signature.returnType);
      var args := GetNamedArguments(f.arguments);
      m := NewMethod().(
        name := f.name,
        returnType := Some(returnType),
        address := f.address,
        callType := f.signature.callType,
        isStatic := f.signature.thisTypeIndex == 0,
        isVariadic := f.signature.isVariadic,
        accessibility := PUBLIC,
        args := args);
    }

    /** The return type `getMethod` sets: none to resolve for a destructor. */
    method GetMethodReturn(name: string, returnType: Record) returns (t: TypePtr)
      modifies this
      ensures t == ReturnOf(name, returnType)
      ensures allDependentClasses == old(allDependentClasses) + ReturnPushed(name, returnType)
    {
      if IsDestructorName(name) {
        t := MakeTypePtr("", false);
      } else {
        t := GetReturnType(returnType, false, false);
      }
    }

    /** The argument loop of `getMethod(PDBFunction *)`: each argument with its name and resolved type. */
    method GetNamedArguments(arguments: seq<FunctionArgument>) returns (args: seq<Argument>)
      modifies this
      ensures args == NamedArguments(arguments)
      ensures allDependentClasses == old(allDependentClasses) + PushedAll(ArgumentTypes(arguments))
    {
      args := [];
      var types := ArgumentTypes(arguments);
      for i := 0 to |arguments|
        invariant args == NamedArguments(arguments[..i])
        invariant allDependentClasses == old(allDependentClasses) + PushedAll(types[..i])
      {
        PushedAllStep(old(allDependentClasses), types, i);
        NamedArgumentsStep(arguments, i);
        var t := GetReturnType(arguments[i].typeDef, false, false);
        args := args + [Argument(arguments[i].name, Some(t))];
      }
      assert types[..|arguments|] == types;
      assert arguments[..|arguments|] == arguments;
    }

    /** The argument loop of `getMethod(PDBTypeFieldMember *)`: one unnamed argument per argument type. */
    method GetUnnamedArguments(types: seq<Record>) returns (args: seq<Argument>)
      modifies this
      ensures args == UnnamedArguments(types)
      ensures allDependentClasses == old(allDependentClasses) + PushedAll(types)
    {
      args := [];
      for i := 0 to |types|
        invariant |args| == i
        invariant forall j :: 0 <= j < i ==> args[j] == Argument("", Some(ResolvedType(types[j], false, false)))
        invariant allDependentClasses == old(allDependentClasses) + PushedAll(types[..i])
      {
        PushedAllStep(old(allDependentClasses), types, i);
        var t := GetReturnType(types[i], false, false);
        args := args + [Argument("", Some(t))];
      }
      assert types[..|types|] == types;
    }

    /** `getMethod(PDBTypeFieldMember *)`. */
    method GetMemberMethod(e: FieldEntry) returns (m: Method)
      requires e.typeDef.FunctionRecord?
      modifies this
      ensures m == MemberMethod(e)
      ensures allDependentClasses == old(allDependentClasses) + MemberPushed(e)
    {
      var s := e.typeDef.signature;
      var returnType := GetMethodReturn(e.name, s.returnType);
      var args := GetUnnamedArguments(s.argTypes);
      m := NewMethod().(
        name := e.name,
        returnType := Some(returnType),
        callType := s.callType,
        isStatic := s.thisTypeIndex == 0,
        isVariadic := s.isVariadic,
        isVirtual := e.offset != -1,
        vftableOffset := e.offset,
        accessibility := PUBLIC,
        args := args);
    }

    /** `getType(name)`, including the nested lookups it makes. */
    method GetType(name: string) returns (result: Option<Type>)
      requires WellFormed(pdb)
      modifies this
      ensures Lookup(result, allDependentClasses) == TypeOf(pdb, name)
      decreases Measure(pdb, name), 1, 1
    {
      allDependentClasses := [];
      var decl := FindFullDeclaration(pdb.fullyDefined, name);
      if decl.None? {
        return None;
      }
      result := BuildType(decl.value, name);
    }

    /** The part of `getType` after the declaration is found. */
    method BuildType(r: Record, name: string) returns (result: Option<Type>)
      requires WellFormed(pdb) && r in pdb.fullyDefined && Declares(r, name)
      requires allDependentClasses == []
      modifies this
      ensures Lookup(result, allDependentClasses) == Assemble(pdb, r, name)
      decreases Measure(pdb, name), 1, 0
    {
      MaxNameLengthBounds(pdb.fullyDefined, r);
      ghost var walked := Walked(pdb, r);
      ghost var placed := walked.t.(fields := WithAddresses(walked.t.fields, pdb.globals, name));
      var t := NewType(UniversalName(r));
      if FieldListId(r) in pdb.fieldLists {
        var entries := pdb.fieldLists[FieldListId(r)];
        assert MethodsTyped(entries);
        t := WalkFieldList(entries, t);
        assert Progress(t, allDependentClasses) == walked;
        var fields := AssignAddresses(t.fields, name);
        t := t.(fields := fields);
      } else {
        assert walked == FieldWalk(pdb, [], UniversalName(r), Progress(t, []));
        assert |placed.fields| == 0;
      }
      assert Progress(t, allDependentClasses) == Progress(placed, walked.dependents);
      t := MergeFunctions(t);
      ghost var merged := Merge(Unshared(Progress(placed, walked.dependents)), pdb.functions, UniversalName(r)).p;
      assert Progress(t, allDependentClasses) == merged;
      if t.baseTypes != [] {
        allDependentClasses := allDependentClasses + [t.baseTypes[0].name];
      }
      allDependentClasses := SortUnique(allDependentClasses);
      t := t.(dependentTypes := allDependentClasses);
      result := Some(t);
      assert Assemble(pdb, r, name) == Finish(merged);
    }

    /** The loop over the field list of the type `t` names. */
    method WalkFieldList(entries: seq<FieldEntry>, t: Type) returns (t': Type)
      requires WellFormed(pdb) && MethodsTyped(entries)
      requires |t.name| <= MaxNameLength(pdb.fullyDefined)
      modifies this
      ensures Progress(t', allDependentClasses) == FieldWalk(pdb, entries, t.name, Progress(t, old(allDependentClasses)))
      decreases Measure(pdb, t.name), 0, 1
    {
      ghost var start := Progress(t, allDependentClasses);
      t' := t;
      var i := 0;
      while i < |entries|
        invariant 0 <= i <= |entries|
        invariant Progress(t', allDependentClasses) == FieldWalk(pdb, entries[..i], t.name, start)
      {
        FieldWalkStep(pdb, entries, i, t.name, start);
        t' := WalkEntry(entries[i], t', t.name);
        i := i + 1;
      }
      assert entries[..i] == entries;
    }

    /** One entry of the field list. */
    method WalkEntry(e: FieldEntry, t: Type, typeName: string) returns (t': Type)
      requires WellFormed(pdb) && (e.kind == FieldOneMethod ==> e.typeDef.FunctionRecord?)
      requires |typeName| <= MaxNameLength(pdb.fullyDefined)
      modifies this
      ensures Progress(t', allDependentClasses) == WalkStep(pdb, Progress(t, old(allDependentClasses)), e, typeName)
      decreases Measure(pdb, typeName), 0, 0
    {
      if e.kind == FieldBase {
        return t.(baseTypes := t.baseTypes + [NewType(UniversalName(e.typeDef))]);
      }
      if e.kind == FieldOneMethod {
        var m := GetMemberMethod(e);
        return t.(allMethods := t.allMethods + [m]);
      }
      if e.kind == FieldNestType {
        var nested := GetType(typeName + "::" + e.name);
        var stub := if nested.Some? then nested.value.(name := e.name) else NewType(e.name);
        return t.(nestedTypes := t.nestedTypes + [stub]);
      }
      var typePtr := GetReturnType(e.typeDef, false, false);
      var field := MakeField(e.name, typePtr, e.offset).(accessibility := PUBLIC);
      if e.kind == FieldStaticMember {
        field := field.(isStatic := true);
      }
      t' := t.(fields := t.fields + [field]);
    }

    /** The search of the global variables for the addresses of the fields. */
    method AssignAddresses(fields: seq<Field>, name: string) returns (placed: seq<Field>)
      ensures placed == WithAddresses(fields, pdb.globals, name)
    {
      placed := fields;
      var g := 0;
      while g < |pdb.globals|
        invariant 0 <= g <= |pdb.globals|
        invariant placed == WithAddresses(fields, pdb.globals[..g], name)
      {
        assert pdb.globals[..g + 1][..g] == pdb.globals[..g];
        var global := pdb.globals[g];
        ghost var before := placed;
        var k := 0;
        while k < |placed|
          invariant 0 <= k <= |placed| == |before|
          invariant placed[..k] == AssignAddress(before, global, name)[..k]
          invariant placed[k..] == before[k..]
        {
          if global.name == name + "::" + placed[k].name {
            placed := placed[k := placed[k].(address := global.address)];
          }
          k := k + 1;
        }
        assert placed == AssignAddress(before, global, name);
        g := g + 1;
      }
      assert pdb.globals[..g] == pdb.globals;
    }

    /** The loop over the global functions. */
    method MergeFunctions(t: Type) returns (t': Type)
      requires WellFormed(pdb)
      modifies this
      ensures Qualified(pdb.functions, t.name)
      ensures Progress(t', allDependentClasses) == Merge(Unshared(Progress(t, old(allDependentClasses))), pdb.functions, t.name).p
    {
      ghost var start := Unshared(Progress(t, allDependentClasses));
      t' := t;
      // which definition, if any, is the same object as each entry of allMethods
      var shared := seq(|t.allMethods|, _ => -1);
      var i := 0;
      while i < |pdb.functions|
        invariant 0 <= i <= |pdb.functions|
        invariant Qualified(pdb.functions[..i], t.name)
        invariant Merging(Progress(t', allDependentClasses), shared) == Merge(start, pdb.functions[..i], t.name)
      {
        MergeSnoc(start, pdb.functions, i, t.name);
        t', shared := MergeFunction(t', shared, pdb.functions[i], t.name);
        i := i + 1;
      }
      assert pdb.functions[..i] == pdb.functions;
    }

    /** One global function checked against the class. */
    method MergeFunction(t: Type, shared: seq<int>, f: PdbFunction, typeName: string) returns (t': Type, shared': seq<int>)
      requires Owns(f, typeName) ==> |typeName| + 2 <= |f.name|
      requires Aliases(t, shared)
      modifies this
      ensures Merging(Progress(t', allDependentClasses), shared') ==
        MergeStep(Merging(Progress(t, old(allDependentClasses)), shared), f, typeName)
    {
      if !(f.signature.owner.ClassRecord? && f.signature.owner.className == typeName) {
        return t, shared;
      }
      var m := GetFunctionMethod(f);
      var i := FindMatch(t.allMethods, m, typeName);
      shared' := shared;
      if i >= 0 {
        var found := t.allMethods[i];
        var updated := found.(args := m.args, address := m.address, isStatic := m.isStatic);
        t' := t.(allMethods := t.allMethods[i := updated]);
        if shared[i] >= 0 {
          // the matched method was pushed as a definition too: the same object changes there
          t' := t'.(fullyDefinedMethods := t'.fullyDefinedMethods[shared[i] := updated]);
        }
      } else {
        m := m.(name := m.name[|typeName| + 2..]);
        shared' := shared + [|t.fullyDefinedMethods|];
        t' := t.(allMethods := t.allMethods + [m]);
      }
      t' := t'.(fullyDefinedMethods := t'.fullyDefinedMethods + [m]);
    }

    /** `getTypes(typesList)`: one lookup per name, in order. */
    method GetTypes(names: seq<string>) returns (types: seq<Option<Type>>)
      requires WellFormed(pdb)
      modifies this
      ensures |types| == |names|
      ensures forall i :: 0 <= i < |names| ==> types[i] == TypeOf(pdb, names[i]).result
      ensures names != [] ==> allDependentClasses == TypeOf(pdb, names[|names| - 1]).dependents
    {
      ghost var expected := seq(|names|, k requires 0 <= k < |names| => TypeOf(pdb, names[k]).result);
      types := [];
      for i := 0 to |names|
        invariant types == expected[..i]
        invariant i > 0 ==> allDependentClasses == TypeOf(pdb, names[i - 1]).dependents
      {
        assert expected[..i + 1] == expected[..i] + [expected[i]];
        types := AppendType(types, names[i]);
      }
      assert types == expected;
    }

    /** One name of the loop in `getTypes`: its lookup appended to the results. */
    method AppendType(types: seq<Option<Type>>, name: string) returns (types': seq<Option<Type>>)
      requires WellFormed(pdb)
      modifies this
      ensures types' == types + [TypeOf(pdb, name).result]
      ensures allDependentClasses == TypeOf(pdb, name).dependents
    {
      var t := GetType(name);
      types' := types + [t];
    }

    /**
     * `getAllGlobalVariables()`: one public field per global variable, in
     * order, with its name, address and resolved type; the dependents the
     * types record are appended to the accumulator.
     */
    method GetAllGlobalVariables() returns (fields: seq<Field>)
      modifies this
      ensures |fields| == |pdb.globals|
      ensures forall i :: 0 <= i < |fields| ==> fields[i] == GlobalField(pdb.globals[i])
      ensures allDependentClasses == old(allDependentClasses) + PushedAll(GlobalTypes(pdb.globals))
    {
      var globals := pdb.globals;
      ghost var types := GlobalTypes(globals);
      fields := [];
      for i := 0 to |globals|
        invariant |fields| == i
        invariant forall k :: 0 <= k < i ==> fields[k] == GlobalField(globals[k])
        invariant allDependentClasses == old(allDependentClasses) + PushedAll(types[..i])
      {
        PushedAllStep(old(allDependentClasses), types, i);
        var v := globals[i];
        var field := EmptyField().(name := v.name, address := v.address, accessibility := PUBLIC);
        var t := GetReturnType(v.typeDef, false, false);
        field := field.(typePtr := Some(t));
        fields := fields + [field];
      }
      assert types[..|globals|] == types;
    }
  }

  /** `FindMatch`: the loop in `getType` that looks for the skeleton a function completes. */
  method FindMatch(methods: seq<Method>, m: Method, typeName: string) returns (i: int)
    requires |typeName| + 2 <= |m.name|
    ensures i == FirstMatch(methods, m, typeName, 0)
  {
    var k := 0;
    while k < |methods|
      invariant 0 <= k <= |methods|
      invariant FirstMatch(methods, m, typeName, k) == FirstMatch(methods, m, typeName, 0)
    {
      if methods[k].name == m.name[|typeName| + 2..] {
        var offset := if |m.args| > 0 && m.args[0].name == "this" then 1 else 0;
        if |m.args| - offset == |methods[k].args| {
          var agree := ArgumentTypesAgree(m.args, methods[k].args, offset);
          if agree {
            return k;
          }
        }
      }
      k := k + 1;
    }
    return -1;
  }

  /** The inner comparison of argument types, left at the first difference. */
  method ArgumentTypesAgree(args: seq<Argument>, candidate: seq<Argument>, offset: nat) returns (agree: bool)
    requires offset <= |args| && |args| - offset == |candidate|
    ensures agree <==> forall j :: offset <= j < |args| ==> args[j].typePtr == candidate[j - offset].typePtr
  {
    var j := offset;
    while j < |args|
      invariant offset <= j <= |args|
      invariant forall x :: offset <= x < j ==> args[x].typePtr == candidate[x - offset].typePtr
    {
      if args[j].typePtr != candidate[j - offset].typePtr {
        return false;
      }
      j := j + 1;
    }
    return true;
  }

  /** The field `getAllGlobalVariables` makes of a global: public, at its address, of its resolved type. */
  function GlobalField(v: GlobalVariable): Field
  {
    EmptyField().(name := v.name, address := v.address, accessibility := PUBLIC,
      typePtr := Some(ResolvedType(v.typeDef, false, false)))
  }

  function GlobalTypes(globals: seq<GlobalVariable>): (types: seq<Record>)
    ensures |types| == |globals|
    ensures forall i :: 0 <= i < |globals| ==> types[i] == globals[i].typeDef
  {
    seq(|globals|, i requires 0 <= i < |globals| => globals[i].typeDef)
  }

  // ------------------------------------------------------------ properties of getType

  /**
   * `getType` finds a type exactly when some class or struct record carries
   * the name; otherwise it leaves the accumulator empty. A found type keeps
   * the name, and its dependents are sorted, free of duplicates, equal to
   * what it leaves in the accumulator, and include the first base class.
   */
  lemma TypeOfResult(pdb: PdbFile, name: string)
    requires WellFormed(pdb)
    ensures TypeOf(pdb, name).result.None? <==> forall r :: r in pdb.fullyDefined ==> !Declares(r, name)
    ensures TypeOf(pdb, name).result.None? ==> TypeOf(pdb, name).dependents == []
    ensures TypeOf(pdb, name).result.Some? ==>
      var t := TypeOf(pdb, name).result.value;
      t.name == name && t.dependentTypes == TypeOf(pdb, name).dependents && StrictlySorted(t.dependentTypes) &&
      (t.baseTypes != [] ==> t.baseTypes[0].name in t.dependentTypes)
  {
    LastDeclarationIsLast(pdb.fullyDefined, name);
    var d := LastDeclaration(pdb.fullyDefined, name);
    if d.Some? {
      var r := d.value;
      var walked := Walked(pdb, r);
      var placed := walked.t.(fields := WithAddresses(walked.t.fields, pdb.globals, name));
      var merged := Merge(Unshared(Progress(placed, walked.dependents)), pdb.functions, UniversalName(r)).p;
      assert TypeOf(pdb, name) == Finish(merged);
      assert merged.t.name == name;
    } else {
      forall r | r in pdb.fullyDefined ensures !Declares(r, name) {
        var i :| 0 <= i < |pdb.fullyDefined| && pdb.fullyDefined[i] == r;
      }
    }
  }
}
