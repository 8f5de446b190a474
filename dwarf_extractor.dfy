/**
 * The DWARF extractors' reading of a class: `getType(name)` finds the
 * class DIE, `getType(node, name)` walks its direct children, and
 * `updateMethods` gives each method the formal parameters of the
 * out-of-line definition that names it. Both revisions are modelled; they
 * differ in how `getTypePtr` resolves a type (see `DwarfDies.TypePtrOf`)
 * and in which attributes a member or subprogram reads.
 */
module DwarfExtractor {
  import opened Wrappers
  import opened DebugTypes
  import opened DwarfDies

  // ------------------------------------------------------------ last attribute of a kind

  function NameOr(attrs: seq<Attr>, default: string): string
  {
    match LastName(attrs) case Some(n) => n case None => default
  }

  function LastExternal(attrs: seq<Attr>): Option<bool>
  {
    if attrs == [] then None
    else if attrs[|attrs| - 1].External? then Some(attrs[|attrs| - 1].external)
    else LastExternal(attrs[..|attrs| - 1])
  }

  function LastAccessibility(attrs: seq<Attr>): Option<nat>
  {
    if attrs == [] then None
    else if attrs[|attrs| - 1].AccessibilityAttr? then Some(attrs[|attrs| - 1].code)
    else LastAccessibility(attrs[..|attrs| - 1])
  }

  function LastLinkage(attrs: seq<Attr>): Option<string>
  {
    if attrs == [] then None
    else if attrs[|attrs| - 1].LinkageName? then Some(attrs[|attrs| - 1].linkage)
    else LastLinkage(attrs[..|attrs| - 1])
  }

  function LastArtificial(attrs: seq<Attr>): Option<bool>
  {
    if attrs == [] then None
    else if attrs[|attrs| - 1].Artificial? then Some(attrs[|attrs| - 1].artificial)
    else LastArtificial(attrs[..|attrs| - 1])
  }

  // ------------------------------------------------------------ one child of the class DIE

  /** The bases an inheritance DIE adds: one stub per `DW_AT_type`, named by the referenced DIE's last name. */
  function BaseStubs(attrs: seq<Attr>): (bases: seq<Type>)
    ensures forall b :: b in bases ==> b == NewType(b.name)
    ensures |bases| <= |attrs|
  {
    if attrs == [] then []
    else
      var init := BaseStubs(attrs[..|attrs| - 1]);
      var a := attrs[|attrs| - 1];
      if a.TypeRef? then init + [NewType(NameOr(a.target.attributes, ""))] else init
  }

  /** The field a member DIE becomes, its attributes applied in order. */
  function MemberField(rev: Revision, attrs: seq<Attr>): Field
  {
    if attrs == [] then EmptyField()
    else
      var f := MemberField(rev, attrs[..|attrs| - 1]);
      match attrs[|attrs| - 1]
      case Name(n) => f.(name := n)
      case TypeRef(d) => f.(typePtr := Some(TypePtrOf(d, rev)))
      case External(b) => f.(isStatic := b)
      case AccessibilityAttr(c) => if rev == Library then f.(accessibility := c) else f
      case _ => f
  }

  /**
   * A member's field takes each attribute from its last occurrence:
   * name, type, `DW_AT_external` as the static flag and, in the library
   * revision only, the accessibility code unchanged; the offset and the
   * address stay 0.
   */
  lemma {:induction false} MemberFieldLastWins(rev: Revision, attrs: seq<Attr>)
    ensures MemberField(rev, attrs) == EmptyField().(
      name := NameOr(attrs, ""),
      typePtr := (match LastTypeRef(attrs) case Some(d) => Some(TypePtrOf(d, rev)) case None => None),
      isStatic := (match LastExternal(attrs) case Some(b) => b case None => false),
      accessibility := (match LastAccessibility(attrs) case Some(c) => (if rev == Library then c else NONE) case None => NONE))
  {
    if attrs != [] {
      MemberFieldLastWins(rev, attrs[..|attrs| - 1]);
    }
  }

  /** The return type a subprogram starts with: `void` in the library revision, unset in the application's. */
  function DefaultReturn(rev: Revision): Option<TypePtr>
  {
    match rev
    case Library => Some(MakeTypePtr("void", false))
    case Application => None
  }

  /** The method a subprogram DIE's attributes describe, applied in order. */
  function SubprogramAttrs(rev: Revision, attrs: seq<Attr>): (m: Method)
    ensures rev == Library ==> m.returnType.Some?
  {
    if attrs == [] then NewMethod().(returnType := DefaultReturn(rev))
    else
      var m := SubprogramAttrs(rev, attrs[..|attrs| - 1]);
      match attrs[|attrs| - 1]
      case Name(n) => m.(name := n)
      case TypeRef(d) => m.(returnType := Some(TypePtrOf(d, rev)))
      case LinkageName(l) => m.(mangledName := l)
      case AccessibilityAttr(c) => if rev == Library then m.(accessibility := c) else m
      case Artificial(b) => if rev == Library then m.(isCompilerGenerated := b) else m
      case _ => m
  }

  /** The method of a subprogram DIE; in the library revision a constructor's return type loses its name. */
  function SubprogramMethod(rev: Revision, attrs: seq<Attr>, className: string): Method
  {
    var m := SubprogramAttrs(rev, attrs);
    if rev == Library && m.name == className then m.(returnType := Some(m.returnType.value.(typeName := [])))
    else m
  }

  lemma {:induction false} SubprogramAttrsLastWins(rev: Revision, attrs: seq<Attr>)
    ensures SubprogramAttrs(rev, attrs) == NewMethod().(
      name := NameOr(attrs, ""),
      mangledName := (match LastLinkage(attrs) case Some(l) => l case None => ""),
      returnType := (match LastTypeRef(attrs) case Some(d) => Some(TypePtrOf(d, rev)) case None => DefaultReturn(rev)),
      accessibility := (match LastAccessibility(attrs) case Some(c) => (if rev == Library then c else NONE) case None => NONE),
      isCompilerGenerated := (match LastArtificial(attrs) case Some(b) => rev == Library && b case None => false))
  {
    if attrs != [] {
      SubprogramAttrsLastWins(rev, attrs[..|attrs| - 1]);
    }
  }

  /**
   * A subprogram's method takes its name, linkage name and return type from
   * the last such attribute, with no arguments yet. In the library revision
   * the return type is `void` when there is none, the accessibility and
   * the compiler-generated flag are read too, and a method named like its
   * class keeps the return type's flags but not its name; in the
   * application revision a method without `DW_AT_type` has no return type.
   */
  lemma SubprogramMethodShape(rev: Revision, attrs: seq<Attr>, className: string)
    ensures var m := SubprogramMethod(rev, attrs, className);
      var declared := match LastTypeRef(attrs) case Some(d) => Some(TypePtrOf(d, rev)) case None => DefaultReturn(rev);
      m.name == NameOr(attrs, "") &&
      m.mangledName == (match LastLinkage(attrs) case Some(l) => l case None => "") &&
      m.args == [] && !m.isStatic && !m.isVirtual && m.address == 0 &&
      (rev == Application ==> m.returnType == declared && m.accessibility == NONE && !m.isCompilerGenerated) &&
      (rev == Library ==> (declared.Some? && m.returnType ==
        Some(if m.name == className then declared.value.(typeName := []) else declared.value)))
  {
    SubprogramAttrsLastWins(rev, attrs);
  }

  // ------------------------------------------------------------ the walk over the class DIE's children

  /** What the walk over a class DIE has gathered: the type's bases and fields, and the methods. */
  datatype Walk = Walk(t: Type, methods: seq<Method>)

  function ChildWalk(rev: Revision, children: seq<Die>, name: string): (w: Walk)
    ensures w.t == NewType(name).(baseTypes := w.t.baseTypes, fields := w.t.fields)
  {
    if children == [] then Walk(NewType(name), [])
    else
      var w := ChildWalk(rev, children[..|children| - 1], name);
      var c := children[|children| - 1];
      match c.tag
      case Inheritance => Walk(w.t.(baseTypes := w.t.baseTypes + BaseStubs(c.attributes)), w.methods)
      case Member => Walk(w.t.(fields := w.t.fields + [MemberField(rev, c.attributes)]), w.methods)
      case Subprogram => Walk(w.t, w.methods + [SubprogramMethod(rev, c.attributes, name)])
      case _ => w
  }

  /** The children with a tag, in order. */
  function WithTag(children: seq<Die>, tag: Tag): seq<Die>
  {
    if children == [] then []
    else if children[0].tag == tag then [children[0]] + WithTag(children[1..], tag)
    else WithTag(children[1..], tag)
  }

  lemma {:induction false} WithTagSnoc(children: seq<Die>, c: Die, tag: Tag)
    ensures c.tag == tag ==> WithTag(children + [c], tag) == WithTag(children, tag) + [c]
    ensures c.tag != tag ==> WithTag(children + [c], tag) == WithTag(children, tag)
  {
    if children == [] {
      assert children + [c] == [c];
      assert [c][1..] == [];
      assert [c] + [] == [c];
    } else {
      assert (children + [c])[0] == children[0];
      assert (children + [c])[1..] == children[1..] + [c];
      WithTagSnoc(children[1..], c, tag);
    }
  }

  function AllBaseStubs(inheritances: seq<Die>): seq<Type>
  {
    if inheritances == [] then []
    else AllBaseStubs(inheritances[..|inheritances| - 1]) + BaseStubs(inheritances[|inheritances| - 1].attributes)
  }

  function MemberFields(rev: Revision, members: seq<Die>): (fields: seq<Field>)
    ensures |fields| == |members|
    ensures forall i :: 0 <= i < |members| ==> fields[i] == MemberField(rev, members[i].attributes)
  {
    seq(|members|, i requires 0 <= i < |members| => MemberField(rev, members[i].attributes))
  }

  function SubprogramMethods(rev: Revision, subprograms: seq<Die>, name: string): (methods: seq<Method>)
    ensures |methods| == |subprograms|
    ensures forall i :: 0 <= i < |subprograms| ==> methods[i] == SubprogramMethod(rev, subprograms[i].attributes, name)
  {
    seq(|subprograms|, i requires 0 <= i < |subprograms| => SubprogramMethod(rev, subprograms[i].attributes, name))
  }

  /**
   * Only the direct children of the class DIE are read, in order: the
   * inheritance children give the bases, the member children one field
   * each, the subprogram children one method each, and every other child
   * (a nested class, for one) is skipped.
   */
  lemma ChildWalkClassifies(rev: Revision, children: seq<Die>, name: string)
    ensures var w := ChildWalk(rev, children, name);
      w.t == NewType(name).(baseTypes := AllBaseStubs(WithTag(children, Inheritance)),
                            fields := MemberFields(rev, WithTag(children, Member))) &&
      w.methods == SubprogramMethods(rev, WithTag(children, Subprogram), name)
  {
    WalkBases(rev, children, name);
    WalkFields(rev, children, name);
    WalkMethods(rev, children, name);
  }

  lemma {:induction false} WalkBases(rev: Revision, children: seq<Die>, name: string)
    ensures ChildWalk(rev, children, name).t.baseTypes == AllBaseStubs(WithTag(children, Inheritance))
  {
    if children != [] {
      var init := children[..|children| - 1];
      var c := children[|children| - 1];
      assert children == init + [c];
      WalkBases(rev, init, name);
      WithTagSnoc(init, c, Inheritance);
      var inh := WithTag(init, Inheritance);
      var before := ChildWalk(rev, init, name).t.baseTypes;
      if c.tag == Inheritance {
        assert ChildWalk(rev, children, name).t.baseTypes == before + BaseStubs(c.attributes);
        assert (inh + [c])[..|inh|] == inh;
        assert AllBaseStubs(inh + [c]) == AllBaseStubs(inh) + BaseStubs(c.attributes);
      } else {
        assert ChildWalk(rev, children, name).t.baseTypes == before;
      }
    }
  }

  lemma {:induction false} WalkFields(rev: Revision, children: seq<Die>, name: string)
    ensures ChildWalk(rev, children, name).t.fields == MemberFields(rev, WithTag(children, Member))
  {
    if children != [] {
      var init := children[..|children| - 1];
      var c := children[|children| - 1];
      assert children == init + [c];
      WalkFields(rev, init, name);
      WithTagSnoc(init, c, Member);
    }
  }

  lemma {:induction false} WalkMethods(rev: Revision, children: seq<Die>, name: string)
    ensures ChildWalk(rev, children, name).methods == SubprogramMethods(rev, WithTag(children, Subprogram), name)
  {
    if children != [] {
      var init := children[..|children| - 1];
      var c := children[|children| - 1];
      assert children == init + [c];
      WalkMethods(rev, init, name);
      WithTagSnoc(init, c, Subprogram);
    }
  }

  // ------------------------------------------------------------ updateMethods

  /** `updateMethods` indexes the first attribute of every top-level subprogram without checking that there is one. */
  predicate TopLevelSubprogramsHaveAttributes(units: seq<Die>)
  {
    forall u, c :: u in units && c in u.children && c.tag == Subprogram ==> |c.attributes| > 0
  }

  function Mangled(methods: seq<Method>): (r: seq<string>)
    ensures |r| == |methods|
    ensures forall i :: 0 <= i < |methods| ==> r[i] == methods[i].mangledName
  {
    seq(|methods|, i requires 0 <= i < |methods| => methods[i].mangledName)
  }

  /** The index of the last method with the mangled name, or -1. */
  function LastIndexOf(mangled: seq<string>, linkage: string): (k: int)
    ensures -1 <= k < |mangled|
    ensures k >= 0 ==> mangled[k] == linkage && forall j :: k < j < |mangled| ==> mangled[j] != linkage
    ensures k == -1 ==> forall j :: 0 <= j < |mangled| ==> mangled[j] != linkage
  {
    if mangled == [] then -1
    else if mangled[|mangled| - 1] == linkage then |mangled| - 1
    else LastIndexOf(mangled[..|mangled| - 1], linkage)
  }

  /**
   * The method a definition's declaration names: for each linkage name of
   * the declaration in turn, the last method carrying it replaces the
   * earlier pick; -1 when none matches.
   */
  function LinkTarget(mangled: seq<string>, declAttrs: seq<Attr>): (k: int)
    ensures -1 <= k < |mangled|
    ensures k >= 0 ==> exists a :: a in declAttrs && a.LinkageName? && k == LastIndexOf(mangled, a.linkage)
  {
    if declAttrs == [] then -1
    else
      var a := declAttrs[|declAttrs| - 1];
      var prev := LinkTarget(mangled, declAttrs[..|declAttrs| - 1]);
      assert prev >= 0 ==> exists b :: b in declAttrs && b.LinkageName? && prev == LastIndexOf(mangled, b.linkage) by {
        if prev >= 0 {
          var b :| b in declAttrs[..|declAttrs| - 1] && b.LinkageName? && prev == LastIndexOf(mangled, b.linkage);
          assert b in declAttrs;
        }
      }
      assert a in declAttrs;
      if a.LinkageName? && LastIndexOf(mangled, a.linkage) >= 0 then LastIndexOf(mangled, a.linkage) else prev
  }

  /** With a single linkage name, the target is the last method carrying it. */
  lemma LinkTargetSingle(mangled: seq<string>, declAttrs: seq<Attr>, linkage: string)
    requires LinkageName(linkage) in declAttrs
    requires forall a :: a in declAttrs && a.LinkageName? ==> a == LinkageName(linkage)
    ensures LinkTarget(mangled, declAttrs) == LastIndexOf(mangled, linkage)
  {
    if declAttrs != [] {
      var init := declAttrs[..|declAttrs| - 1];
      var a := declAttrs[|declAttrs| - 1];
      assert forall b :: b in init ==> b in declAttrs;
      assert a in declAttrs;
      if a != LinkageName(linkage) {
        LinkTargetSingle(mangled, init, linkage);
      }
    }
  }

  /** The argument a formal parameter DIE becomes: its last name and last type. */
  function ArgumentFrom(rev: Revision, attrs: seq<Attr>): Argument
  {
    if attrs == [] then Argument([], None)
    else
      var arg := ArgumentFrom(rev, attrs[..|attrs| - 1]);
      match attrs[|attrs| - 1]
      case Name(n) => arg.(name := n)
      case TypeRef(d) => arg.(typePtr := Some(TypePtrOf(d, rev)))
      case _ => arg
  }

  lemma {:induction false} ArgumentFromLastWins(rev: Revision, attrs: seq<Attr>)
    ensures ArgumentFrom(rev, attrs) ==
      Argument(NameOr(attrs, ""), match LastTypeRef(attrs) case Some(d) => Some(TypePtrOf(d, rev)) case None => None)
  {
    if attrs != [] {
      ArgumentFromLastWins(rev, attrs[..|attrs| - 1]);
    }
  }

  /** The arguments of a definition: one per formal-parameter child, in order. */
  function Parameters(rev: Revision, children: seq<Die>): (args: seq<Argument>)
    ensures |args| <= |children|
  {
    if children == [] then []
    else
      var c := children[|children| - 1];
      var before := Parameters(rev, children[..|children| - 1]);
      if c.tag == FormalParameter then before + [ArgumentFrom(rev, c.attributes)] else before
  }

  /** One more child of a definition, after the arguments `start`. */
  lemma ParametersStep(rev: Revision, start: seq<Argument>, children: seq<Die>, i: nat)
    requires i < |children|
    ensures children[i].tag == FormalParameter ==>
      start + Parameters(rev, children[..i + 1]) == (start + Parameters(rev, children[..i])) + [ArgumentFrom(rev, children[i].attributes)]
    ensures children[i].tag != FormalParameter ==> Parameters(rev, children[..i + 1]) == Parameters(rev, children[..i])
  {
    assert children[..i + 1][..i] == children[..i];
  }

  /** A top-level subprogram whose first attribute is `DW_AT_specification`: an out-of-line definition. */
  predicate IsDefinition(c: Die)
  {
    c.tag == Subprogram && |c.attributes| > 0 && c.attributes[0].Specification?
  }

  /** The index of the method a top-level DIE completes, or -1. */
  function Target(mangled: seq<string>, c: Die): (k: int)
    ensures -1 <= k < |mangled|
  {
    if IsDefinition(c) then LinkTarget(mangled, c.attributes[0].specified.attributes) else -1
  }

  /** One top-level DIE: a definition naming a method appends its parameters to that method's arguments. */
  function UpdateChild(rev: Revision, methods: seq<Method>, c: Die): (r: seq<Method>)
    ensures |r| == |methods|
  {
    var k := Target(Mangled(methods), c);
    if k < 0 then methods else methods[k := methods[k].(args := methods[k].args + Parameters(rev, c.children))]
  }

  function UpdateUnit(rev: Revision, methods: seq<Method>, children: seq<Die>): (r: seq<Method>)
    ensures |r| == |methods|
  {
    if children == [] then methods
    else UpdateChild(rev, UpdateUnit(rev, methods, children[..|children| - 1]), children[|children| - 1])
  }

  /** `updateMethods`: every top-level DIE of every compilation unit, in order. */
  function Update(rev: Revision, methods: seq<Method>, units: seq<Die>): (r: seq<Method>)
    ensures |r| == |methods|
  {
    if units == [] then methods
    else UpdateUnit(rev, Update(rev, methods, units[..|units| - 1]), units[|units| - 1].children)
  }

  /** The parameters the definitions in a unit's top-level DIEs contribute to method `k`, in order. */
  function UnitParameters(rev: Revision, mangled: seq<string>, children: seq<Die>, k: int): seq<Argument>
  {
    if children == [] then []
    else
      var c := children[|children| - 1];
      var before := UnitParameters(rev, mangled, children[..|children| - 1], k);
      if Target(mangled, c) == k then before + Parameters(rev, c.children) else before
  }

  /** The parameters all definitions contribute to method `k`, unit by unit. */
  function CollectedParameters(rev: Revision, mangled: seq<string>, units: seq<Die>, k: int): seq<Argument>
  {
    if units == [] then []
    else
      CollectedParameters(rev, mangled, units[..|units| - 1], k) +
        UnitParameters(rev, mangled, units[|units| - 1].children, k)
  }

  lemma UpdateChildAt(rev: Revision, methods: seq<Method>, c: Die)
    ensures Mangled(UpdateChild(rev, methods, c)) == Mangled(methods)
    ensures forall k :: 0 <= k < |methods| && k != Target(Mangled(methods), c) ==> UpdateChild(rev, methods, c)[k] == methods[k]
    ensures var k := Target(Mangled(methods), c);
      0 <= k ==> UpdateChild(rev, methods, c)[k] == methods[k].(args := methods[k].args + Parameters(rev, c.children))
  {
  }

  lemma {:induction false} UpdateUnitAppends(rev: Revision, methods: seq<Method>, children: seq<Die>)
    ensures Mangled(UpdateUnit(rev, methods, children)) == Mangled(methods)
    ensures forall k :: 0 <= k < |methods| ==>
      UpdateUnit(rev, methods, children)[k] ==
        methods[k].(args := methods[k].args + UnitParameters(rev, Mangled(methods), children, k))
  {
    if children == [] {
      forall k | 0 <= k < |methods|
        ensures methods[k] == methods[k].(args := methods[k].args + UnitParameters(rev, Mangled(methods), children, k))
      {
        assert methods[k].args + [] == methods[k].args;
      }
    } else {
      var init := children[..|children| - 1];
      var c := children[|children| - 1];
      var mangled := Mangled(methods);
      UpdateUnitAppends(rev, methods, init);
      var before := UpdateUnit(rev, methods, init);
      UpdateChildAt(rev, before, c);
      var after := UpdateUnit(rev, methods, children);
      assert after == UpdateChild(rev, before, c);
      forall k | 0 <= k < |methods|
        ensures after[k] == methods[k].(args := methods[k].args + UnitParameters(rev, mangled, children, k))
      {
        var prior := UnitParameters(rev, mangled, init, k);
        if Target(mangled, c) == k {
          assert UnitParameters(rev, mangled, children, k) == prior + Parameters(rev, c.children);
          assert methods[k].args + prior + Parameters(rev, c.children) == methods[k].args + (prior + Parameters(rev, c.children));
        } else {
          assert UnitParameters(rev, mangled, children, k) == prior;
        }
      }
    }
  }

  /**
   * `updateMethods` changes only arguments, and only by appending: each
   * method keeps its own arguments followed by the formal parameters of
   * every definition that names it, in the order the compilation units and
   * their top-level DIEs come. A method no definition names is unchanged.
   */
  lemma {:induction false} UpdateAppendsParameters(rev: Revision, methods: seq<Method>, units: seq<Die>)
    ensures Mangled(Update(rev, methods, units)) == Mangled(methods)
    ensures forall k :: 0 <= k < |methods| ==>
      Update(rev, methods, units)[k] ==
        methods[k].(args := methods[k].args + CollectedParameters(rev, Mangled(methods), units, k))
  {
    if units != [] {
      var init := units[..|units| - 1];
      UpdateAppendsParameters(rev, methods, init);
      var before := Update(rev, methods, init);
      UpdateUnitAppends(rev, before, units[|units| - 1].children);
    }
  }

  // ------------------------------------------------------------ getType

  /** `getType(node, name)`: the walk, then `updateMethods`, both method lists being the same list. */
  function ClassOf(rev: Revision, units: seq<Die>, node: Die, name: string): (t: Type)
    ensures t.name == name && t.allMethods == t.fullyDefinedMethods
    ensures t.dependentTypes == [] && t.nestedTypes == []
  {
    var w := ChildWalk(rev, node.children, name);
    var ms := Update(rev, w.methods, units);
    w.t.(allMethods := ms, fullyDefinedMethods := ms)
  }

  /** `getType(name)`: the class from the first compilation unit holding one with the name. */
  function TypeNamed(rev: Revision, units: seq<Die>, name: string): Option<Type>
  {
    match FindInUnits(units, name)
    case None => None
    case Some(d) => Some(ClassOf(rev, units, d, name))
  }

  /**
   * There is no type exactly when no compilation unit holds a class DIE
   * with the name; otherwise the type is read from the first such DIE in
   * pre-order of the first unit that has one.
   */
  lemma {:induction false} TypeNamedFound(rev: Revision, units: seq<Die>, name: string)
    ensures TypeNamed(rev, units, name).None? <==>
      forall u, d :: u in units && d in PreOrder(u) ==> !IsClassNamed(d, name)
    ensures TypeNamed(rev, units, name).Some? ==>
      exists i :: 0 <= i < |units| && FirstClassNamed(PreOrder(units[i]), name).Some? &&
        (forall j :: 0 <= j < i ==> FirstClassNamed(PreOrder(units[j]), name).None?) &&
        TypeNamed(rev, units, name) == Some(ClassOf(rev, units, FirstClassNamed(PreOrder(units[i]), name).value, name))
  {
    FindInUnitsFirst(units, name);
  }

  lemma FindInUnitsFirst(units: seq<Die>, name: string)
    ensures FindInUnits(units, name).None? <==>
      forall u, d :: u in units && d in PreOrder(u) ==> !IsClassNamed(d, name)
    ensures FindInUnits(units, name).Some? ==>
      exists i :: 0 <= i < |units| && FirstClassNamed(PreOrder(units[i]), name).Some? &&
        (forall j :: 0 <= j < i ==> FirstClassNamed(PreOrder(units[j]), name).None?) &&
        FindInUnits(units, name) == FirstClassNamed(PreOrder(units[i]), name)
  {
    FindInUnitsIndexed(units, name);
    NoClassInUnits(units, name);
  }

  /** `FindInUnits` unit by unit: the first unit whose pre-order holds a class with the name. */
  lemma FindInUnitsIndexed(units: seq<Die>, name: string)
    ensures FindInUnits(units, name).None? <==>
      forall i :: 0 <= i < |units| ==> FirstClassNamed(PreOrder(units[i]), name).None?
    ensures FindInUnits(units, name).Some? ==>
      exists i :: 0 <= i < |units| && FirstClassNamed(PreOrder(units[i]), name).Some? &&
        (forall j :: 0 <= j < i ==> FirstClassNamed(PreOrder(units[j]), name).None?) &&
        FindInUnits(units, name) == FirstClassNamed(PreOrder(units[i]), name)
  {
    FindInUnitsNone(units, name);
    if FindInUnits(units, name).Some? {
      FindInUnitsSome(units, name);
    }
  }

  lemma {:induction false} FindInUnitsNone(units: seq<Die>, name: string)
    ensures FindInUnits(units, name).None? <==>
      forall i :: 0 <= i < |units| ==> FirstClassNamed(PreOrder(units[i]), name).None?
  {
    if units != [] {
      FindTypeNodeIsPreOrderFirst(units[0], name);
      if FirstClassNamed(PreOrder(units[0]), name).None? {
        var rest := units[1..];
        FindInUnitsNone(rest, name);
        assert forall j :: 0 < j < |units| ==> units[j] == rest[j - 1];
      }
    }
  }

  lemma {:induction false} FindInUnitsSome(units: seq<Die>, name: string)
    requires FindInUnits(units, name).Some?
    ensures exists i ::
      0 <= i < |units| && FirstClassNamed(PreOrder(units[i]), name).Some? &&
      (forall j :: 0 <= j < i ==> FirstClassNamed(PreOrder(units[j]), name).None?) &&
      FindInUnits(units, name) == FirstClassNamed(PreOrder(units[i]), name)
  {
    FindTypeNodeIsPreOrderFirst(units[0], name);
    if FirstClassNamed(PreOrder(units[0]), name).None? {
      var rest := units[1..];
      FindInUnitsSome(rest, name);
      var i :| 0 <= i < |rest| && FirstClassNamed(PreOrder(rest[i]), name).Some? &&
        (forall j :: 0 <= j < i ==> FirstClassNamed(PreOrder(rest[j]), name).None?) &&
        FindInUnits(rest, name) == FirstClassNamed(PreOrder(rest[i]), name);
      assert units[i + 1] == rest[i];
      assert FindInUnits(units, name) == FindInUnits(rest, name);
      forall j | 0 <= j < i + 1
        ensures FirstClassNamed(PreOrder(units[j]), name).None?
      {
        if j > 0 {
          assert units[j] == rest[j - 1];
        }
      }
    } else {
      assert FindInUnits(units, name) == FirstClassNamed(PreOrder(units[0]), name);
    }
  }

  /** No unit's pre-order holds a class with the name exactly when no DIE of any unit is one. */
  lemma NoClassInUnits(units: seq<Die>, name: string)
    ensures (forall i :: 0 <= i < |units| ==> FirstClassNamed(PreOrder(units[i]), name).None?) <==>
      forall u, d :: u in units && d in PreOrder(u) ==> !IsClassNamed(d, name)
  {
    if forall i :: 0 <= i < |units| ==> FirstClassNamed(PreOrder(units[i]), name).None? {
      forall u, d | u in units && d in PreOrder(u) ensures !IsClassNamed(d, name) {
        var i :| 0 <= i < |units| && units[i] == u;
        assert FirstClassNamed(PreOrder(units[i]), name).None?;
      }
    } else {
      var i :| 0 <= i < |units| && FirstClassNamed(PreOrder(units[i]), name).Some?;
      assert units[i] in units;
    }
  }

  // ------------------------------------------------------------ the extractor's loops

  /** The last `DW_AT_name` of an attribute list, as the loops over attributes keep it. */
  method ReadName(attrs: seq<Attr>, default: string) returns (name: string)
    ensures name == NameOr(attrs, default)
  {
    name := default;
    for i := 0 to |attrs|
      invariant name == NameOr(attrs[..i], default)
    {
      assert attrs[..i + 1][..i] == attrs[..i];
      if attrs[i].Name? {
        name := attrs[i].name;
      }
    }
    assert attrs[..|attrs|] == attrs;
  }

  /** An inheritance child: a base stub for each `DW_AT_type` attribute. */
  method ReadBases(attrs: seq<Attr>) returns (bases: seq<Type>)
    ensures bases == BaseStubs(attrs)
  {
    bases := [];
    for i := 0 to |attrs|
      invariant bases == BaseStubs(attrs[..i])
    {
      assert attrs[..i + 1][..i] == attrs[..i];
      if attrs[i].TypeRef? {
        var baseName := ReadName(attrs[i].target.attributes, []);
        bases := bases + [NewType(baseName)];
      }
    }
    assert attrs[..|attrs|] == attrs;
  }

  /** A member child: a field filled attribute by attribute. */
  method ReadMember(rev: Revision, attrs: seq<Attr>) returns (field: Field)
    ensures field == MemberField(rev, attrs)
  {
    field := EmptyField();
    for i := 0 to |attrs|
      invariant field == MemberField(rev, attrs[..i])
    {
      assert attrs[..i + 1][..i] == attrs[..i];
      match attrs[i]
      case Name(n) => field := field.(name := n);
      case TypeRef(d) => field := field.(typePtr := Some(TypePtrOf(d, rev)));
      case External(b) => field := field.(isStatic := b);
      case AccessibilityAttr(c) =>
        if rev == Library {
          field := field.(accessibility := c);
        }
      case _ =>
    }
    assert attrs[..|attrs|] == attrs;
  }

  /** A subprogram child: a method filled attribute by attribute, then the constructor rule. */
  method ReadSubprogram(rev: Revision, attrs: seq<Attr>, className: string) returns (m: Method)
    ensures m == SubprogramMethod(rev, attrs, className)
  {
    m := NewMethod().(returnType := DefaultReturn(rev));
    for i := 0 to |attrs|
      invariant m == SubprogramAttrs(rev, attrs[..i])
    {
      assert attrs[..i + 1][..i] == attrs[..i];
      match attrs[i]
      case Name(n) => m := m.(name := n);
      case TypeRef(d) => m := m.(returnType := Some(TypePtrOf(d, rev)));
      case LinkageName(l) => m := m.(mangledName := l);
      case AccessibilityAttr(c) =>
        if rev == Library {
          m := m.(accessibility := c);
        }
      case Artificial(b) =>
        if rev == Library {
          m := m.(isCompilerGenerated := b);
        }
      case _ =>
    }
    assert attrs[..|attrs|] == attrs;
    if rev == Library && m.name == className {
      m := m.(returnType := Some(m.returnType.value.(typeName := [])));
    }
  }

  /** The method index a definition's declaration names, by the two nested scans of `updateMethods`. */
  method FindLinkTarget(methods: seq<Method>, declAttrs: seq<Attr>) returns (k: int)
    ensures k == LinkTarget(Mangled(methods), declAttrs)
  {
    k := -1;
    for i := 0 to |declAttrs|
      invariant k == LinkTarget(Mangled(methods), declAttrs[..i])
    {
      assert declAttrs[..i + 1][..i] == declAttrs[..i];
      if declAttrs[i].LinkageName? {
        k := LastLinked(methods, declAttrs[i].linkage, k);
      }
    }
    assert declAttrs[..|declAttrs|] == declAttrs;
  }

  /** The scan over the methods for one linkage name: the last method with it, else `k` unchanged. */
  method LastLinked(methods: seq<Method>, linkage: string, k: int) returns (k': int)
    ensures LastIndexOf(Mangled(methods), linkage) >= 0 ==> k' == LastIndexOf(Mangled(methods), linkage)
    ensures LastIndexOf(Mangled(methods), linkage) < 0 ==> k' == k
  {
    k' := k;
    for j := 0 to |methods|
      invariant LastIndexOf(Mangled(methods)[..j], linkage) >= 0 ==> k' == LastIndexOf(Mangled(methods)[..j], linkage)
      invariant LastIndexOf(Mangled(methods)[..j], linkage) < 0 ==> k' == k
    {
      assert Mangled(methods)[..j + 1][..j] == Mangled(methods)[..j];
      if methods[j].mangledName == linkage {
        k' := j;
      }
    }
    assert Mangled(methods)[..|methods|] == Mangled(methods);
  }

  /** A formal-parameter child: an argument filled attribute by attribute. */
  method ReadArgument(rev: Revision, attrs: seq<Attr>) returns (arg: Argument)
    ensures arg == ArgumentFrom(rev, attrs)
  {
    arg := Argument([], None);
    for i := 0 to |attrs|
      invariant arg == ArgumentFrom(rev, attrs[..i])
    {
      assert attrs[..i + 1][..i] == attrs[..i];
      if attrs[i].Name? {
        arg := arg.(name := attrs[i].name);
      } else if attrs[i].TypeRef? {
        arg := arg.(typePtr := Some(TypePtrOf(attrs[i].target, rev)));
      }
    }
    assert attrs[..|attrs|] == attrs;
  }

  /** One top-level DIE of a compilation unit, as the body of the loop in `updateMethods` treats it. */
  method UpdateFromChild(rev: Revision, methods: seq<Method>, c: Die) returns (updated: seq<Method>)
    requires c.tag == Subprogram ==> |c.attributes| > 0
    ensures updated == UpdateChild(rev, methods, c)
  {
    updated := methods;
    if c.tag != Subprogram || !c.attributes[0].Specification? {
      return;
    }
    var k := FindLinkTarget(methods, c.attributes[0].specified.attributes);
    if k < 0 {
      return;
    }
    var args := methods[k].args;
    for i := 0 to |c.children|
      invariant args == methods[k].args + Parameters(rev, c.children[..i])
    {
      ParametersStep(rev, methods[k].args, c.children, i);
      if c.children[i].tag == FormalParameter {
        var arg := ReadArgument(rev, c.children[i].attributes);
        args := args + [arg];
      }
    }
    assert c.children[..|c.children|] == c.children;
    updated := methods[k := methods[k].(args := args)];
  }

  /** `updateMethods`: the definitions among the top-level DIEs of every unit complete the methods they name. */
  method UpdateMethods(rev: Revision, methods: seq<Method>, units: seq<Die>) returns (updated: seq<Method>)
    requires TopLevelSubprogramsHaveAttributes(units)
    ensures updated == Update(rev, methods, units)
  {
    updated := methods;
    for u := 0 to |units|
      invariant updated == Update(rev, methods, units[..u])
    {
      assert units[..u + 1][..u] == units[..u];
      var children := units[u].children;
      ghost var start := updated;
      for i := 0 to |children|
        invariant updated == UpdateUnit(rev, start, children[..i])
      {
        assert children[..i + 1][..i] == children[..i];
        assert children[i] in units[u].children;
        updated := UpdateFromChild(rev, updated, children[i]);
      }
      assert children[..|children|] == children;
    }
    assert units[..|units|] == units;
  }

  /** `getType(node, name)`: the walk over the class DIE's children, then `updateMethods`. */
  method GetTypeOfNode(rev: Revision, units: seq<Die>, node: Die, name: string) returns (t: Type)
    requires TopLevelSubprogramsHaveAttributes(units)
    ensures t == ClassOf(rev, units, node, name)
  {
    t := NewType(name);
    var methods: seq<Method> := [];
    for i := 0 to |node.children|
      invariant Walk(t, methods) == ChildWalk(rev, node.children[..i], name)
    {
      assert node.children[..i + 1][..i] == node.children[..i];
      var child := node.children[i];
      if child.tag == Inheritance {
        var bases := ReadBases(child.attributes);
        t := t.(baseTypes := t.baseTypes + bases);
      } else if child.tag == Member {
        var field := ReadMember(rev, child.attributes);
        t := t.(fields := t.fields + [field]);
      } else if child.tag == Subprogram {
        var m := ReadSubprogram(rev, child.attributes, name);
        methods := methods + [m];
      }
    }
    assert node.children[..|node.children|] == node.children;
    methods := UpdateMethods(rev, methods, units);
    t := t.(allMethods := methods, fullyDefinedMethods := methods);
  }

  /** `getType(name)`: the compilation units in order, the first one holding the class decides. */
  method GetType(rev: Revision, units: seq<Die>, name: string) returns (t: Option<Type>)
    requires TopLevelSubprogramsHaveAttributes(units)
    ensures t == TypeNamed(rev, units, name)
  {
    for i := 0 to |units|
      invariant FindInUnits(units, name) == FindInUnits(units[i..], name)
    {
      assert units[i..][1..] == units[i + 1..];
      var result := FindTypeNode(units[i], name);
      if result.Some? {
        var found := GetTypeOfNode(rev, units, result.value, name);
        return Some(found);
      }
    }
    return None;
  }

  /** `getTypes(names)` of the library revision: `getType` for each name, in order. */
  method GetTypes(units: seq<Die>, names: seq<string>) returns (types: seq<Option<Type>>)
    requires TopLevelSubprogramsHaveAttributes(units)
    ensures |types| == |names|
    ensures forall i :: 0 <= i < |names| ==> types[i] == TypeNamed(Library, units, names[i])
  {
    types := [];
    for i := 0 to |names|
      invariant |types| == i
      invariant forall j :: 0 <= j < i ==> types[j] == TypeNamed(Library, units, names[j])
    {
      var t := GetType(Library, units, names[i]);
      types := types + [t];
    }
  }

  /** `getMethod(name)` of the application revision finds nothing, whatever the name. */
  function GetMethodByName(units: seq<Die>, name: string): (m: Option<Method>)
    ensures m.None?
  {
    None
  }

  /** `getTypesList(showStructs)` lists no type, in both revisions. */
  function GetTypesList(units: seq<Die>, showStructs: bool): (names: seq<string>)
    ensures names == []
  {
    []
  }

  /** `getAllGlobalVariables()` of the library revision reports no global variable. */
  function GetAllGlobalVariables(units: seq<Die>): (fields: seq<Field>)
    ensures fields == []
  {
    []
  }
}
