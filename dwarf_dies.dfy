/**
 * The DWARF debugging entries (DIEs) the DWARF extractors read, as values,
 * and the two recursive walks over them: the search for a class by name
 * (`findTypeNode`) and the resolution of a type reference to a `TypePtr`
 * (`getTypePtr`, in both revisions).
 *
 * A DIE is its tag, its attributes in order and its children in order
 * (section 2 of DWARF Version 4). An attribute holding a reference carries
 * the referenced DIE itself. Through a reference the extractors read only
 * the tag and the attributes, and for an array type its children, so a
 * reference back to an enclosing class is the class's DIE without its
 * children.
 */
module DwarfDies {
  import opened Wrappers
  import opened DebugTypes

  /** The tags the extractors tell apart; `OtherTag` stands for every other tag. */
  datatype Tag =
    | ClassType | Inheritance | Member | Subprogram | FormalParameter
    | PointerType | ConstType | ReferenceType | ArrayType | SubrangeType | BaseType
    | OtherTag

  /** The attributes the extractors read, each with the form they read it in. */
  datatype Attr =
    | Name(name: string)
    | TypeRef(target: Die)
    | External(external: bool)
    | AccessibilityAttr(code: nat)
    | LinkageName(linkage: string)
    | Artificial(artificial: bool)
    | Specification(specified: Die)
    | UpperBound(bound: int)
    | OtherAttr

  datatype Die = Die(tag: Tag, attributes: seq<Attr>, children: seq<Die>)

  /** The two revisions of the DWARF extractor: the library's and the older application's. */
  datatype Revision = Library | Application

  // ------------------------------------------------------------ attribute lookups

  /** The value of the last `DW_AT_name` attribute, if any. */
  function LastName(attrs: seq<Attr>): Option<string>
  {
    if attrs == [] then None
    else if attrs[|attrs| - 1].Name? then Some(attrs[|attrs| - 1].name)
    else LastName(attrs[..|attrs| - 1])
  }

  /** The target of the last `DW_AT_type` attribute, if any. */
  function LastTypeRef(attrs: seq<Attr>): Option<Die>
  {
    if attrs == [] then None
    else if attrs[|attrs| - 1].TypeRef? then Some(attrs[|attrs| - 1].target)
    else LastTypeRef(attrs[..|attrs| - 1])
  }

  /** The index of the first `DW_AT_type` attribute, or -1. */
  function FirstTypeRef(attrs: seq<Attr>): (i: int)
    ensures -1 <= i < |attrs|
    ensures i >= 0 ==> attrs[i].TypeRef? && forall j :: 0 <= j < i ==> !attrs[j].TypeRef?
    ensures i == -1 ==> forall j :: 0 <= j < |attrs| ==> !attrs[j].TypeRef?
  {
    if attrs == [] then -1
    else if attrs[0].TypeRef? then 0
    else var rest := FirstTypeRef(attrs[1..]); if rest == -1 then -1 else rest + 1
  }

  // ------------------------------------------------------------ findTypeNode

  /** A `class_type` DIE with a `DW_AT_name` attribute equal to `name`. */
  predicate IsClassNamed(d: Die, name: string)
  {
    d.tag == ClassType && exists a :: a in d.attributes && a == Name(name)
  }

  /** `findTypeNode(node, name)`: the node itself if it matches, else the first match among its children. */
  function FindTypeNode(node: Die, name: string): Option<Die>
    decreases node, 1, 0
  {
    if IsClassNamed(node, name) then Some(node) else FindInChildren(node, 0, name)
  }

  /** The first match in the subtrees of `node.children[i..]`, left to right. */
  function FindInChildren(node: Die, i: nat, name: string): Option<Die>
    decreases node, 0, |node.children| - i
  {
    if i >= |node.children| then None
    else
      assert node.children[i] in node.children;
      var found := FindTypeNode(node.children[i], name);
      if found.Some? then found else FindInChildren(node, i + 1, name)
  }

  /** The DIEs of a tree in pre-order: the node, then each child's subtree in turn. */
  function PreOrder(node: Die): seq<Die>
    decreases node, 1, 0
  {
    [node] + PreOrderFrom(node, 0)
  }

  function PreOrderFrom(node: Die, i: nat): seq<Die>
    decreases node, 0, |node.children| - i
  {
    if i >= |node.children| then []
    else
      assert node.children[i] in node.children;
      PreOrder(node.children[i]) + PreOrderFrom(node, i + 1)
  }

  /** The first DIE of a list that is a class with the name. */
  function FirstClassNamed(dies: seq<Die>, name: string): (r: Option<Die>)
    ensures r.Some? ==> r.value in dies && IsClassNamed(r.value, name)
    ensures r.None? <==> forall d :: d in dies ==> !IsClassNamed(d, name)
  {
    if dies == [] then None
    else if IsClassNamed(dies[0], name) then Some(dies[0])
    else
      assert forall d :: d in dies <==> d == dies[0] || d in dies[1..];
      FirstClassNamed(dies[1..], name)
  }

  lemma {:induction false} FirstClassNamedAppend(a: seq<Die>, b: seq<Die>, name: string)
    ensures FirstClassNamed(a + b, name) ==
      if FirstClassNamed(a, name).Some? then FirstClassNamed(a, name) else FirstClassNamed(b, name)
  {
    if a != [] {
      assert (a + b)[0] == a[0];
      assert (a + b)[1..] == a[1..] + b;
      FirstClassNamedAppend(a[1..], b, name);
    } else {
      assert a + b == b;
    }
  }

  /**
   * `findTypeNode` returns the first DIE, in pre-order, that is a class
   * with the name, and nothing when the tree holds none.
   */
  lemma {:induction false} FindTypeNodeIsPreOrderFirst(node: Die, name: string)
    ensures FindTypeNode(node, name) == FirstClassNamed(PreOrder(node), name)
    decreases node, 1, 0
  {
    FindInChildrenIsPreOrderFirst(node, 0, name);
    FirstClassNamedAppend([node], PreOrderFrom(node, 0), name);
    assert FirstClassNamed([node], name) == if IsClassNamed(node, name) then Some(node) else None by {
      assert [node][1..] == [];
    }
  }

  lemma {:induction false} FindInChildrenIsPreOrderFirst(node: Die, i: nat, name: string)
    ensures FindInChildren(node, i, name) == FirstClassNamed(PreOrderFrom(node, i), name)
    decreases node, 0, |node.children| - i
  {
    if i < |node.children| {
      assert node.children[i] in node.children;
      FindTypeNodeIsPreOrderFirst(node.children[i], name);
      FindInChildrenIsPreOrderFirst(node, i + 1, name);
      FirstClassNamedAppend(PreOrder(node.children[i]), PreOrderFrom(node, i + 1), name);
    }
  }

  /** The first compilation unit whose tree holds the class, searched as `getType(name)` does. */
  function FindInUnits(units: seq<Die>, name: string): Option<Die>
  {
    if units == [] then None
    else if FindTypeNode(units[0], name).Some? then FindTypeNode(units[0], name)
    else FindInUnits(units[1..], name)
  }

  // ------------------------------------------------------------ getTypePtr

  predicate IsQualifier(tag: Tag, rev: Revision)
  {
    match rev
    case Library => tag == PointerType || tag == ConstType || tag == ReferenceType || tag == ArrayType
    case Application => tag == PointerType || tag == ConstType
  }

  /** `arraySize` after the subrange children: upper bound + 1 of the last bound seen, else `size`. */
  function ArraySize(children: seq<Die>, size: int): int
  {
    if children == [] then size
    else
      var before := ArraySize(children[..|children| - 1], size);
      var c := children[|children| - 1];
      if c.tag == SubrangeType then BoundSize(c.attributes, before) else before
  }

  function BoundSize(attrs: seq<Attr>, size: int): int
  {
    if attrs == [] then size
    else
      var before := BoundSize(attrs[..|attrs| - 1], size);
      if attrs[|attrs| - 1].UpperBound? then attrs[|attrs| - 1].bound + 1 else before
  }

  /** A base or class DIE: its last name, else "unknown". */
  function TerminalType(d: Die, rev: Revision): (t: TypePtr)
    ensures d.tag == BaseType ==>
      t.typeName == (match LastName(d.attributes) case Some(n) => n case None => "unknown") &&
      !t.isPointer && (t.isBaseType <==> rev == Library)
    ensures d.tag == ClassType ==>
      t.typeName == (match LastName(d.attributes) case Some(n) => n case None => "unknown") &&
      t.isPointer && !t.isBaseType
    ensures d.tag != BaseType && d.tag != ClassType ==> t == MakeTypePtr("unknown", true)
    ensures !t.isReference && !t.isConstant && !t.isArray && t.arraySize == 0
  {
    var name := match LastName(d.attributes) case Some(n) => n case None => "unknown";
    if d.tag == BaseType || d.tag == ClassType then
      (match rev
       case Library => MakeTypePtr(name, d.tag == ClassType).(isBaseType := d.tag == BaseType)
       case Application => MakeTypePtr(name, d.tag == ClassType))
    else MakeTypePtr("unknown", true)
  }

  /**
   * `getTypePtr(die)`. A qualifier DIE with a `DW_AT_type` resolves its
   * first target; the library revision then sets all four qualifier flags
   * from the outer tag and, for an array, the size from its subranges,
   * while the application revision keeps the target's result as it is.
   * Every other DIE is resolved by `TerminalType`.
   */
  function TypePtrOf(d: Die, rev: Revision): TypePtr
    decreases d
  {
    var i := FirstTypeRef(d.attributes);
    if IsQualifier(d.tag, rev) && i >= 0 then
      assert d.attributes[i] in d.attributes;
      var inner := TypePtrOf(d.attributes[i].target, rev);
      match rev
      case Application => inner
      case Library =>
        var flagged := inner.(isPointer := d.tag == PointerType, isConstant := d.tag == ConstType,
                              isReference := d.tag == ReferenceType, isArray := d.tag == ArrayType);
        if d.tag == ArrayType then flagged.(arraySize := ArraySize(d.children, inner.arraySize)) else flagged
    else TerminalType(d, rev)
  }

  /** The DIE a chain of qualifiers ends in: the one `getTypePtr` takes the name from. */
  function Terminal(d: Die, rev: Revision): Die
    decreases d
  {
    var i := FirstTypeRef(d.attributes);
    if IsQualifier(d.tag, rev) && i >= 0 then
      assert d.attributes[i] in d.attributes;
      Terminal(d.attributes[i].target, rev)
    else d
  }

  /**
   * Both revisions take the name and the base-type flag from the end of the
   * qualifier chain. A base type is never a pointer and a class always is
   * in the application revision; in the library revision that holds when
   * there is no qualifier on top.
   */
  lemma {:induction false} NameFromTerminal(d: Die, rev: Revision)
    ensures TypePtrOf(d, rev).typeName == TerminalType(Terminal(d, rev), rev).typeName
    ensures TypePtrOf(d, rev).isBaseType == TerminalType(Terminal(d, rev), rev).isBaseType
    ensures rev == Application ==> TypePtrOf(d, rev) == TerminalType(Terminal(d, rev), rev)
    decreases d
  {
    var i := FirstTypeRef(d.attributes);
    if IsQualifier(d.tag, rev) && i >= 0 {
      assert d.attributes[i] in d.attributes;
      NameFromTerminal(d.attributes[i].target, rev);
    }
  }

  /**
   * A qualifier with a target keeps only its own flag: exactly one of
   * pointer, constant, reference and array is set, the one its tag names,
   * so a pointer to const is not constant.
   */
  lemma OutermostQualifierOnly(d: Die)
    requires IsQualifier(d.tag, Library) && FirstTypeRef(d.attributes) >= 0
    ensures var t := TypePtrOf(d, Library);
      (t.isPointer <==> d.tag == PointerType) && (t.isConstant <==> d.tag == ConstType) &&
      (t.isReference <==> d.tag == ReferenceType) && (t.isArray <==> d.tag == ArrayType)
  {
  }

  /** The last upper bound among the subranges, if any. */
  function LastBound(children: seq<Die>): Option<int>
  {
    if children == [] then None
    else
      var c := children[|children| - 1];
      var own := if c.tag == SubrangeType then LastBoundAttr(c.attributes) else None;
      if own.Some? then own else LastBound(children[..|children| - 1])
  }

  function LastBoundAttr(attrs: seq<Attr>): Option<int>
  {
    if attrs == [] then None
    else if attrs[|attrs| - 1].UpperBound? then Some(attrs[|attrs| - 1].bound)
    else LastBoundAttr(attrs[..|attrs| - 1])
  }

  lemma {:induction false} BoundSizeIsLast(attrs: seq<Attr>, size: int)
    ensures BoundSize(attrs, size) == match LastBoundAttr(attrs) case Some(b) => b + 1 case None => size
  {
    if attrs != [] {
      BoundSizeIsLast(attrs[..|attrs| - 1], size);
    }
  }

  /**
   * An array's size is one more than the last upper bound of its subrange
   * children; without a bound the size is the target's, untouched.
   */
  lemma {:induction false} ArraySizeFromLastBound(children: seq<Die>, size: int)
    ensures ArraySize(children, size) == match LastBound(children) case Some(b) => b + 1 case None => size
  {
    if children != [] {
      var c := children[|children| - 1];
      ArraySizeFromLastBound(children[..|children| - 1], size);
      if c.tag == SubrangeType {
        BoundSizeIsLast(c.attributes, ArraySize(children[..|children| - 1], size));
      }
    }
  }
}
