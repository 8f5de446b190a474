/**
 * The normalised type model every extractor produces and every dumper reads:
 * TypePtr, Argument, Field, Method and Type, with the member defaults of
 * DebugTypes.hpp and the further members the extractors of the newer
 * revision set (qualifier flags, array size, accessibility, vtable offset,
 * the compiler-generated flag and nested types). Pointers to these objects
 * become values; a pointer member that the C++ constructor leaves unset is
 * `None`.
 */
module DebugTypes {
  import opened Wrappers

  /**
   * Access levels as numeric codes; the codes are those of DW_ACCESS
   * (section 5.6.2 of DWARF Version 4), so a DWARF attribute value converts
   * unchanged, and 0 stands for "none".
   */
  type Accessibility = nat

  const NONE: Accessibility := 0
  const PUBLIC: Accessibility := 1
  const PROTECTED: Accessibility := 2
  const PRIVATE: Accessibility := 3

  /** A reference to a type by name, with how it is qualified. */
  datatype TypePtr = TypePtr(
    typeName: string,
    isPointer: bool,
    isReference: bool,
    isConstant: bool,
    isArray: bool,
    arraySize: int,
    isBaseType: bool)

  /** `TypePtr(type, isPointer)`: the name and the pointer flag, nothing else set. */
  function MakeTypePtr(typeName: string, isPointer: bool): (t: TypePtr)
    ensures t.typeName == typeName && t.isPointer == isPointer
    ensures !t.isReference && !t.isConstant && !t.isArray && !t.isBaseType && t.arraySize == 0
  {
    TypePtr(typeName, isPointer, false, false, false, 0, false)
  }

  datatype Argument = Argument(name: string, typePtr: Option<TypePtr>)

  datatype Field = Field(
    name: string,
    typePtr: Option<TypePtr>,
    offset: int,
    address: nat,
    isStatic: bool,
    accessibility: Accessibility)

  /** `Field(name, type, offset)`: the three given members; address 0, not static. */
  function MakeField(name: string, typePtr: TypePtr, offset: int): (f: Field)
    ensures f.name == name && f.typePtr == Some(typePtr) && f.offset == offset
    ensures f.address == 0 && !f.isStatic && f.accessibility == NONE
  {
    Field(name, Some(typePtr), offset, 0, false, NONE)
  }

  /** `Field()`: no name, no type, every number 0. */
  function EmptyField(): (f: Field)
    ensures f.name == [] && f.typePtr == None && f.offset == 0 && f.address == 0
    ensures !f.isStatic && f.accessibility == NONE
  {
    Field([], None, 0, 0, false, NONE)
  }

  /** `name[0] == '~'` on a std::string: an empty name reads its terminating NUL. */
  predicate IsDestructorName(name: string)
  {
    |name| > 0 && name[0] == '~'
  }

  datatype Method = Method(
    name: string,
    mangledName: string,
    returnType: Option<TypePtr>,
    address: nat,
    callType: int,
    args: seq<Argument>,
    isStatic: bool,
    isVariadic: bool,
    isVirtual: bool,
    accessibility: Accessibility,
    vftableOffset: int,
    isCompilerGenerated: bool)

  /** `new Method()`: no name, no return type, no arguments, every flag false. */
  function NewMethod(): (m: Method)
    ensures m.name == [] && m.mangledName == [] && m.returnType == None
    ensures m.address == 0 && m.callType == 0 && m.args == []
    ensures !m.isStatic && !m.isVariadic && !m.isVirtual && !m.isCompilerGenerated
    ensures m.accessibility == NONE && m.vftableOffset == 0
  {
    Method([], [], None, 0, 0, [], false, false, false, NONE, 0, false)
  }

  datatype Type = Type(
    name: string,
    baseTypes: seq<Type>,
    fields: seq<Field>,
    fullyDefinedMethods: seq<Method>,
    allMethods: seq<Method>,
    dependentTypes: seq<string>,
    nestedTypes: seq<Type>)

  /** `Type(name)`: the name and every list empty. */
  function NewType(name: string): (t: Type)
    ensures t.name == name
    ensures t.baseTypes == [] && t.fields == [] && t.fullyDefinedMethods == [] && t.allMethods == []
    ensures t.dependentTypes == [] && t.nestedTypes == []
  {
    Type(name, [], [], [], [], [], [])
  }

  /** The names of a list of types, in order. */
  function Names(types: seq<Type>): (r: seq<string>)
    ensures |r| == |types|
    ensures forall i :: 0 <= i < |types| ==> r[i] == types[i].name
  {
    seq(|types|, i requires 0 <= i < |types| => types[i].name)
  }

  // CodeView calling-convention codes (CV_call_e); 6 is unused.
  const CV_CALL_NEAR_C: int := 0x00
  const CV_CALL_FAR_C: int := 0x01
  const CV_CALL_NEAR_PASCAL: int := 0x02
  const CV_CALL_FAR_PASCAL: int := 0x03
  const CV_CALL_NEAR_FAST: int := 0x04
  const CV_CALL_FAR_FAST: int := 0x05
  const CV_CALL_NEAR_STD: int := 0x07
  const CV_CALL_FAR_STD: int := 0x08
  const CV_CALL_NEAR_SYS: int := 0x09
  const CV_CALL_FAR_SYS: int := 0x0a
  const CV_CALL_THISCALL: int := 0x0b
  const CV_CALL_MIPSCALL: int := 0x0c
  const CV_CALL_GENERIC: int := 0x0d
  const CV_CALL_ALPHACALL: int := 0x0e
  const CV_CALL_PPCCALL: int := 0x0f
  const CV_CALL_SHCALL: int := 0x10
  const CV_CALL_ARMCALL: int := 0x11
  const CV_CALL_AM33CALL: int := 0x12
  const CV_CALL_TRICALL: int := 0x13
  const CV_CALL_SH5CALL: int := 0x14
  const CV_CALL_M32RCALL: int := 0x15

  /** The keyword written for each calling convention. */
  const CallingConventionNames: map<int, string> := map[
    CV_CALL_NEAR_C := "__cdecl",
    CV_CALL_FAR_C := "__cdecl",
    CV_CALL_NEAR_PASCAL := "__pascal",
    CV_CALL_FAR_PASCAL := "__pascal",
    CV_CALL_NEAR_FAST := "__fastcall",
    CV_CALL_FAR_FAST := "__fastcall",
    CV_CALL_NEAR_STD := "__stdcall",
    CV_CALL_FAR_STD := "__stdcall",
    CV_CALL_NEAR_SYS := "__syscall",
    CV_CALL_FAR_SYS := "__syscall",
    CV_CALL_THISCALL := "__thiscall",
    CV_CALL_MIPSCALL := "__mipscall",
    CV_CALL_GENERIC := "__genericcall",
    CV_CALL_ALPHACALL := "__alphacall",
    CV_CALL_PPCCALL := "__ppccall",
    CV_CALL_SHCALL := "__superhcall",
    CV_CALL_ARMCALL := "__armcall",
    CV_CALL_AM33CALL := "__am33call",
    CV_CALL_TRICALL := "__tricall",
    CV_CALL_SH5CALL := "__sh5call",
    CV_CALL_M32RCALL := "__m32rcall"
  ]

  /** The near and the far variant of a convention are spelled alike. */
  lemma NearAndFarSpelledAlike()
    ensures CallingConventionNames[CV_CALL_NEAR_C] == CallingConventionNames[CV_CALL_FAR_C] == "__cdecl"
    ensures CallingConventionNames[CV_CALL_NEAR_PASCAL] == CallingConventionNames[CV_CALL_FAR_PASCAL] == "__pascal"
    ensures CallingConventionNames[CV_CALL_NEAR_FAST] == CallingConventionNames[CV_CALL_FAR_FAST] == "__fastcall"
    ensures CallingConventionNames[CV_CALL_NEAR_STD] == CallingConventionNames[CV_CALL_FAR_STD] == "__stdcall"
    ensures CallingConventionNames[CV_CALL_NEAR_SYS] == CallingConventionNames[CV_CALL_FAR_SYS] == "__syscall"
  {
  }

  /** Every code from 0 to 0x15 has a spelling, except the unused 6. */
  lemma CallingConventionCodes()
    ensures forall c :: c in CallingConventionNames <==> 0 <= c <= 0x15 && c != 6
  {
  }
}
