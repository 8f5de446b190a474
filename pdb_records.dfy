/**
 * The parsed PDB (CodeView) metadata both PDB extractors read, as values:
 * type records, field lists, global variables and global functions, as
 * the retdec pdbparser library hands them over once a file is loaded.
 * Also the parts both revisions share: the `PDBUniversalType` view of a
 * class or struct record, `findFullDeclaration` and `getTypesList`.
 */
module PdbRecords {
  import opened Wrappers
  import opened Strings

  /**
   * A type record. A record reached through a pointer the parser leaves
   * null, or through a type index it cannot resolve, is `OtherRecord`: no
   * `dynamic_cast` in the extractors succeeds on either.
   */
  datatype Record =
    | BaseRecord(description: string)
    | ConstRecord(constTarget: Record)
    | PointerRecord(pointerTarget: Record)
    | ClassRecord(className: string, classFieldList: int)
    | StructRecord(structName: string, structFieldList: int)
    | FunctionRecord(signature: Signature)
    | OtherRecord

  /** A function type record: return type, calling convention, `this` type index, argument types, owning class. */
  datatype Signature = Signature(
    returnType: Record,
    callType: int,
    thisTypeIndex: int,
    isVariadic: bool,
    owner: Record,
    argTypes: seq<Record>)

  /** The kinds of field-list entry the extractors tell apart; `FieldOther` is every other kind. */
  datatype FieldKind = FieldBase | FieldOneMethod | FieldNestType | FieldMember | FieldStaticMember | FieldOther

  /** One entry of a field list: its kind, name, type record and offset. */
  datatype FieldEntry = FieldEntry(kind: FieldKind, name: string, typeDef: Record, offset: int)

  datatype GlobalVariable = GlobalVariable(name: string, address: nat, typeDef: Record)

  /** A named argument of a global function, its type index already resolved. */
  datatype FunctionArgument = FunctionArgument(name: string, typeDef: Record)

  datatype PdbFunction = PdbFunction(name: string, address: nat, signature: Signature, arguments: seq<FunctionArgument>)

  /**
   * A loaded PDB file: the fully defined type records, the field lists by
   * type index, and the global variables and functions, each in the order
   * the parser's maps iterate them.
   */
  datatype PdbFile = PdbFile(
    fullyDefined: seq<Record>,
    fieldLists: map<int, seq<FieldEntry>>,
    globals: seq<GlobalVariable>,
    functions: seq<PdbFunction>)

  /**
   * What the extractors rely on without checking: a one-method entry
   * carries a function type record (it is cast unchecked), and a function
   * owned by a class is named `<class>::<method>`, so stripping the class
   * prefix with `substr` cannot throw.
   */
  predicate WellFormed(pdb: PdbFile)
  {
    (forall id, e :: id in pdb.fieldLists && e in pdb.fieldLists[id] && e.kind == FieldOneMethod ==>
      e.typeDef.FunctionRecord?) &&
    (forall f :: f in pdb.functions && f.signature.owner.ClassRecord? ==>
      |f.signature.owner.className| + 2 <= |f.name|)
  }

  // ------------------------------------------------------------ PDBUniversalType

  /** `getPDBType() == PDBTYPE_CLASS || getPDBType() == PDBTYPE_STRUCT`. */
  predicate IsType(r: Record)
  {
    r.ClassRecord? || r.StructRecord?
  }

  /** `getName()`: the class or struct name, empty for any other record. */
  function UniversalName(r: Record): (n: string)
    ensures !IsType(r) ==> n == []
  {
    match r
    case ClassRecord(name, _) => name
    case StructRecord(name, _) => name
    case _ => []
  }

  /** `getFieldListTypeId()`: the field-list index of a class or struct, -1 otherwise. */
  function FieldListId(r: Record): (id: int)
    ensures !IsType(r) ==> id == -1
  {
    match r
    case ClassRecord(_, id) => id
    case StructRecord(_, id) => id
    case _ => -1
  }

  /** The class or struct record declares the type called `name`. */
  predicate Declares(r: Record, name: string)
  {
    IsType(r) && UniversalName(r) == name
  }

  /** The longest class or struct name among the records. */
  function MaxNameLength(records: seq<Record>): nat
  {
    if records == [] then 0
    else
      var init := MaxNameLength(records[..|records| - 1]);
      var r := records[|records| - 1];
      if IsType(r) && |UniversalName(r)| > init then |UniversalName(r)| else init
  }

  /** No class or struct among the records has a longer name. */
  lemma {:induction false} MaxNameLengthBounds(records: seq<Record>, r: Record)
    requires r in records && IsType(r)
    ensures |UniversalName(r)| <= MaxNameLength(records)
  {
    var init := records[..|records| - 1];
    if r != records[|records| - 1] {
      assert r in init;
      MaxNameLengthBounds(init, r);
    }
  }

  // ------------------------------------------------------------ findFullDeclaration

  /** The declaration `findFullDeclaration` settles on: the last record declaring `name`. */
  function LastDeclaration(records: seq<Record>, name: string): (d: Option<Record>)
    ensures d.Some? ==> d.value in records && Declares(d.value, name)
  {
    if records == [] then None
    else if Declares(records[|records| - 1], name) then Some(records[|records| - 1])
    else LastDeclaration(records[..|records| - 1], name)
  }

  /** The last matching record wins; there is none exactly when no record declares the name. */
  lemma {:induction false} LastDeclarationIsLast(records: seq<Record>, name: string)
    ensures LastDeclaration(records, name).None? <==> forall i :: 0 <= i < |records| ==> !Declares(records[i], name)
    ensures LastDeclaration(records, name).Some? ==>
      exists i :: 0 <= i < |records| && records[i] == LastDeclaration(records, name).value &&
        forall j :: i < j < |records| ==> !Declares(records[j], name)
  {
    if records != [] {
      var init := records[..|records| - 1];
      var last := records[|records| - 1];
      LastDeclarationIsLast(init, name);
      if !Declares(last, name) {
        assert LastDeclaration(records, name) == LastDeclaration(init, name);
        if LastDeclaration(init, name).None? {
          forall i | 0 <= i < |records|
            ensures !Declares(records[i], name)
          {
            if i < |init| {
              assert records[i] == init[i];
            }
          }
        } else {
          var i :| 0 <= i < |init| && init[i] == LastDeclaration(init, name).value &&
            forall j :: i < j < |init| ==> !Declares(init[j], name);
          assert records[i] == init[i];
          forall j | i < j < |records|
            ensures !Declares(records[j], name)
          {
            if j < |init| {
              assert records[j] == init[j];
            }
          }
        }
      } else {
        assert LastDeclaration(records, name) == Some(last);
      }
    }
  }

  /** `findFullDeclaration(name)`: a scan that keeps the last record declaring `name`. */
  method FindFullDeclaration(records: seq<Record>, name: string) returns (last: Option<Record>)
    ensures last == LastDeclaration(records, name)
  {
    last := None;
    var i := 0;
    while i < |records|
      invariant 0 <= i <= |records|
      invariant last == LastDeclaration(records[..i], name)
    {
      assert records[..i + 1][..i] == records[..i];
      if IsType(records[i]) && UniversalName(records[i]) == name {
        last := Some(records[i]);
      }
      i := i + 1;
    }
    assert records[..i] == records;
  }

  // ------------------------------------------------------------ getTypesList

  /** A record `getTypesList` lists: a class, or a struct when structs are shown. */
  predicate Listed(r: Record, showStructs: bool)
  {
    IsType(r) && (showStructs || !r.StructRecord?)
  }

  /** The names the scan in `getTypesList` collects, before sorting. */
  function ListedNames(records: seq<Record>, showStructs: bool): (names: seq<string>)
    ensures forall n :: n in names <==> exists r :: r in records && Listed(r, showStructs) && UniversalName(r) == n
  {
    if records == [] then []
    else
      var init := ListedNames(records[..|records| - 1], showStructs);
      var r := records[|records| - 1];
      assert forall x :: x in records <==> x in records[..|records| - 1] || x == r;
      if Listed(r, showStructs) then init + [UniversalName(r)] else init
  }

  /**
   * `getTypesList(showStructs)`: the names of the listed records, sorted
   * and without duplicates.
   */
  method GetTypesList(records: seq<Record>, showStructs: bool) returns (names: seq<string>)
    ensures names == SortUnique(ListedNames(records, showStructs))
    ensures StrictlySorted(names)
    ensures forall n :: n in names <==> exists r :: r in records && Listed(r, showStructs) && UniversalName(r) == n
  {
    var collected := [];
    var i := 0;
    while i < |records|
      invariant 0 <= i <= |records|
      invariant collected == ListedNames(records[..i], showStructs)
    {
      assert records[..i + 1][..i] == records[..i];
      var r := records[i];
      if !(IsType(r)) || (r.StructRecord? && !showStructs) {
        i := i + 1;
        continue;
      }
      collected := collected + [UniversalName(r)];
      i := i + 1;
    }
    assert records[..i] == records;
    names := SortUnique(collected);
  }

  /** Showing structs only adds names: every class listed without them is still listed. */
  lemma ShowStructsAddsNames(records: seq<Record>)
    ensures forall n :: n in ListedNames(records, false) ==> n in ListedNames(records, true)
    ensures forall n :: n in ListedNames(records, true) && n !in ListedNames(records, false) ==>
      exists r :: r in records && r.StructRecord? && r.structName == n
  {
  }
}
