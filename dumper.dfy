/**
 * The declaration renderer (CodeClassDumper): turns one `Type` into the
 * text of a C++ class declaration, optionally with include guards, include
 * lines or forward declarations for dependent types, and, in pointer mode,
 * a list of pointer definitions at the recorded addresses.
 *
 * The text is specified by the functions `Declaration`, `ArgsText` and the
 * pieces they are made of; the methods build the same text step by step as
 * the C++ code does on its stringstream.
 */
module Dumper {
  import opened Wrappers
  import opened Strings
  import opened Utils
  import opened DebugTypes
  import opened Config

  /** Characters that make a method unusable in compilable output. */
  const InvalidCharacters: set<char> := {'`', '#', '(', ')', ':', ';', '"', '\'', '?'}

  const Banner: string := "// Generated automatically by debugtocpp\n\n"

  predicate HasAnyOf(s: string, chars: set<char>)
  {
    exists i :: 0 <= i < |s| && s[i] in chars
  }

  predicate EndsWith(s: string, suffix: string)
  {
    |suffix| <= |s| && s[|s| - |suffix|..] == suffix
  }

  /** Every invalid character lies in a range clearString replaces, and '_' is not invalid. */
  lemma ClearedHasNoInvalid(s: string)
    ensures !HasAnyOf(ClearString(s), InvalidCharacters)
  {
    forall i | 0 <= i < |s|
      ensures ClearString(s)[i] !in InvalidCharacters
    {
      assert forall c :: c in InvalidCharacters ==> Replaced(c) && c != '_';
    }
  }

  lemma NoInvalidConcat(a: string, b: string)
    requires !HasAnyOf(a, InvalidCharacters) && !HasAnyOf(b, InvalidCharacters)
    ensures !HasAnyOf(a + b, InvalidCharacters)
  {
    forall i | 0 <= i < |a + b|
      ensures (a + b)[i] !in InvalidCharacters
    {
      if i < |a| {
        assert (a + b)[i] == a[i];
      } else {
        assert (a + b)[i] == b[i - |a|];
      }
    }
  }

  // ------------------------------------------------------------ names and types

  /** `getName`: the member name without a leading `<class>::`. */
  function GetName(fullName: string, className: string): (r: string)
    ensures StartsWith(fullName, className + "::") ==> className + "::" + r == fullName
    ensures !StartsWith(fullName, className + "::") ==> r == fullName
  {
    if StartsWith(fullName, className + "::") then fullName[|className| + 2..] else fullName
  }

  /** Qualifying a name with its class and then taking `getName` gives the name back. */
  lemma GetNameOfQualified(className: string, name: string)
    ensures GetName(className + "::" + name, className) == name
  {
    var q := className + "::";
    assert (q + name)[..|q|] == q;
    assert (q + name)[|className| + 2..] == name;
  }

  /** A name as displayed: cleared in compilable mode, unchanged otherwise. */
  function Display(name: string, compilable: bool): string
  {
    if compilable then ClearString(name) else name
  }

  /** `printType`: "const ", the name, "&" for a reference, " *" for a pointer. */
  function PrintType(t: TypePtr, compilable: bool): string
  {
    (if t.isConstant then "const " else "") + Display(t.typeName, compilable) +
    (if t.isReference then "&" else "") + (if t.isPointer then " *" else "")
  }

  /** The name (cleared in compilable mode) stands after "const " or at the start, and only the qualifiers add to its length. */
  lemma PrintTypeLayout(t: TypePtr, compilable: bool)
    ensures var r := PrintType(t, compilable);
      |r| == (if t.isConstant then 6 else 0) + |t.typeName| + (if t.isReference then 1 else 0) + (if t.isPointer then 2 else 0) &&
      OccursAt(r, Display(t.typeName, compilable), if t.isConstant then 6 else 0)
  {
    var prefix := if t.isConstant then "const " else "";
    var name := Display(t.typeName, compilable);
    var suffix := (if t.isReference then "&" else "") + (if t.isPointer then " *" else "");
    assert PrintType(t, compilable) == prefix + name + suffix;
    assert (prefix + name + suffix)[|prefix|..|prefix| + |name|] == name;
  }

  /** In compilable mode a type is written without any invalid character. */
  lemma PrintTypeCompilable(t: TypePtr)
    ensures !HasAnyOf(PrintType(t, true), InvalidCharacters)
  {
    var prefix := if t.isConstant then "const " else "";
    var suffix := (if t.isReference then "&" else "") + (if t.isPointer then " *" else "");
    assert !HasAnyOf(prefix, InvalidCharacters);
    ClearedHasNoInvalid(t.typeName);
    NoInvalidConcat(prefix, ClearString(t.typeName));
    assert !HasAnyOf(suffix, InvalidCharacters);
    NoInvalidConcat(prefix + ClearString(t.typeName), suffix);
  }

  // ------------------------------------------------------------------ arguments

  /** Every argument the mode writes has a type; a `this` skipped in declaration mode may have none. */
  predicate ArgsTyped(args: seq<Argument>, pointers: bool)
  {
    forall i :: 0 <= i < |args| && !Skipped(args[i], pointers) ==> args[i].typePtr.Some?
  }

  /** In declaration mode a `this` argument is not written. */
  predicate Skipped(a: Argument, pointers: bool)
  {
    !pointers && a.name == "this"
  }

  /** The name an argument is written with: `this` reads `self` in pointer mode. */
  function ArgName(a: Argument, pointers: bool): string
  {
    if pointers && a.name == "this" then "self" else a.name
  }

  /** The text written for one argument, with ", " unless it is the last one. */
  function ArgPiece(a: Argument, isLast: bool, pointers: bool, compilable: bool): string
    requires !Skipped(a, pointers) ==> a.typePtr.Some?
  {
    if Skipped(a, pointers) then []
    else
      var name := ArgName(a, pointers);
      PrintType(a.typePtr.value, compilable) + (if name != [] then " " else "") + name + (if isLast then "" else ", ")
  }

  /** The concatenation of the parts, in order. */
  function Flatten(parts: seq<string>): string
  {
    if parts == [] then [] else Flatten(parts[..|parts| - 1]) + parts[|parts| - 1]
  }

  lemma {:induction false} FlattenCons(p: string, parts: seq<string>)
    ensures Flatten([p] + parts) == p + Flatten(parts)
  {
    if parts != [] {
      FlattenCons(p, parts[..|parts| - 1]);
      assert ([p] + parts)[..|parts|] == [p] + parts[..|parts| - 1];
    }
  }

  /** The piece written for each argument. */
  function Pieces(args: seq<Argument>, pointers: bool, compilable: bool): (r: seq<string>)
    requires ArgsTyped(args, pointers)
    ensures |r| == |args|
    ensures forall i :: 0 <= i < |args| ==> r[i] == ArgPiece(args[i], i == |args| - 1, pointers, compilable)
  {
    seq(|args|, i requires 0 <= i < |args| => ArgPiece(args[i], i == |args| - 1, pointers, compilable))
  }

  /** The argument list `dumpMethodArgs` writes. */
  function ArgsText(args: seq<Argument>, pointers: bool, compilable: bool): string
    requires ArgsTyped(args, pointers)
  {
    Flatten(Pieces(args, pointers, compilable))
  }

  function RenameArg(a: Argument): Argument
  {
    if a.name == "this" then a.(name := "self") else a
  }

  /** The arguments after the pointer-mode rename of `this` to `self`. */
  function RenameThis(args: seq<Argument>): (r: seq<Argument>)
    ensures |r| == |args|
    ensures forall i :: 0 <= i < |args| ==> r[i] == RenameArg(args[i])
  {
    seq(|args|, i requires 0 <= i < |args| => RenameArg(args[i]))
  }

  /**
   * `dumpMethodArgs`: writes the arguments and, in pointer mode, renames each
   * `this` argument to `self` in place.
   */
  method DumpMethodArgs(args: seq<Argument>, pointers: bool, compilable: bool) returns (text: string, renamed: seq<Argument>)
    requires ArgsTyped(args, pointers)
    ensures text == ArgsText(args, pointers, compilable)
    ensures renamed == if pointers then RenameThis(args) else args
  {
    text := [];
    renamed := args;
    var i := 0;
    while i < |args|
      invariant i <= |args|
      invariant ArgsWritten(text, renamed, args, i, pointers, compilable)
    {
      text, renamed := DumpArg(args, i, pointers, compilable, text, renamed);
      i := i + 1;
    }
    assert Pieces(args, pointers, compilable)[..i] == Pieces(args, pointers, compilable);
    if pointers {
      assert renamed == RenameThis(args);
    } else {
      assert renamed == args;
    }
  }

  /**
   * After the first `i` rounds of `dumpMethodArgs`: `text` holds their pieces,
   * and the first `i` arguments are renamed as the mode says, the rest untouched.
   */
  predicate ArgsWritten(text: string, renamed: seq<Argument>, args: seq<Argument>, i: nat, pointers: bool, compilable: bool)
    requires ArgsTyped(args, pointers) && i <= |args|
  {
    |renamed| == |args| &&
    text == Flatten(Pieces(args, pointers, compilable)[..i]) &&
    (forall j :: 0 <= j < i ==> renamed[j] == if pointers then RenameArg(args[j]) else args[j]) &&
    (forall j :: i <= j < |args| ==> renamed[j] == args[j])
  }

  /** One round of `dumpMethodArgs`: the `i`th argument is skipped, or renamed and written. */
  method DumpArg(args: seq<Argument>, i: nat, pointers: bool, compilable: bool, text: string, renamed: seq<Argument>)
      returns (text': string, renamed': seq<Argument>)
    requires ArgsTyped(args, pointers) && i < |args|
    requires ArgsWritten(text, renamed, args, i, pointers, compilable)
    ensures ArgsWritten(text', renamed', args, i + 1, pointers, compilable)
  {
    ghost var pieces := Pieces(args, pointers, compilable);
    FlattenStep(pieces, i);
    text', renamed' := text, renamed;
    var arg := renamed[i];
    if arg.name == "this" {
      if pointers {
        arg := arg.(name := "self");
        renamed' := renamed[i := arg];
      } else {
        // a `this` argument is skipped in declaration mode
        assert pieces[i] == [];
        return;
      }
    }
    var piece := PrintType(arg.typePtr.value, compilable) + (if arg.name != [] then " " else "") + arg.name;
    if i != |args| - 1 {
      piece := piece + ", ";
    }
    PieceWritten(args[i], arg, i == |args| - 1, pointers, compilable, piece);
    text' := text + piece;
  }

  lemma FlattenStep(parts: seq<string>, i: nat)
    requires i < |parts|
    ensures Flatten(parts[..i + 1]) == Flatten(parts[..i]) + parts[i]
  {
    assert parts[..i + 1][..i] == parts[..i];
  }

  /** One round of `dumpMethodArgs` writes the argument's piece. */
  lemma PieceWritten(a: Argument, arg: Argument, isLast: bool, pointers: bool, compilable: bool, piece: string)
    requires a.typePtr.Some? && !Skipped(a, pointers)
    requires arg == if pointers then RenameArg(a) else a
    requires piece == PrintType(arg.typePtr.value, compilable) + (if arg.name != [] then " " else "") + arg.name +
      (if isLast then "" else ", ")
    ensures piece == ArgPiece(a, isLast, pointers, compilable)
  {
  }

  /**
   * The in-place rename is invisible in pointer-mode text: writing the
   * renamed arguments again gives the same text, so the repeated calls of
   * the pointer section print what the first call printed.
   */
  lemma RenameInvisible(args: seq<Argument>, compilable: bool)
    requires ArgsTyped(args, true)
    ensures ArgsTyped(RenameThis(args), true)
    ensures ArgsText(RenameThis(args), true, compilable) == ArgsText(args, true, compilable)
    ensures RenameThis(RenameThis(args)) == RenameThis(args)
  {
    var renamed := RenameThis(args);
    forall i | 0 <= i < |args|
      ensures ArgPiece(renamed[i], i == |args| - 1, true, compilable) == ArgPiece(args[i], i == |args| - 1, true, compilable)
    {
    }
    assert Pieces(renamed, true, compilable) == Pieces(args, true, compilable);
  }

  lemma PiecesCons(a: Argument, rest: seq<Argument>, pointers: bool, compilable: bool)
    requires (!Skipped(a, pointers) ==> a.typePtr.Some?) && ArgsTyped(rest, pointers)
    ensures ArgsTyped([a] + rest, pointers)
    ensures Pieces([a] + rest, pointers, compilable) == [ArgPiece(a, rest == [], pointers, compilable)] + Pieces(rest, pointers, compilable)
  {
    var all := [a] + rest;
    assert ArgsTyped(all, pointers) by {
      forall i | 0 <= i < |all| && !Skipped(all[i], pointers) ensures all[i].typePtr.Some? {
        if i > 0 {
          assert all[i] == rest[i - 1];
        }
      }
    }
    var l := Pieces(all, pointers, compilable);
    var r := [ArgPiece(a, rest == [], pointers, compilable)] + Pieces(rest, pointers, compilable);
    forall i | 0 <= i < |all| ensures l[i] == r[i] {
      if i > 0 {
        assert all[i] == rest[i - 1];
      }
    }
  }

  /**
   * A leading `this` vanishes from a declaration without leaving a stray
   * ", "; in pointer mode it is written as `self` followed by the others.
   */
  lemma LeadingThis(a: Argument, rest: seq<Argument>, compilable: bool)
    requires a.name == "this" && ArgsTyped(rest, false)
    ensures ArgsTyped([a] + rest, false)
    ensures ArgsText([a] + rest, false, compilable) == ArgsText(rest, false, compilable)
    ensures a.typePtr.Some? && ArgsTyped(rest, true) ==>
      ArgsTyped([a] + rest, true) &&
      ArgsText([a] + rest, true, compilable) ==
        PrintType(a.typePtr.value, compilable) + " self" + (if rest != [] then ", " else "") + ArgsText(rest, true, compilable)
  {
    PiecesCons(a, rest, false, compilable);
    FlattenCons(ArgPiece(a, rest == [], false, compilable), Pieces(rest, false, compilable));
    if a.typePtr.Some? && ArgsTyped(rest, true) {
      PiecesCons(a, rest, true, compilable);
      FlattenCons(ArgPiece(a, rest == [], true, compilable), Pieces(rest, true, compilable));
      SelfPiece(a, rest == [], compilable);
    }
  }

  /** In pointer mode a `this` argument is written as `TYPE self`. */
  lemma SelfPiece(a: Argument, isLast: bool, compilable: bool)
    requires a.name == "this" && a.typePtr.Some?
    ensures ArgPiece(a, isLast, true, compilable) ==
      PrintType(a.typePtr.value, compilable) + " self" + (if isLast then "" else ", ")
  {
    assert " " + "self" == " self";
  }

  /** Without a `this` argument both modes write the same list. */
  lemma ModesAgreeWithoutThis(args: seq<Argument>, compilable: bool)
    requires ArgsTyped(args, false)
    requires forall i :: 0 <= i < |args| ==> args[i].name != "this"
    ensures ArgsTyped(args, true)
    ensures ArgsText(args, false, compilable) == ArgsText(args, true, compilable)
  {
    assert Pieces(args, false, compilable) == Pieces(args, true, compilable);
  }

  // --------------------------------------------------- accessibility labelling

  /** One member line, with the accessibility it is declared under. */
  datatype Entry = Entry(access: Accessibility, text: string)

  /** The running accessibility after the entries: that of the last one, or `start`. */
  function LastAccess(entries: seq<Entry>, start: Accessibility): Accessibility
  {
    if entries == [] then start else entries[|entries| - 1].access
  }

  /**
   * The entries as written with a running accessibility: a labels line goes
   * before an entry whose accessibility differs from the running one.
   */
  function Labelled(entries: seq<Entry>, start: Accessibility, labels: Accessibility -> string): string
  {
    if entries == [] then []
    else
      var init := entries[..|entries| - 1];
      var e := entries[|entries| - 1];
      Labelled(init, start, labels) + EntryText(e, LastAccess(init, start), labels)
  }

  /** One entry written after one of accessibility `previous`: a labels line first when they differ. */
  function EntryText(e: Entry, previous: Accessibility, labels: Accessibility -> string): string
  {
    (if e.access != previous then labels(e.access) + ":\n" else "") + e.text
  }

  /** The accessibility of the entry written just before entry `i`, or `start`. */
  function Previous(entries: seq<Entry>, start: Accessibility, i: nat): Accessibility
    requires i < |entries|
  {
    if i == 0 then start else entries[i - 1].access
  }

  /** Entry `i` as written: its labels exactly when its accessibility differs from the previous one. */
  function Chunk(entries: seq<Entry>, start: Accessibility, labels: Accessibility -> string, i: nat): string
    requires i < |entries|
  {
    EntryText(entries[i], Previous(entries, start, i), labels)
  }

  function Chunks(entries: seq<Entry>, start: Accessibility, labels: Accessibility -> string, n: nat): string
    requires n <= |entries|
  {
    if n == 0 then [] else Chunks(entries, start, labels, n - 1) + Chunk(entries, start, labels, n - 1)
  }

  /** The running accessibility emits a labels exactly where it differs from the previous entry's. */
  lemma {:induction false} LabelledIsChunks(entries: seq<Entry>, start: Accessibility, labels: Accessibility -> string, n: nat)
    requires n <= |entries|
    ensures Labelled(entries[..n], start, labels) == Chunks(entries, start, labels, n)
  {
    if n > 0 {
      LabelledIsChunks(entries, start, labels, n - 1);
      assert entries[..n][..n - 1] == entries[..n - 1];
    }
  }

  /**
   * Writing two runs one after the other, the second starting from the
   * accessibility the first ends with, is writing them as one run.
   */
  lemma {:induction false} LabelledAppend(a: seq<Entry>, b: seq<Entry>, start: Accessibility, labels: Accessibility -> string)
    ensures Labelled(a + b, start, labels) == Labelled(a, start, labels) + Labelled(b, LastAccess(a, start), labels)
    ensures LastAccess(a + b, start) == LastAccess(b, LastAccess(a, start))
  {
    if b == [] {
      assert a + b == a;
    } else {
      var init := b[..|b| - 1];
      var e := b[|b| - 1];
      LabelledAppend(a, init, start, labels);
      assert (a + b)[..|a + b| - 1] == a + init;
      assert (a + b)[|a + b| - 1] == e;
      var text := EntryText(e, LastAccess(a + init, start), labels);
      assert Labelled(a + b, start, labels) == Labelled(a + init, start, labels) + text;
      assert Labelled(b, LastAccess(a, start), labels) == Labelled(init, LastAccess(a, start), labels) + text;
    }
  }

  // -------------------------------------------------------------------- members

  /** The fields shown: in pointer mode only those with an address. */
  function ShownFields(fields: seq<Field>, showAsPointers: bool): seq<Field>
  {
    if fields == [] then []
    else
      var init := ShownFields(fields[..|fields| - 1], showAsPointers);
      var f := fields[|fields| - 1];
      if showAsPointers && f.address == 0 then init else init + [f]
  }

  /** Pointer mode hides exactly the fields without an address, and the other mode hides none. */
  lemma {:induction false} ShownFieldsMembers(fields: seq<Field>, showAsPointers: bool)
    ensures forall f :: f in ShownFields(fields, showAsPointers) <==> f in fields && !(showAsPointers && f.address == 0)
    ensures !showAsPointers ==> ShownFields(fields, showAsPointers) == fields
  {
    if fields != [] {
      var f := fields[|fields| - 1];
      ShownFieldsMembers(fields[..|fields| - 1], showAsPointers);
      assert forall x :: x in fields <==> x in fields[..|fields| - 1] || x == f;
      assert fields == fields[..|fields| - 1] + [f];
    }
  }

  predicate FieldsTyped(fields: seq<Field>)
  {
    forall i :: 0 <= i < |fields| ==> fields[i].typePtr.Some?
  }

  /** Every field the mode shows has a type; in pointer mode a field without an address may have none. */
  predicate ShownTyped(fields: seq<Field>, showAsPointers: bool)
  {
    forall i :: 0 <= i < |fields| && !(showAsPointers && fields[i].address == 0) ==> fields[i].typePtr.Some?
  }

  /** The return type, and the type of every argument written in this mode, are set. */
  predicate MethodRenderable(m: Method, pointers: bool)
  {
    m.returnType.Some? && ArgsTyped(m.args, pointers)
  }

  predicate MethodsRenderable(methods: seq<Method>, pointers: bool)
  {
    forall i :: 0 <= i < |methods| ==> MethodRenderable(methods[i], pointers)
  }

  /**
   * Every pointer the renderer dereferences in this mode is set: the types of
   * the shown fields, and the return and argument types of the listed methods
   * (the defined ones in pointer mode, which the pointer section lists too).
   */
  predicate Renderable(cls: Type, config: DumpConfig)
  {
    ShownTyped(cls.fields, config.showAsPointers) && MethodsRenderable(ShownMethods(cls, config), config.showAsPointers)
  }

  /** `[static] TYPE [* ]NAME;` for a field in the class body. */
  function FieldLine(f: Field, cls: Type, config: DumpConfig, indent: string): string
    requires f.typePtr.Some?
  {
    indent + (if f.isStatic then "static " else "") + PrintType(f.typePtr.value, config.compilable) + " " +
    (if config.showAsPointers && f.isStatic then "* " else "") + GetName(f.name, cls.name) + ";\n"
  }

  function FieldEntries(fields: seq<Field>, cls: Type, config: DumpConfig, indent: string): (r: seq<Entry>)
    requires FieldsTyped(fields)
    ensures |r| == |fields|
  {
    if fields == [] then []
    else
      var f := fields[|fields| - 1];
      FieldEntries(fields[..|fields| - 1], cls, config, indent) + [Entry(f.accessibility, FieldLine(f, cls, config, indent))]
  }

  /** A method's name as written in the class body. */
  function MethodName(m: Method, cls: Type, compilable: bool): string
  {
    Display(GetName(m.name, cls.name), compilable)
  }

  /** Methods with special characters, or named like the class, are commented out in compilable mode. */
  predicate CommentedOut(name: string, className: string, compilable: bool)
  {
    compilable && (HasAnyOf(name, InvalidCharacters) || name == className)
  }

  /** A method line of the class body. */
  function MethodLine(m: Method, cls: Type, config: DumpConfig, indent: string): string
    requires MethodRenderable(m, config.showAsPointers)
  {
    var name := MethodName(m, cls, config.compilable);
    var comment := if CommentedOut(name, cls.name, config.compilable) then "//" else "";
    var ret := PrintType(m.returnType.value, config.compilable);
    var space := if m.returnType.value.typeName != [] then " " else "";
    var args := ArgsText(m.args, config.showAsPointers, config.compilable);
    if config.showAsPointers then
      comment + (if IsDestructorName(name) then "//" else "") + indent + "static " + ret + space + "(*" + name + ")(" +
      args + ");\n"
    else
      comment + indent + (if m.isVirtual then "virtual " else "") + (if m.isStatic then "static " else "") +
      ret + space + name + "(" + args + ");\n"
  }

  /**
   * In the class body the name is already cleared in compilable mode, so a
   * method is commented out there only when it is named like the class.
   */
  lemma BodyCommentRule(m: Method, cls: Type)
    ensures CommentedOut(MethodName(m, cls, true), cls.name, true) <==> MethodName(m, cls, true) == cls.name
  {
    ClearedHasNoInvalid(GetName(m.name, cls.name));
  }

  function MethodEntries(methods: seq<Method>, cls: Type, config: DumpConfig, indent: string): (r: seq<Entry>)
    requires MethodsRenderable(methods, config.showAsPointers)
    ensures |r| == |methods|
  {
    if methods == [] then []
    else
      var m := methods[|methods| - 1];
      MethodEntries(methods[..|methods| - 1], cls, config, indent) + [Entry(m.accessibility, MethodLine(m, cls, config, indent))]
  }

  /** The methods listed in the body: the defined ones in pointer mode, all of them otherwise. */
  function ShownMethods(cls: Type, config: DumpConfig): seq<Method>
  {
    if config.showAsPointers then cls.fullyDefinedMethods else cls.allMethods
  }

  function BodyFieldEntries(cls: Type, config: DumpConfig, indent: string): seq<Entry>
    requires ShownTyped(cls.fields, config.showAsPointers)
  {
    ShownFieldsTyped(cls.fields, config.showAsPointers);
    FieldEntries(ShownFields(cls.fields, config.showAsPointers), cls, config, indent)
  }

  function BodyMethodEntries(cls: Type, config: DumpConfig, indent: string): seq<Entry>
    requires Renderable(cls, config)
  {
    MethodEntries(ShownMethods(cls, config), cls, config, indent)
  }

  /** The blank line between fields and methods (it looks at the defined methods in either mode). */
  function Separator(cls: Type): string
  {
    if cls.fields != [] && cls.fullyDefinedMethods != [] then "\n" else ""
  }

  /** The member lines of the class body; the methods continue the fields' running accessibility. */
  function Body(cls: Type, config: DumpConfig, labels: Accessibility -> string, indent: string): string
    requires Renderable(cls, config)
  {
    var fields := BodyFieldEntries(cls, config, indent);
    Labelled(fields, NONE, labels) + Separator(cls) +
    Labelled(BodyMethodEntries(cls, config, indent), LastAccess(fields, NONE), labels)
  }

  /**
   * Apart from the blank separator line, the body is one labelled run over
   * the shown fields and then the shown methods, starting from NONE.
   */
  lemma BodyIsOneRun(cls: Type, config: DumpConfig, labels: Accessibility -> string, indent: string)
    requires Renderable(cls, config)
    ensures var fields := BodyFieldEntries(cls, config, indent);
      var methods := BodyMethodEntries(cls, config, indent);
      Labelled(fields + methods, NONE, labels) ==
        Labelled(fields, NONE, labels) + Labelled(methods, LastAccess(fields, NONE), labels)
  {
    LabelledAppend(BodyFieldEntries(cls, config, indent), BodyMethodEntries(cls, config, indent), NONE, labels);
  }

  // ---------------------------------------------------------- dependent types

  /** The line for one dependent type: an include for the first base class, a forward declaration otherwise. */
  function DependentLine(d: string, cls: Type, config: DumpConfig): string
  {
    if cls.baseTypes != [] && d == cls.baseTypes[0].name && !config.useOnlyForwardDeclarations then
      "#include \"" + ClearString(d) + ".hpp\"\n"
    else
      "class " + Display(d, config.compilable) + ";\n"
  }

  /** A dependent type is included exactly when it is the first base class and includes are allowed. */
  lemma IncludeOnlyForBase(d: string, cls: Type, config: DumpConfig)
    ensures StartsWith(DependentLine(d, cls, config), "#include") <==>
      cls.baseTypes != [] && d == cls.baseTypes[0].name && !config.useOnlyForwardDeclarations
  {
    var r := DependentLine(d, cls, config);
    if !(cls.baseTypes != [] && d == cls.baseTypes[0].name && !config.useOnlyForwardDeclarations) {
      assert r[0] == 'c';
    } else {
      assert r[..8] == "#include";
    }
  }

  function DependentLines(deps: seq<string>, cls: Type, config: DumpConfig): string
  {
    if deps == [] then []
    else DependentLines(deps[..|deps| - 1], cls, config) + DependentLine(deps[|deps| - 1], cls, config)
  }

  /** The include and forward-declaration block, followed by a blank line when it has two or more lines. */
  function DependentsBlock(cls: Type, config: DumpConfig): string
  {
    if config.addIncludesOrDeclarations then
      DependentLines(cls.dependentTypes, cls, config) + (if |cls.dependentTypes| > 1 then "\n" else "")
    else []
  }

  // ---------------------------------------------------------- pointer section

  /** `TYPE * NAME = (TYPE*) 0xADDRESS;` for a field with an address. */
  function PointerFieldLine(f: Field, compilable: bool): string
    requires f.typePtr.Some?
  {
    var t := PrintType(f.typePtr.value, compilable);
    t + " * " + f.name + " = (" + t + "*) 0x" + HexText(f.address) + ";\n"
  }

  /** The field definitions of the pointer section: fields without an address are left out. */
  function PointerFieldLines(fields: seq<Field>, compilable: bool): string
    requires ShownTyped(fields, true)
  {
    if fields == [] then []
    else
      var f := fields[|fields| - 1];
      var before := PointerFieldLines(fields[..|fields| - 1], compilable);
      if f.address == 0 then before else before + PointerFieldLine(f, compilable)
  }

  /** `RET (*CLASS::NAME)(ARGS) = (RET (*)(ARGS)) 0xADDRESS;` for a defined method. */
  function PointerMethodLine(m: Method, cls: Type, compilable: bool): string
    requires MethodRenderable(m, true)
  {
    var name := GetName(m.name, cls.name);
    var ret := PrintType(m.returnType.value, compilable);
    var args := ArgsText(m.args, true, compilable);
    (if CommentedOut(name, cls.name, compilable) then "//" else "") +
    (if IsDestructorName(name) then "//" else "") +
    ret + " (*" + cls.name + "::" + name + ")(" + args + ") = (" + ret + " (*)(" + args + ")) 0x" + HexText(m.address) + ";\n"
  }

  function PointerMethodLines(methods: seq<Method>, cls: Type, compilable: bool): string
    requires MethodsRenderable(methods, true)
  {
    if methods == [] then []
    else PointerMethodLines(methods[..|methods| - 1], cls, compilable) + PointerMethodLine(methods[|methods| - 1], cls, compilable)
  }

  /** The pointer definitions written after the class in pointer mode. */
  function PointerSection(cls: Type, compilable: bool): string
    requires ShownTyped(cls.fields, true) && MethodsRenderable(cls.fullyDefinedMethods, true)
  {
    PointerFieldLines(cls.fields, compilable) + "\n" + PointerMethodLines(cls.fullyDefinedMethods, cls, compilable)
  }

  // ---------------------------------------------------------- the declaration

  function GuardOpen(cls: Type): string
  {
    var name := ClearString(cls.name);
    "#ifndef " + name + "_H\n" + "#define " + name + "_H\n\n"
  }

  const GuardClose: string := "#endif\n\n"

  /** The comment with the original name, when clearing changes it. */
  function OriginalName(cls: Type): string
  {
    if ClearString(cls.name) != cls.name then "// Original Name: " + cls.name + "\n" else ""
  }

  /** `class NAME[ : public BASE] {` */
  function ClassLine(cls: Type, compilable: bool): string
  {
    "class " + Display(cls.name, compilable) +
    (if cls.baseTypes != [] then " : public " + Display(cls.baseTypes[0].name, compilable) else "") + " {\n"
  }

  /** Everything between the banner (and opening guard) and the closing guard. */
  function Middle(cls: Type, config: DumpConfig, labels: Accessibility -> string): string
    requires Renderable(cls, config) && config.indent >= 0
  {
    var indent := seq(config.indent, _ => ' ');
    DependentsBlock(cls, config) + OriginalName(cls) + ClassLine(cls, config.compilable) +
    Body(cls, config, labels, indent) + "};\n" + (if config.showAsPointers then PointerSection(cls, config.compilable) else "")
  }

  /** The text `dump(cls, config)` returns. */
  function Declaration(cls: Type, config: DumpConfig, labels: Accessibility -> string): string
    requires Renderable(cls, config) && config.indent >= 0
  {
    Banner + (if config.addGuards then GuardOpen(cls) else "") + Middle(cls, config, labels) +
    (if config.addGuards then GuardClose else "")
  }

  // ---------------------------------------------------------- the rendering

  lemma LabelledSnoc(entries: seq<Entry>, e: Entry, start: Accessibility, labels: Accessibility -> string)
    ensures e.access != LastAccess(entries, start) ==>
      Labelled(entries + [e], start, labels) == Labelled(entries, start, labels) + labels(e.access) + ":\n" + e.text
    ensures e.access == LastAccess(entries, start) ==>
      Labelled(entries + [e], start, labels) == Labelled(entries, start, labels) + e.text
    ensures LastAccess(entries + [e], start) == e.access
  {
    assert (entries + [e])[..|entries|] == entries;
  }

  lemma ShownFieldsStep(fields: seq<Field>, i: nat, showAsPointers: bool)
    requires i < |fields|
    ensures showAsPointers && fields[i].address == 0 ==> ShownFields(fields[..i + 1], showAsPointers) == ShownFields(fields[..i], showAsPointers)
    ensures !(showAsPointers && fields[i].address == 0) ==>
      ShownFields(fields[..i + 1], showAsPointers) == ShownFields(fields[..i], showAsPointers) + [fields[i]]
  {
    assert fields[..i + 1][..i] == fields[..i];
  }

  lemma ShownFieldsTyped(fields: seq<Field>, showAsPointers: bool)
    requires ShownTyped(fields, showAsPointers)
    ensures FieldsTyped(ShownFields(fields, showAsPointers))
  {
    var shown := ShownFields(fields, showAsPointers);
    ShownFieldsMembers(fields, showAsPointers);
    forall i | 0 <= i < |shown| ensures shown[i].typePtr.Some? {
      assert shown[i] in fields;
      var j :| 0 <= j < |fields| && fields[j] == shown[i];
    }
  }

  lemma FieldEntriesSnoc(fields: seq<Field>, f: Field, cls: Type, config: DumpConfig, indent: string)
    requires FieldsTyped(fields) && f.typePtr.Some?
    ensures FieldsTyped(fields + [f])
    ensures FieldEntries(fields + [f], cls, config, indent) ==
      FieldEntries(fields, cls, config, indent) + [Entry(f.accessibility, FieldLine(f, cls, config, indent))]
  {
    assert (fields + [f])[..|fields|] == fields;
  }

  /**
   * Writing one member after the text of the earlier ones: its accessibility
   * label first when it differs from the running one, then its line.
   */
  method WriteEntry(ghost entries: seq<Entry>, e: Entry, start: Accessibility, labels: Accessibility -> string,
                    text: string, current: Accessibility)
      returns (text': string, current': Accessibility)
    requires text == Labelled(entries, start, labels) && current == LastAccess(entries, start)
    ensures text' == Labelled(entries + [e], start, labels)
    ensures current' == LastAccess(entries + [e], start) == e.access
  {
    LabelledSnoc(entries, e, start, labels);
    text' := text;
    current' := current;
    if e.access != current {
      text' := text' + labels(e.access) + ":\n";
      current' := e.access;
    }
    text' := text' + e.text;
  }

  /** How the shown field entries grow by one source field. */
  lemma FieldsStep(fields: seq<Field>, i: nat, cls: Type, config: DumpConfig, indent: string)
    requires ShownTyped(fields, config.showAsPointers) && i < |fields|
    ensures FieldsTyped(ShownFields(fields[..i], config.showAsPointers))
    ensures FieldsTyped(ShownFields(fields[..i + 1], config.showAsPointers))
    ensures var before := FieldEntries(ShownFields(fields[..i], config.showAsPointers), cls, config, indent);
      var after := FieldEntries(ShownFields(fields[..i + 1], config.showAsPointers), cls, config, indent);
      if config.showAsPointers && fields[i].address == 0 then after == before
      else after == before + [Entry(fields[i].accessibility, FieldLine(fields[i], cls, config, indent))]
  {
    ShownFieldsStep(fields, i, config.showAsPointers);
    assert ShownTyped(fields[..i], config.showAsPointers) && ShownTyped(fields[..i + 1], config.showAsPointers);
    ShownFieldsTyped(fields[..i], config.showAsPointers);
    ShownFieldsTyped(fields[..i + 1], config.showAsPointers);
    var shown := ShownFields(fields[..i], config.showAsPointers);
    if config.showAsPointers && fields[i].address == 0 {
      assert ShownFields(fields[..i + 1], config.showAsPointers) == shown;
    } else {
      FieldEntriesSnoc(shown, fields[i], cls, config, indent);
    }
  }

  /** The entries of the shown fields among the first `n`, as the field loop of `dump` meets them. */
  function ShownEntries(fields: seq<Field>, n: nat, cls: Type, config: DumpConfig, indent: string): seq<Entry>
    requires ShownTyped(fields, config.showAsPointers) && n <= |fields|
  {
    if n == 0 then []
    else
      var f := fields[n - 1];
      var init := ShownEntries(fields, n - 1, cls, config, indent);
      if config.showAsPointers && f.address == 0 then init
      else init + [Entry(f.accessibility, FieldLine(f, cls, config, indent))]
  }

  lemma ShownEntriesStep(fields: seq<Field>, i: nat, cls: Type, config: DumpConfig, indent: string)
    requires ShownTyped(fields, config.showAsPointers) && i < |fields|
    ensures config.showAsPointers && fields[i].address == 0 ==>
      ShownEntries(fields, i + 1, cls, config, indent) == ShownEntries(fields, i, cls, config, indent)
    ensures !(config.showAsPointers && fields[i].address == 0) ==>
      ShownEntries(fields, i + 1, cls, config, indent) ==
        ShownEntries(fields, i, cls, config, indent) + [Entry(fields[i].accessibility, FieldLine(fields[i], cls, config, indent))]
  {
  }

  /** Meeting the fields one by one gives the entries of the shown fields. */
  lemma {:induction false} ShownEntriesAreShown(fields: seq<Field>, n: nat, cls: Type, config: DumpConfig, indent: string)
    requires ShownTyped(fields, config.showAsPointers) && n <= |fields|
    ensures FieldsTyped(ShownFields(fields[..n], config.showAsPointers))
    ensures ShownEntries(fields, n, cls, config, indent) == FieldEntries(ShownFields(fields[..n], config.showAsPointers), cls, config, indent)
  {
    if n == 0 {
      assert fields[..n] == [];
    } else {
      ShownEntriesAreShown(fields, n - 1, cls, config, indent);
      ShownFieldsStep(fields, n - 1, config.showAsPointers);
      if !(config.showAsPointers && fields[n - 1].address == 0) {
        FieldEntriesSnoc(ShownFields(fields[..n - 1], config.showAsPointers), fields[n - 1], cls, config, indent);
      }
    }
  }

  /** The field loop of `dump`: each shown field, after a label when its accessibility changes. */
  /** `text` and `current` are what the field loop has written after meeting the first `i` fields. */
  predicate FieldsWritten(text: string, current: Accessibility, fields: seq<Field>, i: nat, cls: Type, config: DumpConfig,
                          labels: Accessibility -> string, indent: string)
    requires ShownTyped(fields, config.showAsPointers) && i <= |fields|
  {
    text == Labelled(ShownEntries(fields, i, cls, config, indent), NONE, labels) &&
    current == LastAccess(ShownEntries(fields, i, cls, config, indent), NONE)
  }

  method DumpFields(cls: Type, config: DumpConfig, labels: Accessibility -> string, indent: string)
      returns (text: string, current: Accessibility)
    requires ShownTyped(cls.fields, config.showAsPointers)
    ensures text == Labelled(BodyFieldEntries(cls, config, indent), NONE, labels)
    ensures current == LastAccess(BodyFieldEntries(cls, config, indent), NONE)
  {
    text := [];
    current := NONE;
    var i := 0;
    while i < |cls.fields|
      invariant i <= |cls.fields|
      invariant FieldsWritten(text, current, cls.fields, i, cls, config, labels, indent)
    {
      text, current := DumpFieldEntry(cls.fields, i, cls, config, labels, indent, text, current);
      i := i + 1;
    }
    ShownEntriesAreBody(cls, config, indent);
  }

  /** Meeting every field gives the field entries of the class body. */
  lemma ShownEntriesAreBody(cls: Type, config: DumpConfig, indent: string)
    requires ShownTyped(cls.fields, config.showAsPointers)
    ensures ShownEntries(cls.fields, |cls.fields|, cls, config, indent) == BodyFieldEntries(cls, config, indent)
  {
    ShownEntriesAreShown(cls.fields, |cls.fields|, cls, config, indent);
    assert cls.fields[..|cls.fields|] == cls.fields;
  }

  /** One field of the class body: written with its label unless pointer mode skips it. */
  method DumpFieldEntry(fields: seq<Field>, i: nat, cls: Type, config: DumpConfig, labels: Accessibility -> string, indent: string,
                        text: string, current: Accessibility)
      returns (text': string, current': Accessibility)
    requires ShownTyped(fields, config.showAsPointers) && i < |fields|
    requires FieldsWritten(text, current, fields, i, cls, config, labels, indent)
    ensures FieldsWritten(text', current', fields, i + 1, cls, config, labels, indent)
  {
    ShownEntriesStep(fields, i, cls, config, indent);
    var field := fields[i];
    text', current' := text, current;
    // a field without an address is skipped in pointer mode
    if !(config.showAsPointers && field.address == 0) {
      var line := FieldLine(field, cls, config, indent);
      text', current' := WriteEntry(ShownEntries(fields, i, cls, config, indent), Entry(field.accessibility, line), NONE, labels,
                                    text, current);
    }
  }

  /** How the method entries grow by one method. */
  lemma MethodsStep(methods: seq<Method>, i: nat, cls: Type, config: DumpConfig, indent: string)
    requires MethodsRenderable(methods, config.showAsPointers) && i < |methods|
    ensures MethodsRenderable(methods[..i], config.showAsPointers) && MethodsRenderable(methods[..i + 1], config.showAsPointers)
    ensures MethodEntries(methods[..i + 1], cls, config, indent) ==
      MethodEntries(methods[..i], cls, config, indent) + [Entry(methods[i].accessibility, MethodLine(methods[i], cls, config, indent))]
  {
    assert methods[..i + 1][..i] == methods[..i];
  }

  /** One method line of the class body, written piece by piece. */
  method DumpMethodLine(m: Method, cls: Type, config: DumpConfig, indent: string) returns (line: string)
    requires MethodRenderable(m, config.showAsPointers)
    ensures line == MethodLine(m, cls, config, indent)
  {
    var name := GetName(m.name, cls.name);
    if config.compilable {
      name := ClearString(name);
    }
    line := [];
    if config.compilable && (HasAnyOf(name, InvalidCharacters) || name == cls.name) {
      line := "//";
    }
    var typeDisplayName := PrintType(m.returnType.value, config.compilable);
    var space := if m.returnType.value.typeName != [] then " " else "";
    if config.showAsPointers {
      line := line + (if |name| > 0 && name[0] == '~' then "//" else "");
      line := line + indent + "static " + typeDisplayName + space + "(*" + name + ")(";
    } else {
      line := line + indent + (if m.isVirtual then "virtual " else "") + (if m.isStatic then "static " else "") +
        typeDisplayName + space + name + "(";
    }
    var args, _ := DumpMethodArgs(m.args, config.showAsPointers, config.compilable);
    line := line + args + ");\n";
  }

  /** The entries of the first `n` methods, as the method loop of `dump` meets them. */
  function MethodEntriesUpTo(methods: seq<Method>, n: nat, cls: Type, config: DumpConfig, indent: string): seq<Entry>
    requires MethodsRenderable(methods, config.showAsPointers) && n <= |methods|
  {
    if n == 0 then []
    else MethodEntriesUpTo(methods, n - 1, cls, config, indent) + [Entry(methods[n - 1].accessibility, MethodLine(methods[n - 1], cls, config, indent))]
  }

  /** Meeting the methods one by one gives the entries of the first `n`. */
  lemma {:induction false} MethodEntriesUpToPrefix(methods: seq<Method>, n: nat, cls: Type, config: DumpConfig, indent: string)
    requires MethodsRenderable(methods, config.showAsPointers) && n <= |methods|
    ensures MethodsRenderable(methods[..n], config.showAsPointers)
    ensures MethodEntriesUpTo(methods, n, cls, config, indent) == MethodEntries(methods[..n], cls, config, indent)
  {
    if n > 0 {
      MethodEntriesUpToPrefix(methods, n - 1, cls, config, indent);
      MethodsStep(methods, n - 1, cls, config, indent);
    }
  }

  /** One pass of the method loop: the i-th method's line, after a label when its accessibility changes. */
  method DumpMethodEntry(methods: seq<Method>, i: nat, cls: Type, config: DumpConfig, labels: Accessibility -> string,
                         indent: string, start: Accessibility, text: string, current: Accessibility)
      returns (text': string, current': Accessibility)
    requires MethodsRenderable(methods, config.showAsPointers) && i < |methods|
    requires text == Labelled(MethodEntriesUpTo(methods, i, cls, config, indent), start, labels)
    requires current == LastAccess(MethodEntriesUpTo(methods, i, cls, config, indent), start)
    ensures text' == Labelled(MethodEntriesUpTo(methods, i + 1, cls, config, indent), start, labels)
    ensures current' == LastAccess(MethodEntriesUpTo(methods, i + 1, cls, config, indent), start)
  {
    var m := methods[i];
    var line := DumpMethodLine(m, cls, config, indent);
    text', current' := WriteEntry(MethodEntriesUpTo(methods, i, cls, config, indent), Entry(m.accessibility, line), start, labels,
                                  text, current);
  }

  /** The method loop of `dump`, continuing the running accessibility of the fields. */
  method DumpMethods(cls: Type, config: DumpConfig, labels: Accessibility -> string, indent: string, start: Accessibility)
      returns (text: string, current: Accessibility)
    requires Renderable(cls, config)
    ensures text == Labelled(BodyMethodEntries(cls, config, indent), start, labels)
    ensures current == LastAccess(BodyMethodEntries(cls, config, indent), start)
  {
    var methods := ShownMethods(cls, config);
    text := [];
    current := start;
    var i := 0;
    while i < |methods|
      invariant 0 <= i <= |methods|
      invariant text == Labelled(MethodEntriesUpTo(methods, i, cls, config, indent), start, labels)
      invariant current == LastAccess(MethodEntriesUpTo(methods, i, cls, config, indent), start)
    {
      text, current := DumpMethodEntry(methods, i, cls, config, labels, indent, start, text, current);
      i := i + 1;
    }
    MethodEntriesUpToPrefix(methods, i, cls, config, indent);
    assert methods[..i] == methods;
  }

  /** The include and forward-declaration loop of `dump`. */
  method DumpDependents(cls: Type, config: DumpConfig) returns (text: string)
    ensures text == DependentsBlock(cls, config)
  {
    text := [];
    if config.addIncludesOrDeclarations {
      var deps := cls.dependentTypes;
      var i := 0;
      while i < |deps|
        invariant 0 <= i <= |deps|
        invariant text == DependentLines(deps[..i], cls, config)
      {
        DependentLinesStep(deps, i, cls, config);
        var line := DependentLine(deps[i], cls, config);
        text := text + line;
        i := i + 1;
      }
      assert deps[..i] == deps;
      text := text + (if |deps| > 1 then "\n" else "");
    }
  }

  lemma DependentLinesStep(deps: seq<string>, i: nat, cls: Type, config: DumpConfig)
    requires i < |deps|
    ensures DependentLines(deps[..i + 1], cls, config) == DependentLines(deps[..i], cls, config) + DependentLine(deps[i], cls, config)
  {
    assert deps[..i + 1][..i] == deps[..i];
  }

  /** How the pointer lines of the fields grow by one field. */
  lemma PointerFieldsStep(fields: seq<Field>, i: nat, compilable: bool)
    requires ShownTyped(fields, true) && i < |fields|
    ensures ShownTyped(fields[..i], true) && ShownTyped(fields[..i + 1], true)
    ensures fields[i].address == 0 ==> PointerFieldLines(fields[..i + 1], compilable) == PointerFieldLines(fields[..i], compilable)
    ensures fields[i].address != 0 ==>
      PointerFieldLines(fields[..i + 1], compilable) == PointerFieldLines(fields[..i], compilable) + PointerFieldLine(fields[i], compilable)
  {
    assert fields[..i + 1][..i] == fields[..i];
  }

  /** How the pointer lines of the methods grow by one method. */
  lemma PointerMethodsStep(methods: seq<Method>, i: nat, cls: Type, compilable: bool)
    requires MethodsRenderable(methods, true) && i < |methods|
    ensures MethodsRenderable(methods[..i], true) && MethodsRenderable(methods[..i + 1], true)
    ensures PointerMethodLines(methods[..i + 1], cls, compilable) ==
      PointerMethodLines(methods[..i], cls, compilable) + PointerMethodLine(methods[i], cls, compilable)
  {
    assert methods[..i + 1][..i] == methods[..i];
  }

  /** The field loop of `dumpPointers`: a definition for each field with an address. */
  method DumpPointerFields(cls: Type, config: DumpConfig) returns (text: string)
    requires ShownTyped(cls.fields, true) && config.showAsPointers
    ensures text == PointerFieldLines(cls.fields, config.compilable)
  {
    var fields := cls.fields;
    text := [];
    var i := 0;
    while i < |fields|
      invariant 0 <= i <= |fields|
      invariant text == PointerFieldLines(fields[..i], config.compilable)
    {
      PointerFieldsStep(fields, i, config.compilable);
      var field := fields[i];
      if !(config.showAsPointers && field.address == 0) {
        var line := PointerFieldLine(field, config.compilable);
        text := text + line;
      }
      i := i + 1;
    }
    assert fields[..i] == fields;
  }

  /** The method loop of `dumpPointers`: a definition for each fully defined method. */
  method DumpPointerMethods(cls: Type, config: DumpConfig) returns (text: string)
    requires MethodsRenderable(cls.fullyDefinedMethods, true)
    ensures text == PointerMethodLines(cls.fullyDefinedMethods, cls, config.compilable)
  {
    var methods := cls.fullyDefinedMethods;
    text := [];
    var j := 0;
    while j < |methods|
      invariant 0 <= j <= |methods|
      invariant text == PointerMethodLines(methods[..j], cls, config.compilable)
    {
      PointerMethodsStep(methods, j, cls, config.compilable);
      var line := DumpPointerMethodLine(methods[j], cls, config.compilable);
      text := text + line;
      j := j + 1;
    }
    assert methods[..j] == methods;
  }

  /** `dumpPointers`: the pointer definitions of the fields with an address, a blank line, then the methods. */
  method DumpPointers(cls: Type, config: DumpConfig) returns (text: string)
    requires Renderable(cls, config) && config.showAsPointers
    ensures text == PointerSection(cls, config.compilable)
  {
    text := DumpPointerFields(cls, config);
    text := text + "\n";
    var methodText := DumpPointerMethods(cls, config);
    text := text + methodText;
  }

  /** One method definition of the pointer section, written piece by piece. */
  method DumpPointerMethodLine(m: Method, cls: Type, compilable: bool) returns (line: string)
    requires MethodRenderable(m, true)
    ensures line == PointerMethodLine(m, cls, compilable)
  {
    var methodName := GetName(m.name, cls.name);
    line := [];
    if compilable && (HasAnyOf(methodName, InvalidCharacters) || methodName == cls.name) {
      line := "//";
    }
    line := line + (if |methodName| > 0 && methodName[0] == '~' then "//" else "");
    var returnTypeDisplayName := PrintType(m.returnType.value, compilable);
    line := line + returnTypeDisplayName + " (*" + cls.name + "::" + methodName + ")(";
    var args, renamed := DumpMethodArgs(m.args, true, compilable);
    line := line + args;
    line := line + ") = (" + returnTypeDisplayName + " (*)(";
    RenameInvisible(m.args, compilable);
    // the second call sees the arguments the first call renamed
    var argsAgain, _ := DumpMethodArgs(renamed, true, compilable);
    line := line + argsAgain;
    line := line + ")) 0x" + HexText(m.address) + ";\n";
  }

  /** The dependent types, the class line, the members and, in pointer mode, the pointer section. */
  method DumpMiddle(cls: Type, config: DumpConfig, labels: Accessibility -> string) returns (text: string)
    requires Renderable(cls, config) && config.indent >= 0
    ensures text == Middle(cls, config, labels)
  {
    var indent := seq(config.indent, _ => ' ');
    text := DumpDependents(cls, config);
    var originalName := [];
    if ClearString(cls.name) != cls.name {
      originalName := "// Original Name: " + cls.name + "\n";
    }
    var classLine := ClassLine(cls, config.compilable);
    text := text + originalName + classLine;
    var fieldText, current := DumpFields(cls, config, labels, indent);
    var methodText, _ := DumpMethods(cls, config, labels, indent, current);
    var body := fieldText + Separator(cls) + methodText;
    text := text + body + "};\n";
    var pointers := [];
    if config.showAsPointers {
      pointers := DumpPointers(cls, config);
    }
    text := text + pointers;
  }

  /** `dump(cls, config)`: the text of one declaration. */
  method Dump(cls: Type, config: DumpConfig, labels: Accessibility -> string) returns (out: string)
    requires Renderable(cls, config) && config.indent >= 0
    ensures out == Declaration(cls, config, labels)
    ensures StartsWith(out, Banner + GuardOpen(cls)) <==> config.addGuards
    ensures EndsWith(out, GuardClose) <==> config.addGuards
  {
    var guardOpen := [];
    var guardClose := [];
    if config.addGuards {
      var compilableClassName := ClearString(cls.name);
      guardOpen := "#ifndef " + compilableClassName + "_H\n" + "#define " + compilableClassName + "_H\n\n";
      guardClose := "#endif\n\n";
    }
    var middle := DumpMiddle(cls, config, labels);
    MiddleStart(cls, config, labels);
    MiddleEnd(cls, config, labels);
    GuardOpenStart(cls);
    GuardFrame(GuardOpen(cls), middle, config.addGuards);
    out := Banner + guardOpen + middle + guardClose;
  }

  /** All declarations, in order. */
  function Declarations(types: seq<Type>, config: DumpConfig, labels: Accessibility -> string): (r: seq<string>)
    requires forall i :: 0 <= i < |types| ==> Renderable(types[i], config)
    requires config.indent >= 0
    ensures |r| == |types|
  {
    if types == [] then []
    else Declarations(types[..|types| - 1], config, labels) + [Declaration(types[|types| - 1], config, labels)]
  }

  lemma DeclarationsStep(types: seq<Type>, i: nat, config: DumpConfig, labels: Accessibility -> string)
    requires forall j :: 0 <= j < |types| ==> Renderable(types[j], config)
    requires config.indent >= 0 && i < |types|
    ensures Declarations(types[..i + 1], config, labels) == Declarations(types[..i], config, labels) + [Declaration(types[i], config, labels)]
  {
    assert types[..i + 1][..i] == types[..i];
  }

  /** `dump(types, config)`: one declaration per type, in order. */
  method DumpAll(types: seq<Type>, config: DumpConfig, labels: Accessibility -> string) returns (out: seq<string>)
    requires forall i :: 0 <= i < |types| ==> Renderable(types[i], config)
    requires config.indent >= 0
    ensures out == Declarations(types, config, labels)
  {
    out := [];
    var i := 0;
    while i < |types|
      invariant 0 <= i <= |types|
      invariant out == Declarations(types[..i], config, labels)
    {
      DeclarationsStep(types, i, config, labels);
      var text := Dump(types[i], config, labels);
      out := out + [text];
      i := i + 1;
    }
    assert types[..i] == types;
  }

  /** The declaration at each position is the one of the type at that position. */
  lemma {:induction false} DeclarationAt(types: seq<Type>, i: nat, config: DumpConfig, labels: Accessibility -> string)
    requires forall j :: 0 <= j < |types| ==> Renderable(types[j], config)
    requires config.indent >= 0 && i < |types|
    ensures Declarations(types, config, labels)[i] == Declaration(types[i], config, labels)
  {
    if i < |types| - 1 {
      DeclarationAt(types[..|types| - 1], i, config, labels);
    }
  }

  // ------------------------------------------------------------ include guards

  /** The text ends with a line ending in ";". */
  predicate LineEnd(s: string)
  {
    |s| >= 2 && s[|s| - 2] == ';' && s[|s| - 1] == '\n'
  }

  /** The text ends with ";\n" or ";\n\n". */
  predicate Closing(s: string)
  {
    LineEnd(s) || (|s| >= 1 && LineEnd(s[..|s| - 1]) && s[|s| - 1] == '\n')
  }

  /** The text does not start like "#if": its first character is not '#' or its third is 'n'. */
  predicate Opening(s: string)
  {
    |s| >= 3 && (s[0] != '#' || s[2] == 'n')
  }

  lemma LineEndConcat(a: string, b: string)
    requires LineEnd(b)
    ensures LineEnd(a + b)
  {
    assert (a + b)[|a + b| - 2] == b[|b| - 2];
    assert (a + b)[|a + b| - 1] == b[|b| - 1];
  }

  lemma OpeningConcat(a: string, b: string)
    requires Opening(a)
    ensures Opening(a + b)
  {
    assert (a + b)[0] == a[0] && (a + b)[2] == a[2];
  }

  lemma DependentLineStart(d: string, cls: Type, config: DumpConfig)
    ensures Opening(DependentLine(d, cls, config))
  {
  }

  lemma {:induction false} DependentLinesStart(deps: seq<string>, cls: Type, config: DumpConfig)
    ensures deps == [] || Opening(DependentLines(deps, cls, config))
  {
    if deps != [] {
      var init := deps[..|deps| - 1];
      var last := DependentLine(deps[|deps| - 1], cls, config);
      DependentLinesStart(init, cls, config);
      if init == [] {
        DependentLineStart(deps[|deps| - 1], cls, config);
        assert DependentLines(deps, cls, config) == [] + last;
      } else {
        OpeningConcat(DependentLines(init, cls, config), last);
      }
    }
  }

  lemma DependentsBlockStart(cls: Type, config: DumpConfig)
    ensures DependentsBlock(cls, config) == [] || Opening(DependentsBlock(cls, config))
  {
    DependentLinesStart(cls.dependentTypes, cls, config);
    if cls.dependentTypes != [] && config.addIncludesOrDeclarations {
      OpeningConcat(DependentLines(cls.dependentTypes, cls, config), if |cls.dependentTypes| > 1 then "\n" else "");
    }
  }

  /** A text made of an optional opening, another, and a class line never starts like "#if". */
  lemma OpeningOfParts(a: string, b: string, c: string, d: string, e: string, f: string)
    requires a == [] || Opening(a)
    requires b == [] || Opening(b)
    requires Opening(c)
    ensures Opening(a + b + c + d + e + f)
  {
    var abc := a + b + c;
    if a != [] {
      OpeningConcat(a, b + c);
      assert abc == a + (b + c);
    } else if b != [] {
      OpeningConcat(b, c);
      assert abc == b + c;
    } else {
      assert abc == c;
    }
    OpeningConcat(abc, d + e + f);
    assert a + b + c + d + e + f == abc + (d + e + f);
  }

  lemma OriginalNameStart(cls: Type)
    ensures OriginalName(cls) == [] || Opening(OriginalName(cls))
  {
  }

  lemma ClassLineStart(cls: Type, compilable: bool)
    ensures Opening(ClassLine(cls, compilable))
  {
  }

  /** The text after the banner and the opening guard never starts like a guard. */
  lemma MiddleStart(cls: Type, config: DumpConfig, labels: Accessibility -> string)
    requires Renderable(cls, config) && config.indent >= 0
    ensures Opening(Middle(cls, config, labels))
  {
    DependentsBlockStart(cls, config);
    OriginalNameStart(cls);
    ClassLineStart(cls, config.compilable);
    var indent := seq(config.indent, _ => ' ');
    OpeningOfParts(DependentsBlock(cls, config), OriginalName(cls), ClassLine(cls, config.compilable),
      Body(cls, config, labels, indent), "};\n", if config.showAsPointers then PointerSection(cls, config.compilable) else "");
  }

  lemma PointerFieldLineEnd(f: Field, compilable: bool)
    requires f.typePtr.Some?
    ensures LineEnd(PointerFieldLine(f, compilable))
  {
  }

  lemma {:induction false} PointerFieldLinesEnd(fields: seq<Field>, compilable: bool)
    requires ShownTyped(fields, true)
    ensures PointerFieldLines(fields, compilable) == [] || LineEnd(PointerFieldLines(fields, compilable))
  {
    if fields != [] {
      var init := fields[..|fields| - 1];
      var f := fields[|fields| - 1];
      PointerFieldLinesEnd(init, compilable);
      if f.address != 0 {
        PointerFieldLineEnd(f, compilable);
        LineEndConcat(PointerFieldLines(init, compilable), PointerFieldLine(f, compilable));
      } else {
        assert PointerFieldLines(fields, compilable) == PointerFieldLines(init, compilable);
      }
    }
  }

  lemma PointerMethodLinesEnd(methods: seq<Method>, cls: Type, compilable: bool)
    requires MethodsRenderable(methods, true)
    ensures methods == [] || LineEnd(PointerMethodLines(methods, cls, compilable))
  {
    if methods != [] {
      var m := methods[|methods| - 1];
      assert LineEnd(PointerMethodLine(m, cls, compilable));
      LineEndConcat(PointerMethodLines(methods[..|methods| - 1], cls, compilable), PointerMethodLine(m, cls, compilable));
    }
  }

  /** The closing "};" line, followed in pointer mode by the field lines, a blank line and the method lines. */
  lemma ClosingOfParts(head: string, pointers: bool, fieldLines: string, methodLines: string)
    requires fieldLines == [] || LineEnd(fieldLines)
    requires methodLines == [] || LineEnd(methodLines)
    ensures Closing(head + "};\n" + (if pointers then fieldLines + "\n" + methodLines else ""))
  {
    var x := head + "};\n";
    LineEndConcat(head, "};\n");
    var all := x + (if pointers then fieldLines + "\n" + methodLines else "");
    if !pointers {
      assert all == x;
    } else if methodLines != [] {
      LineEndConcat(x + (fieldLines + "\n"), methodLines);
      assert all == x + (fieldLines + "\n") + methodLines;
    } else if fieldLines == [] {
      assert all[..|all| - 1] == x;
    } else {
      LineEndConcat(x, fieldLines);
      assert all[..|all| - 1] == x + fieldLines;
    }
  }

  /** The text before the closing guard ends with ";\n" or ";\n\n", never like the closing guard. */
  lemma MiddleEnd(cls: Type, config: DumpConfig, labels: Accessibility -> string)
    requires Renderable(cls, config) && config.indent >= 0
    ensures Closing(Middle(cls, config, labels))
  {
    var indent := seq(config.indent, _ => ' ');
    var head := DependentsBlock(cls, config) + OriginalName(cls) + ClassLine(cls, config.compilable) + Body(cls, config, labels, indent);
    if config.showAsPointers {
      PointerFieldLinesEnd(cls.fields, config.compilable);
      PointerMethodLinesEnd(cls.fullyDefinedMethods, cls, config.compilable);
      ClosingOfParts(head, true, PointerFieldLines(cls.fields, config.compilable), PointerMethodLines(cls.fullyDefinedMethods, cls, config.compilable));
    } else {
      ClosingOfParts(head, false, [], []);
    }
  }

  lemma GuardOpenStart(cls: Type)
    ensures |GuardOpen(cls)| >= 3 && GuardOpen(cls)[0] == '#' && GuardOpen(cls)[2] == 'f'
  {
    var name := ClearString(cls.name);
    assert GuardOpen(cls) == "#ifndef " + (name + "_H\n" + "#define " + name + "_H\n\n");
  }

  /** Guards frame a text that neither starts nor ends like one exactly when they are asked for. */
  lemma GuardFrame(open: string, middle: string, guards: bool)
    requires |open| >= 3 && open[0] == '#' && open[2] == 'f'
    requires Opening(middle) && Closing(middle)
    ensures var d := Banner + (if guards then open else "") + middle + (if guards then GuardClose else "");
      (StartsWith(d, Banner + open) <==> guards) && (EndsWith(d, GuardClose) <==> guards)
  {
    var d := Banner + (if guards then open else "") + middle + (if guards then GuardClose else "");
    if guards {
      assert d == (Banner + open) + (middle + GuardClose);
      assert d[..|Banner + open|] == Banner + open;
      assert d[|d| - |GuardClose|..] == GuardClose;
    } else {
      assert d == Banner + middle;
      assert d[|Banner|] == middle[0] && d[|Banner| + 2] == middle[2];
      assert d[|d| - 3] == middle[|middle| - 3] && d[|d| - 2] == middle[|middle| - 2];
      assert !LineEnd(middle) ==> middle[|middle| - 3] == ';';
    }
  }

}
