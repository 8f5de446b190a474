# debugtocpp in Dafny

debugtocpp rebuilds C++ class declarations from the debug information of
compiled binaries. It reads CodeView type records from PDB files, DWARF
DIE trees and ELF symbol tables with Itanium-mangled names. From these it
builds one normalised `Type` per requested class: the class name, its base
classes, fields, declared methods (`allMethods`), the methods with a
definition and an address (`fullyDefinedMethods`), and the names of the
classes it depends on. An analyser then flags or drops compiler-generated
types and methods. A dumper writes each type as a C++ declaration, either
as a plain class body or as a list of pointers to static storage and
functions at their addresses.

This project models that engine. It starts from metadata that has
already been parsed and ends with the declaration text. The parsers
(retdec's pdbparser, libelfin and retdec's demangler) are not modelled.
Their output becomes the input datatypes:

- PDB type records are a closed union of base, const, pointer, class,
  struct, function and other records.
- DWARF DIEs are a finite tree of tag, ordered attributes and children.
- A demangled ELF symbol is a record.

Modules, one per component:

- `DebugTypes` (`debug_types.dfy`): the data model, with `TypePtr`,
  `Argument`, `Field`, `Method`, `Type` and the calling-convention names.
- `Utils`, `Strings` (`utils.dfy`, `strings.dfy`): `clearString`, `split`
  (as `std::getline` reads it), `demangleTypedef` with the
  `operator>>` number reader, and string order with sort-and-unique.
- `PdbRecords`, `PdbExtractor`, `PdbLegacy`: the PDB extractor.
  - `PdbExtractor` is the library revision. It is a class whose
    `allDependentClasses` field is updated in place.
  - `PdbLegacy` is the older application revision. It follows the same
    walk but has a different merge and qualifier rule.
- `DwarfDies`, `DwarfExtractor`: both DWARF revisions, told apart by a
  `Revision` parameter.
- `ElfExtractor`: the ELF symbol walker. It is a class with the same
  accumulator field.
- `Analyser`, `Dumper`, `Config`, `Driver`: the compiler-generated
  filter, the declaration writer, `DumpConfig`, and the extractor
  selection and option mapping of the command-line driver.

Loops in the source become methods with loop invariants. Each method is
proved equal to a recursive specification function. The properties the
source promises are proved as lemmas about those functions. In the
library PDB revision, a nested type is looked up by a call back into
`getType`. That call clears the dependent-type accumulator in the middle
of the walk and refills it with the nested type's own sorted,
duplicate-free dependents. The model keeps this behaviour: a type's
`dependentTypes` holds its last nested type's dependents and what was
collected after that nested type, and loses what was collected before
it.

## Model

| member | source | states |
|---|---|---|
| DebugTypes.MakeTypePtr | src/common/DebugTypes.hpp:41-48 | `TypePtr(type, isPointer)` sets only the name and the pointer flag; every other qualifier is off |
| DebugTypes.MakeField | src/common/DebugTypes.hpp:60-68 | `Field(name, type, offset)` stores exactly those three; address is 0, not static, no accessibility |
| DebugTypes.EmptyField | src/common/DebugTypes.hpp:70 | `Field()` has an empty name, no type, offset 0 and address 0 |
| DebugTypes.NewMethod | src/common/DebugTypes.hpp:73-85 | a fresh `Method` has address 0, callType 0, no arguments, no return type and every flag false |
| DebugTypes.NewType | src/common/DebugTypes.hpp:87-96 | `Type(name)` has that name and every list empty |
| DebugTypes.NearAndFarSpelledAlike | src/common/DebugTypes.hpp:17-39 | the near and far variants of cdecl, pascal, fastcall, stdcall and syscall have the same keyword |
| DebugTypes.CallingConventionCodes | src/common/DebugTypes.hpp:17-39 | the map has a keyword for exactly the codes 0x00 to 0x15 except 0x06 |
| Config.DefaultConfig | src/dumper/ClassDumper.hpp:12-22 | a default `DumpConfig` has indent 4 and every flag off |
| Strings.RFind | src/common/Analyser.cpp:36 | `rfind` gives the last position where the pattern occurs, or -1 when it occurs nowhere |
| Strings.SortUnique | lib/src/extractor/pdb/PDBExtractor.cpp:271-272 | `sort()` then `unique()` gives a strictly ascending list with the same members, never longer than the input |
| Strings.StrictlySortedUnique | lib/src/extractor/pdb/PDBExtractor.cpp:271-272 | two strictly ascending lists with the same members are equal, so sort-and-unique has exactly one result |
| Strings.LessTotal | lib/src/extractor/pdb/PDBExtractor.cpp:271 | two different strings are ordered one way or the other |
| Strings.LessTransitive | lib/src/extractor/pdb/PDBExtractor.cpp:271 | string order is transitive |
| Strings.LessIrreflexive | lib/src/extractor/pdb/PDBExtractor.cpp:271 | no string is less than itself |
| Strings.NatText | lib/src/extractor/elf/ELFExtractor.cpp:193 | `std::to_string` of a natural number is a non-empty run of digits with no leading zero |
| Strings.IntText | lib/src/extractor/elf/ELFExtractor.cpp:308 | `std::to_string` of an int is its magnitude's digits with no leading zero, after a '-' when negative, and those digits read back as the magnitude |
| Strings.DigitsValueOfNatText | src/utils/utils.hpp:62 | the decimal text of a number reads back as that number |
| Utils.ClearChar | src/utils/utils.hpp:13-15 | a character in ' '..'/', ':'..'@' or '['..'`' becomes '_'; any other character is kept |
| Utils.ClearString | src/utils/utils.hpp:11-19 | the length is kept and each character is cleared on its own |
| Utils.ClearStringInPlace | src/utils/utils.hpp:11-19 | the array is overwritten with its cleared text: replaced characters become '_' and the rest are untouched |
| Utils.ClearStringIdempotent | src/utils/utils.hpp:13-14 | clearing twice is the same as clearing once |
| Utils.ClearStringLeavesNoPunctuation | src/utils/utils.hpp:11-19 | every character of a cleared string is '_' or outside the replaced ranges |
| Utils.ClearStringKeepsClean | src/utils/utils.hpp:11-19 | a string with no character in the replaced ranges is unchanged |
| Utils.TakeTokenIsPrefix | src/utils/utils.hpp:26 | one `getline` token is the longest prefix without the delimiter, and when it is shorter than the input the delimiter follows it |
| Utils.GetLine | src/utils/utils.hpp:26 | one `getline` call from a position yields that token and the position after the consumed delimiter |
| Utils.SplitTokens | src/utils/utils.hpp:21-31 | the `getline` loop collects exactly the tokens of `Split` |
| Utils.SplitTokensHaveNoDelimiter | src/utils/utils.hpp:21-31 | no token contains the delimiter |
| Utils.SplitEdgeCases | src/utils/utils.hpp:21-31 | empty input gives no token; a leading delimiter gives an empty token; a lone delimiter gives a single empty token, so no final empty token follows a trailing delimiter |
| Utils.FirstToken | src/utils/utils.hpp:21-31 | the input is the first token, then a delimiter, then the rest, which splits into the remaining tokens |
| Utils.SplitJoinTerminated | src/utils/utils.hpp:21-31 | writing every token followed by the delimiter rebuilds the input, plus one delimiter when the input did not end with one |
| Utils.SplitJoin | src/utils/utils.hpp:21-31 | joining the tokens with the delimiter rebuilds an input that does not end in the delimiter; for one that does, only that trailing delimiter is lost |
| Utils.Clamp | src/utils/utils.hpp:56-57 | an out-of-range value read into an `int` is clamped to the `int` range; one in range is kept |
| Utils.ReadInt | src/utils/utils.hpp:54-57 | the length read by `ss >> length` is always within the `int` range |
| Utils.ReadNoNumber | src/utils/utils.hpp:54-57 | when the text starts with no space, sign or digit, the length is 0, the value the failed conversion stores; the empty text reads as 0 too |
| Utils.StreamExtract | src/utils/utils.hpp:54-57 | `ss >> length` as written stores nothing exactly when only white space is left; otherwise it stores what `ReadInt` gives |
| Utils.FlatLastReadUninitialised | src/utils/utils.hpp:54-66 | for `_ZTI<len><name>` the first round reads the length, takes the whole name and leaves an empty `rest`, from which the next read stores nothing |
| Utils.ScanDigits | src/utils/utils.hpp:57 | a run of digits followed by a non-digit reads as its value with the sign applied, clamped to the `int` range |
| Utils.ReadLength | src/utils/utils.hpp:57 | the decimal text of a positive `int` followed by a non-digit reads back as that `int` |
| Utils.NextComponent | src/utils/utils.hpp:59-63 | a round that goes on strictly shortens the rest of the input |
| Utils.NextComponentAdvances | src/utils/utils.hpp:59-63 | for a non-zero length whose component fits, the component is the characters after the number's own text, and the rest continues past them |
| Utils.DemangleTypedefLoop | src/utils/utils.hpp:41-74 | the loop gives exactly the result of `DemangleTypedef` |
| Utils.DecodeRound | src/utils/utils.hpp:53-68 | one round writes the component and, when nested and a digit follows, "::", then goes on from the rest |
| Utils.DemangleWithoutPrefix | src/utils/utils.hpp:42-43 | an input not starting with `_ZTI` gives "" |
| Utils.DemangleNested | src/utils/utils.hpp:44-49 | after `_ZTIN` the components are decoded with the `::` separator on |
| Utils.DemanglePlain | src/utils/utils.hpp:44-49 | after `_ZTI` not followed by `N` the components are decoded with no separator |
| Utils.DecodeEncoded | src/utils/utils.hpp:53-68 | decoding length-prefixed components followed by a non-number writes each component in order, with "::" between them when nested |
| Utils.DemangleNestedName | src/utils/utils.hpp:41-74 | `_ZTIN<len><name>...E` decodes to the names joined by "::" |
| Utils.DemangleFlatName | src/utils/utils.hpp:41-74 | `_ZTI<len><name>...` decodes to the names run together |
| Utils.DemangleOverlongComponent | src/utils/utils.hpp:62-63 | a length prefix longer than the remaining text is the `std::out_of_range` failure |
| Analyser.Mark | src/common/Analyser.cpp:19-20 | the flag becomes true exactly for a compiler-generated method (flag already set, `std::` prefix, or one of the 18 MSVC helper names, as listed at lines 39-49); nothing else changes |
| Analyser.NotGenerated | src/common/Analyser.cpp:18-26 | the methods kept are exactly those that are not compiler-generated |
| Analyser.AnalysedKeepsAll | src/common/Analyser.cpp:18-26 | with `noCompilerGenerated` off, every method stays at its position and is only flagged |
| Analyser.AnalysedDropsGenerated | src/common/Analyser.cpp:18-26 | with `noCompilerGenerated` on, exactly the compiler-generated methods are removed |
| Analyser.NotGeneratedKeepsOrder | src/common/Analyser.cpp:22 | the methods kept are a subsequence of the input, in the same order |
| Analyser.FilterMethods | src/common/Analyser.cpp:18-26 | the loop over the methods gives exactly `AnalysedMethods` |
| Analyser.ProcessType | src/common/Analyser.cpp:13-29 | the type is rejected iff the option is on and its name starts with `std::` or `_`; otherwise only its methods change |
| Analyser.ProcessTypes | src/common/Analyser.cpp:5-11 | the loop over the types gives exactly `AnalysedTypes` |
| Analyser.AnalysedTypesNames | src/common/Analyser.cpp:5-11 | the names left are the kept names in order; with the option off, every name is left |
| Analyser.AnalysedTypesFiltered | src/common/Analyser.cpp:5-28 | every type left is a kept input type with its methods analysed |
| Driver.LoadFailureReason | src/debugextract.cpp:159-165 | "File not found" when PDB could not open the file; else "File does not contain debug information" when DWARF or ELF found none; else "Unsupported format" |
| Driver.ExtractorForFile | src/debugextract.cpp:137-169 | the first of PDB, DWARF and ELF, in that order, whose load succeeded; else the error text with the reason |
| Driver.ArgsToConfig | src/debugextract.cpp:171-184 | `compilable`, `addGuards` and `addIncludesOrDeclarations` all equal `--compilable`, and `useOnlyForwardDeclarations` is its negation |
| Driver.TrimTrailingSeparator | src/debugextract.cpp:69-72 | one trailing '/' or '\\' is removed; any other path is unchanged |
| Driver.TrimOnlyOne | src/debugextract.cpp:70-72 | only a single separator is removed, even when the path ends in several |
| Driver.ApplyOutputPath | src/debugextract.cpp:66-80 | a directory output path sets `toDirectory`; any other output path sets `useOnlyForwardDeclarations` |
| Driver.List | src/debugextract.cpp:129-135 | the names printed are exactly `Listed` |
| Driver.ListedExactly | src/debugextract.cpp:129-135 | the names printed are exactly the listed names that are not compiler-generated type names, in order |
| Dumper.GetName | src/dumper/CodeClassDumper.cpp:228-235 | a leading `<class>::` is removed, and the rest of the name is kept; any other name is unchanged |
| Dumper.GetNameOfQualified | src/dumper/CodeClassDumper.cpp:228-235 | `getName` of `<class>::<name>` is `<name>` |
| Dumper.PrintTypeLayout | src/dumper/CodeClassDumper.cpp:220-226 | the printed type holds the name (cleared in compilable mode) right after the 6-character `const ` when constant, else at the start; the text is longer than the name by exactly 6 for const, 1 for a reference and 2 for a pointer |
| Dumper.PrintTypeCompilable | src/dumper/CodeClassDumper.cpp:220-226 | in compilable mode a printed type contains none of the invalid characters of line 9 |
| Dumper.ClearedHasNoInvalid | src/dumper/CodeClassDumper.cpp:108-112 | a cleared method name never contains an invalid character, so in compilable mode only a name equal to the class name is commented out |
| Dumper.BodyCommentRule | src/dumper/CodeClassDumper.cpp:107-115 | in compilable mode a method line is commented out iff its name equals the class name |
| Dumper.DumpMethodArgs | src/dumper/CodeClassDumper.cpp:196-218 | the loop writes exactly `ArgsText`, and in pointer mode it returns the arguments with `this` renamed to `self`; it needs a type on every argument it writes, and none on a `this` it skips in declaration mode |
| Dumper.DumpArg | src/dumper/CodeClassDumper.cpp:197-216 | one round skips a declaration-mode `this`, or renames a pointer-mode `this` to `self` and appends the argument's piece, leaving later arguments untouched |
| Dumper.LeadingThis | src/dumper/CodeClassDumper.cpp:200-207 | a leading `this` is skipped in declaration mode, whether or not it has a type, and written as `self` in pointer mode |
| Dumper.SelfPiece | src/dumper/CodeClassDumper.cpp:202-203 | in pointer mode a `this` argument is written with the name `self` |
| Dumper.ModesAgreeWithoutThis | src/dumper/CodeClassDumper.cpp:196-218 | without a `this` argument both modes write the same text |
| Dumper.RenameInvisible | src/dumper/CodeClassDumper.cpp:201-207 | renaming `this` first does not change the pointer-mode text, and renaming twice is renaming once |
| Dumper.LabelledIsChunks | src/dumper/CodeClassDumper.cpp:74-104 | the body is the entries in order, each preceded by an accessibility label exactly when its accessibility differs from the previous one, starting from NONE |
| Dumper.LabelledSnoc | src/dumper/CodeClassDumper.cpp:81-84 | one more entry writes a label first iff its accessibility differs from the running one, which then becomes its own |
| Dumper.LabelledAppend | src/dumper/CodeClassDumper.cpp:74-104 | writing two runs of entries in sequence equals writing the second from where the first left the running accessibility |
| Dumper.BodyIsOneRun | src/dumper/CodeClassDumper.cpp:74-140 | the methods continue the running accessibility left by the fields |
| Dumper.ShownFieldsMembers | src/dumper/CodeClassDumper.cpp:77-79 | in pointer mode exactly the fields with address 0 are left out; otherwise every field is shown |
| Dumper.ShownEntriesAreShown | src/dumper/CodeClassDumper.cpp:76-93 | the entries written by the field loop are the lines of the shown fields, in order |
| Dumper.DumpFields | src/dumper/CodeClassDumper.cpp:74-93 | the field loop writes the labelled lines of the shown fields starting from NONE, and leaves the accessibility of the last one written; only the shown fields need a type |
| Dumper.DumpMethods | src/dumper/CodeClassDumper.cpp:100-140 | the method loop writes the labelled lines of `fullyDefinedMethods` in pointer mode and of `allMethods` otherwise, continuing the running accessibility; only the listed methods need types |
| Dumper.IncludeOnlyForBase | src/dumper/CodeClassDumper.cpp:35-50 | a dependent becomes `#include` iff it is the first base class and `useOnlyForwardDeclarations` is off; otherwise it is `class X;` |
| Dumper.DumpDependents | src/dumper/CodeClassDumper.cpp:35-54 | when `addIncludesOrDeclarations` is set, the loop writes one line per dependent, in order, then a blank line if there are two or more; otherwise it writes nothing |
| Dumper.DumpPointerFields | src/dumper/CodeClassDumper.cpp:155-166 | the loop writes one pointer line per field with a non-zero address; fields without an address need no type |
| Dumper.DumpPointerMethods | src/dumper/CodeClassDumper.cpp:171-193 | the loop writes one function-pointer line per fully defined method |
| Dumper.DumpPointers | src/dumper/CodeClassDumper.cpp:154-194 | the field pointers, a blank line, then the method pointers |
| Dumper.DumpMiddle | src/dumper/CodeClassDumper.cpp:35-145 | the dependents, original-name comment, class line, body and pointer section, in that order |
| Dumper.Dump | src/dumper/CodeClassDumper.cpp:22-152 | the declaration of one type; it starts with the banner and the `<cleared name>_H` guard, and ends with `#endif`, each iff `addGuards` |
| Dumper.GuardFrame | src/dumper/CodeClassDumper.cpp:30-33 | the guard opening and the closing `#endif` are present iff guards are requested, whatever the middle text |
| Dumper.MiddleEnd | src/dumper/CodeClassDumper.cpp:142-145 | the text between the guards ends in ";" then one or two line breaks, so it can never end like `#endif` |
| Dumper.DumpAll | src/dumper/CodeClassDumper.cpp:11-20 | exactly one declaration per type, in order |
| Dumper.DeclarationAt | src/dumper/CodeClassDumper.cpp:11-20 | the i-th string is the declaration of the i-th type |
| PdbRecords.UniversalName | lib/src/extractor/pdb/PDBExtractor.cpp:305-313 | a record that is neither class nor struct has the empty name |
| PdbRecords.FieldListId | lib/src/extractor/pdb/PDBExtractor.cpp:324-332 | a record that is neither class nor struct has field list -1 |
| PdbRecords.LastDeclarationIsLast | lib/src/extractor/pdb/PDBExtractor.cpp:238-255 | nothing is found iff no class or struct record carries the name; otherwise the result is the last record that does |
| PdbRecords.FindFullDeclaration | lib/src/extractor/pdb/PDBExtractor.cpp:238-255 | the loop keeps exactly `LastDeclaration` |
| PdbRecords.GetTypesList | lib/src/extractor/pdb/PDBExtractor.cpp:257-275 | strictly sorted, with exactly the names of the class records and, when `showStructs` is set, of the struct records |
| PdbRecords.ShowStructsAddsNames | src/extractor/pdb/PDBExtractor.cpp:209-227 | `showStructs` only adds names, and every name it adds is a struct's |
| PdbRecords.MaxNameLengthBounds | lib/src/extractor/pdb/PDBExtractor.cpp:60 | no class or struct name is longer than the bound that makes nested lookups terminate |
| PdbExtractor.Core | lib/src/extractor/pdb/PDBExtractor.cpp:214-218 | peeling const and pointer records ends at a record that is neither |
| PdbExtractor.ResolvedType | lib/src/extractor/pdb/PDBExtractor.cpp:204-236 | under any const and pointer layers: a base record gives its description as a base type, and a class or struct gives its name as a pointer; for these two, any const or pointer layer sets that flag; any other record gives plain `int` with no flag set |
| PdbExtractor.Pushed | lib/src/extractor/pdb/PDBExtractor.cpp:226-227 | the name of a class or struct reached through the layers is recorded as a dependent; nothing else is |
| PdbExtractor.QualifierOrderLost | lib/src/extractor/pdb/PDBExtractor.cpp:210-217 | const-pointer and pointer-const resolve alike, and a repeated layer counts once |
| PdbExtractor.MemberMethodShape | lib/src/extractor/pdb/PDBExtractor.cpp:178-202 | a field-list method is virtual iff its vtable offset is not -1, has address 0, and has one unnamed argument per argument type |
| PdbExtractor.WalkStep | lib/src/extractor/pdb/PDBExtractor.cpp:43-81 | one field-list entry never changes the type's name or its defined methods |
| PdbExtractor.FieldWalk | lib/src/extractor/pdb/PDBExtractor.cpp:43-82 | the walk over a field list never changes the type's name or its defined methods |
| PdbExtractor.Merge | lib/src/extractor/pdb/PDBExtractor.cpp:95-136 | the merge never changes the type's name or its base classes, and keeps the record of which method objects are shared between both lists |
| PdbExtractor.MergeStepAliases | lib/src/extractor/pdb/PDBExtractor.cpp:118-133 | one global function keeps every shared method equal in `allMethods` and `fullyDefinedMethods`; an unmatched function becomes one object in both lists |
| PdbExtractor.MatchReachesSharedDefinition | lib/src/extractor/pdb/PDBExtractor.cpp:118-133 | a function matching a method appended earlier unmatched updates that method's entry in `fullyDefinedMethods` too: its arguments, address and static flag, its name kept |
| PdbExtractor.WithAddresses | lib/src/extractor/pdb/PDBExtractor.cpp:85-91 | the address search keeps the number of fields |
| PdbExtractor.FieldWalkClassifies | lib/src/extractor/pdb/PDBExtractor.cpp:43-81 | the walk appends base stubs, skeleton methods and fields in entry order |
| PdbExtractor.FieldWalkBases | lib/src/extractor/pdb/PDBExtractor.cpp:46-51 | BASE entries become name-only stubs, in order |
| PdbExtractor.FieldWalkMethods | lib/src/extractor/pdb/PDBExtractor.cpp:54-57 | ONEMETHOD entries become skeleton methods, in order |
| PdbExtractor.FieldWalkFields | lib/src/extractor/pdb/PDBExtractor.cpp:72-80 | every other entry becomes a public field, static iff STMEMBER |
| PdbExtractor.FieldWalkNests | lib/src/extractor/pdb/PDBExtractor.cpp:59-70 | NESTTYPE entries add one nested type each, named after the entry, in order |
| PdbExtractor.AddressFromLastGlobal | lib/src/extractor/pdb/PDBExtractor.cpp:85-91 | a field's address comes from the last global named `<query>::<field>`; without one the address is kept |
| PdbExtractor.FirstMatch | lib/src/extractor/pdb/PDBExtractor.cpp:105-126 | the first skeleton with the stripped name, the arity without a leading `this`, and pairwise-equal argument types; -1 when none |
| PdbExtractor.MergeKeepsSkeletons | lib/src/extractor/pdb/PDBExtractor.cpp:95-133 | every skeleton keeps its position and changes at most its arguments, address and static flag; only the method lists change |
| PdbExtractor.MergeStepKeepsSkeletons | lib/src/extractor/pdb/PDBExtractor.cpp:118-131 | the same for one global function |
| PdbExtractor.MergeDefinesOwned | lib/src/extractor/pdb/PDBExtractor.cpp:118-133 | every function of the class, and only those, gives one entry of `fullyDefinedMethods` in order: the method as built when a skeleton matched it, otherwise the stripped method shared with `allMethods`, with arguments, address and static flag as a later matching function set them |
| PdbExtractor.Owned | lib/src/extractor/pdb/PDBExtractor.cpp:97-100 | the functions picked for the merge are functions of the PDB whose owner record is the class |
| PdbExtractor.FindMatch | lib/src/extractor/pdb/PDBExtractor.cpp:105-126 | the index loop with its early exit finds exactly `FirstMatch` |
| PdbExtractor.ArgumentTypesAgree | lib/src/extractor/pdb/PDBExtractor.cpp:112-116 | true iff every argument after the offset has the type of the skeleton's argument at the same position |
| PdbExtractor.TypeOfResult | lib/src/extractor/pdb/PDBExtractor.cpp:28-148 | no type iff no class or struct record has the name, and then no dependents; a found type has that name, sorted duplicate-free dependents equal to the accumulator, and its first base class among them |
| PdbExtractor.Extractor.GetReturnType | lib/src/extractor/pdb/PDBExtractor.cpp:204-236 | the resolved type, with the class name pushed onto the accumulator |
| PdbExtractor.Extractor.constructor | lib/src/extractor/pdb/PDBExtractor.cpp:9-22 | an extractor whose `load` succeeded holds the loaded file and an empty accumulator |
| PdbExtractor.Extractor.GetFunctionMethod | lib/src/extractor/pdb/PDBExtractor.cpp:150-176 | the method of a global function: a `~` name gets an empty return type, static iff the this-type index is 0, public, its address, and the named arguments in order |
| PdbExtractor.Extractor.GetMethodReturn | lib/src/extractor/pdb/PDBExtractor.cpp:154-158 | a destructor gets the empty return type and records nothing; any other method gets its resolved return type |
| PdbExtractor.Extractor.GetMemberMethod | lib/src/extractor/pdb/PDBExtractor.cpp:178-202 | the skeleton of a field-list method, with the argument types pushed in order |
| PdbExtractor.Extractor.GetNamedArguments | lib/src/extractor/pdb/PDBExtractor.cpp:166-173 | the argument loop gives one argument per function argument, in order |
| PdbExtractor.Extractor.GetUnnamedArguments | lib/src/extractor/pdb/PDBExtractor.cpp:196-199 | the argument loop gives one unnamed argument per argument type, in order, recording the dependents of each |
| PdbExtractor.Extractor.GetType | lib/src/extractor/pdb/PDBExtractor.cpp:28-148 | the type and the accumulator are `TypeOf` of the name |
| PdbExtractor.Extractor.BuildType | lib/src/extractor/pdb/PDBExtractor.cpp:38-147 | from the declaration on, the walk, the address search, the merge and the dependents give `Assemble` |
| PdbExtractor.Extractor.WalkFieldList | lib/src/extractor/pdb/PDBExtractor.cpp:43-82 | the field-list loop follows `FieldWalk` |
| PdbExtractor.Extractor.WalkEntry | lib/src/extractor/pdb/PDBExtractor.cpp:46-80 | one entry updates the type and the accumulator as `WalkStep` says |
| PdbExtractor.Extractor.AssignAddresses | lib/src/extractor/pdb/PDBExtractor.cpp:85-91 | the nested global/field loops give `WithAddresses` |
| PdbExtractor.Extractor.MergeFunctions | lib/src/extractor/pdb/PDBExtractor.cpp:95-136 | the loop over the global functions follows `Merge`, tracking which methods are shared |
| PdbExtractor.Extractor.MergeFunction | lib/src/extractor/pdb/PDBExtractor.cpp:97-133 | one global function updates the type, and the shared entry of `fullyDefinedMethods` when it matches one, as `MergeStep` says |
| PdbExtractor.Extractor.GetTypes | lib/src/extractor/pdb/PDBExtractor.cpp:277-285 | one result per requested name, in order, each that name's `getType`; the accumulator is the last lookup's |
| PdbExtractor.Extractor.AppendType | lib/src/extractor/pdb/PDBExtractor.cpp:280-282 | one name's lookup is appended to the results, and the accumulator is that lookup's |
| PdbExtractor.Extractor.GetAllGlobalVariables | lib/src/extractor/pdb/PDBExtractor.cpp:287-301 | one public field per global variable, in order, with its name, address and resolved type |
| PdbLegacy.StrType | src/extractor/pdb/PDBExtractor.cpp:170-188 | pointer records are followed without a flag; a base record gives its description, a class or struct its name as a pointer, anything else (const included) `int` |
| PdbLegacy.StripPointers | src/extractor/pdb/PDBExtractor.cpp:173-174 | following pointer records ends at a record that is not a pointer |
| PdbLegacy.StrPushed | src/extractor/pdb/PDBExtractor.cpp:183-184 | only the name of a class or struct reached through pointers is recorded |
| PdbLegacy.RevisionsAgreeWithoutConst | src/extractor/pdb/PDBExtractor.cpp:170-188 | without const layers both revisions resolve the same name and record the same dependent; a const record gives `int` here |
| PdbLegacy.VirtualFlagInverted | src/extractor/pdb/PDBExtractor.cpp:150-159 | the virtual flag is the opposite of the library revision's, and a `~` method's empty return type has the pointer flag set |
| PdbLegacy.NestedTypesBecomeFields | src/extractor/pdb/PDBExtractor.cpp:43-69 | every entry other than BASE and ONEMETHOD, nested types included, becomes a field; no nested type is recorded |
| PdbLegacy.WalkStep | src/extractor/pdb/PDBExtractor.cpp:43-69 | one field-list entry never changes the type's name or its defined methods |
| PdbLegacy.FieldWalk | src/extractor/pdb/PDBExtractor.cpp:43-69 | the walk never changes the type's name or its defined methods |
| PdbLegacy.MergeStep | src/extractor/pdb/PDBExtractor.cpp:75-92 | one global function keeps the number of skeletons, the type's name and its base classes |
| PdbLegacy.Merge | src/extractor/pdb/PDBExtractor.cpp:72-94 | the merge adds no skeleton and keeps the type's name and its base classes |
| PdbLegacy.SkeletonsFromMethods | src/extractor/pdb/PDBExtractor.cpp:54-57 | skeletons only come from ONEMETHOD entries |
| PdbLegacy.MergeOverwritesByName | src/extractor/pdb/PDBExtractor.cpp:73-94 | every skeleton takes the arguments, address and static flag of the last owned function with its name, with no argument check; no skeleton is added |
| PdbLegacy.MergeDefinesOwned | src/extractor/pdb/PDBExtractor.cpp:91 | `fullyDefinedMethods` gains the method of every function of the class, in order, with its qualified name |
| PdbLegacy.FirstNamed | src/extractor/pdb/PDBExtractor.cpp:108-116 | the first global function with exactly that name, or none when no function has it |
| PdbLegacy.OverwriteMatching | src/extractor/pdb/PDBExtractor.cpp:82-89 | the loop with no early exit gives `Overwrite`: every skeleton with the function's unqualified name takes its arguments, address and static flag |
| PdbLegacy.LegacyExtractor.GetMethodByName | src/extractor/pdb/PDBExtractor.cpp:108-116 | the method of the first function with that name, or none with the accumulator untouched |
| PdbLegacy.LegacyExtractor.GetReturnTypeStr | src/extractor/pdb/PDBExtractor.cpp:170-188 | the resolved type and the pushed dependent |
| PdbLegacy.LegacyExtractor.constructor | src/extractor/pdb/PDBExtractor.hpp:10-26 | an extractor holds the loaded file and an empty accumulator |
| PdbLegacy.LegacyExtractor.GetFunctionMethod | src/extractor/pdb/PDBExtractor.cpp:118-143 | the method of a global function, and the dependents its types record, as this revision builds them |
| PdbLegacy.LegacyExtractor.GetMethodReturn | src/extractor/pdb/PDBExtractor.cpp:122-126 | a destructor gets the empty pointer return type; any other method gets its resolved return type |
| PdbLegacy.LegacyExtractor.GetNamedArguments | src/extractor/pdb/PDBExtractor.cpp:133-140 | one named argument per function argument, in order |
| PdbLegacy.LegacyExtractor.GetUnnamedArguments | src/extractor/pdb/PDBExtractor.cpp:162-165 | one unnamed argument per argument type, in order |
| PdbLegacy.LegacyExtractor.GetMemberMethod | src/extractor/pdb/PDBExtractor.cpp:145-168 | the skeleton of a field-list method as this revision builds it |
| PdbLegacy.LegacyExtractor.GetType | src/extractor/pdb/PDBExtractor.cpp:28-106 | the type and the accumulator are this revision's `TypeOf`; only the field list of the class asked for must be well formed |
| PdbLegacy.LegacyExtractor.WalkFieldList | src/extractor/pdb/PDBExtractor.cpp:43-69 | the field-list loop follows this revision's `FieldWalk` |
| PdbLegacy.LegacyExtractor.MergeFunctions | src/extractor/pdb/PDBExtractor.cpp:72-94 | the loop over the global functions follows this revision's `Merge` |
| DwarfDies.FirstTypeRef | lib/src/extractor/dwarf/DWARFExtractor.cpp:138-161 | the first `DW_AT_type` attribute, the one the qualifier loop returns from, or -1 |
| DwarfDies.FirstClassNamed | lib/src/extractor/dwarf/DWARFExtractor.cpp:177-194 | a found DIE is a class DIE with the name; nothing is found iff no DIE in the list is one |
| DwarfDies.FirstClassNamedAppend | lib/src/extractor/dwarf/DWARFExtractor.cpp:186-191 | searching two lists of DIEs one after the other finds the first list's match if it has one, else the second's |
| DwarfDies.FindTypeNodeIsPreOrderFirst | lib/src/extractor/dwarf/DWARFExtractor.cpp:177-194 | `findTypeNode` returns the first class DIE with the name in pre-order |
| DwarfDies.FindInChildrenIsPreOrderFirst | lib/src/extractor/dwarf/DWARFExtractor.cpp:186-191 | the search over the children is the first match in their pre-order |
| DwarfDies.TerminalType | lib/src/extractor/dwarf/DWARFExtractor.cpp:164-174 | a base DIE gives its name, not a pointer, with the base flag in the library revision; a class DIE gives its name as a pointer; any other DIE gives `unknown` as a pointer |
| DwarfDies.NameFromTerminal | lib/src/extractor/dwarf/DWARFExtractor.cpp:132-175 | the name and base flag come from the DIE the qualifier chain ends in; in the application revision the whole result does |
| DwarfDies.OutermostQualifierOnly | lib/src/extractor/dwarf/DWARFExtractor.cpp:140-146 | on a qualifier, exactly the flag of the outermost qualifier is set |
| DwarfDies.ArraySizeFromLastBound | lib/src/extractor/dwarf/DWARFExtractor.cpp:147-156 | the array size is the last subrange's upper bound plus one; without a bound it is left as it was |
| DwarfDies.BoundSizeIsLast | lib/src/extractor/dwarf/DWARFExtractor.cpp:150-154 | within one subrange the last upper bound wins |
| DwarfExtractor.BaseStubs | lib/src/extractor/dwarf/DWARFExtractor.cpp:51-65 | every base read from an inheritance DIE is a stub with only a name, and there is at most one per attribute |
| DwarfExtractor.MemberFieldLastWins | lib/src/extractor/dwarf/DWARFExtractor.cpp:67-88 | a member's name, type, `external` as static, and (library only) accessibility come from the last such attribute |
| DwarfExtractor.SubprogramAttrsLastWins | lib/src/extractor/dwarf/DWARFExtractor.cpp:90-115 | a subprogram's name, linkage name, return type (`void` by default in the library revision), accessibility and `artificial` flag come from the last such attribute |
| DwarfExtractor.SubprogramAttrs | lib/src/extractor/dwarf/DWARFExtractor.cpp:92 | in the library revision every method has a return type |
| DwarfExtractor.SubprogramMethodShape | lib/src/extractor/dwarf/DWARFExtractor.cpp:90-122 | a method has no arguments yet; in the library revision one named like the class keeps its return-type flags but loses the name; in the application revision it has no default return type |
| DwarfExtractor.ChildWalkClassifies | lib/src/extractor/dwarf/DWARFExtractor.cpp:49-123 | only direct children are read: inheritance, member and subprogram children give the bases, fields and methods, in order |
| DwarfExtractor.WalkBases | lib/src/extractor/dwarf/DWARFExtractor.cpp:51-65 | the bases come from the inheritance children, in order |
| DwarfExtractor.WalkFields | lib/src/extractor/dwarf/DWARFExtractor.cpp:67-88 | the fields come from the member children, in order |
| DwarfExtractor.WalkMethods | lib/src/extractor/dwarf/DWARFExtractor.cpp:90-122 | the methods come from the subprogram children, in order |
| DwarfExtractor.ChildWalk | lib/src/extractor/dwarf/DWARFExtractor.cpp:45-123 | the walk over the children only sets the bases and fields of the new type |
| DwarfExtractor.LastIndexOf | lib/src/extractor/dwarf/DWARFExtractor.cpp:208-212 | the last method with the linkage name, or -1 |
| DwarfExtractor.LinkTarget | lib/src/extractor/dwarf/DWARFExtractor.cpp:204-214 | a method is only picked for a linkage name of the declaration |
| DwarfExtractor.LinkTargetSingle | lib/src/extractor/dwarf/DWARFExtractor.cpp:204-214 | with one linkage name, the target is the last method with that mangled name |
| DwarfExtractor.ArgumentFromLastWins | lib/src/extractor/dwarf/DWARFExtractor.cpp:221-235 | a formal parameter's name and type come from the last such attribute |
| DwarfExtractor.UpdateChildAt | lib/src/extractor/dwarf/DWARFExtractor.cpp:199-236 | a definition appends its formal parameters, in order, to its target method only; every other method is unchanged |
| DwarfExtractor.UpdateAppendsParameters | lib/src/extractor/dwarf/DWARFExtractor.cpp:196-240 | over all units, each method gains the parameters of the definitions that target it, in order; unmatched methods are unchanged |
| DwarfExtractor.ClassOf | lib/src/extractor/dwarf/DWARFExtractor.cpp:125-129 | `allMethods` equals `fullyDefinedMethods` and no dependent type is recorded |
| DwarfExtractor.TypeNamedFound | lib/src/extractor/dwarf/DWARFExtractor.cpp:33-43 | no type iff no unit has a class DIE with the name; otherwise the type of the first unit's first match in pre-order |
| DwarfExtractor.FindInUnitsIndexed | src/extractor/dwarf/DWARFExtractor.cpp:33-43 | the search over the units is the first unit, in order, with a match |
| DwarfExtractor.FindInUnitsFirst | lib/src/extractor/dwarf/DWARFExtractor.cpp:33-43 | nothing is found iff no unit holds a class DIE with the name; otherwise the match of the first unit, in order, that has one |
| DwarfExtractor.NoClassInUnits | src/extractor/dwarf/DWARFExtractor.cpp:137-154 | no unit has a match iff no DIE in any unit is a class DIE with the name |
| DwarfExtractor.FindLinkTarget | lib/src/extractor/dwarf/DWARFExtractor.cpp:204-214 | the loops over the linkage names and the methods give `LinkTarget` |
| DwarfExtractor.LastLinked | lib/src/extractor/dwarf/DWARFExtractor.cpp:208-212 | the scan keeps the last method with the linkage name, else the previous choice |
| DwarfExtractor.ReadMember | lib/src/extractor/dwarf/DWARFExtractor.cpp:67-88 | the attribute loop gives `MemberField` |
| DwarfExtractor.ReadSubprogram | lib/src/extractor/dwarf/DWARFExtractor.cpp:90-122 | the attribute loop gives `SubprogramMethod` |
| DwarfExtractor.ReadName | lib/src/extractor/dwarf/DWARFExtractor.cpp:56-60 | the attribute loop gives the last name, or the default |
| DwarfExtractor.ReadBases | lib/src/extractor/dwarf/DWARFExtractor.cpp:51-65 | the attribute loop gives `BaseStubs` |
| DwarfExtractor.ReadArgument | lib/src/extractor/dwarf/DWARFExtractor.cpp:221-235 | the attribute loop gives `ArgumentFrom` |
| DwarfExtractor.UpdateFromChild | lib/src/extractor/dwarf/DWARFExtractor.cpp:199-236 | one top-level child updates the methods as `UpdateChild` says |
| DwarfExtractor.UpdateMethods | lib/src/extractor/dwarf/DWARFExtractor.cpp:196-240 | the loops over units and children give `Update` |
| DwarfExtractor.GetTypeOfNode | lib/src/extractor/dwarf/DWARFExtractor.cpp:45-130 | the walk over the class DIE gives `ClassOf` |
| DwarfExtractor.GetType | lib/src/extractor/dwarf/DWARFExtractor.cpp:33-43 | the search over the units gives `TypeNamed` |
| DwarfExtractor.GetTypes | lib/src/extractor/dwarf/DWARFExtractor.cpp:246-254 | one result per requested name, in order, missing ones included |
| DwarfExtractor.GetMethodByName | src/extractor/dwarf/DWARFExtractor.cpp:206-208 | always nothing |
| DwarfExtractor.GetTypesList | lib/src/extractor/dwarf/DWARFExtractor.cpp:242-244 | always empty |
| DwarfExtractor.GetAllGlobalVariables | lib/src/extractor/dwarf/DWARFExtractor.cpp:256-258 | always empty |
| ElfExtractor.TypeFromSize | lib/src/extractor/elf/ELFExtractor.cpp:336-363 | size 1 gives `char`, 2 `short`, 8 `double` in a 32-bit file and `long` in a 64-bit one, anything else `int`, after truncation to a 32-bit `int` |
| ElfExtractor.OnlyVoidSpelledVoid | lib/src/extractor/elf/ELFExtractor.cpp:213-303 | the only built-in spelled `void` is `T_VOID` |
| ElfExtractor.ParamTypePtr | lib/src/extractor/elf/ELFExtractor.cpp:202-324 | the spelling as name; a pointer iff a named type; a base type iff a built-in; no other qualifier |
| ElfExtractor.NamePushed | lib/src/extractor/elf/ELFExtractor.cpp:311-315 | at most the type's own name is recorded as a dependent |
| ElfExtractor.ArgName | lib/src/extractor/elf/ELFExtractor.cpp:193 | "arg" followed by the decimal number |
| ElfExtractor.NonVoidKept | lib/src/extractor/elf/ELFExtractor.cpp:188-191 | the parameters kept are parameters not spelled `void` |
| ElfExtractor.ParamsNumbered | lib/src/extractor/elf/ELFExtractor.cpp:185-197 | one argument per non-`void` parameter, the i-th named `arg<i>` with that parameter's type |
| ElfExtractor.ParamsCount | lib/src/extractor/elf/ELFExtractor.cpp:185-197 | there are as many arguments as non-`void` parameters |
| ElfExtractor.ParamsAt | lib/src/extractor/elf/ELFExtractor.cpp:185-197 | the i-th argument is `arg<i+1>` with the type of the i-th non-`void` parameter |
| ElfExtractor.GetMethodShape | lib/src/extractor/elf/ELFExtractor.cpp:161-200 | address, public, static and virtual flags come from the symbol. Without `::` in the name: the plain name and an empty return type. With it: the full name, returning `int`, a pointer when the demangler says so. A static method has a `self` argument first; then come `arg1`, `arg2`, ... for the non-`void` parameters |
| ElfExtractor.ClassPart | lib/src/extractor/elf/ELFExtractor.cpp:78 | the whole name when it holds no `::`; otherwise the prefix followed by a `::` after which no `::` occurs |
| ElfExtractor.Owner | lib/src/extractor/elf/ELFExtractor.cpp:71-84 | a symbol is filed only under a requested, non-empty name |
| ElfExtractor.StripOwner | lib/src/extractor/elf/ELFExtractor.cpp:101-103 | a leading `<type>::` is removed; any other name is kept |
| ElfExtractor.ObjectField | lib/src/extractor/elf/ELFExtractor.cpp:109-124 | a public static field named by the demangled name with a leading `<type>::` stripped, with offset 0, the symbol's value as address, and the type from its size |
| ElfExtractor.PointerTypes | lib/src/extractor/elf/ELFExtractor.cpp:95-99 | a name is recorded iff some argument is a pointer to the type of that name |
| ElfExtractor.GroupWellFormed | lib/src/extractor/elf/ELFExtractor.cpp:62-128 | each grouped type is filed under its own name and every key is a requested name |
| ElfExtractor.GroupKeys | lib/src/extractor/elf/ELFExtractor.cpp:84-86 | a type exists for a name iff some symbol is filed under it |
| ElfExtractor.FiledStep | lib/src/extractor/elf/ELFExtractor.cpp:84-86 | a name has a symbol filed under it iff an earlier symbol or the last one is filed there |
| ElfExtractor.GroupAddressesDistinct | lib/src/extractor/elf/ELFExtractor.cpp:89-93 | no two methods of a type share an address |
| ElfExtractor.FuncFiledAtStep | lib/src/extractor/elf/ELFExtractor.cpp:65-128 | a function symbol at an address is filed under a name iff an earlier one or the last one is |
| ElfExtractor.GroupMethodAddresses | lib/src/extractor/elf/ELFExtractor.cpp:88-107 | a type has a method at an address iff some function symbol filed under it has that address; with `GroupAddressesDistinct`, exactly one |
| ElfExtractor.WithMethodAt | lib/src/extractor/elf/ELFExtractor.cpp:105-106 | appending a method adds its address to the type and keeps every other |
| ElfExtractor.ObjectFieldsUnfiled | lib/src/extractor/elf/ELFExtractor.cpp:84-86 | a name with no symbol filed under it has no object fields |
| ElfExtractor.GroupFields | lib/src/extractor/elf/ELFExtractor.cpp:109-124 | a type's fields are exactly the `ObjectField`s of the object symbols filed under it, in symbol order |
| ElfExtractor.Finished | lib/src/extractor/elf/ELFExtractor.cpp:133-134 | the dependents become strictly sorted with the same members |
| ElfExtractor.ElfTypes | lib/src/extractor/elf/ELFExtractor.cpp:130-138 | the types come in strictly ascending name order, each with a requested non-empty name, equal method lists and sorted dependents |
| ElfExtractor.ElfTypesDependents | lib/src/extractor/elf/ELFExtractor.cpp:95-99 | each returned type's dependents are exactly the type names its methods' pointer-typed arguments refer to, `self` included |
| ElfExtractor.ElfTypesOrder | lib/src/extractor/elf/ELFExtractor.cpp:130-138 | one finished type per key, in key order |
| ElfExtractor.GetTypeFound | lib/src/extractor/elf/ELFExtractor.cpp:54-60 | asking for one name gives at most one type, with that name, present iff a symbol is filed under it |
| ElfExtractor.PlainNamesMembers | lib/src/extractor/elf/ELFExtractor.cpp:144-153 | exactly the non-empty demangled names of the symbols |
| ElfExtractor.GlobalField | lib/src/extractor/elf/ELFExtractor.cpp:376-382 | the demangled name, or the raw name when empty; public, static, offset 0, the symbol's value, the type from its size |
| ElfExtractor.Globals | lib/src/extractor/elf/ELFExtractor.cpp:365-388 | there are never more global fields than symbols |
| ElfExtractor.GlobalsAreKept | lib/src/extractor/elf/ELFExtractor.cpp:365-388 | every kept symbol gives its field, and every field comes from a kept symbol and has a non-zero address |
| ElfExtractor.FindRequested | lib/src/extractor/elf/ELFExtractor.cpp:77-82 | the scan gives the name itself if it was requested, else the empty name |
| ElfExtractor.OwnerOf | lib/src/extractor/elf/ELFExtractor.cpp:70-84 | the steps give `Owner` |
| ElfExtractor.AppendPointerTypes | lib/src/extractor/elf/ELFExtractor.cpp:95-99 | the loop appends `PointerTypes` of the arguments |
| ElfExtractor.FinishTypes | lib/src/extractor/elf/ELFExtractor.cpp:130-136 | one finished type per key, in order |
| ElfExtractor.Extractor.GetTypePtr | lib/src/extractor/elf/ELFExtractor.cpp:202-324 | the type of a parameter, with a named type pushed onto the accumulator |
| ElfExtractor.Extractor.constructor | lib/src/extractor/elf/ELFExtractor.cpp:11-51 | an extractor whose `load` succeeded holds the symbol table, the ELF class and an empty accumulator |
| ElfExtractor.Extractor.GetMethodHead | lib/src/extractor/elf/ELFExtractor.cpp:161-183 | the name, return type, flags and `self` argument of a symbol's method |
| ElfExtractor.Extractor.AppendParam | lib/src/extractor/elf/ELFExtractor.cpp:186-197 | a `void` parameter is dropped; any other is appended as `arg<n>` and the counter goes up |
| ElfExtractor.Extractor.AppendParams | lib/src/extractor/elf/ELFExtractor.cpp:185-197 | the `argNum` loop appends the non-void parameters as `arg1`, `arg2`, … after the existing arguments and records their named types in order |
| ElfExtractor.Extractor.GetMethod | lib/src/extractor/elf/ELFExtractor.cpp:161-200 | the method of the symbol, with the parameters' named types pushed in order |
| ElfExtractor.Extractor.IsDuplicated | lib/src/extractor/elf/ELFExtractor.cpp:326-334 | true iff a method of the type has the same address |
| ElfExtractor.Extractor.FileSymbol | lib/src/extractor/elf/ELFExtractor.cpp:86-125 | one symbol filed under its type as `GroupStep` says |
| ElfExtractor.Extractor.VisitSymbol | lib/src/extractor/elf/ELFExtractor.cpp:70-127 | one symbol is looked up and filed as `GroupStep` says |
| ElfExtractor.Extractor.GroupSymbols | lib/src/extractor/elf/ELFExtractor.cpp:65-128 | the symbol loop gives `Group` |
| ElfExtractor.Extractor.GetTypes | lib/src/extractor/elf/ELFExtractor.cpp:62-139 | the result is `ElfTypes` |
| ElfExtractor.Extractor.GetType | lib/src/extractor/elf/ELFExtractor.cpp:54-60 | the first type of a one-name request, or none |
| ElfExtractor.Extractor.GetTypesList | lib/src/extractor/elf/ELFExtractor.cpp:141-159 | strictly sorted, with exactly the non-empty demangled names of the symbols |
| ElfExtractor.Extractor.GetAllGlobalVariables | lib/src/extractor/elf/ELFExtractor.cpp:365-388 | the loop gives `Globals` |

## Left out

- Loading: the `load` methods, file opening, the PDB/ELF/DWARF parsers, and the exception-message matching they do. Their `ExtractResult` and their parsed output are inputs.
- retdec's demangler (`demangleToClass`, `printname`, `printpexpr`) and the `demangleName` helper: each symbol carries what they return for it.
- `JsonClassDumper`: it is nothing but JSON library calls.
- Command-line parsing, `isDirectory` (a function parameter here), writing the output files and standard output.
- The `accesibilityNames` table is not part of this model; the dumper takes the label text as a parameter. Accessibility codes are taken as NONE = 0, PUBLIC = 1, PROTECTED = 2, PRIVATE = 3, the DWARF `DW_ACCESS` codes, so the DWARF cast is the identity.
- The calling-convention codes are taken from the CodeView headers, which are not part of this model.
- Heap identity. Types, methods and arguments are values. In the source, a PDB method appended unmatched is one object in both `allMethods` and `fullyDefinedMethods`; the merge keeps that sharing as an index map (`Merging.shared`, invariant `Aliases`) and updates both copies together. `dumpMethodArgs` renames `this` to `self` on shared `Argument` objects, so the rename is visible to anyone holding those objects afterwards; `Dumper.RenameInvisible` shows that it does not change the text the dumper writes.
- Dumper.DumpMethodArgs: returns the renamed arguments instead of changing them where they are stored.
- `TypePtr` has no `operator!=` in the headers part of this model; the merge compares argument types field by field.
- Unions and other record kinds are one `OtherRecord`; a null record is `OtherRecord` too.
- `std::string` comparison is modelled as code-point order over `char`.
- `.c_str()` and `strcmp` stop at a NUL character; names are taken to contain none.
- An empty `--output` value makes `outputPath.back()` undefined; the model reads it as "no separator to remove".
- `Analyser` erases from a vector inside a range-for over it. That is undefined behaviour; the model removes exactly the flagged entries, which is what the code evidently intends.
- PdbExtractor.Extractor.GetType: requires `WellFormed` of the whole PDB, not only of the class asked for. Every one-method entry of every field list must carry a function record, which the source casts unchecked. Every function owned by a class must have a name at least two characters longer than the class name, so that `substr(className.size() + 2)` cannot throw; the name need not start with `<class>::`.
- PdbLegacy.LegacyExtractor.GetType: requires, of the class asked for only (`Supported`), that each one-method entry of its field list carry a function record, and, when it has one, that every function the class owns have a name at least two characters longer than the class name, so that the prefix can be stripped. The field lists of other classes are never read by this revision, and the model asks nothing of them.
- DWARF references are DIE values embedded in the attribute. A cyclic chain of qualifier DIEs, on which the source recurses forever, cannot be written down.
- DwarfExtractor.UpdateMethods, DwarfExtractor.GetTypeOfNode, DwarfExtractor.GetType, DwarfExtractor.GetTypes: require every top-level subprogram to have at least one attribute, because the source indexes the first attribute without checking.
- The ELF class is 32-bit or 64-bit. Any other value falls off the end of `getTypeFromSize` in the source; it is not modelled.
- ElfExtractor.Extractor.GetTypes: returns the types as values and does not keep the intermediate `std::map` of pointers.
- Utils.ReadNoNumber: the empty text, and text of white space only, read as 0. In the source `ss >> length` stores nothing there and `length` is uninitialised (src/utils/utils.hpp:56-57); `Utils.StreamExtract` models that read as written. See Findings.
- Utils.DemangleFlatName: its result rests on the last round's read from an empty `rest` giving 0, which the source leaves undefined; it states the evidently intended result. See Findings.
- In the application revision (src/common/DebugTypes.hpp:53, 62, 77), `Argument::typePtr`, `Field::typePtr` and `Method::returnType` are uninitialised pointers when no type is assigned, for example a DWARF member or parameter without `DW_AT_type`. The model gives no type (`None`) there and does not model reading such a pointer. The dumper (`Renderable`) asks for a type only where `dump` dereferences one in the chosen mode: on every field in the plain mode, on the fields with an address in pointer mode, and on the methods it lists (all of them in the plain mode, the fully defined ones in pointer mode): their return types and every argument it writes, which leaves out a `this` skipped in the plain mode.
- Dumper.Middle, Dumper.Declaration, Dumper.DumpMiddle, Dumper.Dump, Dumper.DumpAll: require `indent >= 0`. `--indent` is a plain int (src/debugextract.cpp:36, 173), and for a negative value `std::string(static_cast<unsigned long>(config.indent), ' ')` throws `std::length_error` (src/dumper/CodeClassDumper.cpp:23); that failure is not modelled.
- Utils.DemangleTypedefLoop: a length that reads as -2 makes the source loop forever, because `rest` never shrinks; the model returns `Diverges` instead of running forever.

## Findings

| source | as written | input that shows it | evidently intended | confidence | as-written member | corrected member |
|---|---|---|---|---|---|---|
| src/utils/utils.hpp:54-60 | `int length; ss >> length;` on a `rest` holding nothing but white space fails in the stream's sentry, stores nothing, and the loop then tests an uninitialised `length` | `_ZTI3Foo`: the first round writes `Foo` and leaves `rest` empty, and the next read stores no value | the loop stops when `rest` is used up and returns `Foo` | not executed; high (libstdc++ `operator>>(int&)` assigns only when the sentry succeeds) | Utils.FlatLastReadUninitialised | Utils.DemangleFlatName |
