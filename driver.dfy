/**
 * The command-line driver (debugextract.cpp): which extractor reads a file,
 * how the options become a rendering configuration, how the output path is
 * normalised, and what `--list` prints.
 */
module Driver {
  import opened Wrappers
  import opened Strings
  import opened Config
  import opened Analyser

  /** The three kinds of debug information, one extractor each. */
  datatype Format = PDB | DWARF | ELF

  const LoadFailurePrefix: string := "Failed to load file: "

  /** Why no extractor could read the file. */
  function LoadFailureReason(pdb: ExtractResult, elf: ExtractResult, dwarf: ExtractResult): (r: string)
    ensures pdb == ERR_FILE_OPEN ==> r == "File not found"
    ensures pdb != ERR_FILE_OPEN && (dwarf == MISSING_DEBUG || elf == MISSING_DEBUG) ==>
      r == "File does not contain debug information"
    ensures pdb != ERR_FILE_OPEN && dwarf != MISSING_DEBUG && elf != MISSING_DEBUG ==> r == "Unsupported format"
  {
    if pdb == ERR_FILE_OPEN then "File not found"
    else if dwarf == MISSING_DEBUG || elf == MISSING_DEBUG then "File does not contain debug information"
    else "Unsupported format"
  }

  /**
   * `getExtractorForFile`, given what each loader reported: the first of
   * PDB, DWARF and ELF that loaded, or the error message it throws.
   */
  function ExtractorForFile(pdb: ExtractResult, elf: ExtractResult, dwarf: ExtractResult): (r: Result<Format, string>)
    ensures r.Success? <==> pdb == OK || dwarf == OK || elf == OK
    ensures r == Success(PDB) <==> pdb == OK
    ensures r == Success(DWARF) <==> pdb != OK && dwarf == OK
    ensures r == Success(ELF) <==> pdb != OK && dwarf != OK && elf == OK
    ensures r.Failure? ==> r.error == LoadFailurePrefix + LoadFailureReason(pdb, elf, dwarf) + "\n"
  {
    if pdb == OK then Success(PDB)
    else if dwarf == OK then Success(DWARF)
    else if elf == OK then Success(ELF)
    else Failure(LoadFailurePrefix + LoadFailureReason(pdb, elf, dwarf) + "\n")
  }

  /** The parsed command line, as far as the configuration reads it: whether each flag was given, and the indent. */
  datatype Options = Options(indent: int, json: bool, pointers: bool, noCompilerGenerated: bool, compilable: bool)

  /** `argsToConfig`: `--compilable` switches on guards and includes and switches off forward-only declarations. */
  function ArgsToConfig(options: Options): (c: DumpConfig)
    ensures c.indent == options.indent && c.json == options.json
    ensures c.showAsPointers == options.pointers && c.noCompilerGenerated == options.noCompilerGenerated
    ensures c.compilable == c.addGuards == c.addIncludesOrDeclarations == options.compilable
    ensures c.useOnlyForwardDeclarations == !options.compilable
    ensures !c.toDirectory
  {
    DefaultConfig().(indent := options.indent, json := options.json, showAsPointers := options.pointers,
      noCompilerGenerated := options.noCompilerGenerated, compilable := options.compilable,
      addGuards := options.compilable, addIncludesOrDeclarations := options.compilable,
      useOnlyForwardDeclarations := !options.compilable)
  }

  predicate IsPathSeparator(c: char)
  {
    c == '/' || c == '\\'
  }

  /** The output path without one trailing separator. */
  function TrimTrailingSeparator(path: string): (r: string)
    ensures |path| > 0 && IsPathSeparator(path[|path| - 1]) ==> r + [path[|path| - 1]] == path
    ensures !(|path| > 0 && IsPathSeparator(path[|path| - 1])) ==> r == path
  {
    if |path| > 0 && IsPathSeparator(path[|path| - 1]) then path[..|path| - 1] else path
  }

  /** Only one separator is removed: a path ending in a separator keeps it after another is trimmed. */
  lemma TrimOnlyOne(path: string, c: char)
    requires IsPathSeparator(c)
    ensures TrimTrailingSeparator(path + [c]) == path
  {
    assert (path + [c])[..|path|] == path;
  }

  /**
   * The output-path handling of `main`: one trailing separator is removed;
   * a directory switches on one file per type, anything else a single file
   * with forward declarations only.
   */
  method ApplyOutputPath(path: string, isDirectory: string -> bool, config: DumpConfig)
      returns (outputPath: string, config': DumpConfig)
    ensures outputPath == TrimTrailingSeparator(path)
    ensures isDirectory(outputPath) ==> config' == config.(toDirectory := true)
    ensures !isDirectory(outputPath) ==> config' == config.(useOnlyForwardDeclarations := true)
  {
    outputPath := path;
    if |outputPath| > 0 && (outputPath[|outputPath| - 1] == '/' || outputPath[|outputPath| - 1] == '\\') {
      outputPath := outputPath[..|outputPath| - 1];
    }
    config' := config;
    if isDirectory(outputPath) {
      config' := config'.(toDirectory := true);
    } else {
      config' := config'.(useOnlyForwardDeclarations := true);
    }
  }

  /** The names `list` prints: those the filter does not take for the implementation's. */
  function Listed(names: seq<string>): seq<string>
  {
    if names == [] then []
    else
      var init := Listed(names[..|names| - 1]);
      var n := names[|names| - 1];
      if IsCompilerGeneratedType(n) then init else init + [n]
  }

  /** `list`: prints each name of the type list the filter does not recognise, in order. */
  method List(names: seq<string>) returns (printed: seq<string>)
    ensures printed == Listed(names)
  {
    printed := [];
    var i := 0;
    while i < |names|
      invariant 0 <= i <= |names|
      invariant printed == Listed(names[..i])
    {
      assert names[..i + 1][..i] == names[..i];
      if !IsCompilerGeneratedType(names[i]) {
        printed := printed + [names[i]];
      }
      i := i + 1;
    }
    assert names[..i] == names;
  }

  /** A name is listed exactly when it is in the type list and not compiler-generated, and the order is kept. */
  lemma {:induction false} ListedExactly(names: seq<string>)
    ensures forall n :: n in Listed(names) <==> n in names && !IsCompilerGeneratedType(n)
    ensures IsSubsequence(Listed(names), names)
  {
    if names != [] {
      var init := names[..|names| - 1];
      var n := names[|names| - 1];
      ListedExactly(init);
      assert names == init + [n];
      var r := Listed(names);
      if IsCompilerGeneratedType(n) {
        assert r == Listed(init);
        SubsequenceOfLonger(r, init, n);
      } else {
        assert r == Listed(init) + [n];
        assert r[..|r| - 1] == Listed(init);
      }
    }
  }

  /** A subsequence stays one when an element is appended to the longer sequence. */
  lemma SubsequenceOfLonger<T>(a: seq<T>, b: seq<T>, x: T)
    requires IsSubsequence(a, b)
    ensures IsSubsequence(a, b + [x])
  {
    assert (b + [x])[..|b|] == b;
  }
}
