/**
 * The rendering options shared by the filter, the renderer and the driver,
 * and the result codes an extractor's loader reports.
 */
module Config {

  /** Rendering options; the defaults are those of the C++ member initialisers. */
  datatype DumpConfig = DumpConfig(
    indent: int,
    json: bool,
    noCompilerGenerated: bool,
    showAsPointers: bool,
    addIncludesOrDeclarations: bool,
    useOnlyForwardDeclarations: bool,
    addGuards: bool,
    compilable: bool,
    toDirectory: bool)

  /** A default-constructed configuration: indent 4, every option off. */
  function DefaultConfig(): (c: DumpConfig)
    ensures c.indent == 4
    ensures !c.json && !c.noCompilerGenerated && !c.showAsPointers && !c.addIncludesOrDeclarations
    ensures !c.useOnlyForwardDeclarations && !c.addGuards && !c.compilable && !c.toDirectory
  {
    DumpConfig(4, false, false, false, false, false, false, false, false)
  }

  /** What loading a file with one extractor gave. */
  datatype ExtractResult = ERR_FILE_OPEN | INVALID_FILE | UNSUPPORTED_VERSION | OK | UNKNOWN_ERROR | MISSING_DEBUG
}
