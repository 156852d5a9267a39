/** storage.py, its single-file operations: the eligibility checks, the
    minifier adapter, the settings the loops read, level clamping, the
    guarded reads and writes and the names of the outputs. The loops are in
    Batches, the manifest rewrite in Manifests, the backend class in
    Backend. */
module Storage {
  import opened Wrappers
  import opened PyStr
  import opened PurePath
  import opened Externals
  import opened Conf
  import opened Utils

  // ----- FileProcessorMixin -----

  /** `_get_file_type(path)`: the lower-cased suffix without its dot. It is
      the extension should_process_file tests, and holds no dot at all. */
  function FileType(path: string): (r: string)
    ensures r == ExtensionOf(path)
    ensures '.' !in r
    ensures r == "" <==> SuffixOf(Name(Parse(path))) == ""
  {
    var suffix := SuffixOf(Name(Parse(path)));
    var r := LStrip(Lower(suffix), '.');
    var lowered := Lower(suffix);
    if suffix == "" then r
    else
      assert lowered[0] == '.' && lowered[1] != '.';
      assert forall i :: 1 <= i < |suffix| ==> lowered[i] != '.';
      assert |lowered| - |r| == 1;
      r
  }

  /** `should_process_minification(path)`. */
  function ShouldProcessMinification(cfg: Config, path: string): (r: bool)
    ensures r <==> cfg.minifyFiles && ShouldProcess(cfg, path) && FileType(path) in {"css", "js"}
    ensures r ==> SuffixOf(Name(Parse(path))) != ""
  {
    if !cfg.minifyFiles then false
    else if !ShouldProcess(cfg, path) then false
    else FileType(path) == "css" || FileType(path) == "js"
  }

  /** `should_process_compression(path)`, against the current files. */
  function ShouldProcessCompression(cfg: Config, files: map<string, bytes>, path: string): (r: bool)
    ensures r <==> ShouldProcess(cfg, path) && FileSize(files, path) >= MinFileSize(cfg)
  {
    if !ShouldProcess(cfg, path) then false
    else IsCompressionCandidate(cfg, files, path)
  }

  /** `bool(PRESERVE_COMMENTS)`, with None meaning True. */
  function KeepBangComments(cfg: Config): (keep: bool)
    ensures keep <==> cfg.preserveComments != Some(false)
  {
    match cfg.preserveComments
    case None => true
    case Some(b) => b
  }

  /** `minify_file_content(content, file_type)`: the minifier's output for
      css and js, the content itself for any other type and whenever the
      minifier raises. */
  function MinifyFileContent(lib: Libraries, cfg: Config, content: string, fileType: string): (r: string)
    ensures fileType != "css" && fileType != "js" ==> r == content
    ensures fileType == "css" ==>
              r == (if lib.cssmin(content, KeepBangComments(cfg)).Some?
                    then lib.cssmin(content, KeepBangComments(cfg)).value else content)
    ensures fileType == "js" ==>
              r == (if lib.jsmin(content, KeepBangComments(cfg)).Some?
                    then lib.jsmin(content, KeepBangComments(cfg)).value else content)
  {
    if fileType == "css" then
      match lib.cssmin(content, KeepBangComments(cfg))
      case Some(minified) => minified
      case None => content
    else if fileType == "js" then
      match lib.jsmin(content, KeepBangComments(cfg))
      case Some(minified) => minified
      case None => content
    else content
  }

  // ----- Settings read by the loops -----

  /** `MAX_FILES_PER_RUN or 1000`. */
  function MaxFilesPerRun(cfg: Config): (r: int)
    ensures cfg.maxFilesPerRun.None? || cfg.maxFilesPerRun == Some(0) ==> r == 1000
    ensures cfg.maxFilesPerRun.Some? && cfg.maxFilesPerRun.value != 0 ==> r == cfg.maxFilesPerRun.value
    ensures r != 0
  {
    OrDefault(cfg.maxFilesPerRun, 1000)
  }

  /** `MAX_FILE_SIZE or 10485760`. */
  function MaxFileSize(cfg: Config): (r: int)
    ensures cfg.maxFileSize.None? || cfg.maxFileSize == Some(0) ==> r == 10485760
    ensures cfg.maxFileSize.Some? && cfg.maxFileSize.value != 0 ==> r == cfg.maxFileSize.value
    ensures r != 0
  {
    OrDefault(cfg.maxFileSize, 10485760)
  }

  /** The budget as storage.py computes it: the argument
      `DEFAULT_SETTINGS["MAX_FILES_PER_RUN"]` is evaluated before get_setting
      is called. */
  function MaxFilesPerRunAsWritten(cfg: Config): (r: Result<int, PyError>)
    ensures r.Success? ==> r.value == MaxFilesPerRun(cfg)
  {
    match DefaultSetting("MAX_FILES_PER_RUN")
    case Failure(e) => Failure(e)
    case Success(_) => Success(MaxFilesPerRun(cfg))
  }

  /** The size ceiling as `_read_file_content` computes it, with the same
      eager `DEFAULT_SETTINGS["MAX_FILE_SIZE"]`. */
  function MaxFileSizeAsWritten(cfg: Config): (r: Result<int, PyError>)
    ensures r.Success? ==> r.value == MaxFileSize(cfg)
  {
    match DefaultSetting("MAX_FILE_SIZE")
    case Failure(e) => Failure(e)
    case Success(_) => Success(MaxFileSize(cfg))
  }

  /** Both settings are missing from DEFAULT_SETTINGS, so as written every
      evaluation raises KeyError, whatever the project configures. */
  lemma BudgetSettingsRaiseAsWritten(cfg: Config)
    ensures MaxFilesPerRunAsWritten(cfg) == Failure(KeyError("MAX_FILES_PER_RUN"))
    ensures MaxFileSizeAsWritten(cfg) == Failure(KeyError("MAX_FILE_SIZE"))
  {
  }

  // ----- Level clamping -----

  /** `max(low, min(high, value))` */
  function Clamp(value: int, low: int, high: int): int {
    if value < low then low else if value > high then high else value
  }

  /** The gzip level: `COMPRESSION_LEVEL_GZIP or 6`, clamped to 0..9. */
  function GzipLevel(cfg: Config): (level: int)
    ensures 0 <= level <= 9
    ensures cfg.gzipLevel.None? || cfg.gzipLevel == Some(0) ==> level == 6
    ensures cfg.gzipLevel.Some? && 1 <= cfg.gzipLevel.value <= 9 ==> level == cfg.gzipLevel.value
    ensures cfg.gzipLevel.Some? && cfg.gzipLevel.value > 9 ==> level == 9
    ensures cfg.gzipLevel.Some? && cfg.gzipLevel.value < 0 ==> level == 0
  {
    Clamp(OrDefault(cfg.gzipLevel, 6), 0, 9)
  }

  /** The brotli quality: `COMPRESSION_LEVEL_BROTLI or 4`, clamped to 0..11. */
  function BrotliQuality(cfg: Config): (quality: int)
    ensures 0 <= quality <= 11
    ensures cfg.brotliQuality.None? || cfg.brotliQuality == Some(0) ==> quality == 4
    ensures cfg.brotliQuality.Some? && 1 <= cfg.brotliQuality.value <= 11 ==> quality == cfg.brotliQuality.value
    ensures cfg.brotliQuality.Some? && cfg.brotliQuality.value > 11 ==> quality == 11
    ensures cfg.brotliQuality.Some? && cfg.brotliQuality.value < 0 ==> quality == 0
  {
    Clamp(OrDefault(cfg.brotliQuality, 4), 0, 11)
  }

  // ----- Guarded reads and writes -----

  /** `_read_file_content(path)`: the stored bytes of a safe, existing file
      no larger than the ceiling; None otherwise. */
  function ReadFileContent(lib: Libraries, cfg: Config, files: map<string, bytes>, path: string): (r: Option<bytes>)
    ensures r.Some? <==> lib.isSafePath(path) && path in files && |files[path]| <= MaxFileSize(cfg)
    ensures r.Some? ==> r.value == files[path]
  {
    if !lib.isSafePath(path) then None
    else if path !in files then None
    else if |files[path]| > MaxFileSize(cfg) then None
    else Some(files[path])
  }

  /** The files after `_write_file_content(path, content)`: an unsafe path
      is never written. */
  function WriteFile(lib: Libraries, files: map<string, bytes>, path: string, content: bytes): (r: map<string, bytes>)
    ensures !lib.isSafePath(path) ==> r == files
    ensures lib.isSafePath(path) ==> path in r && r[path] == content
    ensures forall q :: q != path ==> (q in r <==> q in files) && (q in files ==> r[q] == files[q])
  {
    if lib.isSafePath(path) then files[path := content] else files
  }

  /** `_read_file_content(path)` as written: past the safety check the
      size ceiling is looked up eagerly, which raises. */
  function ReadFileContentAsWritten(lib: Libraries, cfg: Config, files: map<string, bytes>, path: string): (r: Result<Option<bytes>, PyError>)
    ensures r.Success? ==> r.value == ReadFileContent(lib, cfg, files, path)
    ensures !lib.isSafePath(path) ==> r == Success(None)
  {
    if !lib.isSafePath(path) then Success(None)
    else match MaxFileSizeAsWritten(cfg)
      case Failure(e) => Failure(e)
      case Success(_) => Success(ReadFileContent(lib, cfg, files, path))
  }

  /** As written, every read of a safe path raises KeyError, which both
      loops catch as a skip: no existing safe file is ever processed. */
  lemma SafeReadsRaiseAsWritten(lib: Libraries, cfg: Config, files: map<string, bytes>, path: string)
    requires lib.isSafePath(path)
    ensures ReadFileContentAsWritten(lib, cfg, files, path) == Failure(KeyError("MAX_FILE_SIZE"))
  {
    BudgetSettingsRaiseAsWritten(cfg);
  }

  // ----- Names of the outputs -----

  /** The path for storage operations: an absolute path loses its root
      component, a relative path is kept as it is, and a path that is a root
      alone falls back to its basename, "" or ".". */
  function RootStripped(path: string): (r: string)
    ensures !IsAbs(r)
    ensures !IsAbs(path) ==> r == path
    ensures IsAbs(path) && Parse(path).tail != [] ==> r == Join(Parse(path).tail)
    ensures IsAbs(path) && Parse(path).tail != [] ==> Parse(r) == Parsed("", Parse(path).tail)
    ensures IsAbs(path) && Parse(path).tail == [] ==> r == if EndsWith(path, ".") then "." else ""
  {
    if !IsAbs(path) then path
    else
      var tail := Parse(path).tail;
      if |tail| >= 1 then
        JoinFacts(tail);
        ParseRooted("", Join(tail));
        Join(tail)
      else
        RootOnlyBasename(path);
        Basename(path)
  }
  /** A root alone: "/" and "//" become "", while "/." becomes ".", the
      basename `os.path.basename` gives for it. */
  lemma RootOnlyStripped()
    ensures RootStripped("/") == "" && RootStripped("//") == ""
    ensures RootStripped("/.") == "."
  {
    assert Parse("/").tail == [] && Parse("//").tail == [];
    assert "/."[1..] == "." && Parse("/.").tail == [];
    assert EndsWith("/.", ".") && !EndsWith("/", ".") && !EndsWith("//", ".");
  }


  /** `f"{stem}.min.{file_hash}{suffix}"` for a final component `name`. */
  function MinifiedName(name: string, fileHash: string): string {
    StemOf(name) + ".min." + fileHash + SuffixOf(name)
  }

  /** The minified file's path: the minified name under the original
      parent directory. */
  function MinifiedPath(path: string, fileHash: string): string {
    var p := Parse(path);
    PlaceUnder(Parent(p), MinifiedName(Name(p), fileHash))
  }

  /** A minified name built from a file name and a hash without
      separators is a single component holding the ".min." marker. */
  lemma MinifiedNameParts(name: string, fileHash: string)
    requires '/' !in StemOf(name) && '/' !in SuffixOf(name) && '/' !in fileHash
    ensures IsComponent(MinifiedName(name, fileHash))
    ensures Contains(MinifiedName(name, fileHash), ".min.")
  {
    var fn := MinifiedName(name, fileHash);
    assert OccursAt(fn, ".min.", |StemOf(name)|);
    assert fn[|StemOf(name)|] == '.';
  }

  /** A minified path stays in the original's directory, and its final
      component carries the ".min." marker. */
  lemma MinifiedPathParts(path: string, fileHash: string)
    requires '/' !in fileHash
    ensures var r := Parse(MinifiedPath(path, fileHash));
            && Parent(r) == Parent(Parse(path))
            && Name(r) == MinifiedName(Name(Parse(path)), fileHash)
            && Contains(Name(r), ".min.")
  {
    var p := Parse(path);
    NoSeparatorInName(p);
    MinifiedNameParts(Name(p), fileHash);
    PlaceUnderParts(p, MinifiedName(Name(p), fileHash));
  }

  /** Under exclusion patterns that hold "*.min.*" (the default ones among
      them) a minified output is never minified nor compressed again, on
      this run or a later one. */
  lemma MinifiedOutputRejected(cfg: Config, files: map<string, bytes>, path: string, fileHash: string)
    requires '/' !in fileHash
    requires "*.min.*" in ExcludePatterns(cfg)
    ensures !ShouldProcess(cfg, MinifiedPath(path, fileHash))
    ensures !ShouldProcessMinification(cfg, MinifiedPath(path, fileHash))
    ensures !ShouldProcessCompression(cfg, files, MinifiedPath(path, fileHash))
  {
    MinifiedPathParts(path, fileHash);
    MinMarkerRejected(MinifiedPath(path, fileHash), SupportedExtensions(cfg), ExcludePatterns(cfg));
  }

  lemma DefaultPatternsHoldMinMarker()
    ensures "*.min.*" in ExcludePatterns(DefaultConfig)
  {
  }
}
