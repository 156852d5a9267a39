/** The package settings: `DEFAULT_SETTINGS` as transcribed constants, and
    `Config`, the values `get_setting` returns for one run. */
module Conf {
  import opened Wrappers

  /** A value stored in `DEFAULT_SETTINGS`. */
  datatype SettingValue =
    | Flag(flag: bool)
    | Number(number: int)
    | ExtensionFlags(flags: map<string, bool>)
    | PatternList(patterns: seq<string>)

  const DefaultExtensionFlags: map<string, bool> := map[
    "css" := true, "js" := true, "txt" := true, "xml" := true, "json" := true,
    "svg" := true, "md" := true, "rst" := true, "html" := true, "htm" := true]

  const DefaultExcludePatterns: seq<string> := ["*.min.*", "*-min.*"]

  /** `DEFAULT_SETTINGS` of conf.py. It has no MAX_FILES_PER_RUN and no
      MAX_FILE_SIZE entry. */
  const DefaultSettings: map<string, SettingValue> := map[
    "ENABLED" := Flag(true),
    "MINIFY_FILES" := Flag(true),
    "BROTLI_COMPRESSION" := Flag(true),
    "GZIP_COMPRESSION" := Flag(true),
    "MIN_FILE_SIZE" := Number(200),
    "COMPRESSION_LEVEL_GZIP" := Number(9),
    "COMPRESSION_LEVEL_BROTLI" := Number(11),
    "PRESERVE_COMMENTS" := Flag(true),
    "SUPPORTED_EXTENSIONS" := ExtensionFlags(DefaultExtensionFlags),
    "EXCLUDE_PATTERNS" := PatternList(DefaultExcludePatterns)]

  datatype PyError = KeyError(key: string)

  /** `DEFAULT_SETTINGS[name]`, which raises KeyError for a missing name. */
  function DefaultSetting(name: string): (r: Result<SettingValue, PyError>)
    ensures r.Failure? <==> name !in DefaultSettings
    ensures r.Failure? ==> r.error == KeyError(name)
    ensures r.Success? ==> r.value == DefaultSettings[name]
  {
    if name in DefaultSettings then Success(DefaultSettings[name]) else Failure(KeyError(name))
  }

  /** The SUPPORTED_EXTENSIONS setting: a dict whose keys are the extensions,
      or a plain collection of them. */
  datatype Extensions = ExtensionMap(flags: map<string, bool>) | ExtensionList(items: seq<string>)

  /** What `get_setting(name, default)` yields for each setting in one run.
      Booleans are the Python truthiness of the value. A numeric or
      collection setting is None when the value is falsy and not a number
      (None, an empty collection); a number keeps its value, so 0 stays
      Some(0). */
  datatype Config = Config(
    minifyFiles: bool,
    gzipCompression: bool,
    brotliCompression: bool,
    minFileSize: Option<int>,
    maxFileSize: Option<int>,
    maxFilesPerRun: Option<int>,
    gzipLevel: Option<int>,
    brotliQuality: Option<int>,
    preserveComments: Option<bool>,
    supportedExtensions: Option<Extensions>,
    excludePatterns: Option<seq<string>>)

  /** The settings when the project overrides none of them: every value is
      the one in `DefaultSettings`, and the two settings that have no default
      are None. */
  const DefaultConfig: Config := Config(
    minifyFiles := true,
    gzipCompression := true,
    brotliCompression := true,
    minFileSize := Some(200),
    maxFileSize := None,
    maxFilesPerRun := None,
    gzipLevel := Some(9),
    brotliQuality := Some(11),
    preserveComments := Some(true),
    supportedExtensions := Some(ExtensionMap(DefaultExtensionFlags)),
    excludePatterns := Some(DefaultExcludePatterns))

  /** Python's `value or fallback` for a numeric setting: None and 0 are
      falsy and give the fallback, any other number is kept. */
  function OrDefault(value: Option<int>, fallback: int): (r: int)
    ensures value.None? ==> r == fallback
    ensures value.Some? && value.value == 0 ==> r == fallback
    ensures value.Some? && value.value != 0 ==> r == value.value
    ensures fallback != 0 ==> r != 0
  {
    match value
    case Some(n) => if n != 0 then n else fallback
    case None => fallback
  }
}
