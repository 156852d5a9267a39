/** utils.py: content hashing, hashed file names, extension normalisation,
    the eligibility filter and FileManager's settings-driven checks. */
module Utils {
  import opened Wrappers
  import opened PyStr
  import opened PurePath
  import opened Externals
  import opened Conf

  // ----- generate_file_hash -----

  /** What `generate_file_hash` receives: bytes to hash directly, a path
      string whose file is read and hashed, or a value of any other type. */
  datatype HashSource = Content(data: bytes) | FilePath(path: string) | Unsupported

  /** The default `length` argument. */
  const HashLength := 12

  /** `generate_file_hash(source, length)`: a prefix of the MD5 hex digest,
      taken with Python's `[:length]`; "" for an unsupported argument and for
      a path that cannot be read. `disk` is the local file system. */
  function GenerateFileHash(source: HashSource, length: int, disk: map<string, bytes>,
                            md5: bytes -> Md5Hex): (r: string)
    ensures IsLowerHex(r) && |r| <= 32
    ensures source.Content? ==> r == md5(source.data)[..|r|]
    ensures source.FilePath? && source.path in disk ==> r == md5(disk[source.path])[..|r|]
    ensures source.Content? || (source.FilePath? && source.path in disk) ==>
              |r| == if 32 <= length then 32
                     else if 0 <= length then length
                     else if -32 <= length then 32 + length
                     else 0
    ensures source.FilePath? && source.path !in disk ==> r == ""
    ensures source.Unsupported? ==> r == ""
  {
    match source
    case Content(data) => SliceTo(md5(data), length)
    case FilePath(path) => if path in disk then SliceTo(md5(disk[path]), length) else ""
    case Unsupported => ""
  }

  // ----- create_hashed_filename -----

  /** The regular expression `\.[a-f0-9]{12}$` matches at the very end. */
  predicate EndsWithHash(s: string) {
    |s| >= 13 && s[|s| - 13] == '.' && IsLowerHex(s[|s| - 12..])
  }

  /** A value of twelve lower-case hex digits, as `generate_file_hash`
      returns by default. */
  predicate IsShortHash(h: string) {
    |h| == 12 && IsLowerHex(h)
  }

  /** The same match just before a final newline, where Python's `$` also
      matches. */
  predicate EndsWithHashBeforeNewline(s: string) {
    |s| >= 14 && s[|s| - 1] == '\n' && EndsWithHash(s[..|s| - 1])
  }

  /** `re.sub(r"\.[a-f0-9]{12}$", "", stem)`: the match is removed, a final
      newline after it stays, and a stem without a match is left as it is. */
  function StripHash(stem: string): (r: string)
    ensures |r| <= |stem|
    ensures forall i :: 0 <= i < |r| ==> r[i] in stem
    ensures EndsWithHash(stem) ==> r == stem[..|stem| - 13]
    ensures EndsWithHashBeforeNewline(stem) ==> r == stem[..|stem| - 14] + "\n"
    ensures !EndsWithHash(stem) && !EndsWithHashBeforeNewline(stem) ==> r == stem
  {
    if EndsWithHash(stem) then stem[..|stem| - 13]
    else if EndsWithHashBeforeNewline(stem) then stem[..|stem| - 14] + "\n"
    else stem
  }

  /** The new final component: the stem without an old hash, the new hash,
      then the suffix. */
  function HashedName(name: string, hashValue: string): string {
    StripHash(StemOf(name)) + "." + hashValue + SuffixOf(name)
  }

  /** `create_hashed_filename(original_path, hash_value)`. */
  function CreateHashedFilename(originalPath: string, hashValue: string): string {
    var path := Parse(originalPath);
    var parent := Parent(path);
    var newFilename := HashedName(Name(path), hashValue);
    if Format(parent) != "." then Format(JoinPath(parent, newFilename)) else newFilename
  }

  /** A file name put under `parent` the way create_hashed_filename and
      process_minification do it: joined when the parent is not ".". */
  function PlaceUnder(parent: Parsed, filename: string): string {
    if Format(parent) != "." then Format(JoinPath(parent, filename)) else filename
  }

  /** Placing a well-formed file name under the parent of a path keeps that
      parent and makes the file name the final component. */
  lemma PlaceUnderParent(path: Parsed, filename: string)
    requires WellFormed(path)
    requires IsComponent(filename)
    ensures Parse(PlaceUnder(Parent(path), filename))
            == Parsed(Parent(path).root, Parent(path).tail + [filename])
  {
    var parent := Parent(path);
    ComponentsOfComponent(filename);
    FormatIsDot(parent);
    if Format(parent) != "." {
      JoinRelative(parent, filename);
      ParseFormat(Parsed(parent.root, parent.tail + [filename]));
    }
  }

  /** Placed under the parent of a path, a well-formed file name has that
      parent and is the final component. */
  lemma PlaceUnderParts(path: Parsed, filename: string)
    requires WellFormed(path)
    requires IsComponent(filename)
    ensures Parent(Parse(PlaceUnder(Parent(path), filename))) == Parent(path)
    ensures Name(Parse(PlaceUnder(Parent(path), filename))) == filename
  {
    PlaceUnderParent(path, filename);
    var t := Parent(path).tail;
    assert (t + [filename])[..|t|] == t;
  }

  /** The hashed name of a path keeps the directory and ends in the new final
      component: the stem without a trailing hash, the hash, the suffix. */
  lemma HashedFilenameParts(originalPath: string, hashValue: string)
    requires hashValue != "" && '/' !in hashValue
    ensures var path := Parse(originalPath);
            var r := Parse(CreateHashedFilename(originalPath, hashValue));
            && Parent(r) == Parent(path)
            && Name(r) == HashedName(Name(path), hashValue)
  {
    var path := Parse(originalPath);
    var name := Name(path);
    var fn := HashedName(name, hashValue);
    assert IsComponent(fn) by {
      assert fn[|StripHash(StemOf(name))|] == '.';
      NoSeparatorInName(path);
      assert '/' !in StripHash(StemOf(name));
      assert '/' !in SuffixOf(name);
    }
    assert CreateHashedFilename(originalPath, hashValue) == PlaceUnder(Parent(path), fn);
    PlaceUnderParts(path, fn);
  }

  /** When the stem carries no hash, the hashed name keeps the directory and
      ends in `stem.<hash>suffix`. */
  lemma HashFreeFilename(originalPath: string, hashValue: string)
    requires hashValue != "" && '/' !in hashValue
    requires var stem := StemOf(Name(Parse(originalPath)));
             !EndsWithHash(stem) && !EndsWithHashBeforeNewline(stem)
    ensures var path := Parse(originalPath);
            var r := Parse(CreateHashedFilename(originalPath, hashValue));
            && Parent(r) == Parent(path)
            && Name(r) == StemOf(Name(path)) + "." + hashValue + SuffixOf(Name(path))
  {
    HashedFilenameParts(originalPath, hashValue);
  }

  /** A file name without a directory is hashed in place: no parent is
      joined in front of it. */
  lemma BareNameHashed(name: string, hashValue: string)
    requires IsComponent(name)
    ensures CreateHashedFilename(name, hashValue) == HashedName(name, hashValue)
  {
    SplitWithoutSeparator(name);
    ComponentsOfComponent(name);
    assert Parse(name) == Parsed("", [name]);
    assert Format(Parent(Parse(name))) == ".";
  }

  /** A name `stem.ext` with one dot and no hash in its stem gets the hash
      between the two. */
  lemma HashedPlainName(stem: string, ext: string, hashValue: string)
    requires stem != "" && ext != "" && '.' !in ext
    requires !EndsWithHash(stem) && !EndsWithHashBeforeNewline(stem)
    ensures HashedName(stem + "." + ext, hashValue) == stem + "." + hashValue + "." + ext
  {
    SplitAtLastDot(stem, ext);
  }

  /** The pieces of the example below, spelled out. */
  lemma StyleSheetSpelling()
    ensures "style" + "." + "css" == "style.css"
    ensures "style" + "." + "abc123def456" + "." + "css" == "style.abc123def456.css"
    ensures IsComponent("style.css") && '.' !in "css"
    ensures !EndsWithHash("style") && !EndsWithHashBeforeNewline("style")
  {
  }

  /** `create_hashed_filename("style.css", "abc123def456")`. */
  lemma HashedStyleSheet()
    ensures CreateHashedFilename("style.css", "abc123def456") == "style.abc123def456.css"
  {
    StyleSheetSpelling();
    BareNameHashed("style.css", "abc123def456");
    HashedPlainName("style", "css", "abc123def456");
  }

  /** The final component of a parsed path holds no separator, so neither do
      its stem and suffix. */
  lemma NoSeparatorInName(path: Parsed)
    requires WellFormed(path)
    ensures '/' !in Name(path)
    ensures '/' !in StemOf(Name(path)) && '/' !in SuffixOf(Name(path))
  {
    var name := Name(path);
    assert StemOf(name) + SuffixOf(name) == name;
  }

  /** Re-hashing a hashed name replaces the old hash instead of adding a
      second one: for a path with an extension and a twelve-digit hash h1,
      hashing the result again with h2 is the same as hashing the original
      path with h2. */
  lemma {:induction false} RehashReplacesHash(originalPath: string, h1: string, h2: string)
    requires SuffixOf(Name(Parse(originalPath))) != ""
    requires IsShortHash(h1)
    ensures CreateHashedFilename(CreateHashedFilename(originalPath, h1), h2)
            == CreateHashedFilename(originalPath, h2)
  {
    var path := Parse(originalPath);
    var name := Name(path);
    assert '/' !in h1;
    HashedFilenameParts(originalPath, h1);
    var once := Parse(CreateHashedFilename(originalPath, h1));
    HashedNameRehash(name, h1, h2);
    assert HashedName(Name(once), h2) == HashedName(name, h2);
  }

  /** On a single component with an extension, the hashed name's stem is
      the old stem plus the hash, which StripHash removes again. */
  lemma HashedNameRehash(name: string, h1: string, h2: string)
    requires SuffixOf(name) != ""
    requires IsShortHash(h1)
    ensures HashedName(HashedName(name, h1), h2) == HashedName(name, h2)
  {
    var stem := StripHash(StemOf(name));
    HashedNameSplits(name, h1);
    StripHashAfterHash(stem, h1);
  }

  /** The last dot of a hashed name is still the one before the suffix. */
  lemma HashedNameSplits(name: string, h1: string)
    requires SuffixOf(name) != ""
    requires IsShortHash(h1)
    ensures SuffixOf(HashedName(name, h1)) == SuffixOf(name)
    ensures StemOf(HashedName(name, h1)) == StripHash(StemOf(name)) + "." + h1
  {
    var base := StripHash(StemOf(name)) + "." + h1;
    assert HashedName(name, h1) == base + SuffixOf(name);
    SplitBeforeSuffix(base, SuffixOf(name));
  }

  /** A non-empty stem followed by a suffix splits back into the two. */
  lemma SplitBeforeSuffix(base: string, suffix: string)
    requires base != "" && |suffix| >= 2 && suffix[0] == '.' && '.' !in suffix[1..]
    ensures SuffixOf(base + suffix) == suffix
    ensures StemOf(base + suffix) == base
  {
    var x := suffix[1..];
    assert base + suffix == base + "." + x;
    SplitAtLastDot(base, x);
  }

  /** StripHash removes a dot and a twelve-digit hash. */
  lemma StripHashAfterHash(stem: string, h: string)
    requires IsShortHash(h)
    ensures StripHash(stem + "." + h) == stem
  {
    var base := stem + "." + h;
    assert base[|base| - 12..] == h;
    assert base[|base| - 13] == '.';
    assert base[..|base| - 13] == stem;
  }

  // ----- normalize_extension -----

  /** `normalize_extension(extension)`: what is left after the leading
      dots, lower-cased. */
  function NormalizeExtension(extension: string): (r: string)
    ensures |r| <= |extension|
    ensures forall j :: 0 <= j < |extension| - |r| ==> extension[j] == '.'
    ensures r == Lower(extension[|extension| - |r|..])
    ensures r == [] || r[0] != '.'
    ensures forall i :: 0 <= i < |r| ==> !IsUpper(r[i])
  {
    var n := LeadingCount(Lower(extension), '.');
    LeadingDots(extension, n);
    LowerDrop(extension, n);
    LStrip(Lower(extension), '.')
  }

  /** The characters whose lower-case form is a leading dot are dots. */
  lemma LeadingDots(extension: string, n: nat)
    requires n == LeadingCount(Lower(extension), '.')
    ensures forall j :: 0 <= j < n ==> extension[j] == '.'
  {
    forall j | 0 <= j < n
      ensures extension[j] == '.'
    {
      assert Lower(extension)[j] == '.';
    }
  }

  /** Lower-casing commutes with dropping a prefix. */
  lemma LowerDrop(s: string, n: nat)
    requires n <= |s|
    ensures Lower(s[n..]) == Lower(s)[n..]
  {
    forall i | 0 <= i < |s| - n
      ensures Lower(s[n..])[i] == Lower(s)[n..][i]
    {
      assert s[n..][i] == s[n + i];
    }
  }

  /** Normalising twice changes nothing more. */
  lemma NormalizeExtensionIdempotent(extension: string)
    ensures NormalizeExtension(NormalizeExtension(extension)) == NormalizeExtension(extension)
  {
    var r := NormalizeExtension(extension);
    var again := NormalizeExtension(r);
    assert r == [] || r[0] != '.';
    assert |again| == |r|;
    assert r[|r| - |again|..] == r;
    assert Lower(r) == r;
  }

  // ----- should_process_file -----

  /** One iteration of the exclude-pattern loop: whether `pattern` rejects
      the final path component `filename`. */
  predicate PatternExcludes(filename: string, pattern: string)
    ensures PatternExcludes(filename, pattern) <==>
              || (pattern == "*.min.*" && Contains(filename, ".min."))
              || (pattern == "*-min.*" && Contains(filename, "-min."))
              || (StartsWith(pattern, "*") && EndsWith(filename, pattern[1..]))
              || EndsWith(filename, pattern)
  {
    if pattern == "*.min.*" && Contains(filename, ".min.") then true
    else if pattern == "*-min.*" && Contains(filename, "-min.") then true
    else if StartsWith(pattern, "*") && EndsWith(filename, pattern[1..]) then true
    else EndsWith(filename, pattern)
  }

  /** The loop over the patterns, which returns False at the first match. */
  function AnyPatternExcludes(filename: string, patterns: seq<string>): (r: bool)
    ensures r <==> exists i :: 0 <= i < |patterns| && PatternExcludes(filename, patterns[i])
  {
    if patterns == [] then false
    else PatternExcludes(filename, patterns[0]) || AnyPatternExcludes(filename, patterns[1..])
  }

  /** `exclude_patterns or []` */
  function PatternsOrEmpty(patterns: Option<seq<string>>): seq<string> {
    match patterns
    case Some(ps) => ps
    case None => []
  }

  /** The extension should_process_file tests: the normalised suffix of the
      final component. */
  function ExtensionOf(filePath: string): string {
    NormalizeExtension(SuffixOf(Name(Parse(filePath))))
  }

  /** `should_process_file(file_path, supported_extensions, exclude_patterns)`:
      the extension is supported and no pattern rejects the final component. */
  function ShouldProcessFile(filePath: string, supported: set<string>,
                             excludePatterns: Option<seq<string>>): (r: bool)
    ensures supported == {} ==> !r
    ensures ExtensionOf(filePath) !in supported ==> !r
    ensures r <==> && ExtensionOf(filePath) in supported
                   && forall i :: 0 <= i < |PatternsOrEmpty(excludePatterns)| ==>
                        !PatternExcludes(Name(Parse(filePath)), PatternsOrEmpty(excludePatterns)[i])
  {
    var path := Parse(filePath);
    var ext := NormalizeExtension(SuffixOf(Name(path)));
    if supported == {} || ext !in supported then false
    else
      var filename := Name(path);
      !AnyPatternExcludes(filename, PatternsOrEmpty(excludePatterns))
  }

  /** A final component carrying the ".min." marker is rejected by any
      pattern list holding "*.min.*", whatever the extensions. */
  lemma MinMarkerRejected(filePath: string, supported: set<string>, patterns: seq<string>)
    requires "*.min.*" in patterns
    requires Contains(Name(Parse(filePath)), ".min.")
    ensures !ShouldProcessFile(filePath, supported, Some(patterns))
  {
    var i :| 0 <= i < |patterns| && patterns[i] == "*.min.*";
    assert PatternExcludes(Name(Parse(filePath)), patterns[i]);
  }

  // ----- FileManager -----

  /** `FileManager.supported_extensions` as `should_process` hands it on: the
      keys of a mapping, whatever their flags, or the items of a list. */
  function SupportedExtensions(cfg: Config): (r: set<string>)
    ensures cfg.supportedExtensions.None? ==> r == {}
    ensures cfg.supportedExtensions.Some? && cfg.supportedExtensions.value.ExtensionMap? ==>
              r == cfg.supportedExtensions.value.flags.Keys
    ensures cfg.supportedExtensions.Some? && cfg.supportedExtensions.value.ExtensionList? ==>
              forall e :: e in r <==> e in cfg.supportedExtensions.value.items
  {
    match cfg.supportedExtensions
    case None => {}
    case Some(ExtensionMap(flags)) => flags.Keys
    case Some(ExtensionList(items)) => set e | e in items
  }

  /** `FileManager.exclude_patterns` (`result or []`). */
  function ExcludePatterns(cfg: Config): seq<string> {
    PatternsOrEmpty(cfg.excludePatterns)
  }

  /** `FileManager.min_file_size`, and again `or 200` in
      is_compression_candidate. */
  function MinFileSize(cfg: Config): (r: int)
    ensures cfg.minFileSize.None? || cfg.minFileSize == Some(0) ==> r == 200
    ensures cfg.minFileSize.Some? && cfg.minFileSize.value != 0 ==> r == cfg.minFileSize.value
  {
    OrDefault(Some(OrDefault(cfg.minFileSize, 200)), 200)
  }

  /** `FileManager.should_process(file_path)`. */
  function ShouldProcess(cfg: Config, filePath: string): (r: bool)
    ensures r <==> && ExtensionOf(filePath) in SupportedExtensions(cfg)
                   && !AnyPatternExcludes(Name(Parse(filePath)), ExcludePatterns(cfg))
  {
    ShouldProcessFile(filePath, SupportedExtensions(cfg), Some(ExcludePatterns(cfg)))
  }

  /** The flags of an extension mapping do not matter, only its keys: an
      extension mapped to False is still processed. */
  lemma ExtensionFlagsIgnored(cfg: Config, flags: map<string, bool>, filePath: string)
    requires cfg.supportedExtensions == Some(ExtensionMap(flags))
    ensures ShouldProcess(cfg, filePath)
            == ShouldProcess(cfg.(supportedExtensions := Some(ExtensionMap(map e | e in flags :: true))), filePath)
  {
    var allTrue := map e | e in flags :: true;
    assert allTrue.Keys == flags.Keys;
  }

  /** `get_file_size(path)`: the size of the file, 0 when it is missing. */
  function FileSize(files: map<string, bytes>, path: string): (size: nat)
    ensures path in files ==> size == |files[path]|
    ensures path !in files ==> size == 0
  {
    if path in files then |files[path]| else 0
  }

  /** `FileManager.is_compression_candidate(path)`: at least the minimum
      size. A missing file counts as size 0. */
  function IsCompressionCandidate(cfg: Config, files: map<string, bytes>, path: string): (r: bool)
    ensures path in files ==> (r <==> |files[path]| >= MinFileSize(cfg))
    ensures path !in files ==> (r <==> MinFileSize(cfg) <= 0)
    ensures path !in files && (cfg.minFileSize.None? || cfg.minFileSize.value >= 0) ==> !r
  {
    FileSize(files, path) >= MinFileSize(cfg)
  }
}
