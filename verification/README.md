# django-minify-compress-staticfiles, modelled in Dafny

`django-minify-compress-staticfiles` is a Django static-files storage backend.
Django's `collectstatic` first runs the manifest pass, which writes each file
under a content-hashed name. After that, `MinicompressStorage.post_process` does
four things:

1. It takes the stored (hashed) names from the manifest, or the collected paths
   when the manifest has none.
2. It minifies the CSS and JavaScript files to `dir/stem.min.<hash>.suffix`,
   keeping an output only when it is strictly shorter.
3. It yields one `(original, minified, True)` triple per minified file, then
   writes gzip (`.gz`) and brotli (`.br`) copies of the processed files. The
   minified outputs are passed to the compression loop as well, but it rejects
   them whenever `"*.min.*"` is among the exclusion patterns, as it is by
   default.
4. It redirects the manifest entries of the minified files to the minified
   names.

Two settings-driven filters decide which files take part:

- The file manager's eligibility filter looks at the extension and at a small
  hand-rolled matcher for exclusion patterns.
- A minimum size applies to compression.

Both loops stop once their own counter reaches the per-run file budget.

The model has these modules:

- `Wrappers` holds `Option`, `Result`, and an insertion-ordered dictionary kept as a sequence of pairs.
- `PyStr` holds the Python `str` operations the code uses.
- `PurePath` models POSIX `pathlib` and `os.path`.
- `Externals` holds the foreign code, passed in as a `Libraries` record of functions: the minifiers, the compressors, MD5, UTF-8 and `is_safe_path`.
- `Conf` holds `DEFAULT_SETTINGS` and the per-run settings.
- `Utils` models `utils.py`.
- `Storage` covers the single-file operations of `storage.py`.
- `Batches` holds the two loops as functions from one iteration's state to the next.
- `Manifests` holds the manifest rewrite.
- `Backend` holds the `MinicompressStorage` class. Its stored files and manifest are fields, and its methods are the loops of `storage.py`. Each method is proved to leave exactly the state that the matching `Batches` or `Manifests` function describes.

Storage is one map from names to bytes. A manifest is its `paths` member, an
ordered dict from original names to stored names.

## Model

| member | source | states |
|---|---|---|
| Conf.DefaultSetting | django_minify_compress_staticfiles/conf.py:9-34 | Looking up a name in DEFAULT_SETTINGS fails with KeyError exactly when the name is missing, and otherwise gives the transcribed value |
| Conf.OrDefault | django_minify_compress_staticfiles/utils.py:119 | Python's `value or fallback` on a numeric setting: None and 0 give the fallback and any other number is kept, so a non-zero fallback always gives a non-zero result |
| Utils.GenerateFileHash | django_minify_compress_staticfiles/utils.py:14-34 | Bytes, and the content of a readable path, hash to a prefix of the MD5 hex digest taken as Python's `[:length]`: `length` characters for 0 to 32, all 32 above that, and `32 + length` characters (none below -32) for a negative `length`. A missing path and an unsupported argument both give "". The result is always lower-case hex |
| Utils.StripHash | django_minify_compress_staticfiles/utils.py:44-47 | A stem ending in `.` plus 12 lower-case hex digits loses exactly those 13 characters. When the match sits just before a final newline, the match goes and the newline stays. Any other stem is returned unchanged. The result is never longer and only holds characters of the stem |
| Utils.PlaceUnderParent | django_minify_compress_staticfiles/utils.py:50-53 | A file name placed under a path's parent (joined unless the parent is ".") parses back as that parent followed by the file name |
| Utils.PlaceUnderParts | django_minify_compress_staticfiles/utils.py:50-53 | Under a path's parent, a file name that is one component has that parent and is the final component |
| Utils.HashedFilenameParts | django_minify_compress_staticfiles/utils.py:37-53 | `create_hashed_filename` keeps the parent directory, and its final component is the stem without an old hash, then `.`, the hash and the suffix |
| Utils.HashedName | django_minify_compress_staticfiles/utils.py:41-49 | The new file name: the stem without an old hash, `.`, the hash and the suffix; `Utils.HashedNameSplits` states how it splits again |
| Utils.PlaceUnder | django_minify_compress_staticfiles/utils.py:50-53 | A file name under a parent, joined unless the parent is "."; `Utils.PlaceUnderParts` states what it parses back to |
| Utils.HashFreeFilename | django_minify_compress_staticfiles/utils.py:37-53 | For a stem without a trailing hash, `create_hashed_filename` keeps the parent directory and its final component is `stem.<hash>suffix` |
| Utils.BareNameHashed | django_minify_compress_staticfiles/utils.py:50-53 | A file name without a directory is not joined to a parent: the result is the hashed name alone |
| Utils.HashedPlainName | django_minify_compress_staticfiles/utils.py:41-49 | A name `stem.ext` whose stem has no hash gets the hash between the stem and the extension |
| Utils.HashedStyleSheet | django_minify_compress_staticfiles/utils.py:37-53 | `create_hashed_filename("style.css", "abc123def456")` is `"style.abc123def456.css"` |
| Utils.CreateHashedFilename | django_minify_compress_staticfiles/utils.py:37-53 | `create_hashed_filename`: the stem without an old hash, `.`, the hash and the suffix, placed under the original parent unless that is "."; what this gives is stated by `Utils.HashedFilenameParts`, `Utils.HashFreeFilename` and `Utils.RehashReplacesHash` |
| Utils.HashedNameRehash | django_minify_compress_staticfiles/utils.py:41-49 | For a name with an extension, hashing the hashed name again with h2 gives the name hashed with h2 |
| Utils.HashedNameSplits | django_minify_compress_staticfiles/utils.py:41-49 | A hashed name keeps the suffix, and its stem is the old stem without a hash, then `.` and the hash |
| Utils.StripHashAfterHash | django_minify_compress_staticfiles/utils.py:44-47 | Appending `.` and a 12-hex-digit hash to a stem and stripping the hash gives the stem back |
| Utils.RehashReplacesHash | django_minify_compress_staticfiles/utils.py:37-53 | For a path with an extension and a 12-hex-digit h1, `create_hashed_filename(create_hashed_filename(p, h1), h2) == create_hashed_filename(p, h2)` |
| Utils.NormalizeExtension | django_minify_compress_staticfiles/utils.py:56-58 | The result is what is left of the input after its leading dots, lower-cased; everything dropped is a dot. It does not start with a dot and has no upper-case letter |
| Utils.NormalizeExtensionIdempotent | django_minify_compress_staticfiles/utils.py:56-58 | Normalising an extension twice gives the same result as normalising it once |
| Utils.AnyPatternExcludes | django_minify_compress_staticfiles/utils.py:72-81 | The pattern loop rejects the name exactly when some pattern rejects it. Cases in order: `*.min.*` on ".min.", `*-min.*` on "-min.", `*X` by suffix X, otherwise by the pattern itself as suffix |
| Utils.PatternExcludes | django_minify_compress_staticfiles/utils.py:74-81 | One pattern rejects a name exactly when one of the four cases holds: `*.min.*` with ".min." in the name, `*-min.*` with "-min.", `*X` with the name ending in X, or the name ending in the pattern itself |
| Utils.ShouldProcessFile | django_minify_compress_staticfiles/utils.py:61-83 | True exactly when the normalised suffix is supported and no pattern (None counts as none) rejects the final component. An empty extension set rejects everything |
| Utils.MinMarkerRejected | django_minify_compress_staticfiles/utils.py:74-75 | A final component containing ".min." is rejected by any pattern list that holds "*.min.*", whatever the extensions |
| Utils.SupportedExtensions | django_minify_compress_staticfiles/utils.py:101-107 | The extensions `should_process` passes on: a mapping's keys, a list's items, none for a falsy setting |
| Utils.MinFileSize | django_minify_compress_staticfiles/utils.py:115-119 | A missing or 0 setting falls back to 200. Any other value is kept |
| Utils.ShouldProcess | django_minify_compress_staticfiles/utils.py:121-132 | The file manager admits a path exactly when its extension is among the configured ones and no configured pattern rejects its final component |
| Utils.ExtensionFlagsIgnored | django_minify_compress_staticfiles/utils.py:123-125 | Only the keys of an extension mapping matter. Setting every flag to True does not change `should_process`, so an extension mapped to False is still processed |
| Utils.IsCompressionCandidate | django_minify_compress_staticfiles/utils.py:134-144 | A stored file is a candidate exactly when its size is at least the minimum. A missing file has size 0, so it is never a candidate under a non-negative minimum |
| Utils.FileSize | django_minify_compress_staticfiles/utils.py:86-92 | The size of a stored file is its length in bytes. A missing file has size 0 |
| Storage.FileType | django_minify_compress_staticfiles/storage.py:42-44 | `_get_file_type` is the extension the file manager tests. It holds no dot, and it is empty exactly when the name has no suffix |
| Storage.ShouldProcessMinification | django_minify_compress_staticfiles/storage.py:28-34 | True exactly when MINIFY_FILES is on, the file manager admits the path, and its type is css or js. Such a path has a suffix |
| Storage.ShouldProcessCompression | django_minify_compress_staticfiles/storage.py:36-40 | True exactly when the file manager admits the path and its size is at least the minimum |
| Storage.MinifyFileContent | django_minify_compress_staticfiles/storage.py:46-76 | css and js get the minifier's output, with comments kept unless PRESERVE_COMMENTS is false. A raising minifier and any other type give the content unchanged |
| Storage.KeepBangComments | django_minify_compress_staticfiles/storage.py:50-54 | Comments are kept unless PRESERVE_COMMENTS is False. A missing setting (None) keeps them |
| Storage.MaxFilesPerRun | django_minify_compress_staticfiles/storage.py:86-90 | The budget is the configured MAX_FILES_PER_RUN when that is non-zero. A missing or 0 setting falls back to 1000. It is never 0 |
| Storage.MaxFileSize | django_minify_compress_staticfiles/storage.py:214-216 | The size ceiling is the configured MAX_FILE_SIZE when that is non-zero. A missing or 0 setting falls back to 10485760. It is never 0 |
| Storage.MaxFilesPerRunAsWritten | django_minify_compress_staticfiles/storage.py:86-90 | As written, evaluating the budget either raises or gives `MaxFilesPerRun` |
| Storage.MaxFileSizeAsWritten | django_minify_compress_staticfiles/storage.py:214-216 | As written, evaluating the size ceiling either raises or gives `MaxFileSize` |
| Storage.BudgetSettingsRaiseAsWritten | django_minify_compress_staticfiles/storage.py:155-159 | As written, both the budget and the size ceiling raise KeyError for every configuration, because DEFAULT_SETTINGS has neither key |
| Storage.GzipLevel | django_minify_compress_staticfiles/storage.py:249-256 | The gzip level lies in 0..9. A missing or 0 setting falls back to 6. An in-range value is kept. Values above are cut to 9 and values below to 0 |
| Storage.BrotliQuality | django_minify_compress_staticfiles/storage.py:265-272 | The brotli quality lies in 0..11. A missing or 0 setting falls back to 4. An in-range value is kept. Values above are cut to 11 and values below to 0 |
| Storage.ReadFileContent | django_minify_compress_staticfiles/storage.py:209-237 | Content is returned exactly when the path is safe, exists and is no larger than the ceiling, and it is then the stored bytes. Otherwise the result is None |
| Storage.WriteFile | django_minify_compress_staticfiles/storage.py:239-244 | An unsafe path leaves the files unchanged. A safe path gets the content. No other file changes |
| Storage.ReadFileContentAsWritten | django_minify_compress_staticfiles/storage.py:209-216 | As written, an unsafe path gives None. When the read succeeds at all, it agrees with `ReadFileContent` |
| Storage.SafeReadsRaiseAsWritten | django_minify_compress_staticfiles/storage.py:214-216 | As written, reading any safe path raises KeyError("MAX_FILE_SIZE") |
| Storage.RootStripped | django_minify_compress_staticfiles/storage.py:172-184 | The result is never absolute. A relative path is kept. An absolute path with components becomes exactly those components joined by "/", with no root. An absolute path that is a root alone becomes its basename: "." when it ends with a dot, "" otherwise |
| Storage.RootOnlyStripped | django_minify_compress_staticfiles/storage.py:178-182 | The root-only fallback: "/" and "//" become "", and "/." becomes "." |
| Storage.MinifiedNameParts | django_minify_compress_staticfiles/storage.py:123-127 | A minified name built from separator-free parts is one path component containing ".min." |
| Storage.MinifiedName | django_minify_compress_staticfiles/storage.py:125-127 | `f"{stem}.min.{file_hash}{suffix}"` of a final component; `Storage.MinifiedNameParts` states that it is one component holding ".min." |
| Storage.MinifiedPath | django_minify_compress_staticfiles/storage.py:122-131 | The minified name under the original parent, joined unless the parent is "."; `Storage.MinifiedPathParts` states its directory and final component |
| Storage.MinifiedPathParts | django_minify_compress_staticfiles/storage.py:123-131 | The minified path has the original's parent directory. Its final component is `stem.min.<hash>suffix` and contains ".min." |
| Storage.MinifiedOutputRejected | django_minify_compress_staticfiles/storage.py:28-40 | With "*.min.*" among the patterns, a minified path is rejected by the file manager and by both the minification and compression checks, on this run and any later one |
| Storage.DefaultPatternsHoldMinMarker | django_minify_compress_staticfiles/conf.py:30-33 | The default exclusion patterns hold "*.min.*" |
| Batches.MinifiedHash | django_minify_compress_staticfiles/storage.py:115-121 | The hash is 12 lower-case hex digits: the MD5 prefix of the UTF-8 path bytes followed by the UTF-8 minified bytes |
| Batches.MinifiedPathOfHasMarker | django_minify_compress_staticfiles/storage.py:127 | Every minified path has ".min." in its final component |
| Batches.MinifyDecoded | django_minify_compress_staticfiles/storage.py:109-131 | A decoded text gives an output exactly when the minifier strictly shortens it. The output is then the minified text, under the minified path of the original named by `MinifiedHash` of the path and the minified text |
| Batches.MinifyRead | django_minify_compress_staticfiles/storage.py:103-138 | Minifying a read file keeps the keys distinct |
| Batches.MinifyOne | django_minify_compress_staticfiles/storage.py:93-141 | One iteration past the budget check keeps the keys distinct; `Batches.MinifyOneCases` states its two outcomes |
| Batches.Record | django_minify_compress_staticfiles/storage.py:133-138 | Recording an output sets the entry `path -> output` and keeps the keys distinct |
| Batches.RecordFacts | django_minify_compress_staticfiles/storage.py:133-138 | Recording counts exactly one file and adds at most one entry. Every entry is either an old entry at its old position or `path -> output`. At most the output path is written, and only when it is safe |
| Batches.RecordKey | django_minify_compress_staticfiles/storage.py:137 | After recording, the path is a key |
| Batches.RecordKeepsKey | django_minify_compress_staticfiles/storage.py:137 | Recording keeps every key that was already there |
| Batches.RecordEntries | django_minify_compress_staticfiles/storage.py:133-137 | Recording a minified entry keeps every entry a minified entry |
| Batches.MinifySkips | django_minify_compress_staticfiles/storage.py:97-113 | A path that is ineligible, unreadable, undecodable or not shortened leaves the state, count included, unchanged |
| Batches.MinifyOneCases | django_minify_compress_staticfiles/storage.py:97-138 | An iteration either leaves the state unchanged or records its own eligible path. In the second case the path was read and decoded, the recorded text is the minifier's output for the decoded content and strictly shorter than it, and the output path is the minified path named by `MinifiedHash` of the path and that text |
| Batches.MinifyOneCount | django_minify_compress_staticfiles/storage.py:93-138 | An iteration either changes nothing or counts exactly one file and adds at most one entry |
| Batches.MinifyOneKeys | django_minify_compress_staticfiles/storage.py:137 | After an iteration every key was already present or is the iteration's own path |
| Batches.MinifyOneEntries | django_minify_compress_staticfiles/storage.py:133-137 | When every entry maps an eligible path to a minified path of it, an iteration keeps that true |
| Batches.MinifyReadCounts | django_minify_compress_staticfiles/storage.py:112-138 | A read file whose decoded text the minifier strictly shortens is counted |
| Batches.MinifyOneCounts | django_minify_compress_staticfiles/storage.py:97-138 | An iteration on an eligible, readable, decodable path that gets shorter counts it |
| Batches.MinifyOneRecords | django_minify_compress_staticfiles/storage.py:97-138 | An iteration on an eligible, readable, decodable path that gets shorter records that path |
| Batches.MinifyOneKeepsKey | django_minify_compress_staticfiles/storage.py:137 | An iteration never drops a recorded key |
| Batches.MinifyOneKeepsShrinks | django_minify_compress_staticfiles/storage.py:133-136 | Under "*.min.*" an iteration never rewrites an eligible path, so a path that would shrink still does afterwards |
| Batches.MinifyOneFiles | django_minify_compress_staticfiles/storage.py:133-136 | An iteration writes only safe paths carrying ".min.". No file disappears and no original is overwritten |
| Batches.MinifyLoop | django_minify_compress_staticfiles/storage.py:93-96 | The keys of the dict stay distinct. The budget bound is `Batches.MinifyLoopBudget` |
| Batches.MinifyRun | django_minify_compress_staticfiles/storage.py:82-142 | `process_minification`: the loop from an empty dict and a zero count, or nothing when MINIFY_FILES is off. Keys stay distinct |
| Batches.MinifyLoopBudget | django_minify_compress_staticfiles/storage.py:91-96 | The count never decreases and never passes the budget, and the number of entries never exceeds the count |
| Batches.MinifyLoopEntries | django_minify_compress_staticfiles/storage.py:93-137 | When every entry maps an eligible path to a minified path of it, the whole loop keeps that true |
| Batches.MinifyLoopKeys | django_minify_compress_staticfiles/storage.py:93-137 | Every key after the loop was already present or is one of the input paths |
| Batches.MinifyLoopWrites | django_minify_compress_staticfiles/storage.py:133-136 | The loop writes only safe ".min." paths |
| Batches.MinifyLoopKeepsKey | django_minify_compress_staticfiles/storage.py:93-137 | The loop never drops a recorded key |
| Batches.MinifyLoopRecords | django_minify_compress_staticfiles/storage.py:93-138 | When the loop ends below its budget under "*.min.*", every input path that is eligible, readable, decodable and shortened by its minifier is a key |
| Batches.MinifyRunFacts | django_minify_compress_staticfiles/storage.py:82-142 | `process_minification` returns {} and writes nothing when MINIFY_FILES is off. Otherwise it minifies at most `max(0, budget)` files, maps only eligible input paths to minified paths of them under a 12-digit hash, and writes only safe ".min." files. Which hash each entry gets is stated per iteration by `Batches.MinifyOneCases`. What it must record is `Batches.MinifyRunRecords` |
| Batches.MinifyRunRecords | django_minify_compress_staticfiles/storage.py:82-142 | The other direction of `Batches.MinifyRunFacts`: when `process_minification` ends below its budget under "*.min.*", it has recorded every input path that is eligible, readable, decodable and strictly shortened by its minifier |
| Batches.CodecNames | django_minify_compress_staticfiles/storage.py:185-202 | A file gets one name per enabled codec: `rel.gz` when gzip is on, then `rel.br` when brotli is on |
| Batches.GzipStep | django_minify_compress_staticfiles/storage.py:185-194 | With gzip on, the step appends `rel.gz` to the path's entry and writes only that name. With gzip off nothing changes. The count is untouched |
| Batches.BrotliStep | django_minify_compress_staticfiles/storage.py:195-202 | With brotli on, the step appends `rel.br` to the path's entry and writes only that name. With brotli off nothing changes. The count is untouched |
| Batches.CompressRead | django_minify_compress_staticfiles/storage.py:185-203 | A read file counts exactly once and only ".gz" or ".br" names are written |
| Batches.CompressReadEntries | django_minify_compress_staticfiles/storage.py:185-202 | After a read file, its entry is extended by exactly its codec names in order. A new key goes at the end |
| Batches.CompressOne | django_minify_compress_staticfiles/storage.py:166-203 | An iteration keeps keys distinct and writes only safe ".gz" or ".br" names |
| Batches.CompressSkips | django_minify_compress_staticfiles/storage.py:166-171 | A path that is not a compression candidate or cannot be read leaves the state, count included, unchanged |
| Batches.CompressOneStep | django_minify_compress_staticfiles/storage.py:162-203 | An iteration either changes nothing or admits an eligible path: it counts one file and extends that path's entry by its codec names |
| Batches.CompressOneCount | django_minify_compress_staticfiles/storage.py:166-203 | An iteration either changes nothing or counts exactly one file and adds at most one entry |
| Batches.CompressOneKeys | django_minify_compress_staticfiles/storage.py:166-202 | After an iteration every key was already present or is the iteration's own path |
| Batches.CompressOneAdmitted | django_minify_compress_staticfiles/storage.py:166-202 | When every key is a path the file manager admits, an iteration keeps that true |
| Batches.CompressOneShapes | django_minify_compress_staticfiles/storage.py:172-202 | For a path not yet a key, an iteration keeps every entry listing exactly its codec names and adds no key but the path |
| Batches.CompressOneRecords | django_minify_compress_staticfiles/storage.py:166-203 | An iteration on an admitted, large enough, readable path records that path |
| Batches.CompressOneKeepsKey | django_minify_compress_staticfiles/storage.py:194-202 | An iteration never drops a recorded key |
| Batches.CompressOneKeepsCompressible | django_minify_compress_staticfiles/storage.py:186-202 | An iteration writes only ".gz" and ".br" names, so a compressible path that is not itself such a name stays compressible |
| Batches.CompressLoop | django_minify_compress_staticfiles/storage.py:162-165 | The keys of the dict stay distinct. The budget bound is `Batches.CompressLoopBudget` |
| Batches.CompressRun | django_minify_compress_staticfiles/storage.py:148-207 | `process_compression`: the loop from an empty dict and a zero count, or nothing when both codecs are off. Keys stay distinct |
| Batches.CompressLoopBudget | django_minify_compress_staticfiles/storage.py:160-165 | The count never decreases and never passes the budget, and the number of entries never exceeds the count |
| Batches.CompressLoopKeys | django_minify_compress_staticfiles/storage.py:162-202 | Every key after the loop was already present or is one of the input paths |
| Batches.CompressLoopAdmitted | django_minify_compress_staticfiles/storage.py:162-202 | When every key is a path the file manager admits, the whole loop keeps that true |
| Batches.CompressLoopShapes | django_minify_compress_staticfiles/storage.py:172-202 | Over distinct new paths, every entry lists exactly its codec names next to the root-stripped path |
| Batches.CompressLoopWrites | django_minify_compress_staticfiles/storage.py:185-202 | The loop writes only safe ".gz" and ".br" names. No file disappears |
| Batches.CompressLoopKeepsKey | django_minify_compress_staticfiles/storage.py:162-202 | The loop never drops a recorded key |
| Batches.CompressLoopRecords | django_minify_compress_staticfiles/storage.py:162-203 | When the loop ends below its budget, every admitted, large enough, readable input path that is not itself a ".gz" or ".br" name is a key |
| Batches.CompressRunFacts | django_minify_compress_staticfiles/storage.py:148-207 | `process_compression` returns {} and writes nothing with both codecs off. Otherwise it compresses at most `max(0, budget)` files, keys are admitted input paths, and it writes only safe ".gz"/".br" files. What it must compress is `Batches.CompressRunRecords` |
| Batches.CompressRunRecords | django_minify_compress_staticfiles/storage.py:148-207 | The other direction of `Batches.CompressRunFacts`: when `process_compression` ends below its budget with a codec on, it has compressed every input path that the file manager admits, that is large enough and readable, and that is not itself a ".gz" or ".br" name |
| Batches.CompressRunShapes | django_minify_compress_staticfiles/storage.py:172-202 | For distinct input paths, each entry is `[rel.gz]`, `[rel.br]` or `[rel.gz, rel.br]`, following the enabled codecs |
| Batches.RejectedNeverCompressed | django_minify_compress_staticfiles/storage.py:166-167 | A path the file manager rejects is never a key of the compression result |
| Batches.MinifiedOutputsRejected | django_minify_compress_staticfiles/utils.py:74-75 | With "*.min.*" among the patterns, every minified output the loop records is rejected by the file manager |
| Batches.MinifiedOutputsNeverCompressed | django_minify_compress_staticfiles/storage.py:305-312 | With "*.min.*" among the patterns, as by default, none of the minified outputs that `post_process` appends to the compression input is compressed |
| Manifests.Redirect | django_minify_compress_staticfiles/storage.py:360-365 | Only the first entry whose stored name equals the hashed path is redirected to the minified path. Every other entry and the order stay the same |
| Manifests.RedirectFound | django_minify_compress_staticfiles/storage.py:361-365 | When entry j is the first with the hashed path, the redirect updates exactly entry j's value |
| Manifests.RedirectMissing | django_minify_compress_staticfiles/storage.py:361-365 | When no entry has the hashed path, the redirect changes nothing |
| Manifests.RedirectKeepsKeys | django_minify_compress_staticfiles/storage.py:361-365 | A redirect keeps every original name in place |
| Manifests.RedirectAll | django_minify_compress_staticfiles/storage.py:340-365 | The outer loop keeps the original names and their order. Every value it changes is now a root-stripped minified path |
| Manifests.RedirectAllStep | django_minify_compress_staticfiles/storage.py:340-365 | The outer loop is the first pair's redirect followed by the loop over the remaining pairs |
| Manifests.UpdatedManifest | django_minify_compress_staticfiles/storage.py:326-333 | The saved manifest always has a "paths" member, with the same original names as before |
| Manifests.PathsOf | django_minify_compress_staticfiles/storage.py:326-333 | The manifest's `paths` member, empty when there is no manifest or it has no `paths` |
| Manifests.ProcessedPaths | django_minify_compress_staticfiles/storage.py:290-303 | The manifest's stored names when there are any, and otherwise the collected paths. The result is empty only when no paths were collected |
| Backend.Triples | django_minify_compress_staticfiles/storage.py:307-308 | One `(original, minified, True)` triple per minified entry, in order |
| Backend.YieldMinified | django_minify_compress_staticfiles/storage.py:307-308 | The loop over the minified entries yields exactly their triples, in order |
| Backend.RedirectFirst | django_minify_compress_staticfiles/storage.py:360-365 | The inner scan with `break` gives exactly `Redirect` of the entries |
| Backend.MinicompressStorage.constructor | django_minify_compress_staticfiles/storage.py:24-26 | The backend starts from the given settings, files and manifest |
| Backend.MinicompressStorage.WriteFileContent | django_minify_compress_staticfiles/storage.py:239-244 | The files become `WriteFile` of the old files: an unsafe path is not written |
| Backend.MinicompressStorage.ProcessMinification | django_minify_compress_staticfiles/storage.py:82-142 | The loop returns exactly `MinifyRun`'s entries and leaves exactly its files, so `MinifyRunFacts` holds of it |
| Backend.MinicompressStorage.MinifyReadFile | django_minify_compress_staticfiles/storage.py:103-138 | Decoding, minifying and recording one read file leaves exactly the state `MinifyRead` describes |
| Backend.MinicompressStorage.RecordMinified | django_minify_compress_staticfiles/storage.py:133-138 | Writing the output, setting the entry and counting leaves exactly the state `Record` describes |
| Backend.MinicompressStorage.ProcessCompression | django_minify_compress_staticfiles/storage.py:148-207 | The loop returns exactly `CompressRun`'s entries and leaves exactly its files, so `CompressRunFacts` holds of it |
| Backend.MinicompressStorage.CompressReadFile | django_minify_compress_staticfiles/storage.py:172-203 | Writing the gzip copy and then the brotli copy of one read file leaves exactly the state `CompressRead` describes |
| Backend.MinicompressStorage.UpdateManifest | django_minify_compress_staticfiles/storage.py:317-371 | The nested loop with `break` saves exactly `UpdatedManifest` of the old manifest |
| Backend.MinicompressStorage.PostProcess | django_minify_compress_staticfiles/storage.py:284-315 | A dry run yields nothing and changes nothing. Otherwise it yields the minified triples, compresses the processed paths followed by the minified outputs, and rewrites the manifest only if something was minified |

## Left out

- The Django plumbing is left out. That covers `ManifestFilesMixin` and `StaticFilesStorage`, what `super().post_process` yields and stores, `read_manifest`, JSON encoding and decoding, the manifest's other members, and the `exists`/`delete` before saving. Storage is one map from names to bytes, and a manifest is its `paths` member.
- `save` is modelled as an overwrite. Django's name-collision renaming is not modelled.
- rcssmin, rjsmin, gzip, brotli, hashlib's MD5, UTF-8 coding and `is_safe_path` are functions passed in as parameters, and nothing is known about them beyond their types.
- `storage.py` (line 16) imports `is_safe_path` from `utils.py`, but `utils.py` defines no `is_safe_path`, so as written importing `storage.py` raises ImportError. The model takes the intended check as the unconstrained parameter `isSafePath` of `Libraries`.
- The check that the minifier modules are importable (`and rcssmin`) is left out. Both are taken to be present.
- Storage, the local file system that the `_read_file_content` fallback reads, and the one that `get_file_size`/`storage.path` probe are the same map. OSError on a read is not modelled separately from a missing file.
- A file read from storage is always bytes. The `isinstance(content, bytes)` branches for text content are left out.
- Batches.CompressRead: the compressors and writes never raise in the model. In the source, a brotli failure after a successful gzip step leaves the `.gz` name recorded and the file uncounted, and the model does not capture that.
- Batches.RecordFacts: writing never raises in the model. A failing `save` would skip the entry and the count in the source.
- Batches.CompressLoopShapes: stated only for distinct input paths. With a repeated path the source appends that path's codec names a second time.
- Batches.MinifyRunRecords: stated for runs that end below the budget and with "*.min.*" among the exclusion patterns. Without that pattern an earlier output could overwrite a later input path and change whether it shrinks.
- Batches.MinifyRunFacts: the dict-level invariant asks only for some 12-digit hash in each entry's name, because the minified text is not kept in the loop state. Which hash, `MinifiedHash` of the path and the minified text, is stated per iteration by `Batches.MinifyOneCases` and `Batches.MinifyDecoded`.
- Batches.CompressRunRecords: stated for runs that end below the budget and for paths that are not themselves ".gz" or ".br" names, which an earlier iteration could overwrite.
- Batches.CompressRunShapes: stated only for distinct input paths, for the same reason.
- Logging is left out.
- `get_setting` and `FileManager`'s cached properties are left out as such. The settings are one `Config` value read once per run, with Python truthiness folded into its fields. `ENABLED` is not read by the modelled code.
- Lower-casing covers ASCII letters only. Python's full Unicode `lower()` is not modelled.
- Paths follow Python 3.12 `PurePosixPath` and POSIX `os.path`. Windows drives are not modelled.

## Findings

| source | as written | input that shows it | evidently intended | confidence | as-written member | corrected member |
|---|---|---|---|---|---|---|
| django_minify_compress_staticfiles/storage.py:86-90 | `DEFAULT_SETTINGS["MAX_FILES_PER_RUN"]` is evaluated as the default argument of `get_setting`, outside the loop's `try`. DEFAULT_SETTINGS (conf.py:9-34) has no such key, so `process_minification` and `process_compression` (storage.py:155-159) raise KeyError | Any `post_process` that is not a dry run, with MINIFY_FILES or a codec on | The `or 1000` fallback applies when the setting is absent | high (not executed) | Storage.BudgetSettingsRaiseAsWritten | Storage.MaxFilesPerRun |
| django_minify_compress_staticfiles/storage.py:214-216 | `DEFAULT_SETTINGS["MAX_FILE_SIZE"]` is evaluated for every safe path. The key is missing, so `_read_file_content` raises KeyError, the loops catch it, and they skip every safe file | Any safe path passed to `_read_file_content` | The `or 10485760` fallback applies when the setting is absent | high (not executed) | Storage.SafeReadsRaiseAsWritten | Storage.ReadFileContent |

The rest of the model uses the corrected members. `Batches.MinifyRunFacts` and `Batches.CompressRunFacts` prove the budget bound using `Storage.MaxFilesPerRun`. Both loops read files through `Storage.ReadFileContent`.
