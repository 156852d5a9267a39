/** The two batch loops of storage.py, `process_minification` and
    `process_compression`, as functions over the state one iteration hands
    to the next. The imperative versions in the storage class are proved
    equal to these. */
module Batches {
  import opened Wrappers
  import opened PyStr
  import opened PurePath
  import opened Externals
  import opened Conf
  import opened Utils
  import opened Storage

  function Max(a: int, b: int): int {
    if a < b then b else a
  }

  // ----- Minification -----

  /** What the minification loop carries from one path to the next: the
      stored files, the `minified_files` dict and `processed_count`. */
  datatype MinifyState = MinifyState(files: map<string, bytes>, minified: Dict<string>, count: int)

  /** `generate_file_hash(path_bytes + content_bytes)` with the default
      length of twelve. */
  function MinifiedHash(lib: Libraries, files: map<string, bytes>, path: string, text: string): (h: string)
    ensures IsShortHash(h)
    ensures h == lib.md5(lib.encodeUtf8(path) + lib.encodeUtf8(text))[..12]
  {
    GenerateFileHash(Content(lib.encodeUtf8(path) + lib.encodeUtf8(text)), HashLength, files, lib.md5)
  }

  /** `output` is the minified path of `path` under some twelve-digit hash. */
  ghost predicate IsMinifiedPathOf(output: string, path: string) {
    exists h :: IsShortHash(h) && output == MinifiedPath(path, h)
  }

  /** Every minified path carries the ".min." marker in its final component. */
  lemma MinifiedPathOfHasMarker(output: string, path: string)
    requires IsMinifiedPathOf(output, path)
    ensures Contains(Name(Parse(output)), ".min.")
  {
    var h :| IsShortHash(h) && output == MinifiedPath(path, h);
    MinifiedPathParts(path, h);
  }

  /** A `minified_files` entry as the loop records it. */
  ghost predicate MinifiedEntry(cfg: Config, e: (string, string)) {
    ShouldProcessMinification(cfg, e.0) && IsMinifiedPathOf(e.1, e.0)
  }

  /** The part of the loop body after a successful decode: the minified
      path and text when minifying `text` makes it strictly shorter. */
  function MinifyDecoded(lib: Libraries, cfg: Config, files: map<string, bytes>, path: string, text: string): (r: Option<(string, string)>)
    ensures r.Some? ==> && r.value.1 == MinifyFileContent(lib, cfg, text, FileType(path))
                        && |r.value.1| < |text|
                        && r.value.0 == MinifiedPath(path, MinifiedHash(lib, files, path, r.value.1))
                        && IsMinifiedPathOf(r.value.0, path)
    ensures r.None? ==> |MinifyFileContent(lib, cfg, text, FileType(path))| >= |text|
  {
    var minified := MinifyFileContent(lib, cfg, text, FileType(path));
    if |minified| < |text| then
      var h := MinifiedHash(lib, files, path, minified);
      Some((MinifiedPath(path, h), minified))
    else None
  }

  /** Going from `before` to `after` adds files and changes at most the
      safe path `output`. */
  predicate WritesAt(lib: Libraries, before: map<string, bytes>, after: map<string, bytes>, output: string) {
    && before.Keys <= after.Keys
    && forall q :: q in after && (q !in before || after[q] != before[q]) ==> q == output && lib.isSafePath(q)
  }

  /** Recording one minified output: write its text, set the dict entry,
      count the file. */
  function Record(lib: Libraries, st: MinifyState, path: string, output: string, text: string): (r: MinifyState)
    requires DistinctKeys(st.minified)
    ensures DistinctKeys(r.minified)
  {
    MinifyState(WriteFile(lib, st.files, output, lib.encodeUtf8(text)), SetItem(st.minified, path, output), st.count + 1)
  }

  /** Recording counts one file, keeps the old entries or sets `path` to
      `output`, and writes at most `output`, and only when it is safe. */
  lemma RecordFacts(lib: Libraries, st: MinifyState, path: string, output: string, text: string)
    requires DistinctKeys(st.minified)
    ensures Record(lib, st, path, output, text).count == st.count + 1
    ensures |Record(lib, st, path, output, text).minified| <= |st.minified| + 1
    ensures forall i :: 0 <= i < |Record(lib, st, path, output, text).minified| ==>
              (i < |st.minified| && Record(lib, st, path, output, text).minified[i] == st.minified[i])
              || Record(lib, st, path, output, text).minified[i] == (path, output)
    ensures WritesAt(lib, st.files, Record(lib, st, path, output, text).files, output)
  {
    var d := Record(lib, st, path, output, text).minified;
    forall i | 0 <= i < |d|
      ensures (i < |st.minified| && d[i] == st.minified[i]) || d[i] == (path, output)
    {
      if i < |st.minified| {
        assert d[i] == (if st.minified[i].0 == path then (path, output) else st.minified[i]);
      }
    }
  }

  /** An admitted iteration whose read succeeded: decode, minify, and
      record the output when it is strictly shorter. */
  function MinifyRead(lib: Libraries, cfg: Config, st: MinifyState, path: string, content: bytes): (r: MinifyState)
    requires DistinctKeys(st.minified)
    ensures DistinctKeys(r.minified)
  {
    match lib.decodeUtf8(content)
    case None => st
    case Some(text) =>
      match MinifyDecoded(lib, cfg, st.files, path, text)
      case None => st
      case Some(output) => Record(lib, st, path, output.0, output.1)
  }

  /** One iteration once the budget check has passed. */
  function MinifyOne(lib: Libraries, cfg: Config, st: MinifyState, path: string): (r: MinifyState)
    requires DistinctKeys(st.minified)
    ensures DistinctKeys(r.minified)
  {
    if !ShouldProcessMinification(cfg, path) then st
    else match ReadFileContent(lib, cfg, st.files, path)
      case None => st
      case Some(content) => MinifyRead(lib, cfg, st, path, content)
  }

  /** `text` is what the minifier makes of the decoded content of `path`,
      strictly shorter than it, and `output` is the minified path named by
      the hash of `path` and `text`. */
  predicate MinifiedFrom(lib: Libraries, cfg: Config, files: map<string, bytes>, path: string, output: string, text: string) {
    && ReadFileContent(lib, cfg, files, path).Some?
    && lib.decodeUtf8(ReadFileContent(lib, cfg, files, path).value).Some?
    && var source := lib.decodeUtf8(ReadFileContent(lib, cfg, files, path).value).value;
       && text == MinifyFileContent(lib, cfg, source, FileType(path))
       && |text| < |source|
       && output == MinifiedPath(path, MinifiedHash(lib, files, path, text))
  }

  /** An iteration either skips `path`, or records for the eligible `path`
      the minifier's output `text` of its content under the minified path
      `output` that the hash of `path` and `text` names. */
  lemma MinifyOneCases(lib: Libraries, cfg: Config, st: MinifyState, path: string) returns (output: string, text: string)
    requires DistinctKeys(st.minified)
    ensures MinifyOne(lib, cfg, st, path) == st
            || (&& MinifiedEntry(cfg, (path, output))
                && MinifiedFrom(lib, cfg, st.files, path, output, text)
                && MinifyOne(lib, cfg, st, path) == Record(lib, st, path, output, text))
  {
    output, text := "", "";
    if ShouldProcessMinification(cfg, path) && ReadFileContent(lib, cfg, st.files, path).Some? {
      var content := ReadFileContent(lib, cfg, st.files, path).value;
      if lib.decodeUtf8(content).Some? {
        var decoded := MinifyDecoded(lib, cfg, st.files, path, lib.decodeUtf8(content).value);
        if decoded.Some? {
          output, text := decoded.value.0, decoded.value.1;
        }
      }
    }
  }

  /** Every entry of `d` maps an eligible path to a minified path of it. */
  ghost predicate AllMinified(cfg: Config, d: Dict<string>) {
    forall i :: 0 <= i < |d| ==> MinifiedEntry(cfg, d[i])
  }

  /** Every entry of `d` is a minified entry whose key was already in
      `before` or is one of `paths`. */
  ghost predicate EntriesFrom(cfg: Config, d: Dict<string>, before: Dict<string>, paths: seq<string>) {
    AllMinified(cfg, d) && KeysFrom(d, before, paths)
  }

  /** Going from `before` to `after` adds files and changes only safe paths
      that carry the ".min." marker. */
  predicate WritesOnlyMarked(lib: Libraries, before: map<string, bytes>, after: map<string, bytes>) {
    && before.Keys <= after.Keys
    && forall q :: q in after && (q !in before || after[q] != before[q]) ==>
         lib.isSafePath(q) && Contains(Name(Parse(q)), ".min.")
  }

  /** A path that is not eligible, cannot be read, does not decode, or
      does not get shorter is skipped without being counted. */
  lemma MinifySkips(lib: Libraries, cfg: Config, st: MinifyState, path: string)
    requires DistinctKeys(st.minified)
    requires || !ShouldProcessMinification(cfg, path)
             || ReadFileContent(lib, cfg, st.files, path).None?
             || lib.decodeUtf8(ReadFileContent(lib, cfg, st.files, path).value).None?
             || var text := lib.decodeUtf8(ReadFileContent(lib, cfg, st.files, path).value).value;
                |MinifyFileContent(lib, cfg, text, FileType(path))| >= |text|
    ensures MinifyOne(lib, cfg, st, path) == st
  {
    if ShouldProcessMinification(cfg, path) && ReadFileContent(lib, cfg, st.files, path).Some? {
      var content := ReadFileContent(lib, cfg, st.files, path).value;
      if lib.decodeUtf8(content).Some? {
        assert MinifyDecoded(lib, cfg, st.files, path, lib.decodeUtf8(content).value) == None;
      }
    }
  }

  /** An iteration leaves the state alone or counts one file. */
  lemma MinifyOneCount(lib: Libraries, cfg: Config, st: MinifyState, path: string)
    requires DistinctKeys(st.minified)
    ensures MinifyOne(lib, cfg, st, path) == st
            || (&& MinifyOne(lib, cfg, st, path).count == st.count + 1
                && |MinifyOne(lib, cfg, st, path).minified| <= |st.minified| + 1)
  {
    var output, text := MinifyOneCases(lib, cfg, st, path);
    if MinifyOne(lib, cfg, st, path) != st {
      RecordFacts(lib, st, path, output, text);
    }
  }

  /** An iteration keeps the recorded keys and adds at most its own path. */
  lemma MinifyOneKeys(lib: Libraries, cfg: Config, st: MinifyState, path: string)
    requires DistinctKeys(st.minified)
    ensures KeysFrom(MinifyOne(lib, cfg, st, path).minified, st.minified, [path])
  {
    var output, text := MinifyOneCases(lib, cfg, st, path);
    var d := MinifyOne(lib, cfg, st, path).minified;
    if MinifyOne(lib, cfg, st, path) != st {
      RecordFacts(lib, st, path, output, text);
    }
    forall i | 0 <= i < |d|
      ensures d[i].0 in Keys(st.minified) || d[i].0 in [path]
    {
      if i < |st.minified| && d[i] == st.minified[i] {
        assert Keys(st.minified)[i] == d[i].0;
      }
    }
  }

  /** Recording a minified entry keeps every entry a minified entry. */
  lemma RecordEntries(lib: Libraries, cfg: Config, st: MinifyState, path: string, output: string, text: string)
    requires DistinctKeys(st.minified)
    requires AllMinified(cfg, st.minified)
    requires MinifiedEntry(cfg, (path, output))
    ensures AllMinified(cfg, Record(lib, st, path, output, text).minified)
  {
    RecordFacts(lib, st, path, output, text);
    AllMinifiedAfter(cfg, Record(lib, st, path, output, text).minified, st.minified, (path, output));
  }

  /** A dict whose entries are old minified entries in place or one new
      minified entry holds only minified entries. */
  lemma AllMinifiedAfter(cfg: Config, d: Dict<string>, before: Dict<string>, e: (string, string))
    requires AllMinified(cfg, before)
    requires MinifiedEntry(cfg, e)
    requires forall i :: 0 <= i < |d| ==> (i < |before| && d[i] == before[i]) || d[i] == e
    ensures AllMinified(cfg, d)
  {
    forall i | 0 <= i < |d|
      ensures MinifiedEntry(cfg, d[i])
    {
      if i < |before| && d[i] == before[i] {
        assert MinifiedEntry(cfg, before[i]);
      }
    }
  }

  /** An iteration keeps every entry a minified entry: the new entry maps
      its eligible path to a minified path of it. */
  lemma MinifyOneEntries(lib: Libraries, cfg: Config, st: MinifyState, path: string)
    requires DistinctKeys(st.minified)
    requires AllMinified(cfg, st.minified)
    ensures AllMinified(cfg, MinifyOne(lib, cfg, st, path).minified)
  {
    var output, text := MinifyOneCases(lib, cfg, st, path);
    if MinifyOne(lib, cfg, st, path) != st {
      RecordEntries(lib, cfg, st, path, output, text);
    }
  }

  /** An iteration writes at most the minified path, which is safe and
      carries the ".min." marker. */
  lemma MinifyOneFiles(lib: Libraries, cfg: Config, st: MinifyState, path: string)
    requires DistinctKeys(st.minified)
    ensures WritesOnlyMarked(lib, st.files, MinifyOne(lib, cfg, st, path).files)
  {
    var output, text := MinifyOneCases(lib, cfg, st, path);
    if MinifyOne(lib, cfg, st, path) != st {
      RecordFacts(lib, st, path, output, text);
      MinifiedPathOfHasMarker(output, path);
    }
  }

  /** The `for path in paths` loop from state `st`, stopping once the count
      reaches `maxFiles`. */
  function MinifyLoop(lib: Libraries, cfg: Config, maxFiles: int, st: MinifyState, paths: seq<string>): (r: MinifyState)
    requires DistinctKeys(st.minified)
    ensures DistinctKeys(r.minified)
    decreases |paths|
  {
    if paths == [] || st.count >= maxFiles then st
    else MinifyLoop(lib, cfg, maxFiles, MinifyOne(lib, cfg, st, paths[0]), paths[1..])
  }

  /** `process_minification(paths)` on the stored `files`, with the budget
      falling back to 1000. */
  function MinifyRun(lib: Libraries, cfg: Config, files: map<string, bytes>, paths: seq<string>): (r: MinifyState)
    ensures DistinctKeys(r.minified)
  {
    if !cfg.minifyFiles then MinifyState(files, [], 0)
    else MinifyLoop(lib, cfg, MaxFilesPerRun(cfg), MinifyState(files, [], 0), paths)
  }

  /** The count only grows, never past the budget, and never falls behind
      the number of recorded entries. */
  lemma {:induction false} MinifyLoopBudget(lib: Libraries, cfg: Config, maxFiles: int, st: MinifyState, paths: seq<string>)
    requires DistinctKeys(st.minified)
    requires |st.minified| <= st.count
    ensures st.count <= MinifyLoop(lib, cfg, maxFiles, st, paths).count <= Max(st.count, maxFiles)
    ensures |MinifyLoop(lib, cfg, maxFiles, st, paths).minified| <= MinifyLoop(lib, cfg, maxFiles, st, paths).count
    decreases |paths|
  {
    if paths != [] && st.count < maxFiles {
      MinifyOneCount(lib, cfg, st, paths[0]);
      MinifyLoopBudget(lib, cfg, maxFiles, MinifyOne(lib, cfg, st, paths[0]), paths[1..]);
    }
  }

  /** Every key of the dict is taken from the input or was already there. */
  lemma {:induction false} MinifyLoopKeys(lib: Libraries, cfg: Config, maxFiles: int, st: MinifyState, paths: seq<string>)
    requires DistinctKeys(st.minified)
    ensures KeysFrom(MinifyLoop(lib, cfg, maxFiles, st, paths).minified, st.minified, paths)
    decreases |paths|
  {
    if paths != [] && st.count < maxFiles {
      var next := MinifyOne(lib, cfg, st, paths[0]);
      MinifyOneKeys(lib, cfg, st, paths[0]);
      MinifyLoopKeys(lib, cfg, maxFiles, next, paths[1..]);
      KeysChain(MinifyLoop(lib, cfg, maxFiles, next, paths[1..]).minified, next.minified, st.minified, paths);
    } else {
      forall i | 0 <= i < |st.minified|
        ensures st.minified[i].0 in Keys(st.minified)
      {
        assert Keys(st.minified)[i] == st.minified[i].0;
      }
    }
  }

  /** Every recorded entry maps an eligible path to its minified path. */
  lemma {:induction false} MinifyLoopEntries(lib: Libraries, cfg: Config, maxFiles: int, st: MinifyState, paths: seq<string>)
    requires DistinctKeys(st.minified)
    requires AllMinified(cfg, st.minified)
    ensures AllMinified(cfg, MinifyLoop(lib, cfg, maxFiles, st, paths).minified)
    decreases |paths|
  {
    if paths != [] && st.count < maxFiles {
      MinifyOneEntries(lib, cfg, st, paths[0]);
      MinifyLoopEntries(lib, cfg, maxFiles, MinifyOne(lib, cfg, st, paths[0]), paths[1..]);
    }
  }

  /** Only safe files carrying the ".min." marker are written: no original
      is overwritten and no file disappears. */
  lemma {:induction false} MinifyLoopWrites(lib: Libraries, cfg: Config, maxFiles: int, st: MinifyState, paths: seq<string>)
    requires DistinctKeys(st.minified)
    ensures WritesOnlyMarked(lib, st.files, MinifyLoop(lib, cfg, maxFiles, st, paths).files)
    decreases |paths|
  {
    if paths != [] && st.count < maxFiles {
      var next := MinifyOne(lib, cfg, st, paths[0]);
      MinifyOneFiles(lib, cfg, st, paths[0]);
      MinifyLoopWrites(lib, cfg, maxFiles, next, paths[1..]);
    }
  }

  /** The facts about a whole `process_minification` run: disabled means
      nothing happens; otherwise at most the budget of files is minified,
      each recorded entry maps an eligible input path to its minified path,
      and only safe marked files are written. */
  lemma MinifyRunFacts(lib: Libraries, cfg: Config, files: map<string, bytes>, paths: seq<string>)
    ensures DistinctKeys(MinifyRun(lib, cfg, files, paths).minified)
    ensures !cfg.minifyFiles ==> MinifyRun(lib, cfg, files, paths) == MinifyState(files, [], 0)
    ensures |MinifyRun(lib, cfg, files, paths).minified| <= MinifyRun(lib, cfg, files, paths).count
    ensures 0 <= MinifyRun(lib, cfg, files, paths).count <= Max(0, MaxFilesPerRun(cfg))
    ensures EntriesFrom(cfg, MinifyRun(lib, cfg, files, paths).minified, [], paths)
    ensures WritesOnlyMarked(lib, files, MinifyRun(lib, cfg, files, paths).files)
  {
    if cfg.minifyFiles {
      var st := MinifyState(files, [], 0);
      MinifyLoopBudget(lib, cfg, MaxFilesPerRun(cfg), st, paths);
      MinifyLoopEntries(lib, cfg, MaxFilesPerRun(cfg), st, paths);
      MinifyLoopKeys(lib, cfg, MaxFilesPerRun(cfg), st, paths);
      MinifyLoopWrites(lib, cfg, MaxFilesPerRun(cfg), st, paths);
    }
  }

  /** `path` is eligible, readable, decodes as UTF-8 and gets strictly
      shorter under its minifier: the iteration that meets it records it. */
  predicate Shrinks(lib: Libraries, cfg: Config, files: map<string, bytes>, path: string) {
    && ShouldProcessMinification(cfg, path)
    && ReadFileContent(lib, cfg, files, path).Some?
    && lib.decodeUtf8(ReadFileContent(lib, cfg, files, path).value).Some?
    && var text := lib.decodeUtf8(ReadFileContent(lib, cfg, files, path).value).value;
       |MinifyFileContent(lib, cfg, text, FileType(path))| < |text|
  }

  /** Recording sets the entry of `path`, so `path` is a key afterwards. */
  lemma RecordKey(lib: Libraries, st: MinifyState, path: string, output: string, text: string)
    requires DistinctKeys(st.minified)
    ensures path in Keys(Record(lib, st, path, output, text).minified)
  {
    var d := Record(lib, st, path, output, text).minified;
    if path !in Keys(st.minified) {
      assert Keys(d)[|st.minified|] == path;
    }
  }

  /** Minifying a read file whose text gets shorter counts it. */
  lemma MinifyReadCounts(lib: Libraries, cfg: Config, st: MinifyState, path: string, content: bytes, text: string)
    requires DistinctKeys(st.minified)
    requires lib.decodeUtf8(content) == Some(text)
    requires |MinifyFileContent(lib, cfg, text, FileType(path))| < |text|
    ensures MinifyRead(lib, cfg, st, path, content).count == st.count + 1
  {
    var o := MinifyDecoded(lib, cfg, st.files, path, text);
    assert o.Some?;
    assert MinifyRead(lib, cfg, st, path, content) == Record(lib, st, path, o.value.0, o.value.1);
  }

  /** An iteration on a path that shrinks counts it. */
  lemma MinifyOneCounts(lib: Libraries, cfg: Config, st: MinifyState, path: string)
    requires DistinctKeys(st.minified)
    requires Shrinks(lib, cfg, st.files, path)
    ensures MinifyOne(lib, cfg, st, path).count == st.count + 1
  {
    var content := ReadFileContent(lib, cfg, st.files, path).value;
    assert MinifyOne(lib, cfg, st, path) == MinifyRead(lib, cfg, st, path, content);
    MinifyReadCounts(lib, cfg, st, path, content, lib.decodeUtf8(content).value);
  }

  /** An iteration on a path that shrinks records it. */
  lemma MinifyOneRecords(lib: Libraries, cfg: Config, st: MinifyState, path: string)
    requires DistinctKeys(st.minified)
    requires Shrinks(lib, cfg, st.files, path)
    ensures path in Keys(MinifyOne(lib, cfg, st, path).minified)
  {
    var output, text := MinifyOneCases(lib, cfg, st, path);
    MinifyOneCounts(lib, cfg, st, path);
    RecordKey(lib, st, path, output, text);
  }

  /** Recording keeps every key that was already there. */
  lemma RecordKeepsKey(lib: Libraries, st: MinifyState, path: string, output: string, text: string, k: string)
    requires DistinctKeys(st.minified)
    requires k in Keys(st.minified)
    ensures k in Keys(Record(lib, st, path, output, text).minified)
  {
    var d := Record(lib, st, path, output, text).minified;
    if path !in Keys(st.minified) {
      var j :| 0 <= j < |st.minified| && Keys(st.minified)[j] == k;
      assert Keys(d)[j] == k;
    }
  }

  /** An iteration never drops a recorded key. */
  lemma MinifyOneKeepsKey(lib: Libraries, cfg: Config, st: MinifyState, path: string, k: string)
    requires DistinctKeys(st.minified)
    requires k in Keys(st.minified)
    ensures k in Keys(MinifyOne(lib, cfg, st, path).minified)
  {
    var output, text := MinifyOneCases(lib, cfg, st, path);
    RecordKeepsKey(lib, st, path, output, text, k);
  }

  /** The loop never drops a recorded key. */
  lemma {:induction false} MinifyLoopKeepsKey(lib: Libraries, cfg: Config, maxFiles: int, st: MinifyState, paths: seq<string>, k: string)
    requires DistinctKeys(st.minified)
    requires k in Keys(st.minified)
    ensures k in Keys(MinifyLoop(lib, cfg, maxFiles, st, paths).minified)
    decreases |paths|
  {
    if paths != [] && st.count < maxFiles {
      MinifyOneKeepsKey(lib, cfg, st, paths[0], k);
      MinifyLoopKeepsKey(lib, cfg, maxFiles, MinifyOne(lib, cfg, st, paths[0]), paths[1..], k);
    }
  }

  /** Under "*.min.*" an eligible path is never written by an iteration,
      so a path that shrinks still does afterwards. */
  lemma MinifyOneKeepsShrinks(lib: Libraries, cfg: Config, st: MinifyState, path: string, p: string)
    requires DistinctKeys(st.minified)
    requires "*.min.*" in ExcludePatterns(cfg)
    requires Shrinks(lib, cfg, st.files, p)
    ensures Shrinks(lib, cfg, MinifyOne(lib, cfg, st, path).files, p)
  {
    var after := MinifyOne(lib, cfg, st, path).files;
    MinifyOneFiles(lib, cfg, st, path);
    if !Contains(Name(Parse(p)), ".min.") {
      assert p in after && after[p] == st.files[p];
      assert ReadFileContent(lib, cfg, after, p) == ReadFileContent(lib, cfg, st.files, p);
    } else {
      MinMarkerRejected(p, SupportedExtensions(cfg), ExcludePatterns(cfg));
      assert false;
    }
  }

  /** When the loop ends below its budget, every input path that shrinks
      has been recorded. */
  lemma {:induction false} MinifyLoopRecords(lib: Libraries, cfg: Config, maxFiles: int, st: MinifyState, paths: seq<string>, k: nat)
    requires DistinctKeys(st.minified)
    requires "*.min.*" in ExcludePatterns(cfg)
    requires k < |paths|
    requires Shrinks(lib, cfg, st.files, paths[k])
    requires MinifyLoop(lib, cfg, maxFiles, st, paths).count < maxFiles
    ensures paths[k] in Keys(MinifyLoop(lib, cfg, maxFiles, st, paths).minified)
    decreases |paths|
  {
    assert st.count < maxFiles;
    var next := MinifyOne(lib, cfg, st, paths[0]);
    if k == 0 {
      MinifyOneRecords(lib, cfg, st, paths[0]);
      MinifyLoopKeepsKey(lib, cfg, maxFiles, next, paths[1..], paths[0]);
    } else {
      assert paths[1..][k - 1] == paths[k];
      MinifyOneKeepsShrinks(lib, cfg, st, paths[0], paths[k]);
      MinifyLoopRecords(lib, cfg, maxFiles, next, paths[1..], k - 1);
    }
  }

  /** When `process_minification` ends below its budget, it has recorded
      every input path that is eligible, readable, decodable and shortened
      by its minifier. */
  lemma MinifyRunRecords(lib: Libraries, cfg: Config, files: map<string, bytes>, paths: seq<string>, p: string)
    requires "*.min.*" in ExcludePatterns(cfg)
    requires p in paths
    requires Shrinks(lib, cfg, files, p)
    requires MinifyRun(lib, cfg, files, paths).count < MaxFilesPerRun(cfg)
    ensures p in Keys(MinifyRun(lib, cfg, files, paths).minified)
  {
    var k :| 0 <= k < |paths| && paths[k] == p;
    MinifyLoopRecords(lib, cfg, MaxFilesPerRun(cfg), MinifyState(files, [], 0), paths, k);
  }

  // ----- Compression -----

  /** What the compression loop carries from one path to the next: the
      stored files, the `compressed_files` dict and `processed_count`. */
  datatype CompressState = CompressState(files: map<string, bytes>, compressed: Dict<seq<string>>, count: int)

  /** The names written for a file whose storage path is `relative`, in
      the order the loop writes them. */
  function CodecNames(cfg: Config, relative: string): (names: seq<string>)
    ensures |names| == (if cfg.gzipCompression then 1 else 0) + (if cfg.brotliCompression then 1 else 0)
    ensures forall i :: 0 <= i < |names| ==> names[i] == relative + ".gz" || names[i] == relative + ".br"
  {
    (if cfg.gzipCompression then [relative + ".gz"] else [])
      + (if cfg.brotliCompression then [relative + ".br"] else [])
  }

  /** Going from `before` to `after` adds files and changes only safe paths
      ending in ".gz" or ".br". */
  predicate WritesOnlyCompressed(lib: Libraries, before: map<string, bytes>, after: map<string, bytes>) {
    && before.Keys <= after.Keys
    && forall q :: q in after && (q !in before || after[q] != before[q]) ==>
         lib.isSafePath(q) && (EndsWith(q, ".gz") || EndsWith(q, ".br"))
  }

  /** The gzip step of one iteration. */
  function GzipStep(lib: Libraries, cfg: Config, st: CompressState, path: string, content: bytes): (r: CompressState)
    requires DistinctKeys(st.compressed)
    ensures DistinctKeys(r.compressed) && r.count == st.count
    ensures cfg.gzipCompression ==> r.compressed == AppendItem(st.compressed, path, RootStripped(path) + ".gz")
    ensures !cfg.gzipCompression ==> r.compressed == st.compressed
    ensures WritesOnlyCompressed(lib, st.files, r.files)
  {
    if cfg.gzipCompression then
      var name := RootStripped(path) + ".gz";
      assert EndsWith(name, ".gz");
      CompressState(WriteFile(lib, st.files, name, lib.gzip(content, GzipLevel(cfg))),
                    AppendItem(st.compressed, path, name), st.count)
    else st
  }

  /** The brotli step of one iteration. */
  function BrotliStep(lib: Libraries, cfg: Config, st: CompressState, path: string, content: bytes): (r: CompressState)
    requires DistinctKeys(st.compressed)
    ensures DistinctKeys(r.compressed) && r.count == st.count
    ensures cfg.brotliCompression ==> r.compressed == AppendItem(st.compressed, path, RootStripped(path) + ".br")
    ensures !cfg.brotliCompression ==> r.compressed == st.compressed
    ensures WritesOnlyCompressed(lib, st.files, r.files)
  {
    if cfg.brotliCompression then
      var name := RootStripped(path) + ".br";
      assert EndsWith(name, ".br");
      CompressState(WriteFile(lib, st.files, name, lib.brotli(content, BrotliQuality(cfg))),
                    AppendItem(st.compressed, path, name), st.count)
    else st
  }

  /** An admitted iteration whose read succeeded: gzip, then brotli, then
      count the file. The dict entry for `path` grows by the codec names. */
  function CompressRead(lib: Libraries, cfg: Config, st: CompressState, path: string, content: bytes): (r: CompressState)
    requires DistinctKeys(st.compressed)
    ensures DistinctKeys(r.compressed)
    ensures r.count == st.count + 1
    ensures WritesOnlyCompressed(lib, st.files, r.files)
  {
    var afterGzip := GzipStep(lib, cfg, st, path, content);
    var afterBrotli := BrotliStep(lib, cfg, afterGzip, path, content);
    afterBrotli.(count := afterBrotli.count + 1)
  }

  /** The dict after one admitted iteration: the entry of `path` grows by
      the codec names; a new key is appended; nothing else changes. */
  lemma CompressReadEntries(lib: Libraries, cfg: Config, st: CompressState, path: string, content: bytes)
    requires DistinctKeys(st.compressed)
    requires cfg.gzipCompression || cfg.brotliCompression
    ensures CompressRead(lib, cfg, st, path, content).compressed
            == ExtendItem(st.compressed, path, CodecNames(cfg, RootStripped(path)))
  {
    var rel := RootStripped(path);
    var afterGzip := GzipStep(lib, cfg, st, path, content);
    assert CompressRead(lib, cfg, st, path, content).compressed
           == BrotliStep(lib, cfg, afterGzip, path, content).compressed;
    if cfg.gzipCompression && cfg.brotliCompression {
      AppendTwice(st.compressed, path, rel + ".gz", rel + ".br");
      assert CodecNames(cfg, rel) == [rel + ".gz", rel + ".br"];
    } else if cfg.gzipCompression {
      AppendIsExtend(st.compressed, path, rel + ".gz");
      assert CodecNames(cfg, rel) == [rel + ".gz"];
    } else {
      AppendIsExtend(st.compressed, path, rel + ".br");
      assert CodecNames(cfg, rel) == [rel + ".br"];
    }
  }

  /** One iteration once the budget check has passed. */
  function CompressOne(lib: Libraries, cfg: Config, st: CompressState, path: string): (r: CompressState)
    requires DistinctKeys(st.compressed)
    ensures DistinctKeys(r.compressed)
    ensures WritesOnlyCompressed(lib, st.files, r.files)
  {
    if !ShouldProcessCompression(cfg, st.files, path) then st
    else match ReadFileContent(lib, cfg, st.files, path)
      case None => st
      case Some(content) => CompressRead(lib, cfg, st, path, content)
  }

  /** A path that is not eligible or cannot be read is skipped without
      being counted. */
  lemma CompressSkips(lib: Libraries, cfg: Config, st: CompressState, path: string)
    requires DistinctKeys(st.compressed)
    requires !ShouldProcessCompression(cfg, st.files, path) || ReadFileContent(lib, cfg, st.files, path).None?
    ensures CompressOne(lib, cfg, st, path) == st
  {
  }

  /** An iteration leaves the state alone, or counts an eligible path and
      extends its entry by the codec names. */
  lemma CompressOneStep(lib: Libraries, cfg: Config, st: CompressState, path: string)
    requires DistinctKeys(st.compressed)
    requires cfg.gzipCompression || cfg.brotliCompression
    ensures CompressOne(lib, cfg, st, path) == st
            || (&& ShouldProcess(cfg, path)
                && CompressOne(lib, cfg, st, path).count == st.count + 1
                && CompressOne(lib, cfg, st, path).compressed
                   == ExtendItem(st.compressed, path, CodecNames(cfg, RootStripped(path))))
  {
    if ShouldProcessCompression(cfg, st.files, path) {
      var content := ReadFileContent(lib, cfg, st.files, path);
      if content.Some? {
        CompressReadEntries(lib, cfg, st, path, content.value);
      }
    }
  }

  /** The `for path in paths` loop from state `st`, stopping once the count
      reaches `maxFiles`. */
  function CompressLoop(lib: Libraries, cfg: Config, maxFiles: int, st: CompressState, paths: seq<string>): (r: CompressState)
    requires DistinctKeys(st.compressed)
    ensures DistinctKeys(r.compressed)
    decreases |paths|
  {
    if paths == [] || st.count >= maxFiles then st
    else CompressLoop(lib, cfg, maxFiles, CompressOne(lib, cfg, st, paths[0]), paths[1..])
  }

  /** `process_compression(paths)` on the stored `files`, with the budget
      falling back to 1000. */
  function CompressRun(lib: Libraries, cfg: Config, files: map<string, bytes>, paths: seq<string>): (r: CompressState)
    ensures DistinctKeys(r.compressed)
  {
    if !(cfg.gzipCompression || cfg.brotliCompression) then CompressState(files, [], 0)
    else CompressLoop(lib, cfg, MaxFilesPerRun(cfg), CompressState(files, [], 0), paths)
  }

  /** Every key of `d` is an eligible path already in `before` or one of
      `paths`. */
  predicate CompressedFrom(cfg: Config, d: Dict<seq<string>>, before: Dict<seq<string>>, paths: seq<string>) {
    AllAdmitted(cfg, d) && KeysFrom(d, before, paths)
  }

  /** Every key of `d` is a path the file manager admits. */
  predicate AllAdmitted(cfg: Config, d: Dict<seq<string>>) {
    forall i :: 0 <= i < |d| ==> ShouldProcess(cfg, d[i].0)
  }

  /** Every entry lists exactly the codec names of its key's storage path. */
  predicate Shaped(cfg: Config, d: Dict<seq<string>>) {
    forall i :: 0 <= i < |d| ==> d[i].1 == CodecNames(cfg, RootStripped(d[i].0))
  }

  predicate NoDuplicates(s: seq<string>) {
    forall i, j :: 0 <= i < j < |s| ==> s[i] != s[j]
  }

  /** An iteration leaves the state alone or counts one file. */
  lemma CompressOneCount(lib: Libraries, cfg: Config, st: CompressState, path: string)
    requires DistinctKeys(st.compressed)
    requires cfg.gzipCompression || cfg.brotliCompression
    ensures CompressOne(lib, cfg, st, path) == st
            || (&& CompressOne(lib, cfg, st, path).count == st.count + 1
                && |CompressOne(lib, cfg, st, path).compressed| <= |st.compressed| + 1)
  {
    CompressOneStep(lib, cfg, st, path);
  }

  /** The count only grows, never past the budget, and never falls behind
      the number of recorded entries. */
  lemma {:induction false} CompressLoopBudget(lib: Libraries, cfg: Config, maxFiles: int, st: CompressState, paths: seq<string>)
    requires DistinctKeys(st.compressed)
    requires cfg.gzipCompression || cfg.brotliCompression
    requires |st.compressed| <= st.count
    ensures st.count <= CompressLoop(lib, cfg, maxFiles, st, paths).count <= Max(st.count, maxFiles)
    ensures |CompressLoop(lib, cfg, maxFiles, st, paths).compressed| <= CompressLoop(lib, cfg, maxFiles, st, paths).count
    decreases |paths|
  {
    if paths != [] && st.count < maxFiles {
      CompressOneCount(lib, cfg, st, paths[0]);
      CompressLoopBudget(lib, cfg, maxFiles, CompressOne(lib, cfg, st, paths[0]), paths[1..]);
    }
  }

  /** An iteration keeps the recorded keys and adds at most its own path. */
  lemma CompressOneKeys(lib: Libraries, cfg: Config, st: CompressState, path: string)
    requires DistinctKeys(st.compressed)
    requires cfg.gzipCompression || cfg.brotliCompression
    ensures KeysFrom(CompressOne(lib, cfg, st, path).compressed, st.compressed, [path])
  {
    CompressOneStep(lib, cfg, st, path);
    var next := CompressOne(lib, cfg, st, path).compressed;
    forall i | 0 <= i < |next|
      ensures next[i].0 in Keys(st.compressed) || next[i].0 in [path]
    {
      if next != st.compressed {
        KeyAfterExtend(next, st.compressed, path, CodecNames(cfg, RootStripped(path)), i);
      }
      if i < |st.compressed| && next[i].0 == st.compressed[i].0 {
        assert Keys(st.compressed)[i] == next[i].0;
      }
    }
  }

  /** An iteration adds no key the file manager rejects. */
  lemma CompressOneAdmitted(lib: Libraries, cfg: Config, st: CompressState, path: string)
    requires DistinctKeys(st.compressed)
    requires cfg.gzipCompression || cfg.brotliCompression
    requires AllAdmitted(cfg, st.compressed)
    ensures AllAdmitted(cfg, CompressOne(lib, cfg, st, path).compressed)
  {
    CompressOneStep(lib, cfg, st, path);
    var next := CompressOne(lib, cfg, st, path).compressed;
    forall i | 0 <= i < |next|
      ensures ShouldProcess(cfg, next[i].0)
    {
      if next != st.compressed {
        KeyAfterExtend(next, st.compressed, path, CodecNames(cfg, RootStripped(path)), i);
      }
    }
  }

  /** Every key of the dict is taken from the input or was already there. */
  lemma {:induction false} CompressLoopKeys(lib: Libraries, cfg: Config, maxFiles: int, st: CompressState, paths: seq<string>)
    requires DistinctKeys(st.compressed)
    requires cfg.gzipCompression || cfg.brotliCompression
    ensures KeysFrom(CompressLoop(lib, cfg, maxFiles, st, paths).compressed, st.compressed, paths)
    decreases |paths|
  {
    if paths != [] && st.count < maxFiles {
      var next := CompressOne(lib, cfg, st, paths[0]);
      CompressOneKeys(lib, cfg, st, paths[0]);
      CompressLoopKeys(lib, cfg, maxFiles, next, paths[1..]);
      KeysChain(CompressLoop(lib, cfg, maxFiles, next, paths[1..]).compressed, next.compressed, st.compressed, paths);
    } else {
      forall i | 0 <= i < |st.compressed|
        ensures st.compressed[i].0 in Keys(st.compressed)
      {
        assert Keys(st.compressed)[i] == st.compressed[i].0;
      }
    }
  }

  /** Every key of the dict is a path the file manager admits. */
  lemma {:induction false} CompressLoopAdmitted(lib: Libraries, cfg: Config, maxFiles: int, st: CompressState, paths: seq<string>)
    requires DistinctKeys(st.compressed)
    requires cfg.gzipCompression || cfg.brotliCompression
    requires AllAdmitted(cfg, st.compressed)
    ensures AllAdmitted(cfg, CompressLoop(lib, cfg, maxFiles, st, paths).compressed)
    decreases |paths|
  {
    if paths != [] && st.count < maxFiles {
      CompressOneAdmitted(lib, cfg, st, paths[0]);
      CompressLoopAdmitted(lib, cfg, maxFiles, CompressOne(lib, cfg, st, paths[0]), paths[1..]);
    }
  }

  /** Extending a shaped dict by a new key with its codec names keeps it
      shaped. */
  lemma ShapedAfterStep(cfg: Config, next: Dict<seq<string>>, before: Dict<seq<string>>, path: string)
    requires DistinctKeys(before)
    requires Shaped(cfg, before)
    requires path !in Keys(before)
    requires next == before || next == ExtendItem(before, path, CodecNames(cfg, RootStripped(path)))
    ensures Shaped(cfg, next)
    ensures forall q :: q in Keys(next) ==> q in Keys(before) || q == path
  {
    if next != before {
      ExtendKeys(before, path, CodecNames(cfg, RootStripped(path)));
    }
  }

  /** An iteration on a path not yet recorded keeps the dict shaped and
      adds no key but its own. */
  lemma CompressOneShapes(lib: Libraries, cfg: Config, st: CompressState, path: string)
    requires DistinctKeys(st.compressed)
    requires cfg.gzipCompression || cfg.brotliCompression
    requires Shaped(cfg, st.compressed)
    requires path !in Keys(st.compressed)
    ensures Shaped(cfg, CompressOne(lib, cfg, st, path).compressed)
    ensures forall q :: q in Keys(CompressOne(lib, cfg, st, path).compressed) ==> q in Keys(st.compressed) || q == path
  {
    CompressOneStep(lib, cfg, st, path);
    ShapedAfterStep(cfg, CompressOne(lib, cfg, st, path).compressed, st.compressed, path);
  }

  /** Over distinct input paths none of which is already recorded, every
      entry lists exactly its codec names: one ".gz" and/or one ".br" name
      next to the file's storage path. */
  lemma {:induction false} CompressLoopShapes(lib: Libraries, cfg: Config, maxFiles: int, st: CompressState, paths: seq<string>)
    requires DistinctKeys(st.compressed)
    requires cfg.gzipCompression || cfg.brotliCompression
    requires Shaped(cfg, st.compressed)
    requires NoDuplicates(paths)
    requires forall i :: 0 <= i < |paths| ==> paths[i] !in Keys(st.compressed)
    ensures Shaped(cfg, CompressLoop(lib, cfg, maxFiles, st, paths).compressed)
    decreases |paths|
  {
    if paths != [] && st.count < maxFiles {
      var next := CompressOne(lib, cfg, st, paths[0]);
      CompressOneShapes(lib, cfg, st, paths[0]);
      var rest := paths[1..];
      forall i | 0 <= i < |rest|
        ensures rest[i] !in Keys(next.compressed)
      {
        assert rest[i] == paths[i + 1] && paths[i + 1] != paths[0];
      }
      CompressLoopShapes(lib, cfg, maxFiles, next, rest);
    }
  }

  /** Only safe files ending in ".gz" or ".br" are written: no original is
      overwritten and no file disappears. */
  lemma {:induction false} CompressLoopWrites(lib: Libraries, cfg: Config, maxFiles: int, st: CompressState, paths: seq<string>)
    requires DistinctKeys(st.compressed)
    ensures WritesOnlyCompressed(lib, st.files, CompressLoop(lib, cfg, maxFiles, st, paths).files)
    decreases |paths|
  {
    if paths != [] && st.count < maxFiles {
      CompressLoopWrites(lib, cfg, maxFiles, CompressOne(lib, cfg, st, paths[0]), paths[1..]);
    }
  }

  /** The facts about a whole `process_compression` run: with both codecs
      off nothing happens; otherwise at most the budget of files is
      compressed, every key is an eligible input path, and only safe ".gz"
      and ".br" files are written. */
  lemma CompressRunFacts(lib: Libraries, cfg: Config, files: map<string, bytes>, paths: seq<string>)
    ensures DistinctKeys(CompressRun(lib, cfg, files, paths).compressed)
    ensures !(cfg.gzipCompression || cfg.brotliCompression) ==>
              CompressRun(lib, cfg, files, paths) == CompressState(files, [], 0)
    ensures |CompressRun(lib, cfg, files, paths).compressed| <= CompressRun(lib, cfg, files, paths).count
    ensures 0 <= CompressRun(lib, cfg, files, paths).count <= Max(0, MaxFilesPerRun(cfg))
    ensures CompressedFrom(cfg, CompressRun(lib, cfg, files, paths).compressed, [], paths)
    ensures WritesOnlyCompressed(lib, files, CompressRun(lib, cfg, files, paths).files)
  {
    if cfg.gzipCompression || cfg.brotliCompression {
      var st := CompressState(files, [], 0);
      CompressLoopBudget(lib, cfg, MaxFilesPerRun(cfg), st, paths);
      CompressLoopKeys(lib, cfg, MaxFilesPerRun(cfg), st, paths);
      CompressLoopAdmitted(lib, cfg, MaxFilesPerRun(cfg), st, paths);
      CompressLoopWrites(lib, cfg, MaxFilesPerRun(cfg), st, paths);
    }
  }

  /** `path` is admitted, large enough and readable: the iteration that
      meets it compresses it. */
  predicate Compressible(lib: Libraries, cfg: Config, files: map<string, bytes>, path: string) {
    ShouldProcessCompression(cfg, files, path) && ReadFileContent(lib, cfg, files, path).Some?
  }

  /** An iteration on a compressible path records it. */
  lemma CompressOneRecords(lib: Libraries, cfg: Config, st: CompressState, path: string)
    requires DistinctKeys(st.compressed)
    requires cfg.gzipCompression || cfg.brotliCompression
    requires Compressible(lib, cfg, st.files, path)
    ensures path in Keys(CompressOne(lib, cfg, st, path).compressed)
  {
    var content := ReadFileContent(lib, cfg, st.files, path).value;
    assert CompressOne(lib, cfg, st, path) == CompressRead(lib, cfg, st, path, content);
    CompressReadEntries(lib, cfg, st, path, content);
    ExtendKeys(st.compressed, path, CodecNames(cfg, RootStripped(path)));
  }

  /** An iteration never drops a recorded key. */
  lemma CompressOneKeepsKey(lib: Libraries, cfg: Config, st: CompressState, path: string, k: string)
    requires DistinctKeys(st.compressed)
    requires cfg.gzipCompression || cfg.brotliCompression
    requires k in Keys(st.compressed)
    ensures k in Keys(CompressOne(lib, cfg, st, path).compressed)
  {
    CompressOneStep(lib, cfg, st, path);
    ExtendKeys(st.compressed, path, CodecNames(cfg, RootStripped(path)));
  }

  /** The loop never drops a recorded key. */
  lemma {:induction false} CompressLoopKeepsKey(lib: Libraries, cfg: Config, maxFiles: int, st: CompressState, paths: seq<string>, k: string)
    requires DistinctKeys(st.compressed)
    requires cfg.gzipCompression || cfg.brotliCompression
    requires k in Keys(st.compressed)
    ensures k in Keys(CompressLoop(lib, cfg, maxFiles, st, paths).compressed)
    decreases |paths|
  {
    if paths != [] && st.count < maxFiles {
      CompressOneKeepsKey(lib, cfg, st, paths[0], k);
      CompressLoopKeepsKey(lib, cfg, maxFiles, CompressOne(lib, cfg, st, paths[0]), paths[1..], k);
    }
  }

  /** An iteration writes only ".gz" and ".br" names, so a compressible
      path that is not itself such a name stays compressible. */
  lemma CompressOneKeepsCompressible(lib: Libraries, cfg: Config, st: CompressState, path: string, p: string)
    requires DistinctKeys(st.compressed)
    requires !EndsWith(p, ".gz") && !EndsWith(p, ".br")
    requires Compressible(lib, cfg, st.files, p)
    ensures Compressible(lib, cfg, CompressOne(lib, cfg, st, path).files, p)
  {
    var after := CompressOne(lib, cfg, st, path).files;
    assert p in after && after[p] == st.files[p];
    assert FileSize(after, p) == FileSize(st.files, p);
    assert ReadFileContent(lib, cfg, after, p) == ReadFileContent(lib, cfg, st.files, p);
  }

  /** When the loop ends below its budget, every compressible input path
      that is not itself a ".gz" or ".br" name has been recorded. */
  lemma {:induction false} CompressLoopRecords(lib: Libraries, cfg: Config, maxFiles: int, st: CompressState, paths: seq<string>, k: nat)
    requires DistinctKeys(st.compressed)
    requires cfg.gzipCompression || cfg.brotliCompression
    requires k < |paths|
    requires !EndsWith(paths[k], ".gz") && !EndsWith(paths[k], ".br")
    requires Compressible(lib, cfg, st.files, paths[k])
    requires CompressLoop(lib, cfg, maxFiles, st, paths).count < maxFiles
    ensures paths[k] in Keys(CompressLoop(lib, cfg, maxFiles, st, paths).compressed)
    decreases |paths|
  {
    assert st.count < maxFiles;
    var next := CompressOne(lib, cfg, st, paths[0]);
    if k == 0 {
      CompressOneRecords(lib, cfg, st, paths[0]);
      CompressLoopKeepsKey(lib, cfg, maxFiles, next, paths[1..], paths[0]);
    } else {
      assert paths[1..][k - 1] == paths[k];
      CompressOneKeepsCompressible(lib, cfg, st, paths[0], paths[k]);
      CompressLoopRecords(lib, cfg, maxFiles, next, paths[1..], k - 1);
    }
  }

  /** When `process_compression` ends below its budget with a codec on,
      it has compressed every input path that the file manager admits, is
      large enough and readable, and is not itself a ".gz" or ".br" name. */
  lemma CompressRunRecords(lib: Libraries, cfg: Config, files: map<string, bytes>, paths: seq<string>, p: string)
    requires cfg.gzipCompression || cfg.brotliCompression
    requires p in paths
    requires !EndsWith(p, ".gz") && !EndsWith(p, ".br")
    requires Compressible(lib, cfg, files, p)
    requires CompressRun(lib, cfg, files, paths).count < MaxFilesPerRun(cfg)
    ensures p in Keys(CompressRun(lib, cfg, files, paths).compressed)
  {
    var k :| 0 <= k < |paths| && paths[k] == p;
    CompressLoopRecords(lib, cfg, MaxFilesPerRun(cfg), CompressState(files, [], 0), paths, k);
  }

  /** Over distinct input paths each entry lists the ".gz" name (when gzip
      is on) before the ".br" name (when brotli is on). */
  lemma CompressRunShapes(lib: Libraries, cfg: Config, files: map<string, bytes>, paths: seq<string>)
    requires NoDuplicates(paths)
    ensures Shaped(cfg, CompressRun(lib, cfg, files, paths).compressed)
  {
    if cfg.gzipCompression || cfg.brotliCompression {
      CompressLoopShapes(lib, cfg, MaxFilesPerRun(cfg), CompressState(files, [], 0), paths);
    }
  }

  // ----- The two loops together -----

  /** A path the file manager rejects is never a key of the dict. */
  lemma RejectedNeverCompressed(cfg: Config, d: Dict<seq<string>>, paths: seq<string>, v: string)
    requires CompressedFrom(cfg, d, [], paths)
    requires !ShouldProcess(cfg, v)
    ensures v !in Keys(d)
  {
  }

  /** Under "*.min.*" no minified output passes the file manager. */
  lemma MinifiedOutputsRejected(cfg: Config, d: Dict<string>, paths: seq<string>)
    requires "*.min.*" in ExcludePatterns(cfg)
    requires EntriesFrom(cfg, d, [], paths)
    ensures forall i :: 0 <= i < |d| ==> !ShouldProcess(cfg, d[i].1)
  {
    forall i | 0 <= i < |d|
      ensures !ShouldProcess(cfg, d[i].1)
    {
      assert MinifiedEntry(cfg, d[i]);
      MinifiedPathOfHasMarker(d[i].1, d[i].0);
      MinMarkerRejected(d[i].1, SupportedExtensions(cfg), ExcludePatterns(cfg));
    }
  }

  /** With "*.min.*" among the exclusion patterns (as by default), none of
      the minified outputs that `post_process` appends to the compression
      input is compressed. */
  lemma MinifiedOutputsNeverCompressed(lib: Libraries, cfg: Config, files: map<string, bytes>, processed: seq<string>)
    requires "*.min.*" in ExcludePatterns(cfg)
    ensures var m := MinifyRun(lib, cfg, files, processed);
            var c := CompressRun(lib, cfg, m.files, processed + Values(m.minified));
            forall i :: 0 <= i < |m.minified| ==> m.minified[i].1 !in Keys(c.compressed)
  {
    var m := MinifyRun(lib, cfg, files, processed);
    var all := processed + Values(m.minified);
    var d := CompressRun(lib, cfg, m.files, all).compressed;
    MinifyRunFacts(lib, cfg, files, processed);
    CompressRunFacts(lib, cfg, m.files, all);
    MinifiedOutputsRejected(cfg, m.minified, processed);
    forall i | 0 <= i < |m.minified|
      ensures m.minified[i].1 !in Keys(d)
    {
      RejectedNeverCompressed(cfg, d, all, m.minified[i].1);
    }
  }
}
