/** The `MinicompressStorage` backend: its stored files and manifest are
    fields that the processing methods update in place. Each method is
    proved to leave exactly the state the corresponding function of
    Batches or Manifests describes. */
module Backend {
  import opened Wrappers
  import opened Externals
  import opened Conf
  import opened Utils
  import opened Storage
  import opened Batches
  import opened Manifests

  /** What `post_process` yields for the minified files. */
  function Triples(d: Dict<string>): (r: seq<(string, string, bool)>)
    ensures |r| == |d|
    ensures forall i :: 0 <= i < |d| ==> r[i] == (d[i].0, d[i].1, true)
  {
    seq(|d|, i requires 0 <= i < |d| => (d[i].0, d[i].1, true))
  }

  /** The `for original, minified in minified_files.items()` loop of
      `post_process`, collecting what it yields. */
  method YieldMinified(minified: Dict<string>) returns (yielded: seq<(string, string, bool)>)
    ensures yielded == Triples(minified)
  {
    yielded := [];
    for k := 0 to |minified|
      invariant yielded == Triples(minified[..k])
    {
      yielded := yielded + [(minified[k].0, minified[k].1, true)];
    }
    assert minified[..|minified|] == minified;
  }

  /** The inner loop of `_update_manifest`: scan the entries in order and
      point the first one whose stored name is `from` at `to`, then stop. */
  method RedirectFirst(entries: Dict<string>, from: string, to: string) returns (r: Dict<string>)
    ensures r == Redirect(entries, from, to)
  {
    r := entries;
    var j := 0;
    while j < |r|
      invariant 0 <= j <= |r| && r == entries
      invariant FirstWithValue(entries, from, j)
    {
      if r[j].1 == from {
        RedirectFound(entries, from, to, j);
        r := r[j := (r[j].0, to)];
        return;
      }
      j := j + 1;
    }
    RedirectMissing(entries, from, to);
  }

  class MinicompressStorage {
    /** The project settings, read once. */
    const cfg: Config
    /** The minifiers, compressors, hash and path check. */
    const lib: Libraries
    /** The storage's files by name. */
    var files: map<string, bytes>
    /** The stored manifest, None when there is none. */
    var manifest: Option<Manifest>

    constructor (cfg: Config, lib: Libraries, files: map<string, bytes>, manifest: Option<Manifest>)
      ensures this.cfg == cfg && this.lib == lib && this.files == files && this.manifest == manifest
    {
      this.cfg := cfg;
      this.lib := lib;
      this.files := files;
      this.manifest := manifest;
    }

    /** `_write_file_content(path, content)`. */
    method WriteFileContent(path: string, content: bytes)
      modifies this`files
      ensures files == WriteFile(lib, old(files), path, content)
    {
      if !lib.isSafePath(path) {
        return;
      }
      files := files[path := content];
    }

    /** `process_minification(paths)`. */
    method ProcessMinification(paths: seq<string>) returns (minified: Dict<string>)
      modifies this`files
      ensures minified == MinifyRun(lib, cfg, old(files), paths).minified
      ensures files == MinifyRun(lib, cfg, old(files), paths).files
    {
      if !cfg.minifyFiles {
        return [];
      }
      minified := [];
      var maxFiles := MaxFilesPerRun(cfg);
      var processedCount := 0;
      ghost var goal := MinifyRun(lib, cfg, files, paths);
      var i := 0;
      while i < |paths|
        invariant 0 <= i <= |paths|
        invariant DistinctKeys(minified)
        invariant MinifyLoop(lib, cfg, maxFiles, MinifyState(files, minified, processedCount), paths[i..]) == goal
      {
        ghost var st := MinifyState(files, minified, processedCount);
        if processedCount >= maxFiles {
          break;
        }
        var path := paths[i];
        assert paths[i..][1..] == paths[i + 1..];
        i := i + 1;
        if !ShouldProcessMinification(cfg, path) {
          continue;
        }
        var content := ReadFileContent(lib, cfg, files, path);
        if content.None? {
          continue;
        }
        minified, processedCount := MinifyReadFile(path, content.value, minified, processedCount);
        assert MinifyState(files, minified, processedCount) == MinifyOne(lib, cfg, st, path);
      }
    }

    /** The rest of one minification iteration once `path` has been read:
      decode, minify, and keep the output only when it is strictly shorter,
      writing it under its minified path and counting the file. */
    method MinifyReadFile(path: string, content: bytes, minified: Dict<string>, count: int)
      returns (updated: Dict<string>, newCount: int)
      requires DistinctKeys(minified)
      modifies this`files
      ensures MinifyState(files, updated, newCount) == MinifyRead(lib, cfg, MinifyState(old(files), minified, count), path, content)
    {
      updated, newCount := minified, count;
      var text := lib.decodeUtf8(content);
      if text.None? {
        return;
      }
      var fileType := FileType(path);
      var minifiedContent := MinifyFileContent(lib, cfg, text.value, fileType);
      if |minifiedContent| < |text.value| {
        var fileHash := MinifiedHash(lib, files, path, minifiedContent);
        var minifiedPath := MinifiedPath(path, fileHash);
        assert MinifyDecoded(lib, cfg, files, path, text.value) == Some((minifiedPath, minifiedContent));
        updated, newCount := RecordMinified(path, minifiedPath, minifiedContent, minified, count);
      } else {
        assert MinifyDecoded(lib, cfg, files, path, text.value) == None;
      }
    }

    /** Recording one minified output: write its text under `output`, set
      the dict entry of `path`, count the file. */
    method RecordMinified(path: string, output: string, text: string, minified: Dict<string>, count: int)
      returns (updated: Dict<string>, newCount: int)
      requires DistinctKeys(minified)
      modifies this`files
      ensures MinifyState(files, updated, newCount) == Record(lib, MinifyState(old(files), minified, count), path, output, text)
    {
      WriteFileContent(output, lib.encodeUtf8(text));
      updated := SetItem(minified, path, output);
      newCount := count + 1;
    }

    /** `process_compression(paths)`. */
    method ProcessCompression(paths: seq<string>) returns (compressed: Dict<seq<string>>)
      modifies this`files
      ensures compressed == CompressRun(lib, cfg, old(files), paths).compressed
      ensures files == CompressRun(lib, cfg, old(files), paths).files
    {
      if !(cfg.gzipCompression || cfg.brotliCompression) {
        return [];
      }
      compressed := [];
      var maxFiles := MaxFilesPerRun(cfg);
      var processedCount := 0;
      ghost var goal := CompressRun(lib, cfg, files, paths);
      var i := 0;
      while i < |paths|
        invariant 0 <= i <= |paths|
        invariant DistinctKeys(compressed)
        invariant CompressLoop(lib, cfg, maxFiles, CompressState(files, compressed, processedCount), paths[i..]) == goal
      {
        ghost var st := CompressState(files, compressed, processedCount);
        if processedCount >= maxFiles {
          break;
        }
        var path := paths[i];
        assert paths[i..][1..] == paths[i + 1..];
        i := i + 1;
        if !ShouldProcessCompression(cfg, files, path) {
          continue;
        }
        var content := ReadFileContent(lib, cfg, files, path);
        if content.None? {
          continue;
        }
        compressed, processedCount := CompressReadFile(path, content.value, compressed, processedCount);
        assert CompressState(files, compressed, processedCount) == CompressOne(lib, cfg, st, path);
      }
    }

    /** The rest of one compression iteration once `path` has been read:
      write the gzip copy and then the brotli copy under the root-stripped
      name, record each name, and count the file. */
    method CompressReadFile(path: string, content: bytes, compressed: Dict<seq<string>>, count: int)
      returns (updated: Dict<seq<string>>, newCount: int)
      requires DistinctKeys(compressed)
      modifies this`files
      ensures CompressState(files, updated, newCount) == CompressRead(lib, cfg, CompressState(old(files), compressed, count), path, content)
    {
      ghost var st := CompressState(files, compressed, count);
      updated := compressed;
      var relativePath := RootStripped(path);
      if cfg.gzipCompression {
        var gzippedPath := relativePath + ".gz";
        WriteFileContent(gzippedPath, lib.gzip(content, GzipLevel(cfg)));
        updated := AppendItem(updated, path, gzippedPath);
      }
      ghost var afterGzip := CompressState(files, updated, count);
      assert afterGzip == GzipStep(lib, cfg, st, path, content);
      if cfg.brotliCompression {
        var brotliPath := relativePath + ".br";
        WriteFileContent(brotliPath, lib.brotli(content, BrotliQuality(cfg)));
        updated := AppendItem(updated, path, brotliPath);
      }
      assert CompressState(files, updated, count) == BrotliStep(lib, cfg, afterGzip, path, content);
      newCount := count + 1;
    }

    /** `_update_manifest(minified_files)`: redirect the manifest's entries
      to the minified paths and store the result. */
    method UpdateManifest(minified: Dict<string>)
      modifies this`manifest
      ensures manifest == Some(UpdatedManifest(old(manifest), minified))
    {
      var entries := PathsOf(manifest);
      ghost var goal := RedirectAll(entries, minified);
      assert minified[0..] == minified;
      for k := 0 to |minified|
        invariant RedirectAll(entries, minified[k..]) == goal
      {
        RedirectAllStep(entries, minified[k..]);
        entries := RedirectFirst(entries, RootStripped(minified[k].0), RootStripped(minified[k].1));
        assert minified[k..][1..] == minified[k + 1..];
      }
      assert minified[|minified|..] == [];
      manifest := Some(Manifest(Some(entries)));
    }

    /** The part of `post_process` after Django's own pass: minify, yield
      the minified pairs, compress the processed paths and the minified
      outputs, and redirect the manifest when anything was minified. */
    method PostProcess(inputPaths: seq<string>, dryRun: bool) returns (yielded: seq<(string, string, bool)>)
      modifies this
      ensures dryRun ==> yielded == [] && files == old(files) && manifest == old(manifest)
      ensures !dryRun ==>
                var processed := ProcessedPaths(old(manifest), inputPaths);
                var m := MinifyRun(lib, cfg, old(files), processed);
                && yielded == Triples(m.minified)
                && files == CompressRun(lib, cfg, m.files, processed + Values(m.minified)).files
                && manifest == (if m.minified == [] then old(manifest) else Some(UpdatedManifest(old(manifest), m.minified)))
    {
      if dryRun {
        return [];
      }
      var processedPaths := ProcessedPaths(manifest, inputPaths);
      ghost var m := MinifyRun(lib, cfg, files, processedPaths);
      var minifiedFiles := ProcessMinification(processedPaths);
      assert minifiedFiles == m.minified && files == m.files;
      yielded := YieldMinified(minifiedFiles);
      var allPaths := processedPaths + Values(minifiedFiles);
      var compressedFiles := ProcessCompression(allPaths);
      if minifiedFiles != [] {
        UpdateManifest(minifiedFiles);
      }
    }
  }
}
