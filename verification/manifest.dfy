/** The manifest rewrite of `_update_manifest` and the choice of paths in
    `post_process`, over the "paths" member of Django's staticfiles
    manifest: a dict from each original name to its stored name. */
module Manifests {
  import opened Wrappers
  import opened Storage

  /** The stored manifest, reduced to its "paths" member, which may be
      missing. */
  datatype Manifest = Manifest(paths: Option<Dict<string>>)

  /** `manifest["paths"]` once a missing or empty manifest has become `{}`
      and a missing "paths" has become `{}`. */
  function PathsOf(manifest: Option<Manifest>): Dict<string> {
    match manifest
    case None => []
    case Some(Manifest(None)) => []
    case Some(Manifest(Some(paths))) => paths
  }

  /** No entry before index `i` has the value `v`. */
  predicate FirstWithValue(entries: Dict<string>, v: string, i: int) {
    forall j :: 0 <= j < i && j < |entries| ==> entries[j].1 != v
  }

  /** The inner loop of `_update_manifest`: the first entry whose stored
      name is `from` now points at `to`; every other entry is unchanged. */
  function Redirect(entries: Dict<string>, from: string, to: string): (r: Dict<string>)
    ensures |r| == |entries|
    ensures forall i :: 0 <= i < |entries| ==>
              r[i] == (if entries[i].1 == from && FirstWithValue(entries, from, i) then (entries[i].0, to) else entries[i])
  {
    if entries == [] then []
    else if entries[0].1 == from then [(entries[0].0, to)] + entries[1..]
    else
      var rest := Redirect(entries[1..], from, to);
      assert forall i :: 1 <= i < |entries| ==>
               (FirstWithValue(entries[1..], from, i - 1) <==> FirstWithValue(entries, from, i)) by {
        forall i | 1 <= i < |entries|
          ensures FirstWithValue(entries[1..], from, i - 1) <==> FirstWithValue(entries, from, i)
        {
          if FirstWithValue(entries[1..], from, i - 1) {
            forall j | 0 <= j < i
              ensures entries[j].1 != from
            {
              if j > 0 {
                assert entries[j] == entries[1..][j - 1];
              }
            }
          }
        }
      }
      [entries[0]] + rest
  }

  /** The redirect when `j` is the first entry pointing at `from`. */
  lemma RedirectFound(entries: Dict<string>, from: string, to: string, j: int)
    requires 0 <= j < |entries| && entries[j].1 == from && FirstWithValue(entries, from, j)
    ensures Redirect(entries, from, to) == entries[j := (entries[j].0, to)]
  {
    var r := Redirect(entries, from, to);
    forall i | 0 <= i < |entries|
      ensures r[i] == entries[j := (entries[j].0, to)][i]
    {
      if i > j {
        assert !FirstWithValue(entries, from, i);
      }
    }
  }

  /** The redirect when no entry points at `from`. */
  lemma RedirectMissing(entries: Dict<string>, from: string, to: string)
    requires FirstWithValue(entries, from, |entries|)
    ensures Redirect(entries, from, to) == entries
  {
    var r := Redirect(entries, from, to);
    assert forall i :: 0 <= i < |entries| ==> r[i] == entries[i];
  }

  /** A redirect keeps every key in place. */
  lemma RedirectKeepsKeys(entries: Dict<string>, from: string, to: string)
    ensures Keys(Redirect(entries, from, to)) == Keys(entries)
  {
    var r := Redirect(entries, from, to);
    assert forall i :: 0 <= i < |r| ==> Keys(r)[i] == Keys(entries)[i];
  }

  /** The outer loop of `_update_manifest`: one redirect per minified pair,
      in order, from the root-stripped minified path's original to the
      root-stripped minified path. */
  function RedirectAll(entries: Dict<string>, minified: Dict<string>): (r: Dict<string>)
    ensures |r| == |entries| && Keys(r) == Keys(entries)
    ensures forall i :: 0 <= i < |r| && r[i].1 != entries[i].1 ==>
              exists j :: 0 <= j < |minified| && r[i].1 == RootStripped(minified[j].1)
    decreases |minified|
  {
    if minified == [] then entries
    else
      var next := Redirect(entries, RootStripped(minified[0].0), RootStripped(minified[0].1));
      RedirectKeepsKeys(entries, RootStripped(minified[0].0), RootStripped(minified[0].1));
      var r := RedirectAll(next, minified[1..]);
      assert forall i :: 0 <= i < |r| && r[i].1 != entries[i].1 ==>
               exists j :: 0 <= j < |minified| && r[i].1 == RootStripped(minified[j].1) by {
        forall i | 0 <= i < |r| && r[i].1 != entries[i].1
          ensures exists j :: 0 <= j < |minified| && r[i].1 == RootStripped(minified[j].1)
        {
          if r[i].1 != next[i].1 {
            var j :| 0 <= j < |minified[1..]| && r[i].1 == RootStripped(minified[1..][j].1);
            assert minified[1..][j] == minified[j + 1];
          } else {
            assert r[i].1 == RootStripped(minified[0].1);
          }
        }
      }
      r
  }

  /** One pass of the outer loop. */
  lemma RedirectAllStep(entries: Dict<string>, minified: Dict<string>)
    requires minified != []
    ensures RedirectAll(entries, minified)
            == RedirectAll(Redirect(entries, RootStripped(minified[0].0), RootStripped(minified[0].1)), minified[1..])
  {
  }

  /** The manifest `_update_manifest` saves: the same original names, some
      of them now pointing at root-stripped minified paths. */
  function UpdatedManifest(manifest: Option<Manifest>, minified: Dict<string>): (r: Manifest)
    ensures r.paths.Some?
    ensures Keys(r.paths.value) == Keys(PathsOf(manifest))
  {
    Manifest(Some(RedirectAll(PathsOf(manifest), minified)))
  }

  /** `processed_paths` in `post_process`: the manifest's stored names, or
      the collected input paths when there are none. */
  function ProcessedPaths(manifest: Option<Manifest>, inputPaths: seq<string>): (r: seq<string>)
    ensures PathsOf(manifest) != [] ==> r == Values(PathsOf(manifest))
    ensures PathsOf(manifest) == [] ==> r == inputPaths
    ensures r == [] ==> inputPaths == []
  {
    var stored := Values(PathsOf(manifest));
    if stored != [] then stored else inputPaths
  }
}
