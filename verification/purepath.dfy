/** The parts of Python's `pathlib.PurePosixPath` and `os.path` (POSIX) that
    the core relies on: parsing a path string into a root and components,
    turning it back into a string, the final component's name, stem and
    suffix, the parent, joining, and `os.path.isabs` / `os.path.basename`. */
module PurePath {
  import opened PyStr

  /** `s.split("/")` */
  function Split(s: string): (r: seq<string>)
    ensures |r| >= 1
    ensures forall k :: 0 <= k < |r| ==> '/' !in r[k]
  {
    if s == [] then [""]
    else
      var rest := Split(s[1..]);
      if s[0] == '/' then [""] + rest else [[s[0]] + rest[0]] + rest[1..]
  }

  /** A component pathlib keeps: not empty, not ".", no separator. */
  predicate IsComponent(c: string) {
    c != "" && c != "." && '/' !in c
  }

  /** Drop the empty and "." segments, as pathlib does while parsing. */
  function DropEmpty(segments: seq<string>): (r: seq<string>)
    ensures |r| <= |segments|
    ensures (forall k :: 0 <= k < |segments| ==> '/' !in segments[k]) ==>
              forall k :: 0 <= k < |r| ==> IsComponent(r[k])
  {
    if segments == [] then []
    else if segments[0] == "" || segments[0] == "." then DropEmpty(segments[1..])
    else [segments[0]] + DropEmpty(segments[1..])
  }

  /** The components of a path string that has no root. */
  function Components(rel: string): (r: seq<string>)
    ensures forall k :: 0 <= k < |r| ==> IsComponent(r[k])
  {
    DropEmpty(Split(rel))
  }

  /** A parsed POSIX path: its root ("", "/" or "//") and its components. */
  datatype Parsed = Parsed(root: string, tail: seq<string>)

  predicate WellFormed(p: Parsed) {
    && (p.root == "" || p.root == "/" || p.root == "//")
    && forall k :: 0 <= k < |p.tail| ==> IsComponent(p.tail[k])
  }

  /** `Path(s)`: exactly two leading slashes are kept as the root "//",
      one or three and more become "/". */
  function Parse(s: string): (p: Parsed)
    ensures WellFormed(p)
    ensures p.root != "" <==> StartsWith(s, "/")
  {
    if s == [] || s[0] != '/' then Parsed("", Components(s))
    else if |s| == 1 || s[1] != '/' || (|s| >= 3 && s[2] == '/') then Parsed("/", Components(s[1..]))
    else Parsed("//", Components(s[2..]))
  }

  /** `"/".join(parts)` */
  function Join(parts: seq<string>): string {
    if parts == [] then ""
    else if |parts| == 1 then parts[0]
    else parts[0] + "/" + Join(parts[1..])
  }

  /** `str(path)`: the root followed by the components, or "." for the
      empty relative path. */
  function Format(p: Parsed): string {
    if p.root != "" then p.root + Join(p.tail)
    else if p.tail == [] then "."
    else Join(p.tail)
  }

  /** `path.name`: the final component, or "" when there is none. */
  function Name(p: Parsed): string {
    if p.tail == [] then "" else p.tail[|p.tail| - 1]
  }

  /** `path.parent`: the path without its final component. */
  function Parent(p: Parsed): Parsed {
    if p.tail == [] then p else Parsed(p.root, p.tail[..|p.tail| - 1])
  }

  /** `path.suffix` of a final component `name`: from its last dot on, unless
      that dot is the first or the last character. */
  function SuffixOf(name: string): (r: string)
    ensures r == [] || (|r| >= 2 && r[0] == '.' && '.' !in r[1..] && |r| < |name|)
    ensures EndsWith(name, r)
  {
    var i := RFind(name, '.');
    if 0 < i < |name| - 1 then name[i..] else ""
  }

  /** `path.stem` of a final component `name`. */
  function StemOf(name: string): (r: string)
    ensures r + SuffixOf(name) == name
    ensures SuffixOf(name) != "" ==> r != ""
  {
    var i := RFind(name, '.');
    if 0 < i < |name| - 1 then name[..i] else name
  }

  /** `os.path.join(a, b)` on POSIX. */
  function PosixJoin(a: string, b: string): string {
    if StartsWith(b, "/") then b
    else if a == "" || EndsWith(a, "/") then a + b
    else a + "/" + b
  }

  /** `path / segment`, which pathlib parses from the joined string. */
  function JoinPath(p: Parsed, segment: string): Parsed {
    Parse(PosixJoin(Format(p), segment))
  }

  /** `os.path.isabs(s)` on POSIX. */
  predicate IsAbs(s: string) {
    StartsWith(s, "/")
  }

  /** `os.path.basename(s)`: what follows the last separator. */
  function Basename(s: string): (r: string)
    ensures '/' !in r
  {
    s[RFind(s, '/') + 1..]
  }

  // ----- Lemmas about parsing and formatting -----

  lemma {:induction false} SplitConcat(a: string, b: string)
    ensures Split(a + "/" + b) == Split(a) + Split(b)
    decreases |a|
  {
    if a == [] {
      assert a + "/" + b == "/" + b;
      assert ("/" + b)[1..] == b;
    } else {
      assert (a + "/" + b)[1..] == a[1..] + "/" + b;
      SplitConcat(a[1..], b);
    }
  }

  lemma {:induction false} DropEmptyConcat(x: seq<string>, y: seq<string>)
    ensures DropEmpty(x + y) == DropEmpty(x) + DropEmpty(y)
  {
    if x == [] {
      assert x + y == y;
    } else {
      assert (x + y)[1..] == x[1..] + y;
      DropEmptyConcat(x[1..], y);
    }
  }

  lemma {:induction false} SplitWithoutSeparator(s: string)
    requires '/' !in s
    ensures Split(s) == [s]
  {
    if s != [] {
      SplitWithoutSeparator(s[1..]);
      assert [s[0]] + s[1..] == s;
    }
  }

  /** A single well-formed component parses to itself. */
  lemma ComponentsOfComponent(c: string)
    requires IsComponent(c)
    ensures Components(c) == [c]
  {
    SplitWithoutSeparator(c);
  }

  /** A leading separator does not change what follows the last one. */
  lemma BasenameAfterSlash(s: string)
    requires |s| >= 1 && s[0] == '/'
    ensures Basename(s) == Basename(s[1..])
  {
    var i := RFind(s, '/');
    var j := RFind(s[1..], '/');
    if j >= 0 {
      assert s[j + 1] == s[1..][j];
    }
    assert i == j + 1;
  }

  /** A path without components ends in an empty or a "." segment. */
  lemma NoComponentsBasename(rel: string)
    requires Components(rel) == []
    ensures Basename(rel) == "" || Basename(rel) == "."
  {
    var i := RFind(rel, '/');
    var b := Basename(rel);
    SplitWithoutSeparator(b);
    if 0 <= i {
      var a := rel[..i];
      assert rel == a + "/" + b;
      SplitConcat(a, b);
      DropEmptyConcat(Split(a), [b]);
    }
    DropEmptySingle(b);
  }

  /** An absolute path made of its root alone ("/", "//", "/./" and the
      like) ends in an empty segment, or in "." when it ends with a dot. */
  lemma RootOnlyBasename(path: string)
    requires IsAbs(path) && Parse(path).tail == []
    ensures Basename(path) == if EndsWith(path, ".") then "." else ""
  {
    RootOnlySegment(path);
    BasenameLast(path);
    assert EndsWith(path, ".") <==> path[|path| - 1] == '.';
  }

  /** The last segment of a path that is its root alone is "" or ".". */
  lemma RootOnlySegment(path: string)
    requires IsAbs(path) && Parse(path).tail == []
    ensures Basename(path) == "" || Basename(path) == "."
  {
    BasenameAfterSlash(path);
    if Parse(path).root == "/" {
      NoComponentsBasename(path[1..]);
    } else {
      BasenameAfterSlash(path[1..]);
      assert path[1..][1..] == path[2..];
      NoComponentsBasename(path[2..]);
    }
  }

  /** The last segment is empty exactly when the path ends with a separator,
      and otherwise ends with the path's last character. */
  lemma BasenameLast(s: string)
    requires s != []
    ensures Basename(s) == "" <==> s[|s| - 1] == '/'
    ensures Basename(s) != "" ==> Basename(s)[|Basename(s)| - 1] == s[|s| - 1]
  {
  }

  /** A single segment is dropped exactly when it is empty or ".". */
  lemma DropEmptySingle(segment: string)
    ensures DropEmpty([segment]) == [] <==> segment == "" || segment == "."
  {
    assert [segment][1..] == [];
  }

  lemma {:induction false} JoinFacts(t: seq<string>)
    requires forall k :: 0 <= k < |t| ==> IsComponent(t[k])
    ensures Components(Join(t)) == t
    ensures t != [] ==> Join(t) != [] && Join(t)[0] != '/' && Join(t)[|Join(t)| - 1] != '/'
    ensures |t| >= 2 ==> '/' in Join(t)
  {
    if t == [] {
    } else if |t| == 1 {
      ComponentsOfComponent(t[0]);
    } else {
      JoinFacts(t[1..]);
      var rest := Join(t[1..]);
      assert Join(t) == t[0] + "/" + rest;
      JoinCons(t[0], rest, t[1..]);
      assert [t[0]] + t[1..] == t;
    }
  }

  /** A component, a separator and a joined path with components `ts`. */
  lemma JoinCons(c: string, rest: string, ts: seq<string>)
    requires IsComponent(c) && rest != [] && rest[|rest| - 1] != '/'
    requires Components(rest) == ts
    ensures Components(c + "/" + rest) == [c] + ts
    ensures (c + "/" + rest)[0] != '/' && (c + "/" + rest)[|c + "/" + rest| - 1] != '/'
    ensures '/' in c + "/" + rest
  {
    var s := c + "/" + rest;
    SplitConcat(c, rest);
    ComponentsOfComponent(c);
    DropEmptyConcat(Split(c), Split(rest));
    assert s[|c|] == '/';
    assert s[|s| - 1] == rest[|rest| - 1];
  }

  /** Formatting a parsed path and parsing it again gives it back. */
  lemma ParseFormat(p: Parsed)
    requires WellFormed(p)
    ensures Parse(Format(p)) == p
  {
    JoinFacts(p.tail);
    var j := Join(p.tail);
    if p.root == "/" {
      assert (p.root + j)[1..] == j;
    } else if p.root == "//" {
      assert (p.root + j)[2..] == j;
    } else if p.tail == [] {
      SplitWithoutSeparator(".");
    }
  }

  /** `str(path) == "."` exactly for the empty relative path. */
  lemma FormatIsDot(p: Parsed)
    requires WellFormed(p)
    ensures Format(p) == "." <==> p.root == "" && p.tail == []
  {
    JoinFacts(p.tail);
    if p.root != "" {
      assert Format(p)[0] == '/';
    } else if |p.tail| >= 2 {
      assert '/' in Format(p);
    }
  }

  /** Joining a relative segment appends its components. */
  lemma JoinRelative(p: Parsed, segment: string)
    requires WellFormed(p) && Format(p) != "."
    requires !StartsWith(segment, "/")
    ensures JoinPath(p, segment) == Parsed(p.root, p.tail + Components(segment))
  {
    FormatIsDot(p);
    if p.tail == [] {
      JoinToRoot(p.root, segment);
    } else {
      JoinToComponents(p, segment);
    }
  }

  /** A root followed by a string that does not start with a separator
      parses to that root and the string's components. */
  lemma ParseRooted(root: string, rel: string)
    requires root == "" || root == "/" || root == "//"
    requires !StartsWith(rel, "/")
    ensures Parse(root + rel) == Parsed(root, Components(rel))
  {
    var s := root + rel;
    assert rel != [] ==> rel[0] != '/';
    if root == "/" {
      assert s[0] == '/' && (|s| == 1 || s[1] == rel[0]);
      assert s[1..] == rel;
    } else if root == "//" {
      assert s[0] == '/' && s[1] == '/' && (|s| == 2 || s[2] == rel[0]);
      assert s[2..] == rel;
    } else {
      assert s == rel;
    }
  }

  lemma JoinToRoot(root: string, segment: string)
    requires root == "/" || root == "//"
    requires !StartsWith(segment, "/")
    ensures JoinPath(Parsed(root, []), segment) == Parsed(root, Components(segment))
  {
    assert Format(Parsed(root, [])) == root by {
      assert Join([]) == "";
    }
    assert EndsWith(root, "/") by {
      assert root[|root| - 1] == '/';
      assert root[|root| - 1..] == [root[|root| - 1]];
    }
    ParseRooted(root, segment);
  }

  lemma JoinToComponents(p: Parsed, segment: string)
    requires WellFormed(p) && p.tail != []
    requires !StartsWith(segment, "/")
    ensures JoinPath(p, segment) == Parsed(p.root, p.tail + Components(segment))
  {
    JoinFacts(p.tail);
    var j := Join(p.tail);
    var rel := j + "/" + segment;
    JoinAfterComponents(p, segment);
    assert !StartsWith(rel, "/") by {
      assert rel[0] == j[0];
    }
    ParseRooted(p.root, rel);
    ComponentsAppend(p.tail, segment);
  }

  /** Joining onto a path with components inserts one separator. */
  lemma JoinAfterComponents(p: Parsed, segment: string)
    requires WellFormed(p) && p.tail != []
    requires !StartsWith(segment, "/")
    ensures PosixJoin(Format(p), segment) == p.root + (Join(p.tail) + "/" + segment)
  {
    FormatWithComponents(p);
    JoinFacts(p.tail);
    JoinAfterText(p.root, Join(p.tail), segment);
  }

  /** `os.path.join` puts one separator between a text that does not end
      with one and a relative segment. */
  lemma JoinAfterText(root: string, text: string, segment: string)
    requires text != [] && text[|text| - 1] != '/'
    requires !StartsWith(segment, "/")
    ensures PosixJoin(root + text, segment) == root + (text + "/" + segment)
  {
    var f := root + text;
    assert f[|f| - 1] == text[|text| - 1];
    assert PosixJoin(f, segment) == f + "/" + segment;
  }

  lemma FormatWithComponents(p: Parsed)
    requires WellFormed(p) && p.tail != []
    ensures Format(p) == p.root + Join(p.tail)
    ensures Format(p) != "" && !EndsWith(Format(p), "/")
  {
    JoinFacts(p.tail);
    var j := Join(p.tail);
    var f := Format(p);
    assert f[|f| - 1] == j[|j| - 1];
  }

  lemma ComponentsAppend(t: seq<string>, segment: string)
    requires forall k :: 0 <= k < |t| ==> IsComponent(t[k])
    requires t != []
    ensures Components(Join(t) + "/" + segment) == t + Components(segment)
  {
    JoinFacts(t);
    SplitConcat(Join(t), segment);
    DropEmptyConcat(Split(Join(t)), Split(segment));
  }

  /** The components of a stripped suffix-bearing name: its last dot splits it
      into stem and suffix. */
  lemma SplitAtLastDot(a: string, x: string)
    requires a != "" && x != "" && '.' !in x
    ensures SuffixOf(a + "." + x) == "." + x
    ensures StemOf(a + "." + x) == a
  {
    var n := a + "." + x;
    var i := RFind(n, '.');
    assert n[|a|] == '.';
    assert forall j :: |a| < j < |n| ==> n[j] == x[j - |a| - 1];
    assert i == |a|;
    assert n[i..] == "." + x;
    assert n[..i] == a;
  }
}
