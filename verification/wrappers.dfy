/** Option and Result, the failure-carrying shapes the model needs, and
    Python's insertion-ordered dict. */
module Wrappers {

  /** A Python value that may be None. */
  datatype Option<+T> = None | Some(value: T)

  /** The outcome of a Python expression that may raise. */
  datatype Result<+R, +E> = Success(value: R) | Failure(error: E)

  /** An ordered Python dict with string keys, as a sequence of (key, value)
      pairs in insertion order. */
  type Dict<V> = seq<(string, V)>

  /** A Python dict never holds a key twice. */
  predicate DistinctKeys<V>(d: Dict<V>) {
    forall i, j :: 0 <= i < j < |d| ==> d[i].0 != d[j].0
  }

  function Keys<V>(d: Dict<V>): (ks: seq<string>)
    ensures |ks| == |d|
    ensures forall i :: 0 <= i < |d| ==> ks[i] == d[i].0
  {
    if d == [] then [] else [d[0].0] + Keys(d[1..])
  }

  function Values<V>(d: Dict<V>): (vs: seq<V>)
    ensures |vs| == |d|
    ensures forall i :: 0 <= i < |d| ==> vs[i] == d[i].1
  {
    if d == [] then [] else [d[0].1] + Values(d[1..])
  }

  /** The position of key `k` in `d`. */
  function IndexOf<V>(d: Dict<V>, k: string): (i: nat)
    requires k in Keys(d)
    ensures i < |d| && d[i].0 == k
    ensures forall j :: 0 <= j < i ==> d[j].0 != k
  {
    if d[0].0 == k then 0 else 1 + IndexOf(d[1..], k)
  }

  /** `d[k] = v`: an existing key keeps its position and gets the new value,
      a new key is appended. */
  function SetItem<V>(d: Dict<V>, k: string, v: V): (r: Dict<V>)
    requires DistinctKeys(d)
    ensures DistinctKeys(r)
    ensures k in Keys(d) ==> |r| == |d| && Keys(r) == Keys(d)
    ensures k !in Keys(d) ==> r == d + [(k, v)]
    ensures forall i :: 0 <= i < |d| ==> r[i] == (if d[i].0 == k then (k, v) else d[i])
  {
    if k in Keys(d) then d[IndexOf(d, k) := (k, v)] else d + [(k, v)]
  }

  /** `d.setdefault(k, []).append(x)`. */
  function AppendItem<X>(d: Dict<seq<X>>, k: string, x: X): (r: Dict<seq<X>>)
    requires DistinctKeys(d)
    ensures DistinctKeys(r)
    ensures k in Keys(d) ==> |r| == |d| && Keys(r) == Keys(d)
    ensures k !in Keys(d) ==> r == d + [(k, [x])]
    ensures forall i :: 0 <= i < |d| ==> r[i] == (if d[i].0 == k then (k, d[i].1 + [x]) else d[i])
  {
    if k in Keys(d) then
      var i := IndexOf(d, k);
      d[i := (k, d[i].1 + [x])]
    else d + [(k, [x])]
  }

  /** `d.setdefault(k, []).extend(xs)`. */
  function ExtendItem<X>(d: Dict<seq<X>>, k: string, xs: seq<X>): (r: Dict<seq<X>>)
    requires DistinctKeys(d)
    ensures DistinctKeys(r)
    ensures k in Keys(d) ==> |r| == |d| && Keys(r) == Keys(d)
    ensures k !in Keys(d) ==> r == d + [(k, xs)]
    ensures forall i :: 0 <= i < |d| ==> r[i] == (if d[i].0 == k then (k, d[i].1 + xs) else d[i])
  {
    if k in Keys(d) then
      var i := IndexOf(d, k);
      d[i := (k, d[i].1 + xs)]
    else d + [(k, xs)]
  }

  /** One append is an extension by one item. */
  lemma AppendIsExtend<X>(d: Dict<seq<X>>, k: string, x: X)
    requires DistinctKeys(d)
    ensures AppendItem(d, k, x) == ExtendItem(d, k, [x])
  {
  }

  /** Two appends under one key are an extension by both items, in order. */
  lemma AppendTwice<X>(d: Dict<seq<X>>, k: string, x: X, y: X)
    requires DistinctKeys(d)
    ensures AppendItem(AppendItem(d, k, x), k, y) == ExtendItem(d, k, [x, y])
  {
    var once := AppendItem(d, k, x);
    var twice := AppendItem(once, k, y);
    var e := ExtendItem(d, k, [x, y]);
    if k in Keys(d) {
      forall i | 0 <= i < |d|
        ensures twice[i] == e[i]
      {
        if d[i].0 == k {
          assert twice[i] == (k, d[i].1 + [x] + [y]);
          assert d[i].1 + [x] + [y] == d[i].1 + [x, y];
        }
      }
    } else {
      assert Keys(once)[|d|] == k;
      assert IndexOf(once, k) == |d|;
      assert twice == once[|d| := (k, [x] + [y])];
      assert [x] + [y] == [x, y];
    }
  }

  /** Extending adds `k` to the keys and no other key. */
  lemma ExtendKeys<X>(d: Dict<seq<X>>, k: string, xs: seq<X>)
    requires DistinctKeys(d)
    ensures forall q :: q in Keys(ExtendItem(d, k, xs)) <==> q in Keys(d) || q == k
  {
    var r := ExtendItem(d, k, xs);
    forall q | q in Keys(r)
      ensures q in Keys(d) || q == k
    {
      var j :| 0 <= j < |r| && Keys(r)[j] == q;
      if j < |d| {
        assert Keys(d)[j] == q;
      }
    }
    forall q | q in Keys(d) || q == k
      ensures q in Keys(r)
    {
      if q in Keys(d) {
        var j :| 0 <= j < |d| && Keys(d)[j] == q;
        assert Keys(r)[j] == q;
      } else if k !in Keys(d) {
        assert Keys(r)[|d|] == k;
      }
    }
  }

  /** Every key of `d` is a key of `before` or one of `paths`. */
  predicate KeysFrom<V>(d: Dict<V>, before: Dict<V>, paths: seq<string>) {
    forall i :: 0 <= i < |d| ==> d[i].0 in Keys(before) || d[i].0 in paths
  }

  /** Keys from the first path, then keys from the rest, are keys from
      all the paths. */
  lemma KeysChain<V>(r: Dict<V>, next: Dict<V>, before: Dict<V>, paths: seq<string>)
    requires paths != []
    requires KeysFrom(next, before, [paths[0]])
    requires KeysFrom(r, next, paths[1..])
    ensures KeysFrom(r, before, paths)
  {
    forall i | 0 <= i < |r|
      ensures r[i].0 in Keys(before) || r[i].0 in paths
    {
      if r[i].0 in Keys(next) {
        var j :| 0 <= j < |next| && Keys(next)[j] == r[i].0;
        assert next[j].0 == r[i].0;
        assert paths[0] in paths;
      } else {
        var k :| 0 <= k < |paths[1..]| && paths[1..][k] == r[i].0;
        assert paths[k + 1] == r[i].0;
      }
    }
  }

  /** After an extension, every key sits where it was or is the new key. */
  lemma KeyAfterExtend<X>(next: Dict<seq<X>>, before: Dict<seq<X>>, k: string, xs: seq<X>, i: int)
    requires DistinctKeys(before)
    requires next == ExtendItem(before, k, xs)
    requires 0 <= i < |next|
    ensures (i < |before| && next[i].0 == before[i].0) || next[i].0 == k
  {
  }
}
