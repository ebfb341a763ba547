/** Merging and looking up nested configuration, on values. */
module ConfigMerge {
  import opened Prelude

  /** A configuration value: anything that is not a map, or a map. */
  datatype Value = Scalar(text: string) | Node(entries: map<string, Value>)

  type Entries = map<string, Value>

  function MergedEntry(dst: Entries, src: Entries, k: string): Value
    requires k in dst || k in src
    decreases Node(src), 0
  {
    if k !in src then dst[k]
    else if src[k].Node? && k in dst && dst[k].Node? then
      Node(Merge(dst[k].entries, src[k].entries))
    else src[k]
  }

  function Merge(dst: Entries, src: Entries): Entries
    decreases Node(src), 1
  {
    map k | k in dst.Keys + src.Keys :: MergedEntry(dst, src, k)
  }

  /** Walking down a path of keys. */
  function Walk(v: Value, path: seq<string>): Option<Value> {
    if path == [] then Some(v)
    else if v.Scalar? || path[0] !in v.entries then None
    else Walk(v.entries[path[0]], path[1..])
  }

  /** The parts of a dotted path; never empty. */
  function Split(path: string): (parts: seq<string>)
    ensures parts != []
  {
    if path == "" then [""]
    else
      var rest := Split(path[1..]);
      if path[0] == '.' then [""] + rest else [[path[0]] + rest[0]] + rest[1..]
  }

  function Lookup(raw: Entries, path: string): Option<Value> {
    Walk(Node(raw), Split(path))
  }

  method LookupByLoop(raw: Entries, path: string) returns (found: Option<Value>)
    ensures found == Lookup(raw, path)
  {
    var parts := Split(path);
    var current := Node(raw);
    for i := 0 to |parts|
      invariant Walk(Node(raw), parts) == Walk(current, parts[i..])
    {
      if current.Scalar? {
        return None;
      }
      if parts[i] !in current.entries {
        return None;
      }
      current := current.entries[parts[i]];
    }
    return Some(current);
  }

  // ---------------------------------------------------------------------------
  // Dotted paths
  // ---------------------------------------------------------------------------

  /** The parts put together again, with a dot between each two. */
  function Join(parts: seq<string>): string
    requires parts != []
  {
    if |parts| == 1 then parts[0] else parts[0] + "." + Join(parts[1..])
  }

  predicate DotFree(part: string) {
    forall i :: 0 <= i < |part| ==> part[i] != '.'
  }

  /** Splitting a path loses nothing, and splits it at every dot. */
  lemma {:induction false} SplitThenJoin(path: string)
    ensures Join(Split(path)) == path
    ensures forall i :: 0 <= i < |Split(path)| ==> DotFree(Split(path)[i])
  {
    if path != "" {
      var rest := Split(path[1..]);
      SplitThenJoin(path[1..]);
      assert path == [path[0]] + path[1..];
      if path[0] == '.' {
        assert Split(path)[1..] == rest;
      } else {
        var parts := Split(path);
        assert parts[1..] == rest[1..] && parts[0] == [path[0]] + rest[0];
        assert Join(parts) == [path[0]] + Join(rest);
      }
    }
  }

  /** What stands before the first dot is the first part. */
  lemma {:induction false} SplitAtFirstDot(part: string, rest: string)
    requires DotFree(part)
    ensures Split(part) == [part]
    ensures Split(part + "." + rest) == [part] + Split(rest)
  {
    var path := part + "." + rest;
    if part == "" {
      assert path[1..] == rest;
    } else {
      assert path[1..] == part[1..] + "." + rest;
      SplitAtFirstDot(part[1..], rest);
      assert part == [part[0]] + part[1..];
    }
  }

  /** Any parts without dots come back as they were. */
  lemma {:induction false} JoinThenSplit(parts: seq<string>)
    requires parts != [] && forall i :: 0 <= i < |parts| ==> DotFree(parts[i])
    ensures Split(Join(parts)) == parts
  {
    if |parts| == 1 {
      SplitAtFirstDot(parts[0], "");
    } else {
      SplitAtFirstDot(parts[0], Join(parts[1..]));
      JoinThenSplit(parts[1..]);
    }
  }

  /** A lookup descends one key at a time, from the outermost map and from the left. */
  lemma {:induction false} LookupDescends(raw: Entries, key: string, rest: string)
    requires DotFree(key)
    ensures Lookup(raw, key) == if key in raw then Some(raw[key]) else None
    ensures Lookup(raw, key + "." + rest) ==
            if key in raw && raw[key].Node? then Lookup(raw[key].entries, rest) else None
  {
    SplitAtFirstDot(key, rest);
    var longer := [key] + Split(rest);
    assert [key][1..] == [] && longer[0] == key && longer[1..] == Split(rest);
    if key in raw {
      assert Walk(Node(raw), longer) == Walk(raw[key], Split(rest));
      assert Walk(Node(raw), [key]) == Walk(raw[key], []);
    }
  }

  // ---------------------------------------------------------------------------
  // The lookup law
  // ---------------------------------------------------------------------------

  /** How a walk ends: at a missing key, below a scalar, or at a value. */
  datatype Arrival = Missing | Blocked | Found(value: Value)

  function Trace(v: Value, path: seq<string>): Arrival {
    if path == [] then Found(v)
    else if v.Scalar? then Blocked
    else if path[0] !in v.entries then Missing
    else Trace(v.entries[path[0]], path[1..])
  }

  lemma {:induction false} WalkByTrace(v: Value, path: seq<string>)
    ensures Walk(v, path) == if Trace(v, path).Found? then Some(Trace(v, path).value) else None
    decreases |path|
  {
    if path != [] && v.Node? && path[0] in v.entries {
      WalkByTrace(v.entries[path[0]], path[1..]);
    }
  }

  /** A map found on both sides is merged again; a map found in the source alone is taken
      as it is. */
  function MergedMap(inDst: Option<Value>, m: Entries): Value {
    if inDst.Some? && inDst.value.Node? then Node(Merge(inDst.value.entries, m)) else Node(m)
  }

  ghost predicate LookupLaw(dst: Entries, src: Entries, path: seq<string>) {
    var merged := Walk(Node(Merge(dst, src)), path);
    match Trace(Node(src), path)
    case Missing => merged == Walk(Node(dst), path)
    case Blocked => merged == None
    case Found(Scalar(t)) => merged == Some(Scalar(t))
    case Found(Node(m)) => merged == Some(MergedMap(Walk(Node(dst), path), m))
  }

  /** For every path: the source's scalar if it has one there, the destination's answer if
      the source's walk ends at a missing key, nothing below a scalar of the source, and a
      map (merged with the destination's, if that has one there) where the source has a map. */
  lemma {:induction false} MergedLookup(dst: Entries, src: Entries, path: seq<string>)
    ensures LookupLaw(dst, src, path)
    decreases |path|
  {
    if path != [] && path[0] in src {
      var k, rest := path[0], path[1..];
      WalkByTrace(src[k], rest);
      if src[k].Node? && k in dst && dst[k].Node? {
        MergedLookup(dst[k].entries, src[k].entries, rest);
        assert Merge(dst, src)[k] == Node(Merge(dst[k].entries, src[k].entries));
      } else {
        assert Merge(dst, src)[k] == src[k];
        assert rest == [] || Walk(Node(dst), path) == None || !src[k].Node?;
      }
    }
  }

  /** The same for dotted paths. */
  lemma {:induction false} MergedLookupDotted(dst: Entries, src: Entries, path: string)
    ensures LookupLaw(dst, src, Split(path))
    ensures Lookup(Merge(dst, src), path) == Walk(Node(Merge(dst, src)), Split(path))
  {
    MergedLookup(dst, src, Split(path));
  }

  // ---------------------------------------------------------------------------
  // Merging again, and merging nothing new
  // ---------------------------------------------------------------------------

  lemma {:induction false} MergeWithItself(m: Entries)
    ensures Merge(m, m) == m
    decreases Node(m)
  {
    forall k | k in m
      ensures MergedEntry(m, m, k) == m[k]
    {
      if m[k].Node? {
        MergeWithItself(m[k].entries);
      }
    }
  }

  /** Merging the same source twice equals merging it once. */
  lemma {:induction false} MergeIsIdempotent(dst: Entries, src: Entries)
    ensures Merge(Merge(dst, src), src) == Merge(dst, src)
    decreases Node(src)
  {
    var once := Merge(dst, src);
    forall k | k in once
      ensures MergedEntry(once, src, k) == once[k]
    {
      assert once[k] == MergedEntry(dst, src, k);
      if k in src && src[k].Node? {
        if k in dst && dst[k].Node? {
          MergeIsIdempotent(dst[k].entries, src[k].entries);
          assert once[k] == Node(Merge(dst[k].entries, src[k].entries));
        } else {
          MergeWithItself(src[k].entries);
          assert once[k] == src[k];
        }
      }
    }
    assert once.Keys + src.Keys == once.Keys;
  }

  /** Everything the source says is already there. */
  predicate Covered(dst: Entries, src: Entries)
    decreases Node(src), 1
  {
    forall k :: k in src ==> k in dst && CoveredAt(dst, src, k)
  }

  predicate CoveredAt(dst: Entries, src: Entries, k: string)
    requires k in src && k in dst
    decreases Node(src), 0
  {
    if src[k].Node? && dst[k].Node? then Covered(dst[k].entries, src[k].entries) else dst[k] == src[k]
  }

  /** A merge leaves its destination as it was exactly when the source is covered by it. */
  lemma {:induction false} MergeChangesNothingIff(dst: Entries, src: Entries)
    ensures Merge(dst, src) == dst <==> Covered(dst, src)
    decreases Node(src)
  {
    forall k | k in src && k in dst
      ensures MergedEntry(dst, src, k) == dst[k] <==> CoveredAt(dst, src, k)
    {
      if src[k].Node? && dst[k].Node? {
        MergeChangesNothingIff(dst[k].entries, src[k].entries);
      }
    }
    var merged := Merge(dst, src);
    assert forall k :: k in merged ==> merged[k] == MergedEntry(dst, src, k);
    if Covered(dst, src) {
      assert merged.Keys == dst.Keys;
      assert merged == dst;
    }
  }
}
