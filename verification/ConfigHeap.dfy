/** `MergeMap` as it runs: nested maps are shared objects, merging writes into the
    destination and stores references to the source's maps. */
module ConfigHeap {
  import opened ConfigMerge

  datatype Item = Text(text: string) | Ref(nested: ConfigMap)

  class ConfigMap {
    var entries: map<string, Item>

    constructor (entries: map<string, Item>)
      ensures this.entries == entries
    {
      this.entries := entries;
    }
  }

  /** A description of what hangs below an entry: a text, or a map object and its entries. */
  datatype Shape = Leaf(text: string) | Tree(obj: ConfigMap, kids: map<string, Shape>)

  function Objects(t: Shape): set<ConfigMap> {
    if t.Leaf? then {} else {t.obj} + set k, o | k in t.kids && o in Objects(t.kids[k]) :: o
  }

  /** No object occurs twice. */
  ghost predicate Distinct(t: Shape) {
    t.Tree? ==>
      && (forall k :: k in t.kids ==> Distinct(t.kids[k]) && t.obj !in Objects(t.kids[k]))
      && (forall j, k :: j in t.kids && k in t.kids && j != k ==> Objects(t.kids[j]) !! Objects(t.kids[k]))
  }

  function ItemOf(t: Shape): Item {
    if t.Leaf? then Text(t.text) else Ref(t.obj)
  }

  /** The contents of some map objects at one moment. */
  type Heap = map<ConfigMap, map<string, Item>>

  ghost function Snapshot(objects: set<ConfigMap>): Heap
    reads objects
  {
    map o | o in objects :: o.entries
  }

  /** The objects look as described. */
  ghost predicate Holds(t: Shape, h: Heap) {
    t.Tree? ==>
      && t.obj in h
      && h[t.obj].Keys == t.kids.Keys
      && (forall k :: k in t.kids ==> h[t.obj][k] == ItemOf(t.kids[k]) && Holds(t.kids[k], h))
  }

  /** What is described stays so while none of its objects changes. */
  lemma {:induction false} StillHolds(t: Shape, h: Heap, h': Heap)
    requires Holds(t, h)
    requires forall o :: o in Objects(t) && o in h ==> o in h' && h'[o] == h[o]
    ensures Holds(t, h')
  {
    if t.Tree? {
      forall k | k in t.kids
        ensures Holds(t.kids[k], h')
      {
        StillHolds(t.kids[k], h, h');
      }
    }
  }

  /** The configuration value a shape stands for. */
  function ValueOf(t: Shape): Value {
    if t.Leaf? then Scalar(t.text) else Node(map k | k in t.kids :: ValueOf(t.kids[k]))
  }

  // ---------------------------------------------------------------------------
  // What merging makes of two shapes
  // ---------------------------------------------------------------------------

  function Merged(d: Shape, s: Shape): (t: Shape)
    requires d.Tree? && s.Tree?
    ensures t.Tree? && t.obj == d.obj
    decreases s
  {
    Tree(d.obj, map k | k in d.kids.Keys + s.kids.Keys :: MergedKid(d, s, k))
  }

  function MergedKid(d: Shape, s: Shape, k: string): Shape
    requires d.Tree? && s.Tree? && (k in d.kids || k in s.kids)
    decreases s, 0
  {
    if k !in s.kids then d.kids[k]
    else if Meet(d, s, k) then Merged(d.kids[k], s.kids[k])
    else s.kids[k]
  }

  /** Both sides hold a map under this key. */
  predicate Meet(d: Shape, s: Shape, k: string)
    requires d.Tree? && s.Tree?
  {
    k in d.kids && k in s.kids && d.kids[k].Tree? && s.kids[k].Tree?
  }

  /** The destination, and the destination's maps on paths where both sides hold maps. */
  function Written(d: Shape, s: Shape): (w: set<ConfigMap>)
    requires d.Tree? && s.Tree?
    ensures d.obj in w
    decreases s
  {
    {d.obj} + WrittenBelow(d, s)
  }

  function WrittenBelow(d: Shape, s: Shape): set<ConfigMap>
    requires d.Tree? && s.Tree?
    decreases s, 0
  {
    set k, o | k in d.kids && Meet(d, s, k) && o in Written(d.kids[k], s.kids[k]) :: o
  }

  lemma {:induction false} WrittenAreDestinations(d: Shape, s: Shape)
    requires d.Tree? && s.Tree?
    ensures Written(d, s) <= Objects(d)
    decreases s
  {
    forall k, o | k in d.kids && Meet(d, s, k) && o in Written(d.kids[k], s.kids[k])
      ensures o in Objects(d)
    {
      WrittenAreDestinations(d.kids[k], s.kids[k]);
    }
  }

  lemma {:induction false} MergedObjects(d: Shape, s: Shape)
    requires d.Tree? && s.Tree?
    ensures Objects(Merged(d, s)) <= Objects(d) + Objects(s)
    decreases s
  {
    var m := Merged(d, s);
    forall k, o | k in m.kids && o in Objects(m.kids[k])
      ensures o in Objects(d) + Objects(s)
    {
      assert m.kids[k] == MergedKid(d, s, k);
      if Meet(d, s, k) {
        MergedObjects(d.kids[k], s.kids[k]);
      }
    }
  }

  /** The merged shape stands for the merged value. */
  lemma {:induction false} MergedValue(d: Shape, s: Shape)
    requires d.Tree? && s.Tree?
    ensures ValueOf(Merged(d, s)) == Node(Merge(ValueOf(d).entries, ValueOf(s).entries))
    decreases s
  {
    var m, dv, sv := Merged(d, s), ValueOf(d).entries, ValueOf(s).entries;
    forall k | k in d.kids.Keys + s.kids.Keys
      ensures ValueOf(MergedKid(d, s, k)) == MergedEntry(dv, sv, k)
    {
      assert (k in d.kids ==> dv[k] == ValueOf(d.kids[k])) && (k in s.kids ==> sv[k] == ValueOf(s.kids[k]));
      if Meet(d, s, k) {
        MergedValue(d.kids[k], s.kids[k]);
      }
    }
    assert ValueOf(m).entries == Merge(dv, sv);
  }

  // ---------------------------------------------------------------------------
  // Key by key
  // ---------------------------------------------------------------------------

  /** The destination after the keys in `done` have been merged. */
  function Partial(d: Shape, s: Shape, done: set<string>): (t: Shape)
    requires d.Tree? && s.Tree?
    ensures t.Tree? && t.obj == d.obj
  {
    Tree(d.obj, map k | k in d.kids.Keys + (s.kids.Keys * done) :: if k in done then MergedKid(d, s, k) else d.kids[k])
  }

  lemma PartialEnds(d: Shape, s: Shape)
    requires d.Tree? && s.Tree?
    ensures Partial(d, s, {}) == d
    ensures Partial(d, s, s.kids.Keys) == Merged(d, s)
  {
    assert Partial(d, s, {}).kids == d.kids;
    assert Partial(d, s, s.kids.Keys).kids == Merged(d, s).kids;
  }

  lemma PartialStep(d: Shape, s: Shape, done: set<string>, k: string)
    requires d.Tree? && s.Tree? && k in s.kids
    ensures Partial(d, s, done + {k}) == Tree(d.obj, Partial(d, s, done).kids[k := MergedKid(d, s, k)])
  {
  }

  /** Whatever hangs elsewhere in a partly merged tree is none of what merging under `k`
      writes. */
  lemma OthersAreSeparate(d: Shape, s: Shape, done: set<string>, k: string, j: string)
    requires d.Tree? && s.Tree? && Distinct(d) && Objects(d) !! Objects(s)
    requires k in d.kids && j in Partial(d, s, done).kids && j != k
    ensures Objects(Partial(d, s, done).kids[j]) !! Objects(d.kids[k])
  {
    var kid := Partial(d, s, done).kids[j];
    assert Objects(d.kids[k]) <= Objects(d);
    if j in done && j in s.kids {
      assert Objects(s.kids[j]) <= Objects(s);
      if Meet(d, s, j) {
        MergedObjects(d.kids[j], s.kids[j]);
      }
    }
  }

  // ---------------------------------------------------------------------------
  // The merge
  // ---------------------------------------------------------------------------

  /** For a destination that is a tree and shares nothing with the source. The frame is
      the footprint theorem: nothing but `Written` changes, in particular not the source. */
  method MergeMap(dst: ConfigMap, src: ConfigMap, ghost d: Shape, ghost s: Shape, ghost all: set<ConfigMap>)
    requires d.Tree? && s.Tree? && d.obj == dst && s.obj == src
    requires Distinct(d) && Objects(d) !! Objects(s) && Objects(d) + Objects(s) <= all
    requires Holds(d, Snapshot(all)) && Holds(s, Snapshot(all))
    modifies Written(d, s)
    ensures Holds(Merged(d, s), Snapshot(all)) && Holds(s, Snapshot(all))
    decreases s
  {
    hide Holds, Partial, Merged, Written, Distinct, Objects;
    PartialEnds(d, s);
    RootsBelongToTree(d, s);
    Known(s, Snapshot(all));
    assert src.entries.Keys == s.kids.Keys;
    hide Snapshot;
    var todo := src.entries.Keys;
    ghost var done: set<string> := {};
    while todo != {}
      invariant done + todo == s.kids.Keys && done !! todo
      invariant Holds(Partial(d, s, done), Snapshot(all)) && Holds(s, Snapshot(all))
      decreases |todo|
    {
      var key :| key in todo;
      MergeKey(dst, src, d, s, all, done, key);
      todo := todo - {key};
      done := done + {key};
    }
    assert done == s.kids.Keys;
  }

  /** The body of the loop over the source's entries. */
  method MergeKey(dst: ConfigMap, src: ConfigMap, ghost d: Shape, ghost s: Shape, ghost all: set<ConfigMap>,
                  ghost done: set<string>, key: string)
    requires d.Tree? && s.Tree? && d.obj == dst && s.obj == src
    requires Distinct(d) && Objects(d) !! Objects(s) && Objects(d) + Objects(s) <= all
    requires Holds(Partial(d, s, done), Snapshot(all)) && Holds(s, Snapshot(all))
    requires key in s.kids && key !in done
    modifies Written(d, s)
    ensures Holds(Partial(d, s, done + {key}), Snapshot(all)) && Holds(s, Snapshot(all))
    decreases s, 0
  {
    ghost var before := Snapshot(all);
    RootsBelongToTree(d, s);
    PartialAt(d, s, done, key);
    Known(Partial(d, s, done), before);
    Known(s, before);
    hide Holds, Partial, Merged, Written, Distinct, Objects;
    if key in dst.entries && src.entries[key].Ref? && dst.entries[key].Ref? {
      KidsAreSeparate(d, s, key);
      MergeMap(dst.entries[key].nested, src.entries[key].nested, d.kids[key], s.kids[key], all);
      AfterNestedMerge(d, s, done, key, before, Snapshot(all));
    } else {
      dst.entries := dst.entries[key := src.entries[key]];
      AfterStore(d, s, done, key, before, Snapshot(all));
    }
  }

  lemma RootsBelongToTree(d: Shape, s: Shape)
    requires d.Tree? && s.Tree?
    ensures d.obj in Objects(d) && s.obj in Objects(s)
  {
  }

  lemma Known(t: Shape, h: Heap)
    requires t.Tree? && Holds(t, h)
    ensures t.obj in h && h[t.obj].Keys == t.kids.Keys
    ensures forall k :: k in t.kids ==> h[t.obj][k] == ItemOf(t.kids[k]) && Holds(t.kids[k], h)
  {
  }

  lemma PartialAt(d: Shape, s: Shape, done: set<string>, k: string)
    requires d.Tree? && s.Tree? && k in s.kids && k !in done
    ensures k in Partial(d, s, done).kids <==> k in d.kids
    ensures k in d.kids ==> Partial(d, s, done).kids[k] == d.kids[k]
  {
  }

  lemma KidObjects(t: Shape, k: string)
    requires t.Tree? && k in t.kids
    ensures Objects(t.kids[k]) <= Objects(t)
  {
  }

  lemma WrittenUnderKey(d: Shape, s: Shape, k: string)
    requires d.Tree? && s.Tree? && k in d.kids && Meet(d, s, k)
    ensures Written(d.kids[k], s.kids[k]) <= Written(d, s)
  {
    hide Objects, Written;
    assert WrittenBelow(d, s) <= Written(d, s) by {
      WrittenSplits(d, s);
    }
  }

  lemma WrittenSplits(d: Shape, s: Shape)
    requires d.Tree? && s.Tree?
    ensures Written(d, s) == {d.obj} + WrittenBelow(d, s)
  {
    hide WrittenBelow;
  }

  /** Merging under `k` writes neither the destination's own map nor anything of the source. */
  lemma KidsAreSeparate(d: Shape, s: Shape, k: string)
    requires d.Tree? && s.Tree? && Distinct(d) && Objects(d) !! Objects(s) && Meet(d, s, k)
    ensures Distinct(d.kids[k]) && Objects(d.kids[k]) !! Objects(s.kids[k])
    ensures Objects(d.kids[k]) <= Objects(d) && Objects(s.kids[k]) <= Objects(s)
    ensures Written(d.kids[k], s.kids[k]) <= Written(d, s)
    ensures Written(d.kids[k], s.kids[k]) <= Objects(d.kids[k])
    ensures d.obj !in Objects(d.kids[k])
  {
    hide Objects, Written, WrittenBelow;
    KidObjects(d, k);
    KidObjects(s, k);
    WrittenUnderKey(d, s, k);
    WrittenAreDestinations(d.kids[k], s.kids[k]);
  }

  lemma RootNotBelow(d: Shape, s: Shape, done: set<string>, j: string)
    requires d.Tree? && s.Tree? && Distinct(d) && Objects(d) !! Objects(s)
    requires j in Partial(d, s, done).kids
    ensures d.obj !in Objects(Partial(d, s, done).kids[j])
  {
    if j in done && j in s.kids {
      assert Objects(s.kids[j]) <= Objects(s);
      if Meet(d, s, j) {
        MergedObjects(d.kids[j], s.kids[j]);
      }
    }
  }

  /** A description with one entry put in place. */
  lemma HoldsWithEntry(t: Shape, k: string, kid: Shape, h: Heap)
    requires t.Tree? && t.obj in h && h[t.obj].Keys == t.kids.Keys + {k}
    requires forall j :: j in t.kids && j != k ==> h[t.obj][j] == ItemOf(t.kids[j]) && Holds(t.kids[j], h)
    requires h[t.obj][k] == ItemOf(kid) && Holds(kid, h)
    ensures Holds(Tree(t.obj, t.kids[k := kid]), h)
  {
  }

  lemma OthersStillHold(d: Shape, s: Shape, done: set<string>, k: string, before: Heap, after: Heap)
    requires d.Tree? && s.Tree? && Distinct(d) && Objects(d) !! Objects(s) && k in d.kids
    requires Holds(Partial(d, s, done), before)
    requires after.Keys == before.Keys
    requires forall o :: o in before && o !in Objects(d.kids[k]) ==> after[o] == before[o]
    ensures var p := Partial(d, s, done); forall j :: j in p.kids && j != k ==> Holds(p.kids[j], after)
  {
    var p := Partial(d, s, done);
    forall j | j in p.kids && j != k
      ensures Holds(p.kids[j], after)
    {
      OthersAreSeparate(d, s, done, k, j);
      Known(p, before);
      hide Holds, Partial, Objects, Distinct;
      StillHolds(p.kids[j], before, after);
    }
  }

  /** The other maps are as before, and the one under `k` is merged. */
  lemma AfterNestedMerge(d: Shape, s: Shape, done: set<string>, k: string, before: Heap, after: Heap)
    requires d.Tree? && s.Tree? && Distinct(d) && Objects(d) !! Objects(s)
    requires Meet(d, s, k) && k !in done
    requires Holds(Partial(d, s, done), before) && Holds(s, before)
    requires after.Keys == before.Keys
    requires forall o :: o in before && o !in Written(d.kids[k], s.kids[k]) ==> after[o] == before[o]
    requires Holds(Merged(d.kids[k], s.kids[k]), after)
    ensures Holds(Partial(d, s, done + {k}), after) && Holds(s, after)
  {
    hide Holds, Partial, Merged, Written, Distinct, Objects;
    var p := Partial(d, s, done);
    KidsAreSeparate(d, s, k);
    PartialStep(d, s, done, k);
    PartialAt(d, s, done, k);
    RootsBelongToTree(d, s);
    OthersStillHold(d, s, done, k, before, after);
    Known(p, before);
    StillHolds(s, before, after);
    HoldsWithEntry(p, k, Merged(d.kids[k], s.kids[k]), after);
  }

  /** Storing an entry in the destination itself touches nothing below it. */
  lemma KidsStillHold(d: Shape, s: Shape, done: set<string>, before: Heap, after: Heap)
    requires d.Tree? && s.Tree? && Distinct(d) && Objects(d) !! Objects(s)
    requires Holds(Partial(d, s, done), before)
    requires forall o :: o in before && o != d.obj ==> o in after && after[o] == before[o]
    ensures var p := Partial(d, s, done); p.Tree? && forall j :: j in p.kids ==> Holds(p.kids[j], after)
  {
    var p := Partial(d, s, done);
    Known(p, before);
    forall j | j in p.kids
      ensures Holds(p.kids[j], after)
    {
      RootNotBelow(d, s, done, j);
      hide Holds, Partial, Objects, Distinct;
      StillHolds(p.kids[j], before, after);
    }
  }

  lemma AfterStore(d: Shape, s: Shape, done: set<string>, k: string, before: Heap, after: Heap)
    requires d.Tree? && s.Tree? && Distinct(d) && Objects(d) !! Objects(s)
    requires k in s.kids && !Meet(d, s, k) && k !in done
    requires Holds(Partial(d, s, done), before) && Holds(s, before)
    requires after == before[d.obj := before[d.obj][k := ItemOf(s.kids[k])]]
    ensures Holds(Partial(d, s, done + {k}), after) && Holds(s, after)
  {
    var p := Partial(d, s, done);
    PartialStep(d, s, done, k);
    RootsBelongToTree(d, s);
    Known(s, before);
    Known(p, before);
    assert Objects(s.kids[k]) <= Objects(s);
    hide Holds, Partial, Merged, Written, Distinct, Objects;
    KidsStillHold(d, s, done, before, after);
    StillHolds(s, before, after);
    StillHolds(s.kids[k], before, after);
    HoldsWithEntry(p, k, s.kids[k], after);
  }

  // ---------------------------------------------------------------------------
  // Applying a gateway segment
  // ---------------------------------------------------------------------------

  const GATEWAY := "gateway"

  predicate HasGateway(b: Shape) {
    b.Tree? && GATEWAY in b.kids && b.kids[GATEWAY].Tree?
  }

  /** The nested maps of the base configuration's gateway section. */
  function GatewayKids(b: Shape): map<string, Shape> {
    if HasGateway(b) then b.kids[GATEWAY].kids else map[]
  }

  /** What applying a segment writes of the base configuration: the copies are only two
      levels deep, so deeper maps met by maps of the segment are the base's own. */
  function Leaks(b: Shape, s: Shape): set<ConfigMap>
    requires s.Tree?
  {
    if HasGateway(b) then WrittenBelow(b.kids[GATEWAY], s) else {}
  }

  function LeakedKids(g: Shape, s: Shape): map<string, Shape>
    requires g.Tree? && s.Tree?
  {
    map k | k in g.kids :: if Meet(g, s, k) then Merged(g.kids[k], s.kids[k]) else g.kids[k]
  }

  /** The base configuration afterwards. */
  function BaseAfter(b: Shape, s: Shape): Shape
    requires s.Tree?
  {
    if HasGateway(b) then
      Tree(b.obj, b.kids[GATEWAY := Tree(b.kids[GATEWAY].obj, LeakedKids(b.kids[GATEWAY], s))])
    else b
  }

  lemma LeaksAreDeep(b: Shape, s: Shape)
    requires HasGateway(b) && s.Tree? && Distinct(b)
    ensures var g := b.kids[GATEWAY];
      && WrittenBelow(g, s) <= Objects(g) <= Objects(b)
      && g.obj in Objects(g) && b.obj in Objects(b)
      && g.obj !in WrittenBelow(g, s) && b.obj !in Objects(g)
      && Distinct(g)
      && (forall k :: k in b.kids && k != GATEWAY ==> Objects(b.kids[k]) !! Objects(g))
  {
    var g := b.kids[GATEWAY];
    WrittenAreDestinations(g, s);
    forall k, o | k in g.kids && Meet(g, s, k) && o in Written(g.kids[k], s.kids[k])
      ensures o != g.obj
    {
      WrittenAreDestinations(g.kids[k], s.kids[k]);
    }
  }

  lemma CopyIsDistinct(m: ConfigMap, g: Shape, s: Shape)
    requires g.Tree? && s.Tree? && Distinct(g) && m !in Objects(g)
    ensures Distinct(Tree(m, g.kids))
    ensures Objects(Tree(m, g.kids)) <= Objects(g) + {m}
    ensures Written(Tree(m, g.kids), s) == WrittenBelow(g, s) + {m}
  {
    forall k | k in g.kids
      ensures m !in Objects(g.kids[k])
    {
      assert Objects(g.kids[k]) <= Objects(g);
    }
  }

  lemma KidsNotLeakedTo(g: Shape, s: Shape, k: string)
    requires g.Tree? && s.Tree? && Distinct(g) && k in g.kids && !Meet(g, s, k)
    ensures Objects(g.kids[k]) !! WrittenBelow(g, s)
  {
    forall j, o | j in g.kids && Meet(g, s, j) && o in Written(g.kids[j], s.kids[j])
      ensures o !in Objects(g.kids[k])
    {
      WrittenAreDestinations(g.kids[j], s.kids[j]);
    }
  }

  /** Merging into a copy of the gateway section leaves the section itself with the same
      entries, and its nested maps merged wherever the segment has a map. */
  lemma GatewayAfter(m: ConfigMap, g: Shape, s: Shape, before: Heap, after: Heap)
    requires g.Tree? && s.Tree? && Distinct(g) && m !in Objects(g)
    requires Holds(g, before) && Holds(Merged(Tree(m, g.kids), s), after)
    requires forall o :: o in before && o !in WrittenBelow(g, s) ==> o in after && after[o] == before[o]
    requires g.obj !in WrittenBelow(g, s)
    ensures Holds(Tree(g.obj, LeakedKids(g, s)), after)
  {
    hide Holds, Objects, Written, WrittenBelow;
    var merged, left := Merged(Tree(m, g.kids), s), LeakedKids(g, s);
    Known(g, before);
    Known(merged, after);
    forall k | k in g.kids
      ensures Holds(left[k], after) && ItemOf(left[k]) == ItemOf(g.kids[k])
    {
      if Meet(g, s, k) {
        assert merged.kids[k] == Merged(g.kids[k], s.kids[k]);
      } else {
        KidsNotLeakedTo(g, s, k);
        StillHolds(g.kids[k], before, after);
      }
    }
    HoldsFromKids(Tree(g.obj, left), after);
  }

  lemma HoldsFromKids(t: Shape, h: Heap)
    requires t.Tree? && t.obj in h && h[t.obj].Keys == t.kids.Keys
    requires forall k :: k in t.kids ==> h[t.obj][k] == ItemOf(t.kids[k]) && Holds(t.kids[k], h)
    ensures Holds(t, h)
  {
  }

  /** The copy of the gateway section that the segment is merged into. */
  function Copy(m: ConfigMap, b: Shape): (t: Shape)
    ensures t.Tree? && t.obj == m
  {
    Tree(m, GatewayKids(b))
  }

  lemma CopyIsReady(m: ConfigMap, b: Shape, s: Shape, all: set<ConfigMap>, before: Heap, now: Heap)
    requires b.Tree? && s.Tree? && Distinct(b) && Objects(b) !! Objects(s) && Objects(b) + Objects(s) <= all
    requires m !in all && Holds(b, before) && before.Keys == all
    requires m in now && (forall o :: o in before ==> o in now && now[o] == before[o])
    requires now[m].Keys == GatewayKids(b).Keys
    requires forall k :: k in GatewayKids(b) ==> now[m][k] == ItemOf(GatewayKids(b)[k])
    ensures Distinct(Copy(m, b)) && Objects(Copy(m, b)) !! Objects(s) && Objects(Copy(m, b)) <= all + {m}
    ensures Holds(Copy(m, b), now)
    ensures Written(Copy(m, b), s) == Leaks(b, s) + {m}
  {
    if HasGateway(b) {
      var g := b.kids[GATEWAY];
      LeaksAreDeep(b, s);
      CopyIsDistinct(m, g, s);
      Known(b, before);
      Known(g, before);
      forall k | k in g.kids
        ensures Holds(g.kids[k], now)
      {
        StillHolds(g.kids[k], before, now);
      }
    } else {
      assert Copy(m, b).kids == map[];
    }
  }

  lemma BaseHoldsAfter(m: ConfigMap, b: Shape, s: Shape, before: Heap, after: Heap)
    requires b.Tree? && s.Tree? && Distinct(b) && m !in Objects(b)
    requires Holds(b, before) && Holds(Merged(Copy(m, b), s), after)
    requires forall o :: o in before && o !in Leaks(b, s) ==> o in after && after[o] == before[o]
    ensures Holds(BaseAfter(b, s), after)
    ensures HasGateway(b) ==> b.obj !in Leaks(b, s) && b.kids[GATEWAY].obj !in Leaks(b, s)
  {
    Known(b, before);
    if HasGateway(b) {
      var g := b.kids[GATEWAY];
      LeaksAreDeep(b, s);
      GatewayAfter(m, g, s, before, after);
      forall k | k in b.kids && k != GATEWAY
        ensures Holds(b.kids[k], after)
      {
        hide Holds, WrittenBelow, Objects;
        StillHolds(b.kids[k], before, after);
      }
      HoldsWithEntry(b, GATEWAY, Tree(g.obj, LeakedKids(g, s)), after);
    } else {
      hide Holds;
      StillHolds(b, before, after);
    }
  }

  method MergeIntoCopy(gateway: ConfigMap, segment: ConfigMap,
                       ghost b: Shape, ghost s: Shape, ghost all: set<ConfigMap>)
    requires b.Tree? && s.Tree? && s.obj == segment
    requires Distinct(b) && Objects(b) !! Objects(s) && Objects(b) + Objects(s) <= all && gateway !in all
    requires Holds(b, Snapshot(all)) && Holds(s, Snapshot(all))
    requires gateway.entries.Keys == GatewayKids(b).Keys
    requires forall k :: k in GatewayKids(b) ==> gateway.entries[k] == ItemOf(GatewayKids(b)[k])
    modifies gateway, Leaks(b, s)
    ensures Holds(BaseAfter(b, s), Snapshot(all)) && Holds(s, Snapshot(all))
    ensures Holds(Merged(Copy(gateway, b), s), Snapshot(all + {gateway}))
    ensures HasGateway(b) ==> b.obj !in Leaks(b, s) && b.kids[GATEWAY].obj !in Leaks(b, s)
  {
    hide Holds, Merged, Distinct, Objects, Written, Leaks, BaseAfter, Copy, GatewayKids;
    ghost var before, now := Snapshot(all), Snapshot(all + {gateway});
    StillHolds(s, before, now);
    CopyIsReady(gateway, b, s, all, before, now);
    MergeMap(gateway, segment, Copy(gateway, b), s, all + {gateway});
    ghost var after := Snapshot(all + {gateway});
    BaseHoldsAfter(gateway, b, s, before, after);
    BaseObjects(b, s);
    StillHolds(BaseAfter(b, s), after, Snapshot(all));
    StillHolds(s, after, Snapshot(all));
  }

  lemma LeakedObjects(g: Shape, s: Shape)
    requires g.Tree? && s.Tree?
    ensures Objects(Tree(g.obj, LeakedKids(g, s))) <= Objects(g) + Objects(s)
  {
    var g' := Tree(g.obj, LeakedKids(g, s));
    forall k, o | k in g'.kids && o in Objects(g'.kids[k])
      ensures o in Objects(g) + Objects(s)
    {
      if Meet(g, s, k) {
        MergedObjects(g.kids[k], s.kids[k]);
        assert Objects(g.kids[k]) <= Objects(g) && Objects(s.kids[k]) <= Objects(s);
      }
    }
  }

  lemma ReplacedObjects(b: Shape, k: string, kid: Shape)
    requires b.Tree?
    ensures Objects(Tree(b.obj, b.kids[k := kid])) <= Objects(b) + Objects(kid)
  {
  }

  lemma BaseObjects(b: Shape, s: Shape)
    requires b.Tree? && s.Tree?
    ensures Objects(BaseAfter(b, s)) <= Objects(b) + Objects(s)
  {
    if HasGateway(b) {
      var g := b.kids[GATEWAY];
      assert Objects(g) <= Objects(b);
      hide Objects, LeakedKids;
      LeakedObjects(g, s);
      ReplacedObjects(b, GATEWAY, Tree(g.obj, LeakedKids(g, s)));
    }
  }

  /** Base's own map and its gateway section's own map. */
  function TopLevels(b: Shape): set<ConfigMap>
    requires b.Tree?
  {
    {b.obj} + if HasGateway(b) then {b.kids[GATEWAY].obj} else {}
  }

  /** Neither base's own map nor its gateway section's own map is among what is written. */
  lemma TopLevelsNotLeaked(b: Shape, s: Shape)
    requires b.Tree? && s.Tree? && Distinct(b)
    ensures Leaks(b, s) <= Objects(b)
    ensures forall o :: o in TopLevels(b) ==> o in Objects(b) && o !in Leaks(b, s)
  {
    if HasGateway(b) {
      LeaksAreDeep(b, s);
    }
  }

  /** The branch for a segment that has something to apply. */
  method MergeSegment(base: ConfigMap, segment: ConfigMap, ghost b: Shape, ghost s: Shape, ghost all: set<ConfigMap>)
    returns (merged: ConfigMap, gateway: ConfigMap)
    requires b.Tree? && s.Tree? && b.obj == base && s.obj == segment
    requires Distinct(b) && Objects(b) !! Objects(s) && Objects(b) + Objects(s) <= all
    requires Holds(b, Snapshot(all)) && Holds(s, Snapshot(all))
    modifies Leaks(b, s)
    ensures Holds(BaseAfter(b, s), Snapshot(all)) && Holds(s, Snapshot(all))
    ensures fresh(merged) && fresh(gateway)
    ensures merged.entries == old(base.entries)[GATEWAY := Ref(gateway)]
    ensures Holds(Merged(Copy(gateway, b), s), Snapshot(all + {gateway}))
  {
    TopLevelsNotLeaked(b, s);
    RootsBelongToTree(b, s);
    hide *;
    merged, gateway := CopyTopLevels(base, b, all);
    MergeIntoCopy(gateway, segment, b, s, all);
    merged.entries := merged.entries[GATEWAY := Ref(gateway)];
  }

  /** Applying a segment writes of what exists only `Leaks`, and never the segment. The
      configuration that is then put to use (`merged`, unless base is empty) holds base's
      sections and, as its gateway section, base's with the segment merged over it. */
  method ApplyGatewaySegment(base: ConfigMap, segment: ConfigMap,
                             ghost b: Shape, ghost s: Shape, ghost all: set<ConfigMap>)
    returns (merged: ConfigMap?, gateway: ConfigMap?)
    requires b.Tree? && s.Tree? && b.obj == base && s.obj == segment
    requires Distinct(b) && Objects(b) !! Objects(s) && Objects(b) + Objects(s) <= all
    requires Holds(b, Snapshot(all)) && Holds(s, Snapshot(all))
    modifies Leaks(b, s)
    ensures Holds(BaseAfter(b, s), Snapshot(all)) && Holds(s, Snapshot(all))
    ensures merged == null <==> b.kids == map[]
    ensures merged != null ==> fresh(merged)
    ensures gateway == null <==> b.kids == map[] || s.kids == map[]
    ensures merged != null && gateway == null ==> merged.entries == old(base.entries)
    ensures gateway != null ==> merged.entries == old(base.entries)["gateway" := Ref(gateway)]
    ensures gateway != null ==> Holds(Merged(Copy(gateway, b), s), Snapshot(all + {gateway}))
  {
    TopLevelsNotLeaked(b, s);
    RootsBelongToTree(b, s);
    EmptyKnown(b, Snapshot(all));
    EmptyKnown(s, Snapshot(all));
    hide *;
    if |base.entries| == 0 {
      NothingToApply(b, s);
      return null, null;
    }
    if |segment.entries| == 0 {
      NothingToApply(b, s);
      merged := new ConfigMap(base.entries);
      return merged, null;
    }
    merged, gateway := MergeSegment(base, segment, b, s, all);
  }

  /** Base described afterwards has the entries it had before in its own map and in its
      gateway section's own map: what `ApplyGatewaySegment` ensures never changes these two. */
  lemma TopLevelsUnchanged(b: Shape, s: Shape, before: Heap, after: Heap)
    requires b.Tree? && s.Tree? && Holds(b, before) && Holds(BaseAfter(b, s), after)
    ensures forall o :: o in TopLevels(b) ==> o in before && o in after && after[o] == before[o]
  {
    var b' := BaseAfter(b, s);
    assert after[b.obj] == before[b.obj] by {
      assert forall k :: k in b.kids ==> ItemOf(b'.kids[k]) == ItemOf(b.kids[k]);
    }
    if HasGateway(b) {
      var g, g' := b.kids[GATEWAY], b'.kids[GATEWAY];
      assert forall k :: k in g.kids ==> ItemOf(g'.kids[k]) == ItemOf(g.kids[k]);
      assert after[g.obj] == before[g.obj];
    }
  }

  lemma NothingToApply(b: Shape, s: Shape)
    requires b.Tree? && s.Tree? && (b.kids == map[] || s.kids == map[])
    ensures BaseAfter(b, s) == b
  {
    if HasGateway(b) {
      var g := b.kids[GATEWAY];
      assert LeakedKids(g, s) == g.kids;
      assert b.kids[GATEWAY := g] == b.kids;
    }
  }

  method CopyTopLevels(base: ConfigMap, ghost b: Shape, ghost all: set<ConfigMap>)
    returns (merged: ConfigMap, gateway: ConfigMap)
    requires b.Tree? && b.obj == base && base in all
    requires Holds(b, Snapshot(all))
    ensures fresh(merged) && fresh(gateway) && merged != gateway
    ensures merged.entries == base.entries
    ensures gateway.entries.Keys == GatewayKids(b).Keys
    ensures forall k :: k in GatewayKids(b) ==> gateway.entries[k] == ItemOf(GatewayKids(b)[k])
  {
    GatewayKnown(b, Snapshot(all));
    hide Holds, GatewayKids;
    merged := new ConfigMap(base.entries);
    var copied: map<string, Item> := map[];
    if GATEWAY in merged.entries && merged.entries[GATEWAY].Ref? {
      copied := merged.entries[GATEWAY].nested.entries;
    }
    gateway := new ConfigMap(copied);
  }

  lemma EmptyKnown(t: Shape, h: Heap)
    requires t.Tree? && Holds(t, h)
    ensures t.obj in h && (|h[t.obj]| == 0 <==> t.kids == map[])
  {
    assert |h[t.obj]| == |h[t.obj].Keys|;
    if t.kids != map[] {
      assert t.kids.Keys != {};
    }
  }

  lemma GatewayKnown(b: Shape, h: Heap)
    requires b.Tree? && Holds(b, h)
    ensures b.obj in h
    ensures HasGateway(b) <==> GATEWAY in h[b.obj] && h[b.obj][GATEWAY].Ref?
    ensures HasGateway(b) ==>
      var g := b.kids[GATEWAY];
      && h[b.obj][GATEWAY] == Ref(g.obj)
      && g.obj in h && h[g.obj].Keys == GatewayKids(b).Keys
      && forall k :: k in GatewayKids(b) ==> h[g.obj][k] == ItemOf(GatewayKids(b)[k])
    ensures !HasGateway(b) ==> GatewayKids(b) == map[]
  {
  }

  /** A merge of two trees that share nothing is a tree again. */
  lemma {:induction false} MergedDistinct(d: Shape, s: Shape)
    requires d.Tree? && s.Tree? && Distinct(d) && Distinct(s) && Objects(d) !! Objects(s)
    ensures Distinct(Merged(d, s))
    decreases s
  {
    var m := Merged(d, s);
    forall k | k in m.kids
      ensures Distinct(m.kids[k]) && Objects(m.kids[k]) <= UnderKey(d, k) + UnderKey(s, k)
    {
      MergedKidDistinct(d, s, k);
    }
    forall k | k in m.kids
      ensures d.obj !in Objects(m.kids[k])
    {
      KeySeparate(d, s, k);
    }
    forall j, k | j in m.kids && k in m.kids && j != k
      ensures Objects(m.kids[j]) !! Objects(m.kids[k])
    {
      KeysSeparate(d, s, j, k);
    }
  }

  /** The objects below one entry, if there is one. */
  function UnderKey(t: Shape, k: string): set<ConfigMap>
    requires t.Tree?
  {
    if k in t.kids then Objects(t.kids[k]) else {}
  }

  lemma {:induction false} MergedKidDistinct(d: Shape, s: Shape, k: string)
    requires d.Tree? && s.Tree? && Distinct(d) && Distinct(s) && Objects(d) !! Objects(s)
    requires k in d.kids || k in s.kids
    ensures Distinct(MergedKid(d, s, k)) && Objects(MergedKid(d, s, k)) <= UnderKey(d, k) + UnderKey(s, k)
    decreases s, 0
  {
    if k in d.kids && Meet(d, s, k) {
      KidObjects(d, k);
      KidObjects(s, k);
      MergedDistinct(d.kids[k], s.kids[k]);
      MergedObjects(d.kids[k], s.kids[k]);
    }
  }

  lemma KeySeparate(d: Shape, s: Shape, k: string)
    requires d.Tree? && s.Tree? && Distinct(d) && Objects(d) !! Objects(s)
    ensures d.obj !in UnderKey(d, k) + UnderKey(s, k)
  {
    RootsBelongToTree(d, s);
    if k in s.kids {
      KidObjects(s, k);
    }
  }

  lemma KeysSeparate(d: Shape, s: Shape, j: string, k: string)
    requires d.Tree? && s.Tree? && Distinct(d) && Distinct(s) && Objects(d) !! Objects(s) && j != k
    ensures (UnderKey(d, j) + UnderKey(s, j)) !! (UnderKey(d, k) + UnderKey(s, k))
  {
    UnderKeyBelongs(d, j);
    UnderKeyBelongs(d, k);
    UnderKeyBelongs(s, j);
    UnderKeyBelongs(s, k);
    hide Objects;
  }

  lemma UnderKeyBelongs(t: Shape, k: string)
    requires t.Tree?
    ensures UnderKey(t, k) <= Objects(t)
  {
    if k in t.kids {
      KidObjects(t, k);
    }
  }

  lemma LeakedDistinct(g: Shape, s: Shape)
    requires g.Tree? && s.Tree? && Distinct(g) && Distinct(s) && Objects(g) !! Objects(s)
    ensures Distinct(Tree(g.obj, LeakedKids(g, s)))
  {
    var left := LeakedKids(g, s);
    forall k | k in g.kids
      ensures Distinct(left[k]) && Objects(left[k]) <= UnderKey(g, k) + UnderKey(s, k) && g.obj !in Objects(left[k])
    {
      KeySeparate(g, s, k);
      if Meet(g, s, k) {
        KidObjects(g, k);
        KidObjects(s, k);
        MergedDistinct(g.kids[k], s.kids[k]);
        MergedObjects(g.kids[k], s.kids[k]);
      }
    }
    forall j, k | j in g.kids && k in g.kids && j != k
      ensures Objects(left[j]) !! Objects(left[k])
    {
      KeysSeparate(g, s, j, k);
    }
  }

  lemma ReplacedDistinct(b: Shape, k: string, kid: Shape)
    requires b.Tree? && Distinct(b) && Distinct(kid) && b.obj !in Objects(kid)
    requires forall j :: j in b.kids && j != k ==> Objects(b.kids[j]) !! Objects(kid)
    ensures Distinct(Tree(b.obj, b.kids[k := kid]))
  {
  }

  /** Base is a tree again after a segment has been applied, so the next one can be. */
  lemma BaseStaysDistinct(b: Shape, s: Shape)
    requires b.Tree? && s.Tree? && Distinct(b) && Distinct(s) && Objects(b) !! Objects(s)
    ensures Distinct(BaseAfter(b, s)) && Objects(BaseAfter(b, s)) <= Objects(b) + Objects(s)
    ensures BaseAfter(b, s).Tree? && BaseAfter(b, s).obj == b.obj && BaseAfter(b, s).kids.Keys == b.kids.Keys
  {
    BaseObjects(b, s);
    if HasGateway(b) {
      var g := b.kids[GATEWAY];
      var kid := Tree(g.obj, LeakedKids(g, s));
      LeaksAreDeep(b, s);
      LeakedDistinct(g, s);
      LeakedObjects(g, s);
      RootsBelongToTree(b, s);
      forall j | j in b.kids && j != GATEWAY
        ensures Objects(b.kids[j]) !! Objects(kid)
      {
        KidObjects(b, j);
      }
      hide Objects, Distinct, LeakedKids;
      ReplacedDistinct(b, GATEWAY, kid);
    }
  }

  /** The base configuration after several segments, one after the other. */
  function BaseAfterAll(b: Shape, segments: seq<Shape>): (after: Shape)
    requires forall i :: 0 <= i < |segments| ==> segments[i].Tree?
    ensures b.Tree? ==> after.Tree? && after.obj == b.obj && after.kids.Keys == b.kids.Keys
    decreases |segments|
  {
    if segments == [] then b else BaseAfterAll(BaseAfter(b, segments[0]), segments[1..])
  }

  /** Trees that share nothing with base nor with each other, as freshly parsed ones. */
  ghost predicate Separate(b: Shape, segments: seq<Shape>) {
    && (forall i :: 0 <= i < |segments| ==>
          segments[i].Tree? && Distinct(segments[i]) && Objects(segments[i]) !! Objects(b))
    && (forall i, j :: 0 <= i < j < |segments| ==> Objects(segments[i]) !! Objects(segments[j]))
  }

  lemma RestIsSeparate(b: Shape, segments: seq<Shape>)
    requires b.Tree? && Distinct(b) && segments != [] && Separate(b, segments)
    ensures Separate(BaseAfter(b, segments[0]), segments[1..])
  {
    BaseObjects(b, segments[0]);
    hide Objects, Distinct, BaseAfter;
    forall i | 0 <= i < |segments[1..]|
      ensures segments[1..][i].Tree? && Distinct(segments[1..][i])
      ensures Objects(segments[1..][i]) !! Objects(BaseAfter(b, segments[0]))
    {
      assert segments[1..][i] == segments[i + 1];
    }
  }

  ghost predicate AllHold(segments: seq<Shape>, h: Heap) {
    forall i :: 0 <= i < |segments| ==> Holds(segments[i], h)
  }

  lemma OthersHoldAfter(b: Shape, ss: seq<Shape>, before: Heap, after: Heap)
    requires b.Tree? && ss != [] && Separate(b, ss) && AllHold(ss, before)
    requires forall o :: o in before && o !in Objects(b) ==> o in after && after[o] == before[o]
    ensures AllHold(ss[1..], after)
  {
    forall i | 0 <= i < |ss[1..]|
      ensures Holds(ss[1..][i], after)
    {
      assert ss[1..][i] == ss[i + 1];
      hide Holds, Objects, Distinct;
      StillHolds(ss[i + 1], before, after);
    }
  }

  /** A deletion is an empty segment. */
  method Delete(base: ConfigMap, none: ConfigMap, ghost b: Shape, ghost all: set<ConfigMap>)
    returns (merged: ConfigMap?)
    requires b.Tree? && b.obj == base && Distinct(b) && Objects(b) <= all && none !in all && none.entries == map[]
    requires Holds(b, Snapshot(all))
    ensures Holds(b, Snapshot(all))
    ensures merged == null <==> b.kids == map[]
    ensures merged != null ==> fresh(merged) && Holds(Tree(merged, b.kids), Snapshot(all + {merged}))
  {
    EmptyLeaksNothing(b, none);
    ghost var s, more := Tree(none, map[]), all + {none};
    assert Objects(s) == {none};
    StillHolds(b, Snapshot(all), Snapshot(more));
    assert Holds(s, Snapshot(more));
    hide Objects, Holds, Distinct, BaseAfter, Leaks;
    var gateway;
    merged, gateway := ApplyGatewaySegment(base, none, b, s, more);
    if merged != null {
      CopyHolds(merged, b, Snapshot(all), Snapshot(all + {merged}));
    }
  }

  /** A second map object with the same entries. */
  lemma CopyHolds(m: ConfigMap, b: Shape, h: Heap, h': Heap)
    requires b.Tree? && Holds(b, h) && m in h' && m !in h && h'[m] == h[b.obj]
    requires forall o :: o in h ==> o in h' && h'[o] == h[o]
    ensures Holds(Tree(m, b.kids), h')
  {
    forall k | k in b.kids
      ensures Holds(b.kids[k], h')
    {
      StillHolds(b.kids[k], h, h');
    }
  }

  lemma EmptyLeaksNothing(b: Shape, none: ConfigMap)
    requires b.Tree?
    ensures Leaks(b, Tree(none, map[])) == {} && BaseAfter(b, Tree(none, map[])) == b
  {
    NothingToApply(b, Tree(none, map[]));
  }

  /** Segments arriving one after the other on one base, as `ApplyGatewaySegment` is meant to
      be used; the last update is a deletion, which puts a copy of base to use. */
  method ApplyAllThenDelete(base: ConfigMap, segments: seq<ConfigMap>, ghost b: Shape, ghost ss: seq<Shape>,
                            ghost all: set<ConfigMap>)
    returns (merged: ConfigMap?)
    requires b.Tree? && b.obj == base && Distinct(b) && Objects(b) <= all && Separate(b, ss)
    requires |segments| == |ss| && forall i :: 0 <= i < |ss| ==> ss[i].obj == segments[i] && Objects(ss[i]) <= all
    requires Holds(b, Snapshot(all)) && AllHold(ss, Snapshot(all))
    modifies all
    ensures Holds(BaseAfterAll(b, ss), Snapshot(all))
    ensures merged == null <==> b.kids == map[]
    ensures merged != null ==> fresh(merged)
    ensures merged != null ==> Holds(Tree(merged, BaseAfterAll(b, ss).kids), Snapshot(all + {merged}))
    ensures merged != null && AllHarmless(b, ss) ==> ValueOf(Tree(merged, BaseAfterAll(b, ss).kids)) == ValueOf(b)
    decreases |segments|
  {
    forall m: ConfigMap
      ensures AllHarmless(b, ss) ==> ValueOf(Tree(m, BaseAfterAll(b, ss).kids)) == ValueOf(b)
    {
      HarmlessMeansTheFile(m, b, ss);
    }
    if |segments| == 0 {
      var none := new ConfigMap(map[]);
      merged := Delete(base, none, b, all);
      return;
    }
    hide AllHarmless, ValueOf;
    BaseStaysDistinct(b, ss[0]);
    RestIsSeparate(b, ss);
    TopLevelsNotLeaked(b, ss[0]);
    ghost var before := Snapshot(all);
    var used, gateway := ApplyGatewaySegment(base, segments[0], b, ss[0], all);
    OthersHoldAfter(b, ss, before, Snapshot(all));
    hide Objects, Distinct, Holds, BaseAfter, Leaks, Snapshot;
    merged := ApplyAllThenDelete(base, segments[1..], BaseAfter(b, ss[0]), ss[1..], all);
  }

  // ---------------------------------------------------------------------------
  // What applying a segment means for values
  // ---------------------------------------------------------------------------

  function GatewayValue(b: Shape): Entries {
    map k | k in GatewayKids(b) :: ValueOf(GatewayKids(b)[k])
  }

  /** The effective gateway section is base's section with the segment merged over it. */
  lemma AppliedValue(m: ConfigMap, b: Shape, s: Shape)
    requires s.Tree?
    ensures ValueOf(Merged(Copy(m, b), s)) == Node(Merge(GatewayValue(b), ValueOf(s).entries))
  {
    MergedValue(Copy(m, b), s);
    assert ValueOf(Copy(m, b)).entries == GatewayValue(b);
  }

  /** Nothing of base is written unless a nested map of the segment meets a nested map of
      base's gateway section. */
  lemma NoMeetingNoLeak(b: Shape, s: Shape)
    requires s.Tree?
    ensures Leaks(b, s) == {} <==>
      (HasGateway(b) ==> forall k :: k in b.kids[GATEWAY].kids ==> !Meet(b.kids[GATEWAY], s, k))
  {
    if HasGateway(b) {
      var g := b.kids[GATEWAY];
      forall k | k in g.kids && Meet(g, s, k)
        ensures g.kids[k].obj in Leaks(b, s)
      {
        assert g.kids[k].obj in Written(g.kids[k], s.kids[k]);
      }
    }
  }

  /** Base means the same afterwards exactly when every nested map of the segment that meets
      one of base's gateway section only repeats what is there. Otherwise the segment has
      been written into base, and going back to base alone does not undo it. */
  lemma {:induction false} BaseUnchangedIff(b: Shape, s: Shape)
    requires s.Tree? && HasGateway(b)
    ensures var g := b.kids[GATEWAY];
            ValueOf(BaseAfter(b, s)) == ValueOf(b) <==>
            forall k :: k in g.kids && Meet(g, s, k) ==> Covered(ValueOf(g.kids[k]).entries, ValueOf(s.kids[k]).entries)
  {
    var g := b.kids[GATEWAY];
    var g' := Tree(g.obj, LeakedKids(g, s));
    forall k | k in g.kids
      ensures ValueOf(g'.kids[k]) == ValueOf(g.kids[k]) <==>
        (Meet(g, s, k) ==> Covered(ValueOf(g.kids[k]).entries, ValueOf(s.kids[k]).entries))
    {
      if Meet(g, s, k) {
        MergedValue(g.kids[k], s.kids[k]);
        MergeChangesNothingIff(ValueOf(g.kids[k]).entries, ValueOf(s.kids[k]).entries);
      }
    }
    SameKidsSameValue(g, g');
    SameEntrySameValue(b, g');
  }

  lemma SameKidsSameValue(g: Shape, g': Shape)
    requires g.Tree? && g'.Tree? && g.kids.Keys == g'.kids.Keys
    ensures ValueOf(g) == ValueOf(g') <==> forall k :: k in g.kids ==> ValueOf(g.kids[k]) == ValueOf(g'.kids[k])
  {
    var m, m' := ValueOf(g).entries, ValueOf(g').entries;
    assert m.Keys == g.kids.Keys && m'.Keys == g'.kids.Keys;
    assert forall k :: k in g.kids ==> m[k] == ValueOf(g.kids[k]) && m'[k] == ValueOf(g'.kids[k]);
    hide ValueOf;
    assert m == m' <==> forall k :: k in g.kids ==> m[k] == m'[k];
  }

  lemma SameEntrySameValue(b: Shape, g': Shape)
    requires HasGateway(b)
    ensures ValueOf(Tree(b.obj, b.kids[GATEWAY := g'])) == ValueOf(b) <==> ValueOf(g') == ValueOf(b.kids[GATEWAY])
  {
    SameKidsSameValue(b, Tree(b.obj, b.kids[GATEWAY := g']));
  }

  // ---------------------------------------------------------------------------
  // Falling back after any sequence of segments
  // ---------------------------------------------------------------------------

  /** A copy of base, which a deletion puts to use, means what base means at that time. */
  lemma CopyMeansTheSame(m: ConfigMap, b: Shape)
    requires b.Tree?
    ensures ValueOf(Tree(m, b.kids)) == ValueOf(b)
  {
    SameKidsSameValue(b, Tree(m, b.kids));
  }

  /** Every nested map of the segment that meets one of base's gateway section only repeats
      what is there. */
  predicate Harmless(b: Shape, s: Shape)
    requires s.Tree?
  {
    HasGateway(b) ==>
      var g := b.kids[GATEWAY];
      forall k :: k in g.kids && Meet(g, s, k) ==> Covered(ValueOf(g.kids[k]).entries, ValueOf(s.kids[k]).entries)
  }

  lemma UnchangedIffHarmless(b: Shape, s: Shape)
    requires s.Tree?
    ensures ValueOf(BaseAfter(b, s)) == ValueOf(b) <==> Harmless(b, s)
  {
    if HasGateway(b) {
      BaseUnchangedIff(b, s);
    }
  }

  lemma KidValues(t: Shape)
    requires t.Tree?
    ensures ValueOf(t).Node? && ValueOf(t).entries.Keys == t.kids.Keys
    ensures forall k :: k in t.kids ==> ValueOf(t).entries[k] == ValueOf(t.kids[k])
  {
  }

  lemma SameValueSameHarm(b: Shape, b': Shape, s: Shape)
    requires b.Tree? && b'.Tree? && s.Tree? && ValueOf(b) == ValueOf(b')
    ensures Harmless(b, s) <==> Harmless(b', s)
  {
    KidValues(b);
    KidValues(b');
    assert GATEWAY in b.kids ==> ValueOf(b.kids[GATEWAY]) == ValueOf(b'.kids[GATEWAY]);
    assert HasGateway(b) <==> HasGateway(b');
    if HasGateway(b) {
      var g, g' := b.kids[GATEWAY], b'.kids[GATEWAY];
      KidValues(g);
      KidValues(g');
      forall k | k in g.kids
        ensures k in g'.kids && ValueOf(g.kids[k]) == ValueOf(g'.kids[k]) && (Meet(g, s, k) <==> Meet(g', s, k))
      {
      }
    }
  }

  /** Whenever the sequence is broken off, base means `v`. */
  ghost predicate Means(b: Shape, segments: seq<Shape>, v: Value)
    requires forall i :: 0 <= i < |segments| ==> segments[i].Tree?
  {
    forall n :: 0 <= n <= |segments| ==> ValueOf(BaseAfterAll(b, segments[..n])) == v
  }

  ghost predicate AllHarmless(b: Shape, segments: seq<Shape>)
    requires forall i :: 0 <= i < |segments| ==> segments[i].Tree?
  {
    forall i :: 0 <= i < |segments| ==> Harmless(b, segments[i])
  }

  lemma MeansFirstAndRest(b: Shape, segments: seq<Shape>, v: Value)
    requires segments != [] && forall i :: 0 <= i < |segments| ==> segments[i].Tree?
    ensures Means(b, segments, v) <==> ValueOf(b) == v && Means(BaseAfter(b, segments[0]), segments[1..], v)
  {
    hide ValueOf, BaseAfter;
    var b', rest := BaseAfter(b, segments[0]), segments[1..];
    assert BaseAfterAll(b, segments[..0]) == b;
    forall n | 0 <= n <= |rest|
      ensures BaseAfterAll(b, segments[..n + 1]) == BaseAfterAll(b', rest[..n])
    {
      assert segments[..n + 1][1..] == rest[..n];
    }
    if ValueOf(b) == v && Means(b', rest, v) {
      forall n | 0 <= n <= |segments|
        ensures ValueOf(BaseAfterAll(b, segments[..n])) == v
      {
        if n > 0 {
          assert ValueOf(BaseAfterAll(b', rest[..n - 1])) == v;
        }
      }
    }
  }

  lemma HarmlessFirstAndRest(b: Shape, segments: seq<Shape>)
    requires segments != [] && forall i :: 0 <= i < |segments| ==> segments[i].Tree?
    ensures AllHarmless(b, segments) <==> Harmless(b, segments[0]) && AllHarmless(b, segments[1..])
  {
    hide Harmless;
    if Harmless(b, segments[0]) && AllHarmless(b, segments[1..]) {
      forall i | 0 <= i < |segments|
        ensures Harmless(b, segments[i])
      {
        assert i > 0 ==> segments[i] == segments[1..][i - 1];
      }
    }
  }

  /** A deletion falls back to the values of the file, at whatever point of the sequence it
      comes, exactly if no segment of the sequence does harm to those values. */
  lemma {:induction false} EveryDeletionFallsBackIff(b: Shape, segments: seq<Shape>)
    requires b.Tree? && forall i :: 0 <= i < |segments| ==> segments[i].Tree?
    ensures Means(b, segments, ValueOf(b)) <==> AllHarmless(b, segments)
    decreases |segments|
  {
    if segments == [] {
      assert segments[..0] == [];
    } else {
      var b', rest := BaseAfter(b, segments[0]), segments[1..];
      UnchangedIffHarmless(b, segments[0]);
      MeansFirstAndRest(b, segments, ValueOf(b));
      HarmlessFirstAndRest(b, segments);
      EveryDeletionFallsBackIff(b', rest);
      assert Means(b', rest, ValueOf(b)) ==> ValueOf(b') == ValueOf(b) by {
        assert BaseAfterAll(b', rest[..0]) == b';
      }
      if ValueOf(b') == ValueOf(b) {
        forall i | 0 <= i < |rest|
          ensures Harmless(b, rest[i]) <==> Harmless(b', rest[i])
        {
          SameValueSameHarm(b, b', rest[i]);
        }
      }
    }
  }

  /** Whenever the sequence is broken off by a deletion, the copy of base it puts to use
      means `v`. */
  ghost predicate DeletionsMean(m: ConfigMap, b: Shape, segments: seq<Shape>, v: Value)
    requires b.Tree? && forall i :: 0 <= i < |segments| ==> segments[i].Tree?
  {
    forall n :: 0 <= n <= |segments| ==> ValueOf(Tree(m, BaseAfterAll(b, segments[..n]).kids)) == v
  }

  lemma DeletionsMeanWhatBaseMeans(m: ConfigMap, b: Shape, segments: seq<Shape>, v: Value)
    requires b.Tree? && forall i :: 0 <= i < |segments| ==> segments[i].Tree?
    ensures DeletionsMean(m, b, segments, v) <==> Means(b, segments, v)
  {
    forall n | 0 <= n <= |segments|
      ensures ValueOf(Tree(m, BaseAfterAll(b, segments[..n]).kids)) == ValueOf(BaseAfterAll(b, segments[..n]))
    {
      CopyMeansTheSame(m, BaseAfterAll(b, segments[..n]));
    }
    hide ValueOf, BaseAfterAll;
    if Means(b, segments, v) {
      assert DeletionsMean(m, b, segments, v);
    }
  }

  /** The configurations that deletions put to use all mean the values of the file exactly if
      no segment does harm to those values. */
  lemma DeletionsMeanTheFileIff(m: ConfigMap, b: Shape, segments: seq<Shape>)
    requires b.Tree? && forall i :: 0 <= i < |segments| ==> segments[i].Tree?
    ensures DeletionsMean(m, b, segments, ValueOf(b)) <==> AllHarmless(b, segments)
  {
    hide DeletionsMean, Means, AllHarmless, ValueOf;
    EveryDeletionFallsBackIff(b, segments);
    DeletionsMeanWhatBaseMeans(m, b, segments, ValueOf(b));
  }

  lemma HarmlessMeansTheFile(m: ConfigMap, b: Shape, segments: seq<Shape>)
    requires b.Tree? && forall i :: 0 <= i < |segments| ==> segments[i].Tree?
    ensures AllHarmless(b, segments) ==> ValueOf(Tree(m, BaseAfterAll(b, segments).kids)) == ValueOf(b)
  {
    DeletionsMeanTheFileIff(m, b, segments);
    assert segments[..|segments|] == segments;
  }

  /** The segment's nested maps under one name, in order. */
  function MapsAt(segments: seq<Shape>, k: string): seq<Entries>
    requires forall i :: 0 <= i < |segments| ==> segments[i].Tree?
  {
    if segments == [] then []
    else
      var s := segments[0];
      (if k in s.kids && s.kids[k].Tree? then [ValueOf(s.kids[k]).entries] else []) + MapsAt(segments[1..], k)
  }

  function MergeAll(dst: Entries, srcs: seq<Entries>): Entries
    decreases |srcs|
  {
    if srcs == [] then dst else MergeAll(Merge(dst, srcs[0]), srcs[1..])
  }

  /** What a nested map of base's gateway section means after the segments. */
  function KidAfterAll(kid: Shape, segments: seq<Shape>, k: string): Value
    requires forall i :: 0 <= i < |segments| ==> segments[i].Tree?
  {
    if kid.Tree? then Node(MergeAll(ValueOf(kid).entries, MapsAt(segments, k))) else ValueOf(kid)
  }

  lemma KidAfterOneMore(g: Shape, segments: seq<Shape>, k: string)
    requires g.Tree? && k in g.kids && segments != [] && forall i :: 0 <= i < |segments| ==> segments[i].Tree?
    ensures KidAfterAll(g.kids[k], segments, k) == KidAfterAll(LeakedKids(g, segments[0])[k], segments[1..], k)
  {
    var kid, rest := g.kids[k], MapsAt(segments[1..], k);
    if Meet(g, segments[0], k) {
      MergedValue(kid, segments[0].kids[k]);
      var first := ValueOf(segments[0].kids[k]).entries;
      assert MapsAt(segments, k) == [first] + rest;
      assert ([first] + rest)[1..] == rest;
      assert MergeAll(ValueOf(kid).entries, [first] + rest) == MergeAll(Merge(ValueOf(kid).entries, first), rest);
    } else if kid.Tree? {
      assert MapsAt(segments, k) == [] + rest == rest;
    }
  }

  /** After any sequence of segments: base's other sections are as before, and of its gateway
      section each nested map has been merged with the segments' maps under its name. */
  lemma {:induction false} BaseMeansAfterAll(b: Shape, segments: seq<Shape>)
    requires HasGateway(b) && forall i :: 0 <= i < |segments| ==> segments[i].Tree?
    ensures var b', g := BaseAfterAll(b, segments), b.kids[GATEWAY];
            && HasGateway(b') && b'.kids.Keys == b.kids.Keys && b'.kids[GATEWAY].kids.Keys == g.kids.Keys
            && (forall k :: k in b.kids && k != GATEWAY ==> b'.kids[k] == b.kids[k])
            && (forall k :: k in g.kids ==>
                  ValueOf(b'.kids[GATEWAY].kids[k]) == KidAfterAll(g.kids[k], segments, k))
    decreases |segments|
  {
    var g := b.kids[GATEWAY];
    if segments == [] {
      forall k | k in g.kids
        ensures ValueOf(g.kids[k]) == KidAfterAll(g.kids[k], segments, k)
      {
        KidValuesIfTree(g.kids[k]);
      }
    } else {
      forall k | k in g.kids
        ensures KidAfterAll(g.kids[k], segments, k) == KidAfterAll(LeakedKids(g, segments[0])[k], segments[1..], k)
      {
        KidAfterOneMore(g, segments, k);
      }
      assert BaseAfter(b, segments[0]).kids[GATEWAY] == Tree(g.obj, LeakedKids(g, segments[0]));
      hide KidAfterAll, ValueOf;
      BaseMeansAfterAll(BaseAfter(b, segments[0]), segments[1..]);
    }
  }

  lemma KidValuesIfTree(t: Shape)
    ensures t.Tree? ==> ValueOf(t).Node? && Node(ValueOf(t).entries) == ValueOf(t)
  {
  }

  /** A deletion after the whole sequence falls back to the values of the file exactly if, for
      each nested map of its gateway section, the segments' maps merged over it in order end
      where they began. */
  lemma {:induction false} DeletionFallsBackIff(b: Shape, segments: seq<Shape>)
    requires HasGateway(b) && forall i :: 0 <= i < |segments| ==> segments[i].Tree?
    ensures ValueOf(BaseAfterAll(b, segments)) == ValueOf(b) <==>
      var g := b.kids[GATEWAY];
      forall k :: k in g.kids && g.kids[k].Tree? ==>
        MergeAll(ValueOf(g.kids[k]).entries, MapsAt(segments, k)) == ValueOf(g.kids[k]).entries
    ensures forall m :: ValueOf(Tree(m, BaseAfterAll(b, segments).kids)) == ValueOf(BaseAfterAll(b, segments))
  {
    forall m
      ensures ValueOf(Tree(m, BaseAfterAll(b, segments).kids)) == ValueOf(BaseAfterAll(b, segments))
    {
      CopyMeansTheSame(m, BaseAfterAll(b, segments));
    }
    var b', g := BaseAfterAll(b, segments), b.kids[GATEWAY];
    BaseMeansAfterAll(b, segments);
    forall k | k in g.kids
      ensures KidAfterAll(g.kids[k], segments, k) == ValueOf(g.kids[k]) <==>
        (g.kids[k].Tree? ==>
           MergeAll(ValueOf(g.kids[k]).entries, MapsAt(segments, k)) == ValueOf(g.kids[k]).entries)
    {
      KidValuesIfTree(g.kids[k]);
    }
    hide KidAfterAll, ValueOf, BaseAfterAll, MapsAt, MergeAll;
    SameKidsSameValue(b, b');
    SameKidsSameValue(g, b'.kids[GATEWAY]);
  }
}
