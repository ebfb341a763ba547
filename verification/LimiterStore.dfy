/** The two in-process limiter stores: one map of limiters, and the 64-way sharded
    variant. Both are objects over `RateLimiter` objects; both are proved against one
    specification, a map from keys to bucket values. */
module LimiterStore {
  import opened Prelude
  import opened TokenBucket

  const SHARD_COUNT := 64

  /** A request for admission. The clock is read once if a limiter is created (`born`)
      and once for the decision (`now`). */
  datatype Request = Request(key: string, limit: int, interval: int, born: int, now: int)

  type Buckets = map<string, Bucket>

  /** The limiter used for a request: the stored one unless its settings differ. */
  function Chosen(m: Buckets, r: Request): Bucket {
    if r.key in m && m[r.key].limit == r.limit && m[r.key].interval == NormalInterval(r.interval)
    then m[r.key]
    else Fresh(r.limit, r.interval, r.born)
  }

  function Step(m: Buckets, r: Request): (Buckets, bool) {
    var (b, ok) := Call(Chosen(m, r), r.now);
    (m[r.key := b], ok)
  }

  function Final(m: Buckets, rs: seq<Request>): Buckets
    decreases |rs|
  {
    if rs == [] then m else Final(Step(m, rs[0]).0, rs[1..])
  }

  function Replies(m: Buckets, rs: seq<Request>): (r: seq<bool>)
    ensures |r| == |rs|
    decreases |rs|
  {
    if rs == [] then [] else [Step(m, rs[0]).1] + Replies(Step(m, rs[0]).0, rs[1..])
  }

  // ---------------------------------------------------------------------------
  // Keys do not influence each other
  // ---------------------------------------------------------------------------

  function OnlyKey(rs: seq<Request>, key: string): seq<Request> {
    if rs == [] then []
    else (if rs[0].key == key then [rs[0]] else []) + OnlyKey(rs[1..], key)
  }

  function RepliesTo(m: Buckets, rs: seq<Request>, key: string): seq<bool>
    decreases |rs|
  {
    if rs == [] then []
    else (if rs[0].key == key then [Step(m, rs[0]).1] else []) + RepliesTo(Step(m, rs[0]).0, rs[1..], key)
  }

  ghost predicate AgreeOn(m: Buckets, n: Buckets, key: string) {
    (key in m <==> key in n) && (key in m ==> m[key] == n[key])
  }

  lemma StepKeepsAgreement(m: Buckets, n: Buckets, r: Request, key: string)
    requires AgreeOn(m, n, key)
    ensures r.key == key ==> AgreeOn(Step(m, r).0, Step(n, r).0, key) && Step(m, r).1 == Step(n, r).1
    ensures r.key != key ==> AgreeOn(Step(m, r).0, n, key)
  {
    hide Call, Fresh;
  }

  /** Dropping every request on other keys changes no answer to this key, even from
      stores that agree on this key alone. */
  lemma {:induction false} KeysAreIndependent(m: Buckets, n: Buckets, rs: seq<Request>, key: string)
    requires AgreeOn(m, n, key)
    ensures RepliesTo(m, rs, key) == Replies(n, OnlyKey(rs, key))
    ensures AgreeOn(Final(m, rs), Final(n, OnlyKey(rs, key)), key)
    decreases |rs|
  {
    hide Step, AgreeOn;
    if rs != [] {
      StepKeepsAgreement(m, n, rs[0], key);
      if rs[0].key == key {
        assert OnlyKey(rs, key)[0] == rs[0] && OnlyKey(rs, key)[1..] == OnlyKey(rs[1..], key);
        KeysAreIndependent(Step(m, rs[0]).0, Step(n, rs[0]).0, rs[1..], key);
      } else {
        assert OnlyKey(rs, key) == OnlyKey(rs[1..], key);
        assert RepliesTo(m, rs, key) == RepliesTo(Step(m, rs[0]).0, rs[1..], key);
        KeysAreIndependent(Step(m, rs[0]).0, n, rs[1..], key);
      }
    }
  }

  /** Requests on one key with fixed settings and positive limit are a bucket run. */
  ghost predicate SameSettingsThroughout(rs: seq<Request>, key: string, limit: int, interval: int) {
    forall i :: 0 <= i < |rs| ==>
      rs[i].key == key && rs[i].limit == limit && NormalInterval(rs[i].interval) == NormalInterval(interval)
  }

  function Clock(rs: seq<Request>): (c: seq<int>)
    ensures |c| == |rs|
  {
    seq(|rs|, i requires 0 <= i < |rs| => rs[i].now)
  }

  lemma {:induction false} StoredLimiterIsReused(m: Buckets, rs: seq<Request>, key: string, limit: int, interval: int)
    requires SameSettingsThroughout(rs, key, limit, interval)
    requires key in m && m[key].limit == limit && m[key].interval == NormalInterval(interval)
    ensures Replies(m, rs) == Answers(m[key], Clock(rs))
    decreases |rs|
  {
    if rs != [] {
      assert Clock(rs)[1..] == Clock(rs[1..]);
      StoredLimiterIsReused(Step(m, rs[0]).0, rs[1..], key, limit, interval);
    }
  }

  /** A key never seen before, or last used with other settings. */
  predicate NewFor(m: Buckets, key: string, limit: int, interval: int) {
    key !in m || m[key].limit != limit || m[key].interval != if interval <= 0 then 1_000_000_000 else interval
  }

  /** A key that is new for its settings, asked with one positive limit and one interval, gets
      the answers of a single limiter born at its first request, however many other keys
      are in use. The bounds of `TokenBucket` therefore hold per key. */
  lemma {:induction false} OneLimiterPerKey(m: Buckets, rs: seq<Request>, key: string, limit: int, interval: int)
    requires NewFor(m, key, limit, interval) && limit > 0 && OnlyKey(rs, key) != []
    requires SameSettingsThroughout(OnlyKey(rs, key), key, limit, interval)
    ensures RepliesTo(m, rs, key)
         == Answers(Fresh(limit, interval, OnlyKey(rs, key)[0].born), Clock(OnlyKey(rs, key)))
  {
    hide Call;
    var mine := OnlyKey(rs, key);
    var b := Fresh(limit, interval, mine[0].born);
    var started := m[key := b];
    KeysAreIndependent(m, m, rs, key);
    assert Fresh(limit, mine[0].interval, mine[0].born) == b;
    assert m[key := Call(b, mine[0].now).0] == started[key := Call(b, mine[0].now).0];
    assert Step(m, mine[0]) == Step(started, mine[0]);
    StoredLimiterIsReused(started, mine, key, limit, interval);
    assert Replies(m, mine) == Replies(started, mine);
  }

  /** What a key admits: among any consecutive requests for it, i..j-1, at most
      limit + (last_j - last_i) * limit / interval, whatever happens on other keys. */
  lemma {:induction false} KeyAdmissionsBounded(
    m: Buckets, rs: seq<Request>, key: string, limit: int, interval: int, i: nat, j: nat)
    requires NewFor(m, key, limit, interval) && limit > 0 && i < j <= |OnlyKey(rs, key)|
    requires SameSettingsThroughout(OnlyKey(rs, key), key, limit, interval)
    ensures var b := Fresh(limit, interval, OnlyKey(rs, key)[0].born);
            var clock := Clock(OnlyKey(rs, key));
            |RepliesTo(m, rs, key)| == |clock|
            && CountTrue(RepliesTo(m, rs, key)[i..j]) as real
                 <= Allowance(b, After(b, clock[..j]).last - After(b, clock[..i + 1]).last)
  {
    OneLimiterPerKey(m, rs, key, limit, interval);
    AdmissionsBounded(Fresh(limit, interval, OnlyKey(rs, key)[0].born), Clock(OnlyKey(rs, key)), i, j);
  }

  /** A key is refused only with cause, whatever happens on other keys: under a clock that
      does not step back, the requests for it admitted during the interval before the refused
      request i number at least `limit`. */
  lemma {:induction false} KeyRefusalMeansBusyInterval(
    m: Buckets, rs: seq<Request>, key: string, limit: int, interval: int, i: nat)
    requires NewFor(m, key, limit, interval) && limit > 0 && i < |OnlyKey(rs, key)|
    requires SameSettingsThroughout(OnlyKey(rs, key), key, limit, interval)
    requires NonDecreasingFrom(OnlyKey(rs, key)[0].born, Clock(OnlyKey(rs, key)))
    ensures var replies, clock := RepliesTo(m, rs, key), Clock(OnlyKey(rs, key));
            |replies| == |clock|
            && (replies[i] || AdmittedAfter(replies[..i], clock[..i], clock[i] - NormalInterval(interval)) >= limit)
  {
    var clock, born := Clock(OnlyKey(rs, key)), OnlyKey(rs, key)[0].born;
    OneLimiterPerKey(m, rs, key, limit, interval);
    assert Fresh(limit, interval, born) == Fresh(limit, NormalInterval(interval), born);
    hide Fresh, OnlyKey, RepliesTo, Clock, AdmittedAfter, Answers;
    RefusalInRun(limit, NormalInterval(interval), born, clock, i);
  }

  /** The comparison with the stored limiter does not normalise the limit, so a
      non-positive limit gets a new full limiter at every call and is never refused. */
  lemma {:induction false} NonPositiveLimitNeverRefuses(m: Buckets, rs: seq<Request>)
    requires forall k :: k in m ==> m[k].limit > 0
    requires forall i :: 0 <= i < |rs| ==> rs[i].limit <= 0
    ensures forall i :: 0 <= i < |rs| ==> Replies(m, rs)[i]
    decreases |rs|
  {
    if rs != [] {
      var chosen := Chosen(m, rs[0]);
      assert chosen == Fresh(rs[0].limit, rs[0].interval, rs[0].born);
      ValidRate(chosen);
      if rs[0].now > chosen.last {
        GainIsNonNegative(chosen.rate, rs[0].now - chosen.last);
      }
      assert Step(m, rs[0]).1;
      NonPositiveLimitNeverRefuses(Step(m, rs[0]).0, rs[1..]);
    }
  }

  // ---------------------------------------------------------------------------
  // Which limit a route has
  // ---------------------------------------------------------------------------

  /** A configured rule; `resource` is trimmed. */
  datatype Rule = Rule(resource: string, count: int, interval: int)

  datatype Limit = Limit(count: int, interval: int)

  /** The i-th rule is the first one for this route. */
  predicate FirstRule(rules: seq<Rule>, resource: string, i: nat) {
    i < |rules| && rules[i].resource == resource && forall j :: 0 <= j < i ==> rules[j].resource != resource
  }

  /** The first rule for the route decides, even against the general limit: a rule without
      a positive count lifts it. Whatever limit comes out is positive, as the bounds need. The
      general limit is per second: a limiter made for it gains `maxQPS` tokens in that time. */
  method RouteLimit(resource: string, rules: seq<Rule>, maxQPS: int) returns (limit: Option<Limit>)
    ensures limit.Some? ==> limit.value.count > 0 && limit.value.interval > 0
    ensures forall i: nat :: FirstRule(rules, resource, i) ==>
      var span := if rules[i].interval <= 0 then 1_000_000_000 else rules[i].interval;
      limit == if rules[i].count > 0 then Some(Limit(rules[i].count, span)) else None
    ensures (forall i :: 0 <= i < |rules| ==> rules[i].resource != resource) ==>
      && (limit.Some? <==> maxQPS > 0)
      && (limit.Some? ==>
            var b := Fresh(limit.value.count, limit.value.interval, 0);
            b.tokens == maxQPS as real && Gain(b.rate, 1_000_000_000) == maxQPS as real)
  {
    var i := 0;
    while i < |rules|
      invariant 0 <= i <= |rules|
      invariant forall j :: 0 <= j < i ==> rules[j].resource != resource
    {
      var rule := rules[i];
      if rule.resource == resource {
        if rule.count <= 0 {
          return None;
        }
        var interval := rule.interval;
        if interval <= 0 {
          interval := SECOND;
        }
        return Some(Limit(rule.count, interval));
      }
      i := i + 1;
    }
    if maxQPS <= 0 {
      return None;
    }
    FreshAllowance(maxQPS, SECOND, 0, 0);
    return Some(Limit(maxQPS, SECOND));
  }

  // ---------------------------------------------------------------------------
  // The single-map store
  // ---------------------------------------------------------------------------

  class LocalRateLimitStore {
    var limiters: map<string, RateLimiter>

    ghost predicate Valid()
      reads this, limiters.Values
    {
      forall k :: k in limiters ==> limiters[k].Valid() && limiters[k].key == k
    }

    ghost function Contents(): (m: Buckets)
      reads this, limiters.Values
      ensures m.Keys == limiters.Keys
    {
      map k | k in limiters :: limiters[k].Value()
    }

    constructor ()
      ensures Valid() && limiters == map[] && Contents() == map[]
    {
      limiters := map[];
    }

    method Allow(r: Request) returns (allowed: bool)
      requires Valid()
      modifies this, limiters.Values
      ensures Valid() && fresh(limiters.Values - old(limiters.Values))
      ensures limiters.Keys == old(limiters.Keys) + {r.key}
      ensures (Contents(), allowed) == Step(old(Contents()), r)
    {
      hide Call, Fresh;
      ghost var before := Contents();
      var limiter: RateLimiter;
      if r.key in limiters && limiters[r.key].SameLimit(r.limit, r.interval) {
        limiter := limiters[r.key];
      } else {
        limiter := new RateLimiter(r.key, r.limit, r.interval, r.born);
        limiters := limiters[r.key := limiter];
      }
      assert limiter.Value() == Chosen(before, r);
      allowed := limiter.Allow(r.now);
      assert Contents() == Step(before, r).0;
    }
  }

  // ---------------------------------------------------------------------------
  // The sharded store
  // ---------------------------------------------------------------------------

  /** The shard of a key, for any hash function. */
  function ShardOf(hash: string -> nat, key: string): (i: nat)
    ensures i < SHARD_COUNT
  {
    hash(key) % SHARD_COUNT
  }

  /** The part of a store that belongs to shard `i`. */
  function Part(hash: string -> nat, m: Buckets, i: nat): Buckets {
    map k | k in m && ShardOf(hash, k) == i :: m[k]
  }

  lemma StepTouchesOnePart(hash: string -> nat, m: Buckets, r: Request, i: nat)
    ensures i == ShardOf(hash, r.key) ==> Part(hash, Step(m, r).0, i) == Step(Part(hash, m, i), r).0
    ensures i == ShardOf(hash, r.key) ==> Step(m, r).1 == Step(Part(hash, m, i), r).1
    ensures i != ShardOf(hash, r.key) ==> Part(hash, Step(m, r).0, i) == Part(hash, m, i)
  {
    hide Call, Fresh, ShardOf;
    if i == ShardOf(hash, r.key) {
      assert Chosen(m, r) == Chosen(Part(hash, m, i), r);
      assert Part(hash, Step(m, r).0, i) == Step(Part(hash, m, i), r).0;
    } else {
      assert Part(hash, Step(m, r).0, i) == Part(hash, m, i);
    }
  }

  function OnlyShard(hash: string -> nat, rs: seq<Request>, i: nat): seq<Request> {
    if rs == [] then []
    else (if ShardOf(hash, rs[0].key) == i then [rs[0]] else []) + OnlyShard(hash, rs[1..], i)
  }

  function RepliesInShard(hash: string -> nat, m: Buckets, rs: seq<Request>, i: nat): seq<bool>
    decreases |rs|
  {
    if rs == [] then []
    else
      (if ShardOf(hash, rs[0].key) == i then [Step(m, rs[0]).1] else [])
      + RepliesInShard(hash, Step(m, rs[0]).0, rs[1..], i)
  }

  /** For any hash function and any run on the single-map store: the answers to the keys of
      one shard are those that shard gives on its own, knowing of no other key and seeing no
      other request. */
  lemma {:induction false} ShardsAnswerAlone(hash: string -> nat, m: Buckets, rs: seq<Request>, i: nat)
    ensures RepliesInShard(hash, m, rs, i) == Replies(Part(hash, m, i), OnlyShard(hash, rs, i))
    ensures Part(hash, Final(m, rs), i) == Final(Part(hash, m, i), OnlyShard(hash, rs, i))
    decreases |rs|
  {
    hide Step, ShardOf, Part;
    if rs != [] {
      var mine, rest := OnlyShard(hash, rs, i), OnlyShard(hash, rs[1..], i);
      StepTouchesOnePart(hash, m, rs[0], i);
      ShardsAnswerAlone(hash, Step(m, rs[0]).0, rs[1..], i);
      if ShardOf(hash, rs[0].key) == i {
        assert mine[0] == rs[0] && mine[1..] == rest;
      } else {
        assert mine == rest;
      }
    }
  }

  class ShardedRateLimitStore {
    const hash: string -> nat
    /** Each shard is a lock and a map of limiters, just like the single-map store. */
    const shards: seq<LocalRateLimitStore>
    /** What all shards hold, read as one map. */
    ghost var contents: Buckets
    ghost var limiters: set<RateLimiter>

    /** Shards are separate objects; shard i holds exactly the keys that hash to i. */
    ghost predicate Valid()
      reads this, shards, limiters
    {
      && |shards| == SHARD_COUNT
      && (forall i, j :: 0 <= i < j < SHARD_COUNT ==> shards[i] != shards[j])
      && (forall i :: 0 <= i < SHARD_COUNT ==> shards[i].limiters.Values <= limiters && shards[i].Valid())
      && (forall i :: 0 <= i < SHARD_COUNT ==> shards[i].Contents() == Part(hash, contents, i))
    }

    constructor (hash: string -> nat)
      ensures this.hash == hash && Valid() && contents == map[] && limiters == {}
      ensures forall s :: s in shards ==> fresh(s)
    {
      var made: seq<LocalRateLimitStore> := [];
      for i := 0 to SHARD_COUNT
        invariant |made| == i
        invariant forall j :: 0 <= j < i ==> fresh(made[j]) && made[j].limiters == map[]
        invariant forall h, j :: 0 <= h < j < i ==> made[h] != made[j]
      {
        var shard := new LocalRateLimitStore();
        made := made + [shard];
      }
      this.hash := hash;
      this.shards := made;
      this.contents := map[];
      this.limiters := {};
    }

    /** The same answers and the same contents as the single-map store. */
    method Allow(r: Request) returns (allowed: bool)
      requires Valid()
      modifies this`contents, this`limiters, shards, limiters
      ensures Valid() && fresh(limiters - old(limiters))
      ensures (contents, allowed) == Step(old(contents), r)
    {
      hide Call, Fresh, ShardOf, Step, Part, LocalRateLimitStore.Valid, LocalRateLimitStore.Contents;
      ghost var i := ShardOf(hash, r.key);
      var shard := shards[ShardOf(hash, r.key)];
      forall j | 0 <= j < SHARD_COUNT && j != i
        ensures shards[j].limiters.Values !! shard.limiters.Values
      {
        ShardsAreDisjoint(i, j);
      }
      contents := Step(contents, r).0;
      label Called:
      allowed := shard.Allow(r);
      limiters := limiters + shard.limiters.Values;
      forall j | 0 <= j < SHARD_COUNT && j != i
        ensures shards[j].Valid() && shards[j].limiters.Values <= limiters
        ensures shards[j].Contents() == Part(hash, contents, j)
      {
        assert shards[j].limiters == old@Called(shards[j].limiters);
        StepTouchesOnePart(hash, old(contents), r, j);
      }
      StepTouchesOnePart(hash, old(contents), r, i);
      assert shards[i].Contents() == Part(hash, contents, i);
    }

    lemma ShardsAreDisjoint(i: nat, j: nat)
      requires Valid() && i < SHARD_COUNT && j < SHARD_COUNT && i != j
      ensures shards[j].limiters.Values !! shards[i].limiters.Values
    {
      hide ShardOf, Bucket.Valid, RateLimiter.Valid;
      forall k, m | k in shards[j].limiters && m in shards[i].limiters
        ensures shards[i].limiters[m] != shards[j].limiters[k]
      {
        assert k in shards[j].Contents() && m in shards[i].Contents();
        assert shards[i].limiters[m].key == m && shards[j].limiters[k].key == k;
      }
    }
  }
}
