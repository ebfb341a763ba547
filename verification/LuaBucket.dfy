/** The user limiter kept in Redis: a script over one hash per user, with key expiry.
    Times are integer milliseconds, as the script receives them. A key is gone once the
    clock is past its deadline, and an expiry of zero removes it at once. */
module LuaBucket {
  import opened Prelude
  import TokenBucket

  const DEFAULT_INTERVAL := 10_000 * MILLI
  const DEFAULT_TTL := 300_000 * MILLI

  /** Script arguments: rate > 0, whole milliseconds. */
  datatype Settings = Settings(rate: int, interval: int, ttl: int) {
    predicate Valid() {
      rate > 0 && interval >= 0 && ttl >= 0
    }

    /** The idle time after which the key has disappeared. */
    function GoneAfter(): int {
      if ttl == 0 then 0 else ttl + 1
    }
  }

  datatype Hash = Hash(tokens: real, last: int)

  datatype Entry = Entry(hash: Hash, deadline: int)

  /** The script's arithmetic, on the hash it reads (or its absence). With an interval of
      zero the quotient is infinite or undefined and the minimum yields the rate. */
  function Script(s: Settings, stored: Option<Hash>, now: int): (Hash, bool)
    requires s.Valid()
  {
    var before := if stored.Some? then stored.value else Hash(s.rate as real, now);
    var elapsed := if now - before.last < 0 then 0 else now - before.last;
    var tokens := if s.interval == 0 then s.rate as real
                  else Min(s.rate as real, before.tokens + Refill(s, elapsed));
    if tokens >= 1.0 then (Hash(tokens - 1.0, now), true) else (Hash(tokens, now), false)
  }

  function Refill(s: Settings, elapsed: int): real
    requires s.interval != 0
  {
    elapsed as real * s.rate as real / s.interval as real
  }

  function Visible(e: Option<Entry>, now: int): Option<Hash> {
    if e.Some? && now <= e.value.deadline then Some(e.value.hash) else None
  }

  /** One run of the script against the keyspace: read, compute, write, set expiry. */
  function Run(s: Settings, e: Option<Entry>, now: int): (Option<Entry>, bool)
    requires s.Valid()
  {
    var (h, ok) := Script(s, Visible(e, now), now);
    (if s.ttl == 0 then None else Some(Entry(h, now + s.ttl)), ok)
  }

  function Answers(s: Settings, e: Option<Entry>, clock: seq<int>): (r: seq<bool>)
    requires s.Valid()
    ensures |r| == |clock|
    decreases |clock|
  {
    if clock == [] then []
    else [Run(s, e, clock[0]).1] + Answers(s, Run(s, e, clock[0]).0, clock[1..])
  }

  /** The same calls on a key that never expires. */
  function LastingAnswers(s: Settings, h: Option<Hash>, clock: seq<int>): (r: seq<bool>)
    requires s.Valid()
    ensures |r| == |clock|
    decreases |clock|
  {
    if clock == [] then []
    else [Script(s, h, clock[0]).1] + LastingAnswers(s, Some(Script(s, h, clock[0]).0), clock[1..])
  }

  // ---------------------------------------------------------------------------
  // Expiry
  // ---------------------------------------------------------------------------

  lemma RefillAfterInterval(s: Settings, elapsed: int)
    requires s.Valid() && s.interval != 0 && elapsed >= s.interval
    ensures Refill(s, elapsed) >= s.rate as real
  {
    var r, i, e := s.rate as real, s.interval as real, elapsed as real;
    assert e * r >= i * r;
    assert (i * r) / i == r;
    Divide(e * r, i * r, i);
  }

  lemma Divide(x: real, y: real, d: real)
    requires x >= y && d > 0.0
    ensures x / d >= y / d
  {
  }

  /** What the keyspace holds, next to what it would hold without expiry. */
  ghost predicate SameKey(s: Settings, e: Option<Entry>, h: Option<Hash>) {
    || (e.None? && h.None?)
    || (s.ttl == 0 && e.None?)
    || (e.Some? && h == Some(e.value.hash) && e.value.deadline == e.value.hash.last + s.ttl)
  }

  /** One call at `now`: a key lost after a whole idle interval would have been full. */
  lemma {:induction false} LostKeyWasFull(s: Settings, e: Option<Entry>, h: Option<Hash>, now: int)
    requires s.Valid() && s.GoneAfter() >= s.interval
    requires SameKey(s, e, h) && (h.Some? ==> h.value.last <= now && h.value.tokens >= 0.0)
    ensures Run(s, e, now).1 == Script(s, h, now).1
    ensures SameKey(s, Run(s, e, now).0, Some(Script(s, h, now).0))
    ensures Script(s, h, now).0.last == now && Script(s, h, now).0.tokens >= 0.0
  {
    if h.Some? {
      RefillIsNonNegative(s, now - h.value.last);
      if Visible(e, now).None? && s.interval != 0 {
        RefillAfterInterval(s, now - h.value.last);
      }
    }
    RefillIsNonNegative(s, 0);
  }

  lemma RefillIsNonNegative(s: Settings, elapsed: int)
    requires s.Valid() && elapsed >= 0
    ensures s.interval != 0 ==> Refill(s, elapsed) >= 0.0
    ensures s.interval != 0 && elapsed == 0 ==> Refill(s, elapsed) == 0.0
  {
    if s.interval != 0 {
      var p := elapsed as real * s.rate as real;
      assert p >= 0.0;
      Divide(p, 0.0, s.interval as real);
    }
  }

  lemma {:induction false} ExpiryUnobservable(s: Settings, e: Option<Entry>, h: Option<Hash>, clock: seq<int>)
    requires s.Valid() && s.GoneAfter() >= s.interval && SameKey(s, e, h)
    requires h.Some? ==> h.value.tokens >= 0.0 && NonDecreasingFrom(h.value.last, clock)
    requires forall i, j :: 0 <= i < j < |clock| ==> clock[i] <= clock[j]
    ensures Answers(s, e, clock) == LastingAnswers(s, h, clock)
    decreases |clock|
  {
    if clock != [] {
      hide Script, Run, SameKey;
      LostKeyWasFull(s, e, h, clock[0]);
      ExpiryUnobservable(s, Run(s, e, clock[0]).0, Some(Script(s, h, clock[0]).0), clock[1..]);
    }
  }

  // A key that expires before its interval is over gives its user a second full bucket.

  function Times(t: int, n: nat): seq<int> {
    seq(n, _ => t)
  }

  /** Calls at one instant on a key holding at least that many tokens are all admitted. */
  lemma {:induction false} DrainAtOnce(s: Settings, e: Option<Entry>, t: int, n: nat, tokens: real)
    requires s.Valid() && s.interval != 0 && n as real <= tokens <= s.rate as real
    requires match Visible(e, t) case Some(h) => h.tokens == tokens && h.last == t case None => tokens == s.rate as real
    ensures CountTrue(Answers(s, e, Times(t, n))) == n
    decreases n
  {
    if n > 0 {
      RefillIsNonNegative(s, 0);
      var (e', ok) := Run(s, e, t);
      assert Times(t, n)[1..] == Times(t, n - 1);
      assert Answers(s, e, Times(t, n))[1..] == Answers(s, e', Times(t, n - 1));
      DrainAtOnce(s, e', t, n - 1, if s.ttl == 0 then s.rate as real else tokens - 1.0);
    }
  }

  function LastingFinal(s: Settings, h: Hash, clock: seq<int>): Hash
    requires s.Valid()
    decreases |clock|
  {
    if clock == [] then h else LastingFinal(s, Script(s, Some(h), clock[0]).0, clock[1..])
  }

  /** Without expiry, admissions spend tokens, exactly as in the in-process bucket. */
  lemma {:induction false} LastingSpends(s: Settings, h: Hash, clock: seq<int>)
    requires s.Valid() && s.interval != 0 && h.tokens >= 0.0 && NonDecreasingFrom(h.last, clock)
    ensures var f := LastingFinal(s, h, clock);
            CountTrue(LastingAnswers(s, Some(h), clock)) as real + f.tokens <= h.tokens + Refill(s, f.last - h.last)
    ensures var f := LastingFinal(s, h, clock);
            f.tokens >= 0.0 && f.last == (if clock == [] then h.last else clock[|clock| - 1])
    decreases |clock|
  {
    if clock == [] {
      RefillIsNonNegative(s, 0);
    } else {
      var next := Script(s, Some(h), clock[0]).0;
      RefillIsNonNegative(s, clock[0] - h.last);
      LastingSpends(s, next, clock[1..]);
      assert LastingAnswers(s, Some(h), clock)[1..] == LastingAnswers(s, Some(next), clock[1..]);
      RefillAdds(s, next.last - h.last, LastingFinal(s, h, clock).last - next.last);
    }
  }

  lemma RefillAdds(s: Settings, d: int, e: int)
    requires s.interval != 0
    ensures Refill(s, d) + Refill(s, e) == Refill(s, d + e)
  {
    var r, i := s.rate as real, s.interval as real;
    assert d as real * r + e as real * r == (d + e) as real * r;
    assert (d as real * r) / i + (e as real * r) / i == (d as real * r + e as real * r) / i;
  }

  function FinalEntry(s: Settings, e: Option<Entry>, clock: seq<int>): Option<Entry>
    requires s.Valid()
    decreases |clock|
  {
    if clock == [] then e else FinalEntry(s, Run(s, e, clock[0]).0, clock[1..])
  }

  lemma {:induction false} AnswersSplit(s: Settings, e: Option<Entry>, xs: seq<int>, ys: seq<int>)
    requires s.Valid()
    ensures Answers(s, e, xs + ys) == Answers(s, e, xs) + Answers(s, FinalEntry(s, e, xs), ys)
    decreases |xs|
  {
    if xs == [] {
      assert xs + ys == ys;
    } else {
      assert (xs + ys)[1..] == xs[1..] + ys;
      AnswersSplit(s, Run(s, e, xs[0]).0, xs[1..], ys);
    }
  }

  lemma {:induction false} DeadlineFollowsLastCall(s: Settings, e: Option<Entry>, t: int, n: nat)
    requires s.Valid()
    requires e.Some? ==> s.ttl > 0 && e.value.deadline == t + s.ttl
    ensures var f := FinalEntry(s, e, Times(t, n)); f.Some? ==> s.ttl > 0 && f.value.deadline == t + s.ttl
    decreases n
  {
    if n > 0 {
      assert Times(t, n)[1..] == Times(t, n - 1);
      DeadlineFollowsLastCall(s, Run(s, e, t).0, t, n - 1);
    }
  }

  /** Empty the bucket at time 0, wait until the key is gone, and empty it again. */
  function TwoBursts(s: Settings): seq<int>
    requires s.Valid()
  {
    Times(0, s.rate) + Times(s.GoneAfter(), s.rate)
  }

  lemma {:induction false} BothBurstsAdmitted(s: Settings)
    requires s.Valid() && s.interval != 0
    ensures CountTrue(Answers(s, None, TwoBursts(s))) == 2 * s.rate
  {
    var g := s.GoneAfter();
    var first, second := Times(0, s.rate), Times(g, s.rate);
    var mid := FinalEntry(s, None, first);
    DrainAtOnce(s, None, 0, s.rate, s.rate as real);
    DeadlineFollowsLastCall(s, None, 0, s.rate);
    DrainAtOnce(s, mid, g, s.rate, s.rate as real);
    AnswersSplit(s, None, first, second);
    CountTrueAppend(Answers(s, None, first), Answers(s, mid, second));
  }

  lemma {:induction false} LastingRefusesSecondBurst(s: Settings)
    requires s.Valid() && s.GoneAfter() < s.interval
    ensures CountTrue(LastingAnswers(s, None, TwoBursts(s))) < 2 * s.rate
  {
    var clock, full := TwoBursts(s), Hash(s.rate as real, 0);
    RefillIsNonNegative(s, 0);
    assert Script(s, None, 0) == Script(s, Some(full), 0);
    assert clock[0] == 0;
    assert LastingAnswers(s, None, clock) == LastingAnswers(s, Some(full), clock);
    LastingSpends(s, full, clock);
    var g := s.GoneAfter();
    assert clock[|clock| - 1] == g;
    PartialRefill(s, g);
  }

  lemma PartialRefill(s: Settings, elapsed: int)
    requires s.Valid() && elapsed < s.interval && s.interval != 0
    ensures Refill(s, elapsed) < s.rate as real
  {
    var r, i, e := s.rate as real, s.interval as real, elapsed as real;
    assert e * r < i * r;
    assert (i * r) / i == r;
    assert (e * r) / i < (i * r) / i;
  }

  ghost predicate Unobservable(s: Settings)
    requires s.Valid()
  {
    forall clock :: Sorted(clock) ==> Answers(s, None, clock) == LastingAnswers(s, None, clock)
  }

  ghost predicate Sorted(clock: seq<int>) {
    forall i, j :: 0 <= i < j < |clock| ==> clock[i] <= clock[j]
  }

  /** Under a clock that does not step back, key expiry changes no answer exactly when a
      key outlives its interval. */
  lemma {:induction false} ExpiryUnobservableIff(s: Settings)
    requires s.Valid()
    ensures Unobservable(s) <==> s.GoneAfter() >= s.interval
  {
    if s.GoneAfter() >= s.interval {
      forall clock | Sorted(clock)
        ensures Answers(s, None, clock) == LastingAnswers(s, None, clock)
      {
        ExpiryUnobservable(s, None, None, clock);
      }
    } else {
      BothBurstsAdmitted(s);
      LastingRefusesSecondBurst(s);
      assert Sorted(TwoBursts(s));
      assert Answers(s, None, TwoBursts(s)) != LastingAnswers(s, None, TwoBursts(s));
    }
  }

  // ---------------------------------------------------------------------------
  // The same bucket as the in-process limiter
  // ---------------------------------------------------------------------------

  function Nanos(clock: seq<int>): (r: seq<int>)
    ensures |r| == |clock|
  {
    seq(|clock|, i requires 0 <= i < |clock| => clock[i] * MILLI)
  }

  ghost predicate SameBucket(s: Settings, h: Hash, b: TokenBucket.Bucket) {
    && b.Valid()
    && b.limit == s.rate && b.interval == s.interval * MILLI
    && h.tokens == b.tokens && h.last * MILLI == b.last
  }

  lemma {:induction false} SameStep(s: Settings, h: Hash, b: TokenBucket.Bucket, now: int)
    requires s.Valid() && s.interval != 0 && SameBucket(s, h, b) && h.last <= now
    ensures var (h', ok) := Script(s, Some(h), now);
            var (b', ok') := TokenBucket.Call(b, now * MILLI);
            ok == ok' && SameBucket(s, h', b') && h'.last == now
  {
    hide TokenBucket.Gain, Refill;
    var d := now - h.last;
    TokenBucket.ValidRate(b);
    TokenBucket.CallStaysInBounds(b, now * MILLI);
    GainIsRefill(s, b, d);
    RefillIsNonNegative(s, 0);
    assert now * MILLI - b.last == d * MILLI;
    assert now * MILLI > b.last <==> d > 0;
  }

  lemma GainIsRefill(s: Settings, b: TokenBucket.Bucket, d: int)
    requires s.Valid() && s.interval != 0 && b.Valid()
    requires b.limit == s.rate && b.interval == s.interval * MILLI
    ensures TokenBucket.Gain(b.rate, d * MILLI) == Refill(s, d)
  {
    TokenBucket.GainIsProportional(b, d * MILLI);
    ScaledQuotient(d as real, s.rate as real, s.interval as real);
    assert (d * MILLI) as real == d as real * 1_000_000.0;
    assert b.interval as real == s.interval as real * 1_000_000.0;
  }

  lemma ScaledQuotient(d: real, r: real, i: real)
    requires i > 0.0
    ensures (d * 1_000_000.0) * r / (i * 1_000_000.0) == d * r / i
  {
    var q := d * r / i;
    assert q * i == d * r;
    assert q * (i * 1_000_000.0) == (d * 1_000_000.0) * r;
  }

  lemma {:induction false} SameRun(s: Settings, h: Hash, b: TokenBucket.Bucket, clock: seq<int>)
    requires s.Valid() && s.interval != 0 && SameBucket(s, h, b) && NonDecreasingFrom(h.last, clock)
    ensures LastingAnswers(s, Some(h), clock) == TokenBucket.Answers(b, Nanos(clock))
    decreases |clock|
  {
    if clock != [] {
      hide Script, TokenBucket.Call, SameBucket;
      SameStep(s, h, b, clock[0]);
      assert Nanos(clock)[1..] == Nanos(clock[1..]);
      SameRun(s, Script(s, Some(h), clock[0]).0, TokenBucket.Call(b, clock[0] * MILLI).0, clock[1..]);
    }
  }

  /** The script on a lasting key, under a clock that does not step back, gives the answers of
      an in-process limiter born at the first call. */
  lemma {:induction false} LastingIsLocal(s: Settings, clock: seq<int>)
    requires s.Valid() && s.interval != 0 && clock != [] && Sorted(clock)
    ensures LastingAnswers(s, None, clock)
         == TokenBucket.Answers(TokenBucket.Fresh(s.rate, s.interval * MILLI, clock[0] * MILLI), Nanos(clock))
  {
    var full := Hash(s.rate as real, clock[0]);
    RefillIsNonNegative(s, 0);
    assert Script(s, None, clock[0]) == Script(s, Some(full), clock[0]);
    assert LastingAnswers(s, None, clock) == LastingAnswers(s, Some(full), clock);
    SameRun(s, full, TokenBucket.Fresh(s.rate, s.interval * MILLI, clock[0] * MILLI), clock);
  }

  /** Script with expiry, script without, in-process limiter: one sequence of answers, for
      whole-millisecond settings and a clock that does not step back. */
  lemma {:induction false} RedisBucketIsLocalBucket(s: Settings, clock: seq<int>)
    requires s.Valid() && s.interval != 0 && s.GoneAfter() >= s.interval
    requires clock != [] && Sorted(clock)
    ensures Answers(s, None, clock)
         == TokenBucket.Answers(TokenBucket.Fresh(s.rate, s.interval * MILLI, clock[0] * MILLI), Nanos(clock))
  {
    ExpiryUnobservable(s, None, None, clock);
    LastingIsLocal(s, clock);
  }

  /** Readings as far as they went forward: stepping back adds nothing, but what follows is
      counted from there. `v` is the time so far, `last` the latest reading. */
  function Onward(v: int, last: int, clock: seq<int>): (r: seq<int>)
    ensures |r| == |clock|
    ensures forall i :: 0 <= i < |r| ==> v <= r[i]
    ensures forall i, j :: 0 <= i < j < |r| ==> r[i] <= r[j]
    decreases |clock|
  {
    if clock == [] then []
    else
      var v' := if clock[0] < last then v else v + (clock[0] - last);
      [v'] + Onward(v', clock[0], clock[1..])
  }

  lemma {:induction false} ScriptRunsOnward(s: Settings, h: Hash, v: int, clock: seq<int>)
    requires s.Valid()
    ensures LastingAnswers(s, Some(h), clock) == LastingAnswers(s, Some(Hash(h.tokens, v)), Onward(v, h.last, clock))
    decreases |clock|
  {
    if clock != [] {
      var onward := Onward(v, h.last, clock);
      var (after, shifted) := (Script(s, Some(h), clock[0]).0, Script(s, Some(Hash(h.tokens, v)), onward[0]).0);
      assert after.tokens == shifted.tokens && after.last == clock[0] && shifted.last == onward[0];
      ScriptRunsOnward(s, after, onward[0], clock[1..]);
      assert onward[1..] == Onward(onward[0], clock[0], clock[1..]);
    }
  }

  /** On any clock, stepping back or not, the script is the in-process bucket run on the time
      that went forward. The in-process bucket itself runs on the latest reading. */
  lemma {:induction false} AnyClockIsOnwardTime(s: Settings, clock: seq<int>)
    requires s.Valid() && s.interval != 0 && clock != []
    ensures LastingAnswers(s, None, clock)
         == TokenBucket.Answers(
              TokenBucket.Fresh(s.rate, s.interval * MILLI, clock[0] * MILLI), Nanos(Onward(clock[0], clock[0], clock)))
  {
    var full := Hash(s.rate as real, clock[0]);
    RefillIsNonNegative(s, 0);
    assert Script(s, None, clock[0]) == Script(s, Some(full), clock[0]);
    assert LastingAnswers(s, None, clock) == LastingAnswers(s, Some(full), clock);
    ScriptRunsOnward(s, full, clock[0], clock);
    var b := TokenBucket.Fresh(s.rate, s.interval * MILLI, clock[0] * MILLI);
    SameRun(s, full, b, Onward(clock[0], clock[0], clock));
  }

  lemma {:induction false} LastingSplit(s: Settings, h: Hash, xs: seq<int>, ys: seq<int>)
    requires s.Valid()
    ensures LastingAnswers(s, Some(h), xs + ys)
         == LastingAnswers(s, Some(h), xs) + LastingAnswers(s, Some(LastingFinal(s, h, xs)), ys)
    decreases |xs|
  {
    if xs == [] {
      assert xs + ys == ys;
    } else {
      assert (xs + ys)[1..] == xs[1..] + ys;
      LastingSplit(s, Script(s, Some(h), xs[0]).0, xs[1..], ys);
    }
  }

  /** Calls at one instant take the tokens down to none, on either side. */
  lemma {:induction false} Drained(s: Settings, h: Hash, b: TokenBucket.Bucket, n: nat)
    requires s.Valid() && s.interval != 0 && SameBucket(s, h, b) && h.tokens == n as real
    ensures LastingFinal(s, h, Times(h.last, n)) == Hash(0.0, h.last)
    ensures TokenBucket.After(b, Nanos(Times(h.last, n))) == b.(tokens := 0.0)
    decreases n
  {
    if n == 0 {
      assert Nanos(Times(h.last, 0)) == [];
    } else {
      RefillIsNonNegative(s, 0);
      assert Times(h.last, n)[1..] == Times(h.last, n - 1);
      assert Nanos(Times(h.last, n))[1..] == Nanos(Times(h.last, n - 1));
      Drained(s, Hash(h.tokens - 1.0, h.last), b.(tokens := b.tokens - 1.0), n - 1);
    }
  }

  /** The key after as many calls at one instant as there are tokens. */
  lemma {:induction false} DrainedEntry(s: Settings, e: Option<Entry>, t: int, n: nat)
    requires s.Valid() && s.interval != 0 && 0 < n <= s.rate
    requires match Visible(e, t)
             case Some(h) => h.tokens == n as real && h.last == t
             case None => n == s.rate
    ensures s.ttl > 0 ==> FinalEntry(s, e, Times(t, n)) == Some(Entry(Hash(0.0, t), t + s.ttl))
    ensures s.ttl == 0 ==> FinalEntry(s, e, Times(t, n)) == None
    decreases n
  {
    RefillIsNonNegative(s, 0);
    assert Times(t, n)[1..] == Times(t, n - 1);
    var after := Run(s, e, t).0;
    if n == 1 {
      assert Times(t, 0) == [];
    } else if s.ttl > 0 {
      DrainedEntry(s, after, t, n - 1);
    } else {
      NothingKept(s, t, n - 1);
    }
  }

  lemma {:induction false} NothingKept(s: Settings, t: int, n: nat)
    requires s.Valid() && s.ttl == 0
    ensures FinalEntry(s, None, Times(t, n)) == None
    decreases n
  {
    if n > 0 {
      assert Times(t, n)[1..] == Times(t, n - 1);
      NothingKept(s, t, n - 1);
    }
  }

  /** The real script, whose key expires, admits a call on coming back: it finds either the
      tokens of a whole interval or no key. */
  lemma {:induction false} ScriptAdmitsComingBack(s: Settings)
    requires s.Valid() && s.interval != 0
    ensures Answers(s, None, Times(s.interval, s.rate) + [0, s.interval])[s.rate + 1]
  {
    var t := s.interval;
    var e := FinalEntry(s, None, Times(t, s.rate));
    RefillIsNonNegative(s, 0);
    RefillAfterInterval(s, t);
    DrainedEntry(s, None, t, s.rate);
    AnswersSplit(s, None, Times(t, s.rate), [0, t]);
    var (back, ok) := Run(s, e, 0);
    assert s.ttl > 0 ==> back == Some(Entry(Hash(0.0, 0), s.ttl));
    assert Run(s, back, t).1;
    assert [0, t][1..] == [t] && [t][1..] == [];
    assert Answers(s, back, [t]) == [true];
    assert Answers(s, e, [0, t]) == [ok, true];
  }

  /** Whatever the settings, a step back can show in an answer: use up the bucket, let the
      clock step back by one interval, and come back. Key expiry does not hide it. */
  lemma {:induction false} SteppingBackAlwaysShows(s: Settings)
    requires s.Valid() && s.interval != 0
    ensures var clock := Times(s.interval, s.rate) + [0, s.interval];
            var local := TokenBucket.Answers(
              TokenBucket.Fresh(s.rate, s.interval * MILLI, s.interval * MILLI), Nanos(clock));
            LastingAnswers(s, None, clock) != local && Answers(s, None, clock) != local
  {
    ScriptAdmitsComingBack(s);
    var t := s.interval;
    var drain, clock := Times(t, s.rate), Times(t, s.rate) + [0, t];
    var full, b := Hash(s.rate as real, t), TokenBucket.Fresh(s.rate, t * MILLI, t * MILLI);
    RefillIsNonNegative(s, 0);
    RefillAfterInterval(s, t);
    assert Script(s, None, t) == Script(s, Some(full), t);
    assert LastingAnswers(s, None, clock) == LastingAnswers(s, Some(full), clock);
    Drained(s, full, b, s.rate);
    LastingSplit(s, full, drain, [0, t]);
    TokenBucket.RunSplits(b, Nanos(clock), s.rate);
    assert Nanos(clock)[..s.rate] == Nanos(drain) && Nanos(clock)[s.rate..] == [0, t * MILLI];
    BackAndForth(s, b.(tokens := 0.0));
    assert LastingAnswers(s, Some(full), clock)[s.rate + 1] && !TokenBucket.Answers(b, Nanos(clock))[s.rate + 1];
  }

  /** An empty bucket, asked one interval earlier and then at its own time again. */
  lemma BackAndForth(s: Settings, b: TokenBucket.Bucket)
    requires s.Valid() && s.interval != 0 && b.tokens == 0.0 && b.last == s.interval * MILLI
    ensures LastingAnswers(s, Some(Hash(0.0, s.interval)), [0, s.interval]) == [false, true]
    ensures TokenBucket.Answers(b, [0, s.interval * MILLI]) == [false, false]
  {
    var t := s.interval;
    RefillIsNonNegative(s, 0);
    RefillAfterInterval(s, t);
    assert [0, t][1..] == [t] && [t][1..] == [] && [0, t * MILLI][1..] == [t * MILLI] && [t * MILLI][1..] == [];
    assert Script(s, Some(Hash(0.0, t)), 0) == (Hash(0.0, 0), false);
    assert Script(s, Some(Hash(0.0, 0)), t).1;
    assert LastingAnswers(s, Some(Hash(0.0, 0)), [t]) == [true];
    assert TokenBucket.Answers(b, [t * MILLI]) == [false];
  }

  /** When the clock steps back the two differ: the script moves `last` back with it and
      refills the same second twice. */
  lemma {:induction false} SteppingBackTellsThemApart()
    ensures var s := Settings(1, 1000, 300_000);
            var clock := [1000, 0, 1000];
            Answers(s, None, clock) == [true, false, true]
            && TokenBucket.Answers(TokenBucket.Fresh(1, 1000 * MILLI, 1000 * MILLI), Nanos(clock))
               == [true, false, false]
  {
    var s := Settings(1, 1000, 300_000);
    var clock := [1000, 0, 1000];
    var (e1, a1) := Run(s, None, 1000);
    var (e2, a2) := Run(s, e1, 0);
    var (e3, a3) := Run(s, e2, 1000);
    assert a1 && !a2 && a3;
    assert clock[1..] == [0, 1000] && clock[1..][1..] == [1000];
    assert Answers(s, e2, [1000]) == [a3];
    assert Answers(s, e1, [0, 1000]) == [a2] + Answers(s, e2, [0, 1000][1..]);
    var b := TokenBucket.Fresh(1, 1000 * MILLI, 1000 * MILLI);
    var b1 := TokenBucket.Call(b, 1000 * MILLI).0;
    assert TokenBucket.Call(b, 1000 * MILLI).1;
    assert TokenBucket.Call(b1, 0) == (b1, false);
    assert TokenBucket.Call(b1, 1000 * MILLI) == (b1, false);
    var n := Nanos(clock);
    assert n == [1000 * MILLI, 0, 1000 * MILLI] && n[1..] == [0, 1000 * MILLI] && n[1..][1..] == [1000 * MILLI];
    assert TokenBucket.Answers(b1, [1000 * MILLI]) == [false];
    assert TokenBucket.Answers(b1, [0, 1000 * MILLI]) == [false] + TokenBucket.Answers(b1, [0, 1000 * MILLI][1..]);
  }

  // ---------------------------------------------------------------------------
  // The store
  // ---------------------------------------------------------------------------

  datatype Stored = Stored(value: string, deadline: int)

  /** Defaults are filled in and durations cut to whole milliseconds. */
  function Normal(rate: int, interval: int, ttl: int): Settings {
    Settings(rate,
             (if interval <= 0 then DEFAULT_INTERVAL else interval) / MILLI,
             (if ttl <= 0 then DEFAULT_TTL else ttl) / MILLI)
  }

  /** One call of the store: who asks, with which settings (in nanoseconds), and when. */
  datatype Ask = Ask(userID: int, rate: int, interval: int, ttl: int, now: int)

  type Buckets = map<int, Entry>

  function Lookup(m: Buckets, userID: int): Option<Entry> {
    if userID in m then Some(m[userID]) else None
  }

  function Put(m: Buckets, userID: int, e: Option<Entry>): Buckets {
    match e
    case Some(entry) => m[userID := entry]
    case None => m - {userID}
  }

  /** What a call makes of the hashes of all users, and its answer. */
  function Acquire(m: Buckets, a: Ask): (Buckets, bool) {
    if a.userID <= 0 || a.rate <= 0 then (m, true)
    else
      var (e, ok) := Run(Normal(a.rate, a.interval, a.ttl), Lookup(m, a.userID), a.now);
      (Put(m, a.userID, e), ok)
  }

  // ---------------------------------------------------------------------------
  // What a user is granted, in the caller's own settings
  // ---------------------------------------------------------------------------

  function OnlyUser(asks: seq<Ask>, userID: int): seq<Ask> {
    if asks == [] then []
    else (if asks[0].userID == userID then [asks[0]] else []) + OnlyUser(asks[1..], userID)
  }

  /** The answers one user gets among the calls of all users. */
  function RepliesTo(m: Buckets, asks: seq<Ask>, userID: int): seq<bool>
    decreases |asks|
  {
    if asks == [] then []
    else
      (if asks[0].userID == userID then [Acquire(m, asks[0]).1] else [])
      + RepliesTo(Acquire(m, asks[0]).0, asks[1..], userID)
  }

  function Clock(asks: seq<Ask>): (r: seq<int>)
    ensures |r| == |asks|
  {
    seq(|asks|, i requires 0 <= i < |asks| => asks[i].now)
  }

  ghost predicate Alike(asks: seq<Ask>, userID: int, rate: int, interval: int, ttl: int) {
    forall i :: 0 <= i < |asks| ==> asks[i] == Ask(userID, rate, interval, ttl, asks[i].now)
  }

  /** A user's answers are those of the script on that user's hash alone. */
  lemma {:induction false} UsersAreIndependent(
    m: Buckets, asks: seq<Ask>, userID: int, rate: int, interval: int, ttl: int)
    requires userID > 0 && rate > 0 && Alike(OnlyUser(asks, userID), userID, rate, interval, ttl)
    ensures RepliesTo(m, asks, userID)
         == Answers(Normal(rate, interval, ttl), Lookup(m, userID), Clock(OnlyUser(asks, userID)))
    decreases |asks|
  {
    if asks != [] {
      hide Run;
      var mine, rest := OnlyUser(asks, userID), OnlyUser(asks[1..], userID);
      if asks[0].userID == userID {
        assert mine[0] == asks[0] && mine[1..] == rest;
        assert Clock(mine)[1..] == Clock(rest);
      } else {
        assert mine == rest;
        assert Lookup(Acquire(m, asks[0]).0, userID) == Lookup(m, userID);
      }
      UsersAreIndependent(Acquire(m, asks[0]).0, asks[1..], userID, rate, interval, ttl);
    }
  }

  function Given(duration: int, default: int): int {
    if duration <= 0 then default else duration
  }

  /** The answers of an in-process limiter with these settings, cut to whole milliseconds,
      that is born at the first call. */
  function LocalAnswers(rate: int, interval: int, clock: seq<int>): seq<bool>
    requires clock != []
  {
    TokenBucket.Answers(
      TokenBucket.Fresh(rate, interval / 1_000_000 * 1_000_000, clock[0] * 1_000_000), Nanos(clock))
  }

  /** A user not seen before, asking with one rate, interval and lifetime under a clock that
      does not step back, gets the answers of an in-process limiter with that rate and
      interval, whatever other users do: ten seconds where no interval is given and five
      minutes where no lifetime is, as long as the hash outlives the interval. */
  lemma {:induction false} UserIsLimitedLocally(
    m: Buckets, asks: seq<Ask>, userID: int, rate: int, interval: int, ttl: int)
    requires userID > 0 && rate > 0 && userID !in m && OnlyUser(asks, userID) != []
    requires Alike(OnlyUser(asks, userID), userID, rate, interval, ttl) && Sorted(Clock(OnlyUser(asks, userID)))
    requires 1_000_000 <= Given(interval, 10_000_000_000) <= Given(ttl, 300_000_000_000)
    ensures RepliesTo(m, asks, userID)
         == LocalAnswers(rate, Given(interval, 10_000_000_000), Clock(OnlyUser(asks, userID)))
  {
    UsersAreIndependent(m, asks, userID, rate, interval, ttl);
    RedisBucketIsLocalBucket(Normal(rate, interval, ttl), Clock(OnlyUser(asks, userID)));
  }

  /** The calls of one user at the given readings. */
  function AsksAt(userID: int, rate: int, interval: int, ttl: int, clock: seq<int>): (r: seq<Ask>)
    ensures |r| == |clock|
  {
    seq(|clock|, i requires 0 <= i < |clock| => Ask(userID, rate, interval, ttl, clock[i]))
  }

  lemma {:induction false} AllMine(userID: int, rate: int, interval: int, ttl: int, clock: seq<int>)
    ensures var asks := AsksAt(userID, rate, interval, ttl, clock);
            OnlyUser(asks, userID) == asks && Clock(asks) == clock && Alike(asks, userID, rate, interval, ttl)
    decreases |clock|
  {
    if clock != [] {
      assert AsksAt(userID, rate, interval, ttl, clock)[1..] == AsksAt(userID, rate, interval, ttl, clock[1..]);
      AllMine(userID, rate, interval, ttl, clock[1..]);
    }
  }

  ghost predicate AlwaysAsLocal(userID: int, rate: int, interval: int, ttl: int) {
    forall clock :: clock != [] && Sorted(clock) ==>
      RepliesTo(map[], AsksAt(userID, rate, interval, ttl, clock), userID)
        == LocalAnswers(rate, Given(interval, 10_000_000_000), clock)
  }

  /** For which settings that is so: exactly where the lifetime, in whole milliseconds, falls
      short of the interval by no more than the one millisecond an expiring key lives on. */
  lemma {:induction false} AlwaysAsLocalIff(userID: int, rate: int, interval: int, ttl: int)
    requires userID > 0 && rate > 0 && Given(interval, 10_000_000_000) >= 1_000_000
    ensures AlwaysAsLocal(userID, rate, interval, ttl) <==>
      && Given(ttl, 300_000_000_000) >= 1_000_000
      && Given(ttl, 300_000_000_000) / 1_000_000 + 1 >= Given(interval, 10_000_000_000) / 1_000_000
  {
    var s := Normal(rate, interval, ttl);
    forall clock | clock != [] && Sorted(clock)
      ensures RepliesTo(map[], AsksAt(userID, rate, interval, ttl, clock), userID) == Answers(s, None, clock)
      ensures s.GoneAfter() >= s.interval ==>
        Answers(s, None, clock) == LocalAnswers(rate, Given(interval, 10_000_000_000), clock)
    {
      AllMine(userID, rate, interval, ttl, clock);
      UsersAreIndependent(map[], AsksAt(userID, rate, interval, ttl, clock), userID, rate, interval, ttl);
      if s.GoneAfter() >= s.interval {
        RedisBucketIsLocalBucket(s, clock);
      }
    }
    if s.GoneAfter() < s.interval {
      BothBurstsAdmitted(s);
      LastingRefusesSecondBurst(s);
      LastingIsLocal(s, TwoBursts(s));
      assert Sorted(TwoBursts(s)) && TwoBursts(s) != [];
    }
  }

  /** An interval below a millisecond is sent as zero, and then nobody is refused. */
  lemma {:induction false} TinyIntervalNeverRefuses(
    m: Buckets, asks: seq<Ask>, userID: int, rate: int, interval: int, ttl: int)
    requires userID > 0 && rate > 0 && 0 < interval < 1_000_000
    requires Alike(OnlyUser(asks, userID), userID, rate, interval, ttl)
    ensures forall i :: 0 <= i < |RepliesTo(m, asks, userID)| ==> RepliesTo(m, asks, userID)[i]
    decreases |asks|
  {
    if asks != [] {
      var mine, rest := OnlyUser(asks, userID), OnlyUser(asks[1..], userID);
      if asks[0].userID == userID {
        assert mine[0] == asks[0] && mine[1..] == rest;
      } else {
        assert mine == rest;
      }
      TinyIntervalNeverRefuses(Acquire(m, asks[0]).0, asks[1..], userID, rate, interval, ttl);
    }
  }

  /** The hashes of all users, and the result keys of the requests. */
  class RedisStore {
    var buckets: Buckets
    var results: map<string, Stored>

    constructor ()
      ensures buckets == map[] && results == map[]
    {
      buckets, results := map[], map[];
    }

    method TryAcquire(userID: int, rate: int, interval: int, ttl: int, now: int) returns (allowed: bool)
      modifies this`buckets
      ensures userID <= 0 || rate <= 0 ==> allowed && buckets == old(buckets)
      ensures (buckets, allowed) == Acquire(old(buckets), Ask(userID, rate, interval, ttl, now))
    {
      if userID <= 0 || rate <= 0 {
        return true;
      }
      var span := if interval <= 0 then DEFAULT_INTERVAL else interval;
      var lifetime := if ttl <= 0 then DEFAULT_TTL else ttl;
      var (e, ok) := Run(Settings(rate, span / MILLI, lifetime / MILLI), Lookup(buckets, userID), now);
      match e {
        case Some(entry) => buckets := buckets[userID := entry];
        case None => buckets := buckets - {userID};
      }
      return ok;
    }

    /** One pipeline for the script and the result key: PROCESSING is written whether or
        not the script admits the caller. */
    method TryAcquireAndSetProcessing(userID: int, rate: int, interval: int, ttl: int, resultKey: string, now: int)
      returns (allowed: bool)
      modifies this
      ensures userID <= 0 || rate <= 0 ==> allowed && buckets == old(buckets)
      ensures (buckets, allowed) == Acquire(old(buckets), Ask(userID, rate, interval, ttl, now))
      ensures results ==
        if userID <= 0 || rate <= 0 then old(results)
        else old(results)[resultKey := Stored(PROCESSING, now + RESULT_TTL / MILLI)]
    {
      allowed := TryAcquire(userID, rate, interval, ttl, now);
      if userID > 0 && rate > 0 {
        results := results[resultKey := Stored(PROCESSING, now + RESULT_TTL / MILLI)];
      }
    }
  }
}
