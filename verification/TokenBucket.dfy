/** The in-process token bucket of the gateway. Times are integer nanoseconds, token
    counts exact reals. `Bucket` is the value a limiter holds, `Call` is one admission
    decision on it, and `RateLimiter` is the object whose method updates it in place. */
module TokenBucket {
  import opened Prelude

  const SECOND := 1_000_000_000

  function Seconds(d: int): real {
    d as real / 1_000_000_000.0
  }

  /** What `d` nanoseconds add at a given rate, before the cap. */
  function Gain(rate: real, d: int): real {
    Seconds(d) * rate
  }

  datatype Bucket = Bucket(limit: int, interval: int, rate: real, tokens: real, last: int) {
    function Capacity(): real {
      limit as real
    }

    /** Holds between 0 and capacity tokens. */
    predicate InBounds() {
      rate >= 0.0 && 0.0 <= tokens <= Capacity()
    }

    predicate Valid() {
      && limit > 0
      && interval > 0
      && rate == Capacity() / Seconds(interval)
      && 0.0 <= tokens <= Capacity()
    }
  }

  function NormalInterval(interval: int): int {
    if interval <= 0 then SECOND else interval
  }

  /** A new limiter starts full; a non-positive limit counts as one, a non-positive
      interval as one second. */
  function Fresh(limit: int, interval: int, now: int): (b: Bucket)
    ensures b.Valid()
  {
    var n := if limit <= 0 then 1 else limit;
    var iv := NormalInterval(interval);
    Bucket(n, iv, n as real / Seconds(iv), n as real, now)
  }

  /** A clock that did not advance past `last` adds nothing and leaves `last` alone. */
  function Refill(b: Bucket, now: int): Bucket {
    if now > b.last then
      b.(tokens := Min(b.tokens + Gain(b.rate, now - b.last), b.Capacity()), last := now)
    else
      b
  }

  function Call(b: Bucket, now: int): (Bucket, bool) {
    var filled := Refill(b, now);
    if filled.tokens < 1.0 then (filled, false)
    else (filled.(tokens := filled.tokens - 1.0), true)
  }

  predicate SameSettings(b: Bucket, c: Bucket) {
    b.limit == c.limit && b.interval == c.interval && b.rate == c.rate
  }

  /** The bucket after a sequence of calls with the given clock readings. */
  function After(b: Bucket, clock: seq<int>): (r: Bucket)
    ensures SameSettings(b, r)
    decreases |clock|
  {
    if clock == [] then b else After(Call(b, clock[0]).0, clock[1..])
  }

  /** The answers of that sequence of calls. */
  function Answers(b: Bucket, clock: seq<int>): (r: seq<bool>)
    ensures |r| == |clock|
    decreases |clock|
  {
    if clock == [] then []
    else [Call(b, clock[0]).1] + Answers(Call(b, clock[0]).0, clock[1..])
  }

  // ---------------------------------------------------------------------------
  // Arithmetic of refilling
  // ---------------------------------------------------------------------------

  lemma GainIsNonNegative(rate: real, d: int)
    requires rate >= 0.0 && d >= 0
    ensures Gain(rate, d) >= 0.0
  {
  }

  lemma GainAdds(rate: real, d: int, e: int)
    ensures Gain(rate, d) + Gain(rate, e) == Gain(rate, d + e)
  {
    assert Seconds(d) + Seconds(e) == Seconds(d + e);
  }

  lemma ValidRate(b: Bucket)
    requires b.Valid()
    ensures b.InBounds() && Gain(b.rate, b.interval) == b.Capacity()
  {
  }

  /** limit + d * limit / interval: a full bucket and what `d` nanoseconds add to it. */
  function Allowance(b: Bucket, d: int): real
    requires b.interval > 0
  {
    b.limit as real + d as real * b.limit as real / b.interval as real
  }

  /** `d` nanoseconds refill exactly limit * d / interval tokens. */
  lemma GainIsProportional(b: Bucket, d: int)
    requires b.Valid()
    ensures b.Capacity() + Gain(b.rate, d) == Allowance(b, d)
  {
    ValidRate(b);
    ScaledRatio(b.rate, Seconds(b.interval), b.Capacity(), Seconds(d), b.interval as real, d as real);
  }

  /** In the caller's own numbers, one call and one second where none are given: a new limiter
      holds the limit, gains it again in one interval, and in proportion in any time. */
  lemma {:induction false} FreshAllowance(limit: int, interval: int, now: int, d: int)
    ensures var b := Fresh(limit, interval, now);
            var n := if limit <= 0 then 1.0 else limit as real;
            var span := if interval <= 0 then 1_000_000_000 else interval;
            && b.tokens == n && b.last == now
            && Gain(b.rate, span) == n
            && Gain(b.rate, d) == d as real * n / span as real
            && Allowance(b, d) == n + d as real * n / span as real
  {
    ValidRate(Fresh(limit, interval, now));
    GainIsProportional(Fresh(limit, interval, now), d);
  }

  lemma ScaledRatio(rate: real, s: real, cap: real, e: real, iv: real, n: real)
    requires iv > 0.0 && rate * s == cap
    requires s == iv / 1_000_000_000.0 && e == n / 1_000_000_000.0
    ensures e * rate == n * cap / iv
  {
    assert e * iv == n * s;
    assert (e * rate) * iv == (e * iv) * rate;
    assert (n * s) * rate == n * (rate * s);
    assert (e * rate) * iv == n * cap;
  }

  /** 0 <= tokens <= capacity throughout every run, whatever the clock does. */
  lemma {:induction false} RunStaysInBounds(b: Bucket, clock: seq<int>)
    requires b.InBounds()
    ensures After(b, clock).InBounds()
    decreases |clock|
  {
    if clock != [] {
      CallStaysInBounds(b, clock[0]);
      RunStaysInBounds(Call(b, clock[0]).0, clock[1..]);
    }
  }

  lemma CallStaysInBounds(b: Bucket, now: int)
    requires b.InBounds()
    ensures Call(b, now).0.InBounds() && SameSettings(b, Call(b, now).0)
  {
    if now > b.last {
      GainIsNonNegative(b.rate, now - b.last);
    }
  }

  // ---------------------------------------------------------------------------
  // Runs split into segments
  // ---------------------------------------------------------------------------

  lemma {:induction false} RunSplits(b: Bucket, clock: seq<int>, i: nat)
    requires i <= |clock|
    ensures After(b, clock) == After(After(b, clock[..i]), clock[i..])
    ensures Answers(b, clock) == Answers(b, clock[..i]) + Answers(After(b, clock[..i]), clock[i..])
    decreases i
  {
    if i == 0 {
      assert clock[..0] == [] && clock[0..] == clock;
    } else {
      var next := Call(b, clock[0]).0;
      assert clock[..i][1..] == clock[1..][..i - 1];
      assert clock[1..][i - 1..] == clock[i..];
      RunSplits(next, clock[1..], i - 1);
    }
  }

  /** `last` is the latest reading seen so far, whatever order the readings come in. */
  lemma {:induction false} LastIsLatestReading(b: Bucket, clock: seq<int>)
    ensures After(b, clock).last >= b.last
    ensures forall i :: 0 <= i < |clock| ==> clock[i] <= After(b, clock).last
    ensures After(b, clock).last == b.last || After(b, clock).last in clock
    decreases |clock|
  {
    if clock != [] {
      var next := Call(b, clock[0]).0;
      LastIsLatestReading(next, clock[1..]);
      assert clock == [clock[0]] + clock[1..];
    }
  }

  // ---------------------------------------------------------------------------
  // Upper bound
  // ---------------------------------------------------------------------------

  lemma CallSpendsTokens(b: Bucket, now: int)
    ensures (if Call(b, now).1 then 1.0 else 0.0) + Call(b, now).0.tokens
         <= b.tokens + Gain(b.rate, Call(b, now).0.last - b.last)
  {
  }

  /** Tokens are conserved up to overflow: what is admitted plus what is left never
      exceeds what was there plus what time added. */
  lemma {:induction false} AdmissionsSpendTokens(b: Bucket, clock: seq<int>)
    ensures CountTrue(Answers(b, clock)) as real + After(b, clock).tokens
         <= b.tokens + Gain(b.rate, After(b, clock).last - b.last)
    decreases |clock|
  {
    if clock != [] {
      var next := Call(b, clock[0]).0;
      AdmissionsSpendTokens(next, clock[1..]);
      assert Answers(b, clock)[1..] == Answers(next, clock[1..]);
      GainAdds(b.rate, next.last - b.last, After(b, clock).last - next.last);
      CallSpendsTokens(b, clock[0]);
    }
  }

  /** In every run, under a clock that may even step back, the calls i..j-1 are admitted
      at most limit + (last_j - last_i) * limit / interval times, where last_i is the
      latest reading up to and including call i. */
  lemma {:induction false} AdmissionsBounded(b: Bucket, clock: seq<int>, i: nat, j: nat)
    requires b.Valid() && i < j <= |clock|
    ensures var first := After(b, clock[..i + 1]).last;
            var final := After(b, clock[..j]).last;
            CountTrue(Answers(b, clock)[i..j]) as real <= Allowance(b, final - first)
  {
    hide Gain, Allowance, CountTrue, Call, Answers;
    ValidRate(b);
    var before, segment := After(b, clock[..i]), clock[i..j];
    SegmentOfRun(b, clock, i, j);
    SegmentOfRun(b, clock, i, i + 1);
    assert clock[i..i + 1] == segment[..1];
    RunStaysInBounds(b, clock[..i]);
    SegmentBounded(before, segment);
    GainIsProportional(b, After(before, segment).last - After(before, segment[..1]).last);
  }

  /** In clock readings, when the clock does not step back. */
  lemma {:induction false} AdmissionsBoundedByClock(b: Bucket, clock: seq<int>, i: nat, j: nat)
    requires b.Valid() && i < j <= |clock| && NonDecreasingFrom(b.last, clock)
    ensures CountTrue(Answers(b, clock)[i..j]) as real <= Allowance(b, clock[j - 1] - clock[i])
  {
    hide Bucket.Valid, After, Answers, CountTrue, Allowance;
    LastIsLatestReading(b, clock[..i + 1]);
    LastIsLatestReading(b, clock[..j]);
    assert clock[..i + 1][i] == clock[i] && clock[..j][j - 1] == clock[j - 1];
    assert After(b, clock[..i + 1]).last == clock[i];
    assert After(b, clock[..j]).last == clock[j - 1];
    AdmissionsBounded(b, clock, i, j);
  }

  lemma {:induction false} SegmentOfRun(b: Bucket, clock: seq<int>, i: nat, j: nat)
    requires i <= j <= |clock|
    ensures After(b, clock[..j]) == After(After(b, clock[..i]), clock[i..j])
    ensures Answers(b, clock)[i..j] == Answers(After(b, clock[..i]), clock[i..j])
  {
    RunSplits(b, clock[..j], i);
    assert clock[..j][..i] == clock[..i] && clock[..j][i..] == clock[i..j];
    RunSplits(b, clock, j);
    assert Answers(b, clock)[..j] == Answers(b, clock[..j]);
    assert Answers(b, clock)[i..j] == Answers(b, clock)[..j][i..];
  }

  /** A run from any in-bounds state: the first call finds at most a full bucket. */
  lemma {:induction false} SegmentBounded(b: Bucket, clock: seq<int>)
    requires b.InBounds() && clock != []
    ensures CountTrue(Answers(b, clock)) as real
         <= b.Capacity() + Gain(b.rate, After(b, clock).last - After(b, clock[..1]).last)
  {
    hide Gain;
    var entered := Call(b, clock[0]).0;
    CallStaysInBounds(b, clock[0]);
    assert clock[..1][1..] == [] && After(b, clock[..1]) == After(entered, []) == entered;
    assert Answers(b, clock)[1..] == Answers(entered, clock[1..]);
    AdmissionsSpendTokens(entered, clock[1..]);
    RunStaysInBounds(entered, clock[1..]);
  }

  // ---------------------------------------------------------------------------
  // Refusal only with cause
  // ---------------------------------------------------------------------------

  /** Admissions of a run made when the bucket's own time was later than `w`. */
  function AdmittedSince(b: Bucket, clock: seq<int>, w: int): nat
    decreases |clock|
  {
    if clock == [] then 0
    else
      var r := Call(b, clock[0]);
      (if r.1 && r.0.last > w then 1 else 0) + AdmittedSince(r.0, clock[1..], w)
  }

  /** Against any starting point `w`, tokens plus admissions since `w` make up at least
      what an empty bucket would have gained since `w`. */
  lemma {:induction false} TokensAccountedFor(b: Bucket, clock: seq<int>, w: int, already: nat)
    requires b.InBounds()
    requires b.tokens + already as real >= Min(b.Capacity(), Gain(b.rate, b.last - w))
    ensures After(b, clock).tokens + (already + AdmittedSince(b, clock, w)) as real
         >= Min(b.Capacity(), Gain(b.rate, After(b, clock).last - w))
    decreases |clock|
  {
    hide Gain;
    if clock != [] {
      var r := Call(b, clock[0]);
      CallAccountsForTokens(b, clock[0], w, already);
      CallStaysInBounds(b, clock[0]);
      TokensAccountedFor(r.0, clock[1..], w, already + if r.1 && r.0.last > w then 1 else 0);
    }
  }

  lemma CallAccountsForTokens(b: Bucket, now: int, w: int, already: nat)
    requires b.InBounds()
    requires b.tokens + already as real >= Min(b.Capacity(), Gain(b.rate, b.last - w))
    ensures var r := Call(b, now);
            r.0.tokens + (already + if r.1 && r.0.last > w then 1 else 0) as real
              >= Min(b.Capacity(), Gain(b.rate, r.0.last - w))
  {
    var r := Call(b, now);
    CallStaysInBounds(b, now);
    if r.0.last <= w {
      GainIsNonNegative(b.rate, w - r.0.last);
      GainAdds(b.rate, w - r.0.last, r.0.last - w);
    } else {
      GainAdds(b.rate, r.0.last - b.last, b.last - w);
      GainIsNonNegative(b.rate, r.0.last - b.last);
    }
  }

  /** A refused call, in any run of a limiter since its construction: at least `limit`
      calls were admitted during the interval that ends at the refusal. */
  lemma {:induction false} RefusedOnlyWithCause(limit: int, interval: int, born: int, clock: seq<int>, now: int)
    requires limit > 0 && interval > 0
    ensures var b := Fresh(limit, interval, born);
            var (after, allowed) := Call(After(b, clock), now);
            allowed || AdmittedSince(b, clock, after.last - interval) >= limit
  {
    hide Gain;
    var b := Fresh(limit, interval, born);
    var before := After(b, clock);
    if Call(before, now).1 {
      return;
    }
    var w := Call(before, now).0.last - interval;
    ValidRate(b);
    if b.last > w {
      GainIsNonNegative(b.rate, b.last - w);
    }
    TokensAccountedFor(b, clock, w, 0);
    RunStaysInBounds(b, clock);
    CallAccountsForTokens(before, now, w, AdmittedSince(b, clock, w));
  }

  /** Positions of the calls admitted after time `w`. */
  function AdmittedAfter(answers: seq<bool>, clock: seq<int>, w: int): nat
    requires |answers| == |clock|
  {
    if clock == [] then 0
    else (if answers[0] && clock[0] > w then 1 else 0) + AdmittedAfter(answers[1..], clock[1..], w)
  }

  lemma {:induction false} AdmittedSinceIsByClock(b: Bucket, clock: seq<int>, w: int)
    requires NonDecreasingFrom(b.last, clock)
    ensures AdmittedSince(b, clock, w) == AdmittedAfter(Answers(b, clock), clock, w)
    decreases |clock|
  {
    if clock != [] {
      var r := Call(b, clock[0]);
      assert NonDecreasingFrom(r.0.last, clock[1..]);
      AdmittedSinceIsByClock(r.0, clock[1..], w);
      assert Answers(b, clock)[1..] == Answers(r.0, clock[1..]);
    }
  }

  /** The same in clock readings: under a non-decreasing clock a refusal at time `now`
      means at least `limit` admissions with readings in (now - interval, now]. */
  lemma {:induction false} RefusalMeansBusyInterval(limit: int, interval: int, born: int, clock: seq<int>, now: int)
    requires limit > 0 && interval > 0
    requires NonDecreasingFrom(born, clock + [now])
    ensures var b := Fresh(limit, interval, born);
            Call(After(b, clock), now).1 || AdmittedAfter(Answers(b, clock), clock, now - interval) >= limit
  {
    var b := Fresh(limit, interval, born);
    if Call(After(b, clock), now).1 {
      return;
    }
    var all := clock + [now];
    assert all[|clock|] == now;
    assert forall i :: 0 <= i < |clock| ==> clock[i] == all[i];
    assert NonDecreasingFrom(born, clock);
    LastIsLatestReading(b, clock);
    assert After(b, clock).last <= now;
    RefusedOnlyWithCause(limit, interval, born, clock, now);
    AdmittedSinceIsByClock(b, clock, now - interval);
  }

  /** The same for any refused call of a run. */
  lemma {:induction false} RefusalInRun(limit: int, interval: int, born: int, clock: seq<int>, i: nat)
    requires limit > 0 && interval > 0 && i < |clock| && NonDecreasingFrom(born, clock)
    ensures var answers := Answers(Fresh(limit, interval, born), clock);
            answers[i] || AdmittedAfter(answers[..i], clock[..i], clock[i] - interval) >= limit
  {
    var b := Fresh(limit, interval, born);
    RunSplits(b, clock, i);
    hide Fresh, Call, AdmittedAfter;
    assert clock[i..][0] == clock[i];
    assert Answers(b, clock)[i] == Call(After(b, clock[..i]), clock[i]).1;
    assert Answers(b, clock)[..i] == Answers(b, clock[..i]);
    assert clock[..i] + [clock[i]] == clock[..i + 1];
    RefusalMeansBusyInterval(limit, interval, born, clock[..i], clock[i]);
  }

  // ---------------------------------------------------------------------------
  // The limiter object
  // ---------------------------------------------------------------------------

  class RateLimiter {
    /** The key this limiter serves; only its owning store looks at it. */
    ghost const key: string
    const limit: int
    const interval: int
    const rate: real
    const capacity: real
    var tokens: real
    var last: int

    ghost function Value(): Bucket
      reads this
    {
      Bucket(limit, interval, rate, tokens, last)
    }

    ghost predicate Valid()
      reads this
    {
      && Value().Valid()
      && capacity == Value().Capacity()
    }

    constructor (ghost key: string, limit: int, interval: int, now: int)
      ensures Valid() && this.key == key
      ensures Value() == Fresh(limit, interval, now)
    {
      var n := if limit <= 0 then 1 else limit;
      var iv := if interval <= 0 then SECOND else interval;
      this.key := key;
      this.limit := n;
      this.interval := iv;
      this.capacity := n as real;
      this.rate := n as real / Seconds(iv);
      this.tokens := n as real;
      this.last := now;
    }

    /** The requested interval is normalised, the requested limit is not. */
    predicate SameLimit(limit: int, interval: int)
      reads this
    {
      this.limit == limit && this.interval == NormalInterval(interval)
    }

    method Allow(now: int) returns (allowed: bool)
      requires Valid()
      modifies this`tokens, this`last
      ensures Valid()
      ensures (Value(), allowed) == Call(old(Value()), now)
    {
      CallStaysInBounds(Value(), now);
      ghost var before := Value();
      if now > last {
        tokens := tokens + Seconds(now - last) * rate;
        if tokens > capacity {
          tokens := capacity;
        }
        last := now;
      }
      if tokens < 1.0 {
        return false;
      }
      assert Value() == Refill(before, now);
      tokens := tokens - 1.0;
      return true;
    }
  }
}
