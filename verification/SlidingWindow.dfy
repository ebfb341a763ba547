/** The Redis sliding-window limiter. A call is two separate pipelines on one sorted set:
    the first trims and counts, the second records the admission and renews the key's
    expiry. Other calls may run in between, so one key is a protocol over steps.
    Times are integer milliseconds. */
module SlidingWindow {
  import opened Prelude

  const SECOND := 1_000 * MILLI

  /** A sorted set: members with their scores, and when the key expires. */
  datatype Window = Window(entries: map<nat, int>, deadline: Option<int>)

  const EMPTY := Window(map[], None)

  function Visible(w: Window, now: int): Window {
    if w.deadline.Some? && now > w.deadline.value then EMPTY else w
  }

  /** Entries with a score above `lo`. */
  function Above(m: map<nat, int>, lo: int): map<nat, int> {
    map k | k in m && m[k] > lo :: m[k]
  }

  /** First pipeline: drop everything up to now - interval and count the rest. An empty
      sorted set does not exist, and loses its expiry with it. */
  function TrimAndCount(w: Window, interval: int, now: int): (Window, nat) {
    var kept := Above(Visible(w, now).entries, now - interval);
    (if kept == map[] then EMPTY else Window(kept, Visible(w, now).deadline), |kept|)
  }

  /** Second pipeline: add the call under its own reading and renew the expiry. */
  function Record(w: Window, expiry: int, member: nat, reading: int, now: int): Window {
    Window(Visible(w, now).entries[member := reading], Some(now + expiry))
  }

  // ---------------------------------------------------------------------------
  // The protocol on one key
  // ---------------------------------------------------------------------------

  /** The key expires no sooner than the interval has passed. */
  datatype Config = Config(limit: int, interval: int, expiry: int) {
    predicate Valid() {
      limit > 0 && 0 <= interval <= expiry
    }
  }

  /** `pending` holds the callers between their two pipelines; `recorded` is the full
      history of recorded admissions, which no trimming or expiry touches. */
  datatype State = State(window: Window, pending: map<nat, int>, recorded: map<nat, int>, clock: int) {
    function Admitted(): map<nat, int> {
      recorded + pending
    }
  }

  datatype Event =
    | Enter(member: nat, now: int)
    | Finish(member: nat, now: int)
    | FinishFails(member: nat, now: int)

  function Start(clock: int): State {
    State(EMPTY, map[], map[], clock)
  }

  function Admits(c: Config, s: State, now: int): bool {
    TrimAndCount(s.window, c.interval, now).1 < c.limit
  }

  /** The clock does not step back, and members are never reused. */
  predicate Enabled(s: State, e: Event) {
    && s.clock <= e.now
    && match e
       case Enter(m, _) => m !in s.Admitted()
       case Finish(m, _) => m in s.pending
       case FinishFails(m, _) => m in s.pending
  }

  function Next(c: Config, s: State, e: Event): State
    requires Enabled(s, e)
  {
    match e
    case Enter(m, now) =>
      var trimmed := TrimAndCount(s.window, c.interval, now).0;
      State(trimmed, if Admits(c, s, now) then s.pending[m := now] else s.pending, s.recorded, now)
    case Finish(m, now) =>
      State(Record(s.window, c.expiry, m, s.pending[m], now),
            s.pending - {m}, s.recorded[m := s.pending[m]], now)
    case FinishFails(m, now) =>
      State(s.window, s.pending - {m}, s.recorded, now)
  }

  /** A run in which at most `c` callers are ever between their two pipelines. */
  ghost predicate Reaches(c: Config, overlap: nat, from: State, run: seq<Event>, to: State)
    decreases |run|
  {
    if run == [] then from == to
    else
      && Enabled(from, run[0])
      && |Next(c, from, run[0]).pending| <= overlap
      && Reaches(c, overlap, Next(c, from, run[0]), run[1..], to)
  }

  // ---------------------------------------------------------------------------
  // Trimming and expiry change no answer
  // ---------------------------------------------------------------------------

  ghost predicate Consistent(c: Config, s: State) {
    && s.recorded.Keys !! s.pending.Keys
    && (forall k :: k in s.recorded ==> s.recorded[k] <= s.clock)
    && (forall k :: k in s.pending ==> s.pending[k] <= s.clock)
    && (forall k :: k in s.window.entries ==> k in s.recorded && s.recorded[k] == s.window.entries[k])
    && (forall k :: k in s.recorded && s.recorded[k] > s.clock - c.interval ==> k in s.window.entries)
    && match s.window.deadline
       case None => s.window.entries == map[]
       case Some(d) => forall k :: k in s.recorded ==> s.recorded[k] + c.expiry <= d
  }

  lemma VisibleIsEnough(c: Config, s: State, now: int)
    requires c.Valid() && Consistent(c, s) && s.clock <= now
    ensures Above(Visible(s.window, now).entries, now - c.interval) == Above(s.recorded, now - c.interval)
  {
  }

  /** The count of the first pipeline is the count over the full history: neither earlier
      trimming nor the expiry of the key ever changes an answer. */
  lemma AnswerIsByHistory(c: Config, s: State, now: int)
    requires c.Valid() && Consistent(c, s) && s.clock <= now
    ensures Admits(c, s, now) <==> |Above(s.recorded, now - c.interval)| < c.limit
  {
    VisibleIsEnough(c, s, now);
  }

  lemma StepKeepsConsistent(c: Config, s: State, e: Event)
    requires c.Valid() && Consistent(c, s) && Enabled(s, e)
    ensures Consistent(c, Next(c, s, e))
  {
    if e.Enter? {
      VisibleIsEnough(c, s, e.now);
    }
  }

  lemma {:induction false} RunKeepsConsistent(c: Config, overlap: nat, from: State, run: seq<Event>, to: State)
    requires c.Valid() && Consistent(c, from) && Reaches(c, overlap, from, run, to)
    ensures Consistent(c, to)
    decreases |run|
  {
    if run != [] {
      StepKeepsConsistent(c, from, run[0]);
      RunKeepsConsistent(c, overlap, Next(c, from, run[0]), run[1..], to);
    }
  }

  // ---------------------------------------------------------------------------
  // How far the window overshoots
  // ---------------------------------------------------------------------------

  /** The admissions with readings in (end - interval, end]. */
  function Within(m: map<nat, int>, interval: int, end: int): set<nat> {
    set k | k in m && end - interval < m[k] <= end
  }

  ghost predicate Bounded(c: Config, overlap: nat, s: State) {
    forall end :: |Within(s.Admitted(), c.interval, end)| <= c.limit + overlap - 1
  }

  lemma SubsetSize<T>(a: set<T>, b: set<T>)
    requires a <= b
    ensures |a| <= |b|
  {
    assert b == a + (b - a);
  }

  /** Whoever is in a window that also holds a call admitted now was either counted by
      that call's first pipeline or is itself between its two pipelines. */
  lemma {:induction false} NewAdmissionFits(c: Config, overlap: nat, s: State, now: int, end: int)
    requires c.Valid() && Consistent(c, s) && s.clock <= now <= end
    requires Admits(c, s, now) && |s.pending| < overlap
    ensures |Within(s.Admitted(), c.interval, end)| <= c.limit - 1 + overlap - 1
  {
    AnswerIsByHistory(c, s, now);
    hide TrimAndCount, Admits, Consistent;
    var recent := Above(s.recorded, now - c.interval);
    SubsetSize(Within(s.Admitted(), c.interval, end), recent.Keys + s.pending.Keys);
    assert |recent.Keys| == |recent| && |s.pending.Keys| == |s.pending|;
  }

  lemma {:induction false} EnterKeepsBounded(c: Config, overlap: nat, s: State, e: Event, end: int)
    requires c.Valid() && Consistent(c, s) && Enabled(s, e) && e.Enter?
    requires |Within(s.Admitted(), c.interval, end)| <= c.limit + overlap - 1
    requires |Next(c, s, e).pending| <= overlap && overlap > 0
    ensures |Within(Next(c, s, e).Admitted(), c.interval, end)| <= c.limit + overlap - 1
  {
    hide TrimAndCount, Consistent, Within, Admits;
    if Admits(c, s, e.now) {
      EnterAdmits(c, s, e);
      WithinGrowsByOne(s.Admitted(), c.interval, e.member, e.now, end);
      if e.now <= end {
        NewAdmissionFits(c, overlap, s, e.now, end);
      }
    }
  }

  lemma EnterAdmits(c: Config, s: State, e: Event)
    requires Enabled(s, e) && e.Enter? && Admits(c, s, e.now)
    ensures Next(c, s, e).Admitted() == s.Admitted()[e.member := e.now]
    ensures |Next(c, s, e).pending| == |s.pending| + 1
  {
    hide TrimAndCount, Admits;
    UpdateRight(s.recorded, s.pending, e.member, e.now);
    GrowsByOne(s.pending, e.member, e.now);
  }

  lemma UpdateRight(m: map<nat, int>, n: map<nat, int>, k: nat, v: int)
    ensures m + n[k := v] == (m + n)[k := v]
  {
  }

  lemma GrowsByOne(m: map<nat, int>, k: nat, v: int)
    requires k !in m
    ensures |m[k := v]| == |m| + 1
  {
  }

  lemma WithinGrowsByOne(m: map<nat, int>, interval: int, member: nat, reading: int, end: int)
    ensures |Within(m[member := reading], interval, end)|
         <= |Within(m, interval, end)| + if reading <= end then 1 else 0
  {
    SubsetSize(Within(m[member := reading], interval, end),
               Within(m, interval, end) + if reading <= end then {member} else {});
  }

  lemma {:induction false} StepKeepsBounded(c: Config, overlap: nat, s: State, e: Event)
    requires c.Valid() && Consistent(c, s) && Enabled(s, e) && overlap > 0
    requires Bounded(c, overlap, s) && |Next(c, s, e).pending| <= overlap
    ensures Bounded(c, overlap, Next(c, s, e))
  {
    hide TrimAndCount, Admits;
    var s' := Next(c, s, e);
    forall end
      ensures |Within(s'.Admitted(), c.interval, end)| <= c.limit + overlap - 1
    {
      if e.Enter? {
        EnterKeepsBounded(c, overlap, s, e, end);
      } else {
        LeavingAddsNothing(c, s, e, end);
      }
    }
  }

  lemma LeavingAddsNothing(c: Config, s: State, e: Event, end: int)
    requires Enabled(s, e) && !e.Enter? && s.recorded.Keys !! s.pending.Keys
    ensures |Within(Next(c, s, e).Admitted(), c.interval, end)| <= |Within(s.Admitted(), c.interval, end)|
  {
    SubsetSize(Within(Next(c, s, e).Admitted(), c.interval, end), Within(s.Admitted(), c.interval, end));
  }

  lemma {:induction false} RunKeepsBounded(c: Config, overlap: nat, from: State, run: seq<Event>, to: State)
    requires c.Valid() && Consistent(c, from) && Bounded(c, overlap, from) && overlap > 0
    requires Reaches(c, overlap, from, run, to)
    ensures Consistent(c, to) && Bounded(c, overlap, to)
    decreases |run|
  {
    if run != [] {
      StepKeepsConsistent(c, from, run[0]);
      StepKeepsBounded(c, overlap, from, run[0]);
      RunKeepsBounded(c, overlap, Next(c, from, run[0]), run[1..], to);
    }
  }

  /** If at most `overlap` callers are ever between the two pipelines, no window of one
      interval ever holds more than limit + overlap - 1 recorded admissions. */
  lemma {:induction false} WindowBound(c: Config, overlap: nat, clock: int, run: seq<Event>, to: State, end: int)
    requires c.Valid() && overlap > 0 && Reaches(c, overlap, Start(clock), run, to)
    ensures |Within(to.recorded, c.interval, end)| <= c.limit + overlap - 1
  {
    assert forall t :: Within(Start(clock).Admitted(), c.interval, t) == {};
    RunKeepsBounded(c, overlap, Start(clock), run, to);
    SubsetSize(Within(to.recorded, c.interval, end), Within(to.Admitted(), c.interval, end));
  }

  /** In every run, a call is let through exactly if fewer than `limit` admissions have been
      recorded in the interval that ends with it. */
  lemma {:induction false} AdmittedExactlyIf(
    c: Config, overlap: nat, clock: int, run: seq<Event>, to: State, now: int)
    requires c.Valid() && Reaches(c, overlap, Start(clock), run, to) && to.clock <= now
    ensures Admits(c, to, now) <==> |Within(to.recorded, c.interval, now)| < c.limit
  {
    RunKeepsConsistent(c, overlap, Start(clock), run, to);
    AnswerIsByHistory(c, to, now);
    assert Within(to.recorded, c.interval, now) == Above(to.recorded, now - c.interval).Keys;
    assert |Above(to.recorded, now - c.interval).Keys| == |Above(to.recorded, now - c.interval)|;
  }

  // ---------------------------------------------------------------------------
  // The bound is attained
  // ---------------------------------------------------------------------------

  function Range(lo: nat, hi: nat): (m: map<nat, int>)
    ensures forall k :: k in m <==> lo <= k < hi
    ensures forall k :: k in m ==> m[k] == 0
    ensures lo <= hi ==> |m| == hi - lo
  {
    if hi <= lo then map[] else Range(lo, hi - 1)[hi - 1 := 0]
  }

  /** At time 0, members 0..done-1 are recorded and done..entered-1 are in between. */
  function Crowd(c: Config, done: nat, entered: nat): State {
    State(if done == 0 then EMPTY else Window(Range(0, done), Some(c.expiry)),
          Range(done, entered), Range(0, done), 0)
  }

  lemma {:induction false} CrowdEnter(c: Config, done: nat, entered: nat)
    requires c.Valid() && c.interval > 0 && done <= entered && done < c.limit
    ensures Enabled(Crowd(c, done, entered), Enter(entered, 0))
    ensures Next(c, Crowd(c, done, entered), Enter(entered, 0)) == Crowd(c, done, entered + 1)
  {
    CrowdCount(c, done, entered);
    assert Range(done, entered)[entered := 0] == Range(done, entered + 1);
    hide TrimAndCount, Range;
  }

  /** At time 0 the first pipeline trims nothing. */
  lemma CrowdCount(c: Config, done: nat, entered: nat)
    requires c.Valid() && c.interval > 0
    ensures TrimAndCount(Crowd(c, done, entered).window, c.interval, 0) == (Crowd(c, done, entered).window, done)
  {
    hide Range;
    assert Above(Range(0, done), -c.interval) == Range(0, done);
    if done > 0 {
      assert 0 in Range(0, done);
    } else {
      assert Above(map[], -c.interval) == map[];
    }
  }

  lemma {:induction false} CrowdFinish(c: Config, done: nat, entered: nat)
    requires c.Valid() && done < entered
    ensures Enabled(Crowd(c, done, entered), Finish(done, 0))
    ensures Next(c, Crowd(c, done, entered), Finish(done, 0)) == Crowd(c, done + 1, entered)
  {
    hide TrimAndCount, Range;
    DropFirst(done, entered);
    ExtendRange(done);
  }

  lemma DropFirst(lo: nat, hi: nat)
    requires lo < hi
    ensures lo in Range(lo, hi) && Range(lo, hi)[lo] == 0
    ensures Range(lo, hi) - {lo} == Range(lo + 1, hi)
  {
    assert (Range(lo, hi) - {lo}).Keys == Range(lo + 1, hi).Keys;
  }

  lemma ExtendRange(n: nat)
    ensures Range(0, n)[n := 0] == Range(0, n + 1)
    ensures n == 0 ==> Range(0, n) == map[]
  {
  }

  ghost predicate CrowdReachable(c: Config, overlap: nat, done: nat, entered: nat) {
    exists run :: Reaches(c, overlap, Start(0), run, Crowd(c, done, entered))
  }

  lemma {:induction false} ReachesOneMore(c: Config, overlap: nat, from: State, run: seq<Event>, mid: State, e: Event)
    requires Reaches(c, overlap, from, run, mid)
    requires Enabled(mid, e) && |Next(c, mid, e).pending| <= overlap
    ensures Reaches(c, overlap, from, run + [e], Next(c, mid, e))
    decreases |run|
  {
    hide Next, Enabled;
    if run == [] {
      assert (run + [e])[1..] == [];
      assert Reaches(c, overlap, Next(c, mid, e), [], Next(c, mid, e));
    } else {
      assert (run + [e])[1..] == run[1..] + [e];
      ReachesOneMore(c, overlap, Next(c, from, run[0]), run[1..], mid, e);
    }
  }

  lemma {:induction false} OneMoreEnters(c: Config, overlap: nat, done: nat, entered: nat)
    requires c.Valid() && c.interval > 0 && done <= entered && done < c.limit
    requires entered - done < overlap && CrowdReachable(c, overlap, done, entered)
    ensures CrowdReachable(c, overlap, done, entered + 1)
  {
    hide Next, Enabled, Crowd;
    var run :| Reaches(c, overlap, Start(0), run, Crowd(c, done, entered));
    CrowdEnter(c, done, entered);
    CrowdPending(c, done, entered + 1);
    ReachesOneMore(c, overlap, Start(0), run, Crowd(c, done, entered), Enter(entered, 0));
  }

  lemma {:induction false} OneMoreFinishes(c: Config, overlap: nat, done: nat, entered: nat)
    requires c.Valid() && done < entered <= done + overlap && CrowdReachable(c, overlap, done, entered)
    ensures CrowdReachable(c, overlap, done + 1, entered)
  {
    hide Next, Enabled, Crowd;
    var run :| Reaches(c, overlap, Start(0), run, Crowd(c, done, entered));
    CrowdFinish(c, done, entered);
    CrowdPending(c, done + 1, entered);
    ReachesOneMore(c, overlap, Start(0), run, Crowd(c, done, entered), Finish(done, 0));
  }

  lemma CrowdPending(c: Config, done: nat, entered: nat)
    requires done <= entered
    ensures |Crowd(c, done, entered).pending| == entered - done
  {
  }

  /** For every limit and every degree of overlap some run fills one window with exactly
      limit + overlap - 1 recorded admissions, so the bound cannot be improved; with
      calls that never overlap it is the limit itself. */
  lemma {:induction false} WindowBoundAttained(c: Config, overlap: nat) returns (run: seq<Event>, to: State)
    requires c.Valid() && c.interval > 0 && overlap > 0
    ensures Reaches(c, overlap, Start(0), run, to)
    ensures |Within(to.recorded, c.interval, 0)| == c.limit + overlap - 1
  {
    hide Next, Enabled, Reaches;
    var last, all := c.limit - 1, c.limit - 1 + overlap;
    NobodyYet(c, overlap);
    for k := 0 to last
      invariant CrowdReachable(c, overlap, k, k)
    {
      OneMoreEnters(c, overlap, k, k);
      OneMoreFinishes(c, overlap, k, k + 1);
    }
    for k := last to all
      invariant CrowdReachable(c, overlap, last, k)
    {
      OneMoreEnters(c, overlap, last, k);
    }
    for k := last to all
      invariant CrowdReachable(c, overlap, k, all)
    {
      OneMoreFinishes(c, overlap, k, all);
    }
    to := Crowd(c, all, all);
    run :| Reaches(c, overlap, Start(0), run, to);
    assert Within(to.recorded, c.interval, 0) == Range(0, all).Keys;
    assert |Range(0, all).Keys| == |Range(0, all)|;
  }

  lemma NobodyYet(c: Config, overlap: nat)
    ensures CrowdReachable(c, overlap, 0, 0)
  {
    assert Reaches(c, overlap, Start(0), [], Crowd(c, 0, 0));
  }

  // ---------------------------------------------------------------------------
  // The store
  // ---------------------------------------------------------------------------

  /** What the first pipeline decides: answer at once, or go on to record. */
  datatype Verdict = Answer(allowed: bool) | GoOn

  function At(windows: map<string, Window>, key: string): Window {
    if key in windows then windows[key] else EMPTY
  }

  function NormalInterval(interval: int): int {
    if interval <= 0 then SECOND else interval
  }

  /** The window in whole milliseconds, cut after the default is filled in. */
  function WindowOf(interval: int): int {
    NormalInterval(interval) / MILLI
  }

  /** The expiry, interval plus five seconds, is sent in whole seconds. */
  function ExpiryOf(interval: int): int {
    (NormalInterval(interval) + 5 * SECOND) / SECOND * 1_000
  }

  /** The protocol as the store runs it, with the interval in nanoseconds. */
  function AsConfigured(limit: int, interval: int): Config {
    Config(limit, WindowOf(interval), ExpiryOf(interval))
  }

  /** What the store asks for always meets the protocol's needs, with more than four seconds
      to spare; for an interval below a millisecond the window is empty. */
  lemma SettingsAreValid(limit: int, interval: int)
    requires limit > 0
    ensures AsConfigured(limit, interval).Valid()
    ensures WindowOf(interval) + 4_000 < ExpiryOf(interval) + 1 <= WindowOf(interval) + 5_001
    ensures WindowOf(interval) == 0 <==> 0 < interval < MILLI
  {
  }

  /** An empty window counts nothing, so such a limiter refuses nobody. */
  lemma EmptyWindowAdmits(c: Config, s: State, now: int)
    requires c.Valid() && c.interval == 0 && Consistent(c, s) && s.clock <= now
    ensures Admits(c, s, now)
  {
    AnswerIsByHistory(c, s, now);
    assert Above(s.recorded, now) == map[];
  }

  /** The recorded admissions in the `span` nanoseconds up to and including `end`. */
  function WithinNanos(m: map<nat, int>, span: int, end: int): set<nat> {
    set k | k in m && end * 1_000_000 - span < m[k] * 1_000_000 <= end * 1_000_000
  }

  lemma WholeMillis(interval: int, millis: int)
    requires interval <= 0 || interval == millis * 1_000_000
    ensures WindowOf(interval) * 1_000_000 == if interval <= 0 then 1_000_000_000 else interval
  {
  }

  /** In the caller's nanoseconds, one second where no interval is given: in every run no
      window of one interval holds more than limit + overlap - 1 recorded admissions, and a
      call is let through exactly if the one that ends with it holds fewer than the limit. */
  lemma {:induction false} IntervalBound(
    limit: int, interval: int, millis: int, overlap: nat, clock: int, run: seq<Event>, to: State, end: int)
    requires limit > 0 && overlap > 0 && (interval <= 0 || interval == millis * 1_000_000)
    requires Reaches(AsConfigured(limit, interval), overlap, Start(clock), run, to)
    ensures var span := if interval <= 0 then 1_000_000_000 else interval;
            && |WithinNanos(to.recorded, span, end)| <= limit + overlap - 1
            && (to.clock <= end ==>
                  (Admits(AsConfigured(limit, interval), to, end) <==> |WithinNanos(to.recorded, span, end)| < limit))
  {
    var c := AsConfigured(limit, interval);
    SettingsAreValid(limit, interval);
    WholeMillis(interval, millis);
    var span := if interval <= 0 then 1_000_000_000 else interval;
    assert WithinNanos(to.recorded, span, end) == Within(to.recorded, c.interval, end);
    WindowBound(c, overlap, clock, run, to, end);
    if to.clock <= end {
      AdmittedExactlyIf(c, overlap, clock, run, to, end);
    }
  }

  class RedisRateLimitStore {
    var windows: map<string, Window>

    constructor ()
      ensures windows == map[]
    {
      windows := map[];
    }

    /** Up to and including the first pipeline; `interval` is in nanoseconds. A non-positive limit admits without
        touching Redis, and so does a failing pipeline. */
    method Begin(key: string, limit: int, interval: int, now: int, fails: bool) returns (v: Verdict)
      modifies this
      ensures limit <= 0 || fails ==> v == Answer(true) && windows == old(windows)
      ensures limit > 0 && !fails ==>
        && (forall k :: k != key ==> At(windows, k) == At(old(windows), k))
        && At(windows, key) == TrimAndCount(At(old(windows), key), WindowOf(interval), now).0
        && v == (if TrimAndCount(At(old(windows), key), WindowOf(interval), now).1 >= limit then Answer(false)
                 else GoOn)
    {
      if limit <= 0 {
        return Answer(true);
      }
      var span := if interval <= 0 then SECOND else interval;
      if fails {
        return Answer(true);
      }
      var (trimmed, count) := TrimAndCount(At(windows, key), span / MILLI, now);
      windows := windows[key := trimmed];
      return if count >= limit then Answer(false) else GoOn;
    }

    /** The second pipeline, which may run much later than the reading it records. */
    method Complete(key: string, interval: int, member: nat, reading: int, now: int, fails: bool)
      returns (allowed: bool)
      modifies this
      ensures allowed
      ensures fails ==> windows == old(windows)
      ensures !fails ==>
        && (forall k :: k != key ==> At(windows, k) == At(old(windows), k))
        && At(windows, key) == Record(At(old(windows), key), ExpiryOf(interval), member, reading, now)
    {
      if fails {
        return true;
      }
      var span := if interval <= 0 then SECOND else interval;
      var expiry := (span + 5 * SECOND) / SECOND * 1_000;
      windows := windows[key := Record(At(windows, key), expiry, member, reading, now)];
      return true;
    }
  }
}
