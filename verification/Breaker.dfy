/** The per-route circuit breaker of the gateway: closed, open, half-open with one probe. */
module Breaker {
  import opened Prelude

  datatype Mode = Closed | Open | HalfOpen

  datatype Breaker = Breaker(mode: Mode, failures: int, openedAt: int, halfOpenInFlight: bool)

  const FRESH := Breaker(Closed, 0, 0, false)

  function Allow(b: Breaker, now: int, timeout: int): (Breaker, bool) {
    match b.mode
    case Open =>
      if now - b.openedAt < timeout then (b, false)
      else (b.(mode := HalfOpen, halfOpenInFlight := true), true)
    case HalfOpen =>
      if b.halfOpenInFlight then (b, false) else (b.(halfOpenInFlight := true), true)
    case Closed => (b, true)
  }

  function Opened(now: int): Breaker {
    Breaker(Open, 0, now, false)
  }

  function Observe(b: Breaker, failed: bool, now: int, threshold: int): Breaker {
    match b.mode
    case HalfOpen => if failed then Opened(now) else Breaker(Closed, 0, b.openedAt, false)
    case Open => b
    case Closed =>
      if failed then
        if b.failures + 1 >= threshold then Opened(now) else b.(failures := b.failures + 1)
      else b.(failures := 0)
  }

  datatype Settings = Settings(threshold: int, timeout: int) {
    predicate Valid() {
      threshold > 0 && timeout > 0
    }
  }

  datatype Event = Asked(now: int) | Observed(failed: bool, now: int)

  function Step(s: Settings, b: Breaker, e: Event): Breaker {
    match e
    case Asked(now) => Allow(b, now, s.timeout).0
    case Observed(failed, now) => Observe(b, failed, now, s.threshold)
  }

  function Final(s: Settings, b: Breaker, run: seq<Event>): Breaker
    decreases |run|
  {
    if run == [] then b else Final(s, Step(s, b, run[0]), run[1..])
  }

  // ---------------------------------------------------------------------------
  // What the fields mean, in every run
  // ---------------------------------------------------------------------------

  /** The outcomes observed since the breaker last became closed, in order. */
  function SinceClosed(s: Settings, b: Breaker, seen: seq<bool>, run: seq<Event>): seq<bool>
    decreases |run|
  {
    if run == [] then seen
    else
      var next := Step(s, b, run[0]);
      SinceClosed(s, next,
                  if b.mode.Closed? && run[0].Observed? then seen + [run[0].failed]
                  else if next.mode.Closed? && !b.mode.Closed? then []
                  else seen,
                  run[1..])
  }

  /** The length of the failing suffix. */
  function FailingSuffix(outcomes: seq<bool>): nat {
    if outcomes == [] || !outcomes[|outcomes| - 1] then 0 else 1 + FailingSuffix(outcomes[..|outcomes| - 1])
  }

  lemma FailingSuffixAppend(outcomes: seq<bool>, failed: bool)
    ensures FailingSuffix(outcomes + [failed]) == if failed then FailingSuffix(outcomes) + 1 else 0
  {
    assert (outcomes + [failed])[..|outcomes|] == outcomes;
  }

  ghost predicate Inv(s: Settings, b: Breaker, seen: seq<bool>) {
    && b.failures == (if b.mode.Closed? then FailingSuffix(seen) else 0)
    && 0 <= b.failures < s.threshold
    && (b.mode.HalfOpen? <==> b.halfOpenInFlight)
  }

  /** In every run of calls and observations, however they interleave: `failures` is the
      failing suffix of the observations since the breaker last closed and stays below
      the threshold, and the probe flag is set exactly in half-open. */
  lemma {:induction false} FieldsMeanWhatTheySay(s: Settings, b: Breaker, seen: seq<bool>, run: seq<Event>)
    requires s.Valid() && Inv(s, b, seen)
    ensures Inv(s, Final(s, b, run), SinceClosed(s, b, seen, run))
    decreases |run|
  {
    if run != [] {
      var next := Step(s, b, run[0]);
      if b.mode.Closed? && run[0].Observed? {
        FailingSuffixAppend(seen, run[0].failed);
        FieldsMeanWhatTheySay(s, next, seen + [run[0].failed], run[1..]);
      } else if next.mode.Closed? && !b.mode.Closed? {
        FieldsMeanWhatTheySay(s, next, [], run[1..]);
      } else {
        FieldsMeanWhatTheySay(s, next, seen, run[1..]);
      }
    }
  }

  // ---------------------------------------------------------------------------
  // One probe between observations
  // ---------------------------------------------------------------------------

  function Admitted(s: Settings, b: Breaker, times: seq<int>): nat
    decreases |times|
  {
    if times == [] then 0
    else
      var (next, ok) := Allow(b, times[0], s.timeout);
      (if ok then 1 else 0) + Admitted(s, next, times[1..])
  }

  /** While the breaker is not closed, between two observations at most one call is let
      through, whatever the clock does. */
  lemma {:induction false} OneProbeBetweenObservations(s: Settings, b: Breaker, times: seq<int>)
    requires !b.mode.Closed?
    ensures Admitted(s, b, times) <= 1
    ensures b.halfOpenInFlight && b.mode.HalfOpen? ==> Admitted(s, b, times) == 0
    decreases |times|
  {
    if times != [] {
      OneProbeBetweenObservations(s, Allow(b, times[0], s.timeout).0, times[1..]);
    }
  }

  /** A closed breaker that sees `threshold` failures in a row opens, and then refuses
      everything until the timeout has passed. */
  lemma {:induction false} OpenRefusesUntilTimeout(s: Settings, b: Breaker, times: seq<int>)
    requires b.mode.Open?
    requires forall i :: 0 <= i < |times| ==> times[i] < b.openedAt + s.timeout
    ensures Admitted(s, b, times) == 0
    decreases |times|
  {
    if times != [] {
      OpenRefusesUntilTimeout(s, Allow(b, times[0], s.timeout).0, times[1..]);
    }
  }

  // ---------------------------------------------------------------------------
  // When a closed breaker opens, and an open one closes
  // ---------------------------------------------------------------------------

  /** The outcomes reported in a run, in order. */
  function Outcomes(run: seq<Event>): seq<bool> {
    if run == [] then []
    else
      var e := run[|run| - 1];
      Outcomes(run[..|run| - 1]) + if e.Observed? then [e.failed] else []
  }

  /** The `n` outcomes from the i-th on are failures. */
  predicate FailsFrom(outcomes: seq<bool>, i: nat, n: nat) {
    i + n <= |outcomes| && forall j :: i <= j < i + n ==> outcomes[j]
  }

  /** `n` failures in a row, anywhere. */
  ghost predicate InARow(n: nat, outcomes: seq<bool>) {
    exists i: nat :: FailsFrom(outcomes, i, n)
  }

  /** The failing suffix is the longest row of failures that ends here. */
  lemma {:induction false} SuffixFails(outcomes: seq<bool>, n: nat)
    requires n <= |outcomes|
    ensures FailsFrom(outcomes, |outcomes| - n, n) <==> n <= FailingSuffix(outcomes)
    decreases |outcomes|
  {
    if n > 0 {
      SuffixFails(outcomes[..|outcomes| - 1], n - 1);
    }
  }

  lemma {:induction false} InARowAppend(n: nat, outcomes: seq<bool>, failed: bool)
    requires n > 0
    ensures InARow(n, outcomes + [failed]) <==> InARow(n, outcomes) || FailingSuffix(outcomes + [failed]) >= n
  {
    var all := outcomes + [failed];
    FailingSuffixIsShort(all);
    assert forall j :: 0 <= j < |outcomes| ==> all[j] == outcomes[j];
    if InARow(n, all) {
      var i: nat :| FailsFrom(all, i, n);
      if i + n <= |outcomes| {
        assert forall j :: i <= j < i + n ==> outcomes[j] == all[j];
        assert FailsFrom(outcomes, i, n);
      } else {
        SuffixFails(all, n);
      }
    }
    if InARow(n, outcomes) {
      var i: nat :| FailsFrom(outcomes, i, n);
      assert FailsFrom(all, i, n);
    }
    if FailingSuffix(all) >= n {
      SuffixFails(all, n);
    }
  }

  lemma {:induction false} FailingSuffixIsShort(outcomes: seq<bool>)
    ensures FailingSuffix(outcomes) <= |outcomes|
  {
    if outcomes != [] && outcomes[|outcomes| - 1] {
      FailingSuffixIsShort(outcomes[..|outcomes| - 1]);
    }
  }

  /** A run seen from its end. */
  lemma {:induction false} FinalAppend(s: Settings, b: Breaker, run: seq<Event>, e: Event)
    ensures Final(s, b, run + [e]) == Step(s, Final(s, b, run), e)
    decreases |run|
  {
    if run == [] {
      assert run + [e] == [e] && [e][1..] == [];
    } else {
      assert (run + [e])[1..] == run[1..] + [e];
      FinalAppend(s, Step(s, b, run[0]), run[1..], e);
    }
  }

  lemma OutcomesAppend(run: seq<Event>, e: Event)
    ensures Outcomes(run + [e]) == if e.Observed? then Outcomes(run) + [e.failed] else Outcomes(run)
  {
    assert (run + [e])[..|run|] == run;
  }

  /** Every ask of the run was let through. */
  ghost predicate NobodyRefused(s: Settings, b: Breaker, run: seq<Event>) {
    forall i :: 0 <= i < |run| && run[i].Asked? ==> Allow(Final(s, b, run[..i]), run[i].now, s.timeout).1
  }

  ghost predicate StaysClosed(s: Settings, b: Breaker, run: seq<Event>) {
    forall i :: 0 <= i <= |run| ==> Final(s, b, run[..i]).mode.Closed?
  }

  /** From any breaker that has just become closed, whatever is asked and reported: it stays
      closed exactly as long as there are no `threshold` failures in a row, and until then
      everyone is let through. */
  lemma {:induction false} StaysClosedIff(s: Settings, b: Breaker, run: seq<Event>)
    requires s.Valid() && b.mode.Closed? && b.failures == 0
    ensures StaysClosed(s, b, run) <==> !InARow(s.threshold, Outcomes(run))
    ensures StaysClosed(s, b, run) ==>
      NobodyRefused(s, b, run) && Final(s, b, run).failures == FailingSuffix(Outcomes(run))
    decreases |run|
  {
    if run == [] {
      assert run[..0] == [];
    } else {
      var most, e := run[..|run| - 1], run[|run| - 1];
      assert run == most + [e] && run[..|run|] == run;
      StaysClosedIff(s, b, most);
      assert forall i :: 0 <= i <= |most| ==> run[..i] == most[..i];
      assert StaysClosed(s, b, run) <==> StaysClosed(s, b, most) && Final(s, b, run).mode.Closed?;
      assert most[..|most|] == most;
      FinalAppend(s, b, most, e);
      OutcomesAppend(most, e);
      if e.Observed? {
        InARowAppend(s.threshold, Outcomes(most), e.failed);
        FailingSuffixAppend(Outcomes(most), e.failed);
      }
      hide InARow, FailingSuffix, Final;
    }
  }

  /** It opens at the report that completes the first such row, at the time of that report. */
  lemma {:induction false} OpensAtTheRow(s: Settings, b: Breaker, run: seq<Event>, e: Event)
    requires s.Valid() && b.mode.Closed? && b.failures == 0
    requires !InARow(s.threshold, Outcomes(run)) && InARow(s.threshold, Outcomes(run + [e]))
    ensures e.Observed? && e.failed
    ensures var f := Final(s, b, run + [e]); f.mode.Open? && f.openedAt == e.now && !f.halfOpenInFlight
  {
    StaysClosedIff(s, b, run);
    assert (run + [e])[..|run|] == run && run[..|run|] == run;
    FinalAppend(s, b, run, e);
    OutcomesAppend(run, e);
    if e.Observed? {
      InARowAppend(s.threshold, Outcomes(run), e.failed);
      FailingSuffixAppend(Outcomes(run), e.failed);
    }
    hide InARow, FailingSuffix;
  }

  /** Nothing that opens or closes the breaker: asks before the timeout is over, and reports. */
  ghost predicate BeforeTimeout(from: int, timeout: int, run: seq<Event>) {
    forall i :: 0 <= i < |run| && run[i].Asked? ==> run[i].now < from + timeout
  }

  lemma {:induction false} StaysOpen(s: Settings, b: Breaker, run: seq<Event>)
    requires b.mode.Open? && BeforeTimeout(b.openedAt, s.timeout, run)
    ensures Final(s, b, run) == b
    decreases |run|
  {
    if run != [] {
      StaysOpen(s, b, run[1..]);
    }
  }

  lemma {:induction false} ProbeIsAlone(s: Settings, b: Breaker, asks: seq<Event>)
    requires b.mode.HalfOpen? && b.halfOpenInFlight && forall i :: 0 <= i < |asks| ==> asks[i].Asked?
    ensures Final(s, b, asks) == b
    ensures forall i :: 0 <= i < |asks| ==> !Allow(Final(s, b, asks[..i]), asks[i].now, s.timeout).1
    decreases |asks|
  {
    if asks != [] {
      ProbeIsAlone(s, b, asks[1..]);
      forall i | 0 <= i < |asks|
        ensures !Allow(Final(s, b, asks[..i]), asks[i].now, s.timeout).1
      {
        if i > 0 {
          assert asks[..i][1..] == asks[1..][..i - 1];
        }
      }
    }
  }

  /** Recovery: whatever is reported and asked before the timeout is over, the first ask from
      then on is let through and nobody after it, until there is a report. A success closes the
      breaker with a clean record, a failure opens it again at the time of the report. */
  lemma {:induction false} ProbeDecides(
    s: Settings, b: Breaker, early: seq<Event>, now: int, asks: seq<Event>, failed: bool, reported: int)
    requires b.mode.Open? && BeforeTimeout(b.openedAt, s.timeout, early) && now >= b.openedAt + s.timeout
    requires forall i :: 0 <= i < |asks| ==> asks[i].Asked?
    ensures Allow(Final(s, b, early), now, s.timeout).1
    ensures var probing := Final(s, b, early + [Asked(now)]);
            && (forall i :: 0 <= i < |asks| ==> !Allow(Final(s, probing, asks[..i]), asks[i].now, s.timeout).1)
            && var after := Final(s, probing, asks + [Observed(failed, reported)]);
               && (failed ==> after.mode.Open? && after.openedAt == reported)
               && (!failed ==> after.mode.Closed? && after.failures == 0)
  {
    StaysOpen(s, b, early);
    FinalAppend(s, b, early, Asked(now));
    var probing := Final(s, b, early + [Asked(now)]);
    ProbeIsAlone(s, probing, asks);
    FinalAppend(s, probing, asks, Observed(failed, reported));
  }

  // ---------------------------------------------------------------------------
  // A route where everything fails
  // ---------------------------------------------------------------------------

  /** One request: asked, and if let through observed as failed some time later. */
  datatype Attempt = Attempt(asked: int, answered: int)

  function AfterAttempt(s: Settings, b: Breaker, a: Attempt): Breaker {
    var (next, ok) := Allow(b, a.asked, s.timeout);
    if ok then Observe(next, true, a.answered, s.threshold) else next
  }

  function AfterAttempts(s: Settings, b: Breaker, attempts: seq<Attempt>): Breaker
    decreases |attempts|
  {
    if attempts == [] then b else AfterAttempts(s, AfterAttempt(s, b, attempts[0]), attempts[1..])
  }

  function LetThrough(s: Settings, b: Breaker, attempts: seq<Attempt>): nat
    decreases |attempts|
  {
    if attempts == [] then 0
    else (if Allow(b, attempts[0].asked, s.timeout).1 then 1 else 0)
           + LetThrough(s, AfterAttempt(s, b, attempts[0]), attempts[1..])
  }

  /** One request at a time under a clock that does not step back. */
  ghost predicate OneAtATime(from: int, attempts: seq<Attempt>)
    decreases |attempts|
  {
    attempts == [] ||
    (&& from <= attempts[0].asked <= attempts[0].answered
     && OneAtATime(attempts[0].answered, attempts[1..]))
  }

  /** With `used` calls let through since time `start`, either the breaker has not opened
      yet, or each call beyond the threshold has cost a full timeout. */
  ghost predicate Paced(s: Settings, b: Breaker, start: int, used: nat) {
    match b.mode
    case Closed => used == b.failures < s.threshold
    case HalfOpen => false
    case Open => used >= s.threshold && b.openedAt >= start + (used - s.threshold) * s.timeout
  }

  lemma AttemptStaysPaced(s: Settings, b: Breaker, start: int, used: nat, a: Attempt)
    requires s.Valid() && Paced(s, b, start, used) && start <= a.asked <= a.answered
    ensures Paced(s, AfterAttempt(s, b, a), start, used + if Allow(b, a.asked, s.timeout).1 then 1 else 0)
  {
    assert (used + 1 - s.threshold) * s.timeout == (used - s.threshold) * s.timeout + s.timeout;
  }

  lemma {:induction false} AttemptsStayPaced(
    s: Settings, b: Breaker, start: int, from: int, used: nat, attempts: seq<Attempt>)
    requires s.Valid() && Paced(s, b, start, used) && start <= from && OneAtATime(from, attempts)
    ensures Paced(s, AfterAttempts(s, b, attempts), start, used + LetThrough(s, b, attempts))
    decreases |attempts|
  {
    if attempts != [] {
      AttemptStaysPaced(s, b, start, used, attempts[0]);
      hide Paced, AfterAttempt, Allow;
      var ok := Allow(b, attempts[0].asked, s.timeout).1;
      AttemptsStayPaced(s, AfterAttempt(s, b, attempts[0]), start, attempts[0].answered,
                            used + (if ok then 1 else 0), attempts[1..]);
    }
  }

  /** With one request at a time and every request failing, from a fresh breaker: at most
      threshold + duration / timeout requests reach the route, counting a final one asked
      at time `end`. */
  lemma {:induction false} FailingRouteIsThrottled(s: Settings, start: int, attempts: seq<Attempt>, end: int)
    requires s.Valid() && OneAtATime(start, attempts)
    requires start <= end && forall i :: 0 <= i < |attempts| ==> attempts[i].answered <= end
    ensures LetThrough(s, FRESH, attempts)
              + (if Allow(AfterAttempts(s, FRESH, attempts), end, s.timeout).1 then 1 else 0)
         <= s.threshold + (end - start) / s.timeout
  {
    AttemptsStayPaced(s, FRESH, start, start, 0, attempts);
    var b := AfterAttempts(s, FRESH, attempts);
    var used := LetThrough(s, FRESH, attempts);
    LastOpening(s, FRESH, start, attempts, end);
    if b.mode.Open? {
      var extra := used - s.threshold + if Allow(b, end, s.timeout).1 then 1 else 0;
      assert (used + 1 - s.threshold) * s.timeout == (used - s.threshold) * s.timeout + s.timeout;
      assert extra * s.timeout <= end - start;
      Quotient(extra, end - start, s.timeout);
    } else {
      Quotient(0, end - start, s.timeout);
    }
  }

  lemma Quotient(n: int, d: int, t: int)
    requires t > 0 && n * t <= d
    ensures n <= d / t
  {
    var q := d / t;
    assert d == q * t + d % t;
    assert (q + 1) * t == q * t + t;
    assert (q + 1 - n) * t == (q + 1) * t - n * t;
    assert (q + 1 - n) * t > 0;
  }

  lemma {:induction false} LastOpening(s: Settings, b: Breaker, from: int, attempts: seq<Attempt>, end: int)
    requires OneAtATime(from, attempts) && (b.mode.Open? ==> b.openedAt <= end)
    requires forall i :: 0 <= i < |attempts| ==> attempts[i].answered <= end
    ensures var f := AfterAttempts(s, b, attempts); f.mode.Open? ==> f.openedAt <= end
    decreases |attempts|
  {
    if attempts != [] {
      LastOpening(s, AfterAttempt(s, b, attempts[0]), attempts[0].answered, attempts[1..], end);
    }
  }

  // ---------------------------------------------------------------------------
  // Requests in flight
  // ---------------------------------------------------------------------------

  /** A request that was let through and has not reported yet: when it asked, and whether
      it is a probe, let through while the breaker was not closed. */
  datatype Sent = Sent(asked: int, probe: bool)

  datatype Traffic = Traffic(breaker: Breaker, out: map<nat, Sent>, clock: int)

  datatype Act =
    | Ask(id: nat, now: int)
    | Report(id: nat, failed: bool, now: int)

  /** The clock does not step back. With `work`, no request takes longer than that to report. */
  ghost predicate Can(work: Option<nat>, t: Traffic, a: Act) {
    && t.clock <= a.now
    && (a.Ask? <==> a.id !in t.out)
    && (work.Some? ==> forall id :: id in t.out ==> a.now <= t.out[id].asked + work.value)
  }

  function Do(s: Settings, t: Traffic, a: Act): Traffic
    requires a.Report? ==> a.id in t.out
  {
    match a
    case Ask(id, now) =>
      var (b, ok) := Allow(t.breaker, now, s.timeout);
      Traffic(b, if ok then t.out[id := Sent(now, !t.breaker.mode.Closed?)] else t.out, now)
    case Report(id, failed, now) =>
      Traffic(Observe(t.breaker, failed, now, s.threshold), t.out - {id}, now)
  }

  ghost predicate Reaches(s: Settings, work: Option<nat>, from: Traffic, run: seq<Act>, to: Traffic)
    decreases |run|
  {
    if run == [] then from == to
    else Can(work, from, run[0]) && Reaches(s, work, Do(s, from, run[0]), run[1..], to)
  }

  function Begin(clock: int): Traffic {
    Traffic(FRESH, map[], clock)
  }

  function Probes(t: Traffic): set<nat> {
    set id | id in t.out && t.out[id].probe
  }

  /** The breaker is half-open exactly while one probe has not reported. */
  ghost predicate HalfOpenIsOneProbe(t: Traffic) {
    |Probes(t)| == if t.breaker.mode.HalfOpen? then 1 else 0
  }

  /** Nothing else is in flight whenever half-open begins. */
  ghost predicate BeginsAlone(t: Traffic, a: Act, s: Settings) {
    a.Ask? && t.breaker.mode.Open? && Allow(t.breaker, a.now, s.timeout).1 ==> t.out == map[]
  }

  ghost predicate AlwaysBeginsAlone(s: Settings, from: Traffic, run: seq<Act>)
    decreases |run|
  {
    run != [] && Can(None, from, run[0]) ==>
      BeginsAlone(from, run[0], s) && AlwaysBeginsAlone(s, Do(s, from, run[0]), run[1..])
  }

  ghost predicate Tidy(t: Traffic) {
    && (t.breaker.mode.HalfOpen? <==> t.breaker.halfOpenInFlight)
    && (t.breaker.mode.HalfOpen? ==> exists id :: t.out.Keys == {id} && t.out[id].probe)
    && (!t.breaker.mode.HalfOpen? ==> forall id :: id in t.out ==> !t.out[id].probe)
  }

  lemma TidyIsRight(t: Traffic)
    requires Tidy(t)
    ensures HalfOpenIsOneProbe(t)
  {
    if t.breaker.mode.HalfOpen? {
      var id :| t.out.Keys == {id} && t.out[id].probe;
      assert Probes(t) == {id};
    } else {
      assert Probes(t) == {};
    }
  }

  lemma StepKeepsTidy(s: Settings, work: Option<nat>, t: Traffic, a: Act)
    requires s.Valid() && Tidy(t) && Can(work, t, a) && BeginsAlone(t, a, s)
    ensures Tidy(Do(s, t, a))
  {
    var t' := Do(s, t, a);
    if t.breaker.mode.HalfOpen? {
      var id :| t.out.Keys == {id} && t.out[id].probe;
      if a.Report? {
        assert t'.out.Keys == {};
      }
    } else if t'.breaker.mode.HalfOpen? {
      assert t'.out.Keys == {a.id};
    }
  }

  /** If nothing admitted earlier is still out whenever half-open begins, then in every run
      half-open holds exactly while one probe has not reported. */
  lemma {:induction false} CleanRunsAreRight(s: Settings, from: Traffic, run: seq<Act>, to: Traffic)
    requires s.Valid() && Tidy(from) && Reaches(s, None, from, run, to) && AlwaysBeginsAlone(s, from, run)
    ensures Tidy(to) && HalfOpenIsOneProbe(to)
    decreases |run|
  {
    if run != [] {
      StepKeepsTidy(s, None, from, run[0]);
      CleanRunsAreRight(s, Do(s, from, run[0]), run[1..], to);
    } else {
      TidyIsRight(to);
    }
  }

  /** And the other way round: in half-open, every next step keeps that so exactly if
      nothing but the probe is out. Observations carry no identity, so any other request's
      report ends half-open while the probe is still out. */
  lemma NextKeepsRightIff(s: Settings, t: Traffic)
    requires s.Valid() && t.breaker.mode.HalfOpen? && t.breaker.halfOpenInFlight && HalfOpenIsOneProbe(t)
    ensures (forall a :: Can(None, t, a) ==> HalfOpenIsOneProbe(Do(s, t, a))) <==>
      forall id :: id in t.out ==> t.out[id].probe
  {
    var p := OnlyElement(Probes(t));
    if id :| id in t.out && !t.out[id].probe {
      var t' := Do(s, t, Report(id, false, t.clock));
      assert Probes(t') == Probes(t);
      assert Can(None, t, Report(id, false, t.clock));
    } else {
      assert t.out.Keys == {p};
      forall a | Can(None, t, a)
        ensures HalfOpenIsOneProbe(Do(s, t, a))
      {
        StepKeepsTidy(s, None, t, a);
        TidyIsRight(Do(s, t, a));
      }
    }
  }

  lemma OnlyElement(xs: set<nat>) returns (x: nat)
    requires |xs| == 1
    ensures xs == {x}
  {
    x :| x in xs;
    assert |xs - {x}| == 0;
  }

  // ---------------------------------------------------------------------------
  // How long a request may take
  // ---------------------------------------------------------------------------

  ghost predicate AlwaysRight(s: Settings, work: nat) {
    forall clock: int, run, to :: Reaches(s, Some(work), Begin(clock), run, to) ==> HalfOpenIsOneProbe(to)
  }

  /** While open, everything out asked before the opening. */
  ghost predicate Timed(t: Traffic) {
    t.breaker.mode.Open? ==> forall id :: id in t.out ==> t.out[id].asked <= t.breaker.openedAt
  }

  ghost predicate AskedInPast(t: Traffic) {
    forall id :: id in t.out ==> t.out[id].asked <= t.clock
  }

  lemma {:induction false} QuickRequestsAreClean(s: Settings, work: nat, from: Traffic, run: seq<Act>, to: Traffic)
    requires s.Valid() && work < s.timeout && Tidy(from) && Timed(from) && AskedInPast(from)
    requires Reaches(s, Some(work), from, run, to)
    ensures Reaches(s, None, from, run, to) && AlwaysBeginsAlone(s, from, run)
    decreases |run|
  {
    if run != [] {
      assert BeginsAlone(from, run[0], s) by {
        if run[0].Ask? && from.breaker.mode.Open? && Allow(from.breaker, run[0].now, s.timeout).1 {
          assert forall id :: id !in from.out;
        }
      }
      StepKeepsTidy(s, Some(work), from, run[0]);
      QuickRequestsAreClean(s, work, Do(s, from, run[0]), run[1..], to);
    }
  }

  lemma {:induction false} Extend(s: Settings, work: Option<nat>, from: Traffic, run: seq<Act>, mid: Traffic, a: Act)
    requires Reaches(s, work, from, run, mid) && Can(work, mid, a)
    ensures Reaches(s, work, from, run + [a], Do(s, mid, a))
    decreases |run|
  {
    if run == [] {
      assert Reaches(s, work, Do(s, mid, a), [], Do(s, mid, a));
      assert run + [a] == [a] && [a][1..] == [];
    } else {
      assert (run + [a])[1..] == run[1..] + [a];
      Extend(s, work, Do(s, from, run[0]), run[1..], mid, a);
    }
  }

  /** Requests lo..hi-1, sent at time 0 while closed. */
  function Early(lo: nat, hi: nat): (m: map<nat, Sent>)
    ensures forall k :: k in m <==> lo <= k < hi
    ensures forall k :: k in m ==> m[k] == Sent(0, false)
  {
    if hi <= lo then map[] else Early(lo, hi - 1)[hi - 1 := Sent(0, false)]
  }

  lemma {:induction false} AllAsk(s: Settings, work: nat, n: nat) returns (run: seq<Act>)
    ensures Reaches(s, Some(work), Begin(0), run, Traffic(FRESH, Early(0, n), 0))
  {
    if n == 0 {
      run := [];
    } else {
      run := AllAsk(s, work, n - 1);
      Extend(s, Some(work), Begin(0), run, Traffic(FRESH, Early(0, n - 1), 0), Ask(n - 1, 0));
      run := run + [Ask(n - 1, 0)];
    }
  }

  lemma {:induction false} SomeFail(s: Settings, work: nat, n: nat, k: nat) returns (run: seq<Act>)
    requires k <= n && k < s.threshold
    ensures Reaches(s, Some(work), Begin(0), run, Traffic(FRESH.(failures := k), Early(k, n), 0))
  {
    if k == 0 {
      run := AllAsk(s, work, n);
    } else {
      run := SomeFail(s, work, n, k - 1);
      assert Early(k - 1, n) - {k - 1} == Early(k, n);
      var before := Traffic(FRESH.(failures := k - 1), Early(k - 1, n), 0);
      Extend(s, Some(work), Begin(0), run, before, Report(k - 1, true, 0));
      run := run + [Report(k - 1, true, 0)];
    }
  }

  /** Half-open with the probe and one request from before the opening still out. */
  function Crossed(s: Settings): Traffic
    requires s.Valid()
  {
    var n: nat := s.threshold;
    Traffic(Breaker(HalfOpen, 0, 0, true), map[n := Sent(0, false), n + 1 := Sent(s.timeout, true)], s.timeout)
  }

  lemma {:induction false} CrossedIsReached(s: Settings, work: nat) returns (run: seq<Act>)
    requires s.Valid() && work >= s.timeout
    ensures Reaches(s, Some(work), Begin(0), run, Crossed(s))
  {
    var n := s.threshold;
    run := SomeFail(s, work, n + 1, n - 1);
    var closed := Traffic(FRESH.(failures := n - 1), Early(n - 1, n + 1), 0);
    var open := Traffic(Opened(0), map[n := Sent(0, false)], 0);
    hide Reaches;
    assert Do(s, closed, Report(n - 1, true, 0)) == open;
    Extend(s, Some(work), Begin(0), run, closed, Report(n - 1, true, 0));
    assert Do(s, open, Ask(n + 1, s.timeout)) == Crossed(s);
    Extend(s, Some(work), Begin(0), run + [Report(n - 1, true, 0)], open, Ask(n + 1, s.timeout));
    run := run + [Report(n - 1, true, 0)] + [Ask(n + 1, s.timeout)];
  }

  /** A request let through while closed reports during half-open: the breaker closes, or
      opens again, with the probe still out. The run starts from a fresh breaker, for all
      settings. */
  lemma {:induction false} LateObservationEndsHalfOpen(s: Settings, work: nat, failed: bool)
    returns (run: seq<Act>, to: Traffic)
    requires s.Valid() && work >= s.timeout
    ensures Reaches(s, Some(work), Begin(0), run, to)
    ensures to.breaker.mode == (if failed then Open else Closed) && |Probes(to)| == 1
  {
    var late := Report(s.threshold, failed, s.timeout);
    run := CrossedIsReached(s, work);
    to := Do(s, Crossed(s), late);
    Extend(s, Some(work), Begin(0), run, Crossed(s), late);
    run := run + [late];
    assert Probes(to) == {s.threshold + 1};
  }

  /** Where requests take at most `work` to report, half-open holds exactly while one probe
      is out, in all runs from a fresh breaker, exactly if `work` is less than the timeout. */
  lemma AlwaysRightIff(s: Settings, work: nat)
    requires s.Valid()
    ensures AlwaysRight(s, work) <==> work < s.timeout
  {
    if work < s.timeout {
      forall clock: int, run, to | Reaches(s, Some(work), Begin(clock), run, to)
        ensures HalfOpenIsOneProbe(to)
      {
        QuickRequestsAreClean(s, work, Begin(clock), run, to);
        CleanRunsAreRight(s, Begin(clock), run, to);
      }
    } else {
      var run, to := LateObservationEndsHalfOpen(s, work, false);
    }
  }

  // ---------------------------------------------------------------------------
  // The controller
  // ---------------------------------------------------------------------------

  class RouteBreaker {
    var mode: Mode
    var failures: int
    var openedAt: int
    var halfOpenInFlight: bool

    ghost function Value(): Breaker
      reads this
    {
      Breaker(mode, failures, openedAt, halfOpenInFlight)
    }

    constructor ()
      ensures Value() == FRESH
    {
      mode, failures, openedAt, halfOpenInFlight := Closed, 0, 0, false;
    }

    method AllowAt(now: int, timeout: int) returns (allowed: bool)
      modifies this
      ensures (Value(), allowed) == Allow(old(Value()), now, timeout)
    {
      match mode {
        case Open =>
          if now - openedAt < timeout {
            return false;
          }
          mode := HalfOpen;
          halfOpenInFlight := true;
          return true;
        case HalfOpen =>
          if halfOpenInFlight {
            return false;
          }
          halfOpenInFlight := true;
          return true;
        case Closed =>
          return true;
      }
    }

    method ObserveAt(failed: bool, now: int, threshold: int)
      modifies this
      ensures Value() == Observe(old(Value()), failed, now, threshold)
    {
      match mode {
        case HalfOpen =>
          halfOpenInFlight := false;
          if failed {
            Trip(now);
            return;
          }
          Reset();
        case Open =>
          return;
        case Closed =>
          if failed {
            failures := failures + 1;
            if failures >= threshold {
              Trip(now);
            }
            return;
          }
          failures := 0;
      }
    }

    method Trip(now: int)
      modifies this
      ensures Value() == Opened(now)
    {
      mode, openedAt, failures, halfOpenInFlight := Open, now, 0, false;
    }

    method Reset()
      modifies this
      ensures Value() == Breaker(Closed, 0, old(openedAt), false)
    {
      mode, failures, halfOpenInFlight := Closed, 0, false;
    }
  }

  function Resource(resource: string): string {
    if resource == "" then "unknown" else resource
  }

  /** Breakers as the controller sees them: a route never asked about is fresh. */
  function At(m: map<string, Breaker>, resource: string): Breaker {
    if Resource(resource) in m then m[Resource(resource)] else FRESH
  }

  class DegradeController {
    const threshold: int
    const timeout: int
    var breakers: map<string, RouteBreaker>

    ghost predicate Valid()
      reads this
    {
      && threshold > 0 && timeout > 0
      && forall j, k :: j in breakers && k in breakers && j != k ==> breakers[j] != breakers[k]
    }

    ghost function Contents(): map<string, Breaker>
      reads this, breakers.Values
    {
      map k | k in breakers :: breakers[k].Value()
    }

    constructor (failureThreshold: int, timeout: int)
      ensures Valid() && Contents() == map[]
      ensures threshold == if failureThreshold <= 0 then 1 else failureThreshold
      ensures this.timeout == if timeout <= 0 then 10_000_000_000 else timeout
    {
      threshold := if failureThreshold <= 0 then 1 else failureThreshold;
      this.timeout := if timeout <= 0 then 10_000_000_000 else timeout;
      breakers := map[];
    }

    method Find(resource: string) returns (b: RouteBreaker)
      requires Valid()
      modifies this`breakers
      ensures Valid() && Resource(resource) in breakers && breakers[Resource(resource)] == b
      ensures b in old(breakers.Values) || fresh(b)
      ensures fresh(breakers.Values - old(breakers.Values))
      ensures Contents() == old(Contents())[Resource(resource) := At(old(Contents()), resource)]
    {
      var key := if resource == "" then "unknown" else resource;
      if key !in breakers {
        b := new RouteBreaker();
        breakers := breakers[key := b];
      }
      b := breakers[key];
    }

    /** Only the asked route's breaker moves. */
    method AllowRoute(resource: string, now: int) returns (allowed: bool)
      requires Valid()
      modifies this`breakers, breakers.Values
      ensures Valid()
      ensures fresh(breakers.Values - old(breakers.Values))
      ensures var (next, ok) := Allow(At(old(Contents()), resource), now, timeout);
              allowed == ok && Contents() == old(Contents())[Resource(resource) := next]
    {
      hide Allow, Observe;
      var b := Find(resource);
      ghost var found := Contents();
      assert found[Resource(resource)] == b.Value() == At(old(Contents()), resource);
      allowed := b.AllowAt(now, timeout);
      assert Contents() == found[Resource(resource) := b.Value()];
    }

    method ObserveRoute(resource: string, failed: bool, now: int)
      requires Valid()
      modifies this`breakers, breakers.Values
      ensures Valid()
      ensures fresh(breakers.Values - old(breakers.Values))
      ensures var next := Observe(At(old(Contents()), resource), failed, now, threshold);
              Contents() == old(Contents())[Resource(resource) := next]
    {
      hide Allow, Observe;
      var b := Find(resource);
      ghost var found := Contents();
      assert found[Resource(resource)] == b.Value() == At(old(Contents()), resource);
      b.ObserveAt(failed, now, threshold);
      assert Contents() == found[Resource(resource) := b.Value()];
    }
  }
}
