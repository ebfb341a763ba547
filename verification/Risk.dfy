/** The risk service: marks with expiry, action records, and the verdict computed from
    both. Times are integers; zero is the unset time. */
module Risk {

  const UNSET := 0
  const SECKILL := "SECKILL"
  const PRE_CHECK := "PRE_CHECK"
  const RATE_LIMIT_HIT := "RATE_LIMIT_HIT"
  const NORMAL := 0
  const SUSPICIOUS := 1
  const HIGH := 2

  const SECOND := 1_000_000_000
  const HOUR := 3600 * SECOND

  datatype Record = Record(userID: int, action: string, level: int, createdAt: int)

  datatype Verdict = Verdict(risk: bool, level: int, reason: string)

  datatype Store = Store(marks: map<int, int>, records: map<int, seq<Record>>)

  datatype RiskConfig = RiskConfig(threshold: int, userTTL: int, recentWindow: int, highWindow: int) {
    predicate Valid() {
      threshold > 0 && userTTL > 0 && recentWindow > 0 && highWindow > 0
    }
  }

  datatype BlackList = BlackList(enabled: bool, startBefore: int, endBefore: int, expireAfter: int)

  function NormalRisk(c: RiskConfig): (r: RiskConfig)
    ensures r.Valid() && (c.Valid() ==> r == c)
  {
    RiskConfig(if c.threshold <= 0 then 10 else c.threshold,
               if c.userTTL <= 0 then 24 * HOUR else c.userTTL,
               if c.recentWindow <= 0 then HOUR else c.recentWindow,
               if c.highWindow <= 0 then 24 * HOUR else c.highWindow)
  }

  function NormalBlackList(c: BlackList): BlackList {
    BlackList(c.enabled,
              if c.startBefore <= 0 then 300 * SECOND else c.startBefore,
              if c.endBefore <= 0 then 10 * SECOND else c.endBefore,
              if c.expireAfter <= 0 then 300 * SECOND else c.expireAfter)
  }

  // ---------------------------------------------------------------------------
  // Repository steps
  // ---------------------------------------------------------------------------

  function RecordsOf(s: Store, u: int): seq<Record> {
    if u in s.records then s.records[u] else []
  }

  predicate Expired(expiresAt: int, now: int) {
    expiresAt != UNSET && now > expiresAt
  }

  predicate Marked(s: Store, u: int, now: int) {
    u in s.marks && !Expired(s.marks[u], now)
  }

  function Mark(s: Store, u: int, ttl: int, now: int): Store {
    s.(marks := s.marks[u := now + ttl])
  }

  /** Looking at a mark removes it once it has expired. */
  function DropExpired(s: Store, u: int, now: int): Store {
    if Marked(s, u, now) then s else s.(marks := s.marks - {u})
  }

  function Append(s: Store, r: Record, now: int): Store {
    var dated := if r.createdAt == UNSET then r.(createdAt := now) else r;
    s.(records := s.records[r.userID := RecordsOf(s, r.userID) + [dated]])
  }

  function CountSince(rs: seq<Record>, action: string, since: int): nat {
    if rs == [] then 0
    else
      var r := rs[|rs| - 1];
      CountSince(rs[..|rs| - 1], action, since) + if r.action == action && r.createdAt >= since then 1 else 0
  }

  predicate HighSince(rs: seq<Record>, since: int) {
    exists i :: 0 <= i < |rs| && rs[i].level >= HIGH && rs[i].createdAt >= since
  }

  predicate Kept(expiresAt: int, now: int) {
    expiresAt == UNSET || expiresAt > now
  }

  function Sweep(s: Store, now: int): Store {
    s.(marks := map u | u in s.marks && Kept(s.marks[u], now) :: s.marks[u])
  }

  // ---------------------------------------------------------------------------
  // Service steps
  // ---------------------------------------------------------------------------

  function Evaluate(c: RiskConfig, s: Store, u: int, now: int): (Store, Verdict) {
    var looked := DropExpired(s, u, now);
    var rs := RecordsOf(s, u);
    if Marked(s, u, now) then (looked, Verdict(true, HIGH, "BLACKLIST"))
    else if HighSince(rs, now - c.highWindow) then
      (Mark(looked, u, c.userTTL, now), Verdict(true, HIGH, "HIGH_RISK_RECORD"))
    else if CountSince(rs, SECKILL, now - c.recentWindow) >= c.threshold then
      (Append(Mark(looked, u, c.userTTL, now), Record(u, RATE_LIMIT_HIT, HIGH, now), now),
       Verdict(true, HIGH, "RECENT_SECKILL_THRESHOLD"))
    else (looked, Verdict(false, NORMAL, ""))
  }

  function MarkSuspicious(b: BlackList, s: Store, u: int, startTime: int, now: int): Store {
    if b.enabled && startTime - b.startBefore < now < startTime - b.endBefore then
      Append(Mark(s, u, b.expireAfter, now), Record(u, PRE_CHECK, SUSPICIOUS, now), now)
    else s
  }

  datatype Op =
    | DoEvaluate(user: int, now: int)
    | DoMarkSuspicious(user: int, startTime: int, now: int)
    | DoRecord(user: int, record: Record, now: int)
    | DoMark(user: int, ttl: int, now: int)
    | DoSweep(now: int)

  function Step(c: RiskConfig, b: BlackList, s: Store, op: Op): Store {
    match op
    case DoEvaluate(u, now) => Evaluate(c, s, u, now).0
    case DoMarkSuspicious(u, start, now) => MarkSuspicious(b, s, u, start, now)
    case DoRecord(u, r, now) => Append(s, r.(userID := u), now)
    case DoMark(u, ttl, now) => Mark(s, u, ttl, now)
    case DoSweep(now) => Sweep(s, now)
  }

  function Final(c: RiskConfig, b: BlackList, s: Store, run: seq<Op>): Store
    decreases |run|
  {
    if run == [] then s else Final(c, b, Step(c, b, s, run[0]), run[1..])
  }

  // ---------------------------------------------------------------------------
  // A verdict persists
  // ---------------------------------------------------------------------------

  /** Records are only ever appended. */
  lemma {:induction false} RecordsOnlyGrow(c: RiskConfig, b: BlackList, s: Store, run: seq<Op>, u: int)
    ensures RecordsOf(s, u) <= RecordsOf(Final(c, b, s, run), u)
    decreases |run|
  {
    if run != [] {
      RecordsOnlyGrow(c, b, Step(c, b, s, run[0]), run[1..], u);
    }
  }

  /** After a threshold verdict at `t`, every evaluation dated up to t + highWindow says
      risk, whatever calls come in between and at whatever times: a mark may have been
      shortened, expired or swept, the record of the verdict is still there. */
  lemma {:induction false} VerdictPersists(
    c: RiskConfig, b: BlackList, s: Store, u: int, t: int, run: seq<Op>, now: int)
    requires t != UNSET && now <= t + c.highWindow
    requires Evaluate(c, s, u, t).1.reason == "RECENT_SECKILL_THRESHOLD"
    ensures Evaluate(c, Final(c, b, Evaluate(c, s, u, t).0, run), u, now).1.risk
  {
    var after := Evaluate(c, s, u, t).0;
    var n := |RecordsOf(s, u)|;
    assert RecordsOf(after, u) == RecordsOf(s, u) + [Record(u, RATE_LIMIT_HIT, HIGH, t)];
    RecordsOnlyGrow(c, b, after, run, u);
    var rs := RecordsOf(Final(c, b, after, run), u);
    assert rs[n] == RecordsOf(after, u)[n] == Record(u, RATE_LIMIT_HIT, HIGH, t);
    assert HighSince(rs, now - c.highWindow);
  }

  lemma {:induction false} CountGrows(rs: seq<Record>, more: seq<Record>, action: string, since: int)
    ensures CountSince(rs, action, since) <= CountSince(rs + more, action, since)
    decreases |more|
  {
    if more == [] {
      assert rs + more == rs;
    } else {
      assert (rs + more)[..|rs + more| - 1] == rs + more[..|more| - 1];
      CountGrows(rs, more[..|more| - 1], action, since);
    }
  }

  /** The records alone call for a risk verdict. */
  predicate OnRecord(c: RiskConfig, rs: seq<Record>, now: int) {
    HighSince(rs, now - c.highWindow) || CountSince(rs, SECKILL, now - c.recentWindow) >= c.threshold
  }

  ghost predicate RiskWhateverHappens(c: RiskConfig, b: BlackList, s: Store, u: int, now: int) {
    forall run :: Evaluate(c, Final(c, b, s, run), u, now).1.risk
  }

  lemma {:induction false} RecordsSuffice(c: RiskConfig, b: BlackList, s: Store, run: seq<Op>, u: int, now: int)
    requires OnRecord(c, RecordsOf(s, u), now)
    ensures Evaluate(c, Final(c, b, s, run), u, now).1.risk
  {
    var rs, later := RecordsOf(s, u), RecordsOf(Final(c, b, s, run), u);
    RecordsOnlyGrow(c, b, s, run, u);
    hide OnRecord, Evaluate, Final, RecordsOf;
    assert later == rs + later[|rs|..];
    StaysOnRecord(c, rs, later[|rs|..], now);
    RiskOnRecord(c, Final(c, b, s, run), u, now);
  }

  lemma StaysOnRecord(c: RiskConfig, rs: seq<Record>, more: seq<Record>, now: int)
    requires OnRecord(c, rs, now)
    ensures OnRecord(c, rs + more, now)
  {
    CountGrows(rs, more, SECKILL, now - c.recentWindow);
    hide CountSince;
    if HighSince(rs, now - c.highWindow) {
      var i :| 0 <= i < |rs| && rs[i].level >= HIGH && rs[i].createdAt >= now - c.highWindow;
      assert (rs + more)[i] == rs[i];
    }
  }

  lemma RiskOnRecord(c: RiskConfig, s: Store, u: int, now: int)
    requires OnRecord(c, RecordsOf(s, u), now)
    ensures Evaluate(c, s, u, now).1.risk
  {
    hide CountSince, HighSince;
  }

  /** A verdict holds at `now` whatever calls come first exactly if it is on record: a
      threshold or high-risk verdict until the last high-risk record is older than the
      high-risk window (or the requests leave the recent window), a blacklist verdict as such
      not at all, because the mark can be replaced by a shorter one. */
  lemma {:induction false} RiskWhateverHappensIff(c: RiskConfig, b: BlackList, s: Store, u: int, now: int)
    ensures RiskWhateverHappens(c, b, s, u, now) <==> OnRecord(c, RecordsOf(s, u), now)
  {
    if OnRecord(c, RecordsOf(s, u), now) {
      forall run
        ensures Evaluate(c, Final(c, b, s, run), u, now).1.risk
      {
        RecordsSuffice(c, b, s, run, u, now);
      }
    } else {
      var shorter := DoMark(u, if now - 1 == UNSET then -1 else 0, now - 1);
      var after := Step(c, b, s, shorter);
      assert Final(c, b, s, [shorter]) == Final(c, b, after, [shorter][1..]) == after;
      assert RecordsOf(after, u) == RecordsOf(s, u) && !Marked(after, u, now);
      assert !Evaluate(c, Final(c, b, s, [shorter]), u, now).1.risk;
    }
  }

  /** A high-risk verdict lasts until its record leaves the window, whatever happens. */
  lemma {:induction false} HighRiskVerdictPersists(
    c: RiskConfig, b: BlackList, s: Store, u: int, i: nat, run: seq<Op>, now: int)
    requires i < |RecordsOf(s, u)| && RecordsOf(s, u)[i].level >= HIGH
    requires now <= RecordsOf(s, u)[i].createdAt + c.highWindow
    ensures Evaluate(c, Final(c, b, s, run), u, now).1.risk
  {
    RecordsSuffice(c, b, s, run, u, now);
  }

  /** The operation does not mark the user for a time that ends before `until`. */
  predicate NotShortened(b: BlackList, op: Op, u: int, until: int) {
    match op
    case DoMark(v, ttl, now) => v == u ==> now + ttl >= until
    case DoMarkSuspicious(v, _, now) => v == u ==> now + b.expireAfter >= until
    case _ => true
  }

  /** A mark, and the blacklist verdict with it, lasts until it expires if nobody marks the
      user for a shorter time. */
  lemma {:induction false} MarkLasts(
    c: RiskConfig, b: BlackList, s: Store, u: int, until: int, run: seq<Op>, now: int)
    requires u in s.marks && s.marks[u] >= until && now <= until
    requires forall i :: 0 <= i < |run| ==> run[i].now < until && NotShortened(b, run[i], u, until)
    ensures Evaluate(c, Final(c, b, s, run), u, now).1 == Verdict(true, HIGH, "BLACKLIST")
    decreases |run|
  {
    if run != [] {
      assert NotShortened(b, run[0], u, until) && run[0].now < until;
      var after := Step(c, b, s, run[0]);
      assert u in after.marks && after.marks[u] >= until;
      hide Step, Evaluate;
      MarkLasts(c, b, after, u, until, run[1..], now);
    }
  }

  lemma ProbeIsNotOnRecord(c: RiskConfig, rs: seq<Record>, u: int, at: int, now: int)
    requires !OnRecord(c, rs, now)
    ensures !OnRecord(c, rs + [Record(u, PRE_CHECK, SUSPICIOUS, at)], now)
  {
    ProbeIsNotHigh(rs, u, at, now - c.highWindow);
    ProbeIsNotCounted(rs, u, at, now - c.recentWindow);
    hide CountSince, HighSince;
  }

  lemma ProbeIsNotHigh(rs: seq<Record>, u: int, at: int, since: int)
    ensures HighSince(rs + [Record(u, PRE_CHECK, SUSPICIOUS, at)], since) == HighSince(rs, since)
  {
    var after := rs + [Record(u, PRE_CHECK, SUSPICIOUS, at)];
    assert forall i :: 0 <= i < |rs| ==> after[i] == rs[i];
  }

  lemma ProbeIsNotCounted(rs: seq<Record>, u: int, at: int, since: int)
    ensures CountSince(rs + [Record(u, PRE_CHECK, SUSPICIOUS, at)], SECKILL, since) == CountSince(rs, SECKILL, since)
  {
    assert (rs + [Record(u, PRE_CHECK, SUSPICIOUS, at)])[..|rs|] == rs && |SECKILL| != |PRE_CHECK|;
  }

  lemma NormalWithoutMarkAndRecord(c: RiskConfig, s: Store, u: int, now: int)
    requires !Marked(s, u, now) && !OnRecord(c, RecordsOf(s, u), now)
    ensures Evaluate(c, s, u, now).1 == Verdict(false, NORMAL, "")
  {
    hide CountSince, HighSince;
  }

  /** The probing check is such a shorter mark: it cuts a blacklist verdict short wherever the
      records do not call for one. */
  lemma {:induction false} SuspicionCutsShort(c: RiskConfig, b: BlackList, s: Store, u: int, at: int, now: int)
    requires b.enabled && b.startBefore - b.endBefore > 1 && b.expireAfter > 0
    requires 0 < at && at + b.expireAfter < now && !OnRecord(c, RecordsOf(s, u), now)
    ensures var startTime := at + b.startBefore - 1;
            Evaluate(c, MarkSuspicious(b, s, u, startTime, at), u, now).1 == Verdict(false, NORMAL, "")
  {
    var after := MarkSuspicious(b, s, u, at + b.startBefore - 1, at);
    assert RecordsOf(after, u) == RecordsOf(s, u) + [Record(u, PRE_CHECK, SUSPICIOUS, at)] && !Marked(after, u, now);
    ProbeIsNotOnRecord(c, RecordsOf(s, u), u, at, now);
    hide MarkSuspicious, OnRecord, Evaluate, Marked;
    NormalWithoutMarkAndRecord(c, after, u, now);
  }

  /** A suspicion changes anything exactly while the user is probing: strictly between 300 and
      10 seconds before the activity starts, unless configured otherwise. Then it marks that
      user, for 300 seconds, and leaves a record; nobody else's verdict is concerned. */
  lemma {:induction false} SuspectedExactlyIf(b: BlackList, s: Store, u: int, startTime: int, now: int)
    ensures var from := startTime - if b.startBefore <= 0 then 300_000_000_000 else b.startBefore;
            var to := startTime - if b.endBefore <= 0 then 10_000_000_000 else b.endBefore;
            var after := MarkSuspicious(NormalBlackList(b), s, u, startTime, now);
            && (after != s <==> b.enabled && from < now < to)
            && (after != s ==>
                  && u in after.marks
                  && after.marks[u] == now + (if b.expireAfter <= 0 then 300_000_000_000 else b.expireAfter)
                  && RecordsOf(after, u) == RecordsOf(s, u) + [Record(u, "PRE_CHECK", 1, now)])
            && forall c, v, at :: v != u ==> Evaluate(c, after, v, at).1 == Evaluate(c, s, v, at).1
  {
    var after := MarkSuspicious(NormalBlackList(b), s, u, startTime, now);
    hide CountSince, HighSince;
    if after != s {
      assert |RecordsOf(after, u)| == |RecordsOf(s, u)| + 1;
    }
    forall c, v, at | v != u
      ensures Evaluate(c, after, v, at).1 == Evaluate(c, s, v, at).1
    {
      assert RecordsOf(after, v) == RecordsOf(s, v) && (Marked(after, v, at) <==> Marked(s, v, at));
    }
  }

  // ---------------------------------------------------------------------------
  // What a verdict says
  // ---------------------------------------------------------------------------

  /** The places of the records of an action since some moment. */
  function Places(rs: seq<Record>, action: string, since: int): set<int> {
    set i | 0 <= i < |rs| && rs[i].action == action && rs[i].createdAt >= since
  }

  lemma {:induction false} CountIsNumber(rs: seq<Record>, action: string, since: int)
    ensures CountSince(rs, action, since) == |Places(rs, action, since)|
  {
    if rs != [] {
      var n := |rs| - 1;
      CountIsNumber(rs[..n], action, since);
      var here := if rs[n].action == action && rs[n].createdAt >= since then {n} else {};
      assert Places(rs, action, since) == Places(rs[..n], action, since) + here;
    }
  }

  /** A user is a risk exactly while marked, or with a high-risk record in the last 24 hours,
      or with 10 requests in the last hour, unless configured otherwise; the first of these
      that holds is the reason. */
  lemma {:induction false} VerdictMeans(c: RiskConfig, s: Store, u: int, now: int)
    ensures var rs, v := RecordsOf(s, u), Evaluate(NormalRisk(c), s, u, now).1;
            var threshold := if c.threshold <= 0 then 10 else c.threshold;
            var recently := now - if c.recentWindow <= 0 then 3_600_000_000_000 else c.recentWindow;
            var lately := now - if c.highWindow <= 0 then 86_400_000_000_000 else c.highWindow;
            var marked := u in s.marks && (s.marks[u] == 0 || now <= s.marks[u]);
            var high := exists i :: 0 <= i < |rs| && rs[i].level >= 2 && rs[i].createdAt >= lately;
            && (v.risk <==> marked || high || |Places(rs, "SECKILL", recently)| >= threshold)
            && v.level == (if v.risk then 2 else 0)
            && (v.reason == "BLACKLIST" <==> marked)
            && (v.reason == "HIGH_RISK_RECORD" <==> !marked && high)
            && (v.reason == "RECENT_SECKILL_THRESHOLD" <==> v.risk && !marked && !high)
  {
    var recently := now - if c.recentWindow <= 0 then 3_600_000_000_000 else c.recentWindow;
    CountIsNumber(RecordsOf(s, u), SECKILL, recently);
    assert "BLACKLIST"[0] == 'B' && "HIGH_RISK_RECORD"[0] == 'H' && "RECENT_SECKILL_THRESHOLD"[0] == 'R';
    hide CountSince, Places;
  }

  /** Requests of one user, recorded without a date at the given readings. */
  function Requests(u: int, clock: seq<int>): seq<Op> {
    seq(|clock|, i requires 0 <= i < |clock| => DoRecord(u, Record(u, SECKILL, NORMAL, UNSET), clock[i]))
  }

  function Dated(u: int, clock: seq<int>): seq<Record> {
    seq(|clock|, i requires 0 <= i < |clock| => Record(u, SECKILL, NORMAL, clock[i]))
  }

  lemma {:induction false} RequestsAreDated(c: RiskConfig, b: BlackList, s: Store, u: int, clock: seq<int>)
    ensures var after := Final(c, b, s, Requests(u, clock));
            after.marks == s.marks && RecordsOf(after, u) == RecordsOf(s, u) + Dated(u, clock)
    decreases |clock|
  {
    if clock == [] {
      assert RecordsOf(s, u) + Dated(u, clock) == RecordsOf(s, u);
    } else {
      var next := Step(c, b, s, Requests(u, clock)[0]);
      assert Requests(u, clock)[1..] == Requests(u, clock[1..]);
      assert RecordsOf(next, u) == RecordsOf(s, u) + [Record(u, SECKILL, NORMAL, clock[0])];
      RequestsAreDated(c, b, next, u, clock[1..]);
      assert Dated(u, clock) == [Record(u, SECKILL, NORMAL, clock[0])] + Dated(u, clock[1..]);
    }
  }

  lemma OnlyCountMatters(c: RiskConfig, s: Store, u: int, clock: seq<int>, now: int)
    requires u !in s.marks && RecordsOf(s, u) == Dated(u, clock)
    ensures Evaluate(c, s, u, now).1.risk <==> CountSince(Dated(u, clock), SECKILL, now - c.recentWindow) >= c.threshold
  {
    hide CountSince;
  }

  lemma DatedCount(u: int, clock: seq<int>, since: int)
    ensures CountSince(Dated(u, clock), SECKILL, since) == |set i | 0 <= i < |clock| && clock[i] >= since|
  {
    CountIsNumber(Dated(u, clock), SECKILL, since);
    assert Places(Dated(u, clock), SECKILL, since) == set i | 0 <= i < |clock| && clock[i] >= since;
  }

  lemma RequestsLeave(c: RiskConfig, b: BlackList, s: Store, u: int, clock: seq<int>)
    requires u !in s.marks && RecordsOf(s, u) == []
    ensures var after := Final(c, b, s, Requests(u, clock)); u !in after.marks && RecordsOf(after, u) == Dated(u, clock)
  {
    RequestsAreDated(c, b, s, u, clock);
    assert [] + Dated(u, clock) == Dated(u, clock);
    hide Final;
  }

  /** A user about whom nothing is known becomes a risk with exactly that many requests: after
      any number of them, at whatever times, the verdict is a risk exactly if the threshold has
      been reached within the recent window: 10 in an hour, unless configured otherwise. */
  lemma {:induction false} RequestsTip(c: RiskConfig, b: BlackList, s: Store, u: int, clock: seq<int>, now: int)
    requires u !in s.marks && RecordsOf(s, u) == []
    ensures var window := if c.recentWindow <= 0 then 3_600_000_000_000 else c.recentWindow;
            Evaluate(NormalRisk(c), Final(NormalRisk(c), b, s, Requests(u, clock)), u, now).1.risk <==>
            |set i | 0 <= i < |clock| && clock[i] >= now - window| >= if c.threshold <= 0 then 10 else c.threshold
  {
    var after := Final(NormalRisk(c), b, s, Requests(u, clock));
    var window := if c.recentWindow <= 0 then 3_600_000_000_000 else c.recentWindow;
    assert NormalRisk(c).recentWindow == window;
    RequestsLeave(NormalRisk(c), b, s, u, clock);
    hide Evaluate, Final, CountSince, RecordsOf, Dated, Requests;
    OnlyCountMatters(NormalRisk(c), after, u, clock, now);
    DatedCount(u, clock, now - window);
  }

  /** What an evaluation leaves: a mark that holds stays, a risk that was not marked is marked
      for 24 hours, unless configured otherwise, and any other mark is gone. Only too many
      requests leave a record, a high-risk one. */
  lemma {:induction false} EvaluationLeaves(c: RiskConfig, s: Store, u: int, now: int)
    ensures var (after, v) := Evaluate(NormalRisk(c), s, u, now);
            && (v.reason == "BLACKLIST" ==> after == s)
            && (v.risk && v.reason != "BLACKLIST" ==>
                  u in after.marks && after.marks[u] == now + if c.userTTL <= 0 then 86_400_000_000_000 else c.userTTL)
            && (!v.risk ==> u !in after.marks)
            && RecordsOf(after, u) == RecordsOf(s, u) +
                 (if v.reason == "RECENT_SECKILL_THRESHOLD" then [Record(u, "RATE_LIMIT_HIT", 2, now)] else [])
            && forall w :: w != u ==>
                 && RecordsOf(after, w) == RecordsOf(s, w)
                 && (w in after.marks <==> w in s.marks) && (w in s.marks ==> after.marks[w] == s.marks[w])
  {
    assert "BLACKLIST"[0] == 'B' && "HIGH_RISK_RECORD"[0] == 'H' && "RECENT_SECKILL_THRESHOLD"[0] == 'R';
    assert RecordsOf(s, u) + [] == RecordsOf(s, u);
    hide CountSince, HighSince;
  }

  /** A sweep shows in a verdict only at the very moment at which a mark runs out: it takes the
      mark one moment too early. A mark without expiry is never swept. */
  lemma {:induction false} SweepIsSeenOnlyAtOnce(c: RiskConfig, s: Store, u: int, now: int, at: int)
    requires now <= at
    ensures Marked(Sweep(s, now), u, at) != Marked(s, u, at) <==>
      u in s.marks && s.marks[u] == now == at && now != 0
    ensures !(u in s.marks && s.marks[u] == now == at && now != 0) ==>
      Evaluate(c, Sweep(s, now), u, at).1 == Evaluate(c, s, u, at).1
  {
    hide CountSince, HighSince;
    assert RecordsOf(Sweep(s, now), u) == RecordsOf(s, u);
  }

  // ---------------------------------------------------------------------------
  // A verdict ends
  // ---------------------------------------------------------------------------

  /** The last moment at which a mark caused by activity up to `t` can still hold. */
  function Horizon(c: RiskConfig, t: int): int {
    t + c.recentWindow + c.highWindow + c.userTTL
  }

  /** Nothing known about the user is dated later than what evaluations up to `t` and
      their consequences can produce. */
  ghost predicate Fading(c: RiskConfig, s: Store, u: int, t: int) {
    && (forall i :: 0 <= i < |RecordsOf(s, u)| ==>
          && RecordsOf(s, u)[i].createdAt <= t + c.recentWindow
          && (RecordsOf(s, u)[i].action == SECKILL ==> RecordsOf(s, u)[i].createdAt <= t))
    && (u in s.marks ==> s.marks[u] != UNSET && s.marks[u] <= Horizon(c, t))
  }

  /** Operations that bring nothing new about user `u` from outside. */
  predicate NothingFromOutside(op: Op, u: int) {
    match op
    case DoEvaluate(_, now) => now > 0
    case DoMarkSuspicious(v, _, _) => v != u
    case DoRecord(v, _, _) => v != u
    case DoMark(v, _, _) => v != u
    case DoSweep(_) => true
  }

  lemma {:induction false} CountMeansRecord(rs: seq<Record>, action: string, since: int)
    requires CountSince(rs, action, since) > 0
    ensures exists i :: 0 <= i < |rs| && rs[i].action == action && rs[i].createdAt >= since
  {
    var r := rs[|rs| - 1];
    if !(r.action == action && r.createdAt >= since) {
      CountMeansRecord(rs[..|rs| - 1], action, since);
      var i :| 0 <= i < |rs| - 1 && rs[..|rs| - 1][i].action == action && rs[..|rs| - 1][i].createdAt >= since;
      assert rs[i].action == action && rs[i].createdAt >= since;
    }
  }

  lemma {:induction false} EvaluateKeepsFading(c: RiskConfig, s: Store, u: int, t: int, now: int)
    requires c.Valid() && Fading(c, s, u, t) && now > 0
    ensures Fading(c, Evaluate(c, s, u, now).0, u, t)
    ensures now > Horizon(c, t) ==> !Evaluate(c, s, u, now).1.risk
  {
    var rs := RecordsOf(s, u);
    if CountSince(rs, SECKILL, now - c.recentWindow) > 0 {
      CountMeansRecord(rs, SECKILL, now - c.recentWindow);
      assert now <= t + c.recentWindow;
    }
    if HighSince(rs, now - c.highWindow) {
      assert now <= t + c.recentWindow + c.highWindow;
    }
    var after := RecordsOf(Evaluate(c, s, u, now).0, u);
    assert after == rs || after == rs + [Record(u, RATE_LIMIT_HIT, HIGH, now)];
  }

  lemma {:induction false} QuietRunKeepsFading(c: RiskConfig, b: BlackList, s: Store, u: int, t: int, run: seq<Op>)
    requires c.Valid() && Fading(c, s, u, t)
    requires forall i :: 0 <= i < |run| ==> NothingFromOutside(run[i], u)
    ensures Fading(c, Final(c, b, s, run), u, t)
    decreases |run|
  {
    if run != [] {
      assert NothingFromOutside(run[0], u);
      if run[0] == DoEvaluate(u, run[0].now) {
        EvaluateKeepsFading(c, s, u, t, run[0].now);
      } else {
        OthersKeepFading(c, b, s, u, t, run[0]);
      }
      hide Fading, Step;
      QuietRunKeepsFading(c, b, Step(c, b, s, run[0]), u, t, run[1..]);
    }
  }

  lemma OthersKeepFading(c: RiskConfig, b: BlackList, s: Store, u: int, t: int, op: Op)
    requires Fading(c, s, u, t) && NothingFromOutside(op, u)
    requires op.DoEvaluate? ==> op.user != u
    ensures Fading(c, Step(c, b, s, op), u, t)
  {
    hide CountSince, HighSince;
    assert RecordsOf(Step(c, b, s, op), u) == RecordsOf(s, u);
  }

  /** What was known of the user from outside is dated up to `t`. */
  ghost predicate KnownUpTo(c: RiskConfig, s: Store, u: int, t: int) {
    && (forall i :: 0 <= i < |RecordsOf(s, u)| ==> RecordsOf(s, u)[i].createdAt <= t)
    && (u in s.marks ==> s.marks[u] != UNSET && s.marks[u] <= t + c.userTTL)
  }

  /** If nothing from outside arrives about a user after `t` (records dated up to t, mark
      expiring within one user TTL), every evaluation dated after
      t + recentWindow + highWindow + userTTL says normal, however often it was evaluated
      in between and whatever the clock does. */
  lemma {:induction false} VerdictEnds(c: RiskConfig, b: BlackList, s: Store, u: int, t: int, run: seq<Op>, now: int)
    requires c.Valid() && t > 0 && now > Horizon(c, t) && KnownUpTo(c, s, u, t)
    requires forall i :: 0 <= i < |run| ==> NothingFromOutside(run[i], u)
    ensures Evaluate(c, Final(c, b, s, run), u, now).1 == Verdict(false, NORMAL, "")
  {
    QuietRunKeepsFading(c, b, s, u, t, run);
    EvaluateKeepsFading(c, Final(c, b, s, run), u, t, now);
  }

  // ---------------------------------------------------------------------------
  // How long a verdict can last under a clock that does not step back
  // ---------------------------------------------------------------------------

  /** A mark that outlives the high-risk window cannot be renewed by the record made with it,
      so then the two windows do not add up. */
  function LastMoment(c: RiskConfig, t: int): int {
    t + c.userTTL +
    if c.userTTL <= c.highWindow then c.recentWindow + c.highWindow
    else if c.recentWindow >= c.highWindow then c.recentWindow else c.highWindow
  }

  /** Readings that never step back, starting no earlier than `from`. */
  ghost predicate Forward(from: int, run: seq<Op>)
    decreases |run|
  {
    run != [] ==> from <= run[0].now && Forward(run[0].now, run[1..])
  }

  /** As `Fading`; and whoever made a record later than `t` marked the user for a whole user
      TTL, which has not been taken back before its time. */
  ghost predicate Lapsing(c: RiskConfig, s: Store, u: int, t: int, clock: int) {
    && Fading(c, s, u, t)
    && (u in s.marks ==> s.marks[u] <= LastMoment(c, t))
    && (forall i :: 0 <= i < |RecordsOf(s, u)| && RecordsOf(s, u)[i].createdAt > t ==>
          || (u in s.marks && s.marks[u] >= RecordsOf(s, u)[i].createdAt + c.userTTL)
          || clock >= RecordsOf(s, u)[i].createdAt + c.userTTL)
  }

  lemma {:induction false} EvaluateKeepsLapsing(c: RiskConfig, s: Store, u: int, t: int, clock: int, now: int)
    requires c.Valid() && c.userTTL > c.highWindow && Lapsing(c, s, u, t, clock) && now > 0 && clock <= now
    ensures Lapsing(c, Evaluate(c, s, u, now).0, u, t, now)
    ensures now > LastMoment(c, t) ==> !Evaluate(c, s, u, now).1.risk
  {
    EvaluateKeepsFading(c, s, u, t, now);
    var rs := RecordsOf(s, u);
    if CountSince(rs, SECKILL, now - c.recentWindow) > 0 {
      CountMeansRecord(rs, SECKILL, now - c.recentWindow);
      assert now <= t + c.recentWindow;
    }
    if !Marked(s, u, now) && HighSince(rs, now - c.highWindow) {
      var i :| 0 <= i < |rs| && rs[i].level >= HIGH && rs[i].createdAt >= now - c.highWindow;
      assert rs[i].createdAt <= t;
    }
    var after := RecordsOf(Evaluate(c, s, u, now).0, u);
    assert after == rs || after == rs + [Record(u, RATE_LIMIT_HIT, HIGH, now)];
  }

  lemma OthersKeepLapsing(c: RiskConfig, b: BlackList, s: Store, u: int, t: int, clock: int, op: Op)
    requires Lapsing(c, s, u, t, clock) && NothingFromOutside(op, u) && clock <= op.now
    requires op.DoEvaluate? ==> op.user != u
    ensures Lapsing(c, Step(c, b, s, op), u, t, op.now)
  {
    OthersKeepFading(c, b, s, u, t, op);
    hide CountSince, HighSince, Fading;
    assert RecordsOf(Step(c, b, s, op), u) == RecordsOf(s, u);
  }

  lemma {:induction false} QuietRunKeepsLapsing(
    c: RiskConfig, b: BlackList, s: Store, u: int, t: int, clock: int, run: seq<Op>, now: int)
    returns (last: int)
    requires c.Valid() && c.userTTL > c.highWindow && Lapsing(c, s, u, t, clock) && now > 0
    requires Forward(clock, run + [DoEvaluate(u, now)])
    requires forall i :: 0 <= i < |run| ==> NothingFromOutside(run[i], u)
    ensures last <= now && Lapsing(c, Final(c, b, s, run), u, t, last)
    decreases |run|
  {
    if run == [] {
      last := clock;
      assert (run + [DoEvaluate(u, now)])[0].now == now;
    } else {
      assert NothingFromOutside(run[0], u);
      assert (run + [DoEvaluate(u, now)])[0] == run[0];
      assert (run + [DoEvaluate(u, now)])[1..] == run[1..] + [DoEvaluate(u, now)];
      if run[0] == DoEvaluate(u, run[0].now) {
        EvaluateKeepsLapsing(c, s, u, t, clock, run[0].now);
      } else {
        OthersKeepLapsing(c, b, s, u, t, clock, run[0]);
      }
      hide Lapsing, Step;
      last := QuietRunKeepsLapsing(c, b, Step(c, b, s, run[0]), u, t, run[0].now, run[1..], now);
    }
  }

  /** Under a clock that does not step back the verdict ends by `LastMoment`. */
  lemma {:induction false} VerdictEndsInTime(
    c: RiskConfig, b: BlackList, s: Store, u: int, t: int, run: seq<Op>, now: int)
    requires c.Valid() && t > 0 && now > LastMoment(c, t) && KnownUpTo(c, s, u, t)
    requires Forward(1, run + [DoEvaluate(u, now)])
    requires forall i :: 0 <= i < |run| ==> NothingFromOutside(run[i], u)
    ensures Evaluate(c, Final(c, b, s, run), u, now).1 == Verdict(false, NORMAL, "")
  {
    if c.userTTL <= c.highWindow {
      VerdictEnds(c, b, s, u, t, run, now);
    } else {
      var last := QuietRunKeepsLapsing(c, b, s, u, t, 1, run, now);
      EvaluateKeepsLapsing(c, Final(c, b, s, run), u, t, last, now);
    }
  }

  function Burst(u: int, n: nat, t: int): seq<Record> {
    seq(n, _ => Record(u, SECKILL, NORMAL, t))
  }

  lemma {:induction false} BurstCount(u: int, n: nat, t: int, since: int)
    requires since <= t
    ensures CountSince(Burst(u, n, t), SECKILL, since) == n
  {
    if n > 0 {
      assert Burst(u, n, t)[..n - 1] == Burst(u, n - 1, t);
      BurstCount(u, n - 1, t, since);
    }
  }

  function BurstStore(c: RiskConfig, u: int, t: int): Store
    requires c.Valid()
  {
    Store(map[], map[u := Burst(u, c.threshold, t)])
  }

  lemma BurstIsHighRisk(c: RiskConfig, u: int, t: int)
    requires c.Valid() && t > 0
    ensures var now := t + c.recentWindow;
            Evaluate(c, BurstStore(c, u, t), u, now).0
            == Store(map[u := now + c.userTTL],
                     map[u := Burst(u, c.threshold, t) + [Record(u, RATE_LIMIT_HIT, HIGH, now)]])
  {
    var rs := Burst(u, c.threshold, t);
    var now := t + c.recentWindow;
    BurstCount(u, c.threshold, t, now - c.recentWindow);
    var record := Record(u, RATE_LIMIT_HIT, HIGH, now);
    assert map[u := rs][u := rs + [record]] == map[u := rs + [record]];
    assert map[][u := now + c.userTTL] == map[u := now + c.userTTL];
    assert !HighSince(rs, now - c.highWindow);
  }

  lemma HighRecordMarksAgain(c: RiskConfig, s: Store, u: int, i: nat, now: int)
    requires c.Valid() && !Marked(s, u, now) && i < |RecordsOf(s, u)|
    requires RecordsOf(s, u)[i].level >= HIGH && RecordsOf(s, u)[i].createdAt >= now - c.highWindow
    ensures u in Evaluate(c, s, u, now).0.marks && Evaluate(c, s, u, now).0.marks[u] == now + c.userTTL
  {
    assert HighSince(RecordsOf(s, u), now - c.highWindow);
  }

  /** One burst of requests at `t`, evaluated as late as it counts; the mark swept when it is
      due; and evaluated again as late as the record of that verdict counts. */
  function RenewedBurst(c: RiskConfig, u: int, t: int): seq<Op> {
    [DoEvaluate(u, t + c.recentWindow), DoSweep(t + c.recentWindow + c.userTTL),
     DoEvaluate(u, t + c.recentWindow + c.highWindow)]
  }

  lemma FinalOfThree(c: RiskConfig, b: BlackList, s: Store, x: Op, y: Op, z: Op)
    ensures Final(c, b, s, [x, y, z]) == Step(c, b, Step(c, b, Step(c, b, s, x), y), z)
  {
    assert [x, y, z][1..] == [y, z] && [y, z][1..] == [z];
    var s' := Step(c, b, Step(c, b, s, x), y);
    assert Final(c, b, s', [z]) == Final(c, b, Step(c, b, s', z), [z][1..]);
  }

  lemma SweptMarkIsRenewed(c: RiskConfig, s: Store, u: int, i: nat, due: int, now: int)
    requires c.Valid() && u in s.marks && s.marks[u] == due && due != UNSET && i < |RecordsOf(s, u)|
    requires RecordsOf(s, u)[i].level >= HIGH && RecordsOf(s, u)[i].createdAt >= now - c.highWindow && now > 0
    ensures Marked(Evaluate(c, Sweep(s, due), u, now).0, u, now + c.userTTL)
  {
    HighRecordMarksAgain(c, Sweep(s, due), u, i, now);
    hide HighSince, CountSince, Evaluate;
  }

  lemma BurstIsKnown(c: RiskConfig, u: int, t: int)
    requires c.Valid()
    ensures KnownUpTo(c, BurstStore(c, u, t), u, t)
  {
  }

  lemma {:induction false} RenewedBurstMarks(c: RiskConfig, b: BlackList, u: int, t: int)
    requires c.Valid() && t > 0
    ensures Marked(Final(c, b, BurstStore(c, u, t), RenewedBurst(c, u, t)), u, Horizon(c, t))
  {
    var s := BurstStore(c, u, t);
    var t1, t2 := t + c.recentWindow, t + c.recentWindow + c.highWindow;
    BurstIsHighRisk(c, u, t);
    var s1 := Evaluate(c, s, u, t1).0;
    assert RecordsOf(s1, u)[c.threshold] == Record(u, RATE_LIMIT_HIT, HIGH, t1);
    hide Final, CountSince, HighSince, Sweep, Burst, BurstStore, Evaluate, Marked, RecordsOf;
    FinalOfThree(c, b, s, DoEvaluate(u, t1), DoSweep(t1 + c.userTTL), DoEvaluate(u, t2));
    SweptMarkIsRenewed(c, s1, u, c.threshold, t1 + c.userTTL, t2);
  }

  /** The horizon is attained: whatever the settings, two well-timed evaluations of one burst
      keep the user marked up to that very moment. */
  lemma {:induction false} HorizonAttained(c: RiskConfig, b: BlackList, u: int, t: int)
    requires c.Valid() && t > 0
    ensures KnownUpTo(c, BurstStore(c, u, t), u, t)
    ensures Evaluate(c, Final(c, b, BurstStore(c, u, t), RenewedBurst(c, u, t)), u, Horizon(c, t)).1.risk
  {
    BurstIsKnown(c, u, t);
    RenewedBurstMarks(c, b, u, t);
    hide Final, CountSince, HighSince, BurstStore, RenewedBurst, Marked, KnownUpTo;
  }

  /** Up to which moment activity up to `t` can still count as risk, under a clock that does
      not step back. */
  ghost predicate RiskCanLastUntil(c: RiskConfig, b: BlackList, u: int, t: int, at: int) {
    exists s: Store, run: seq<Op> ::
      && KnownUpTo(c, s, u, t)
      && (forall i :: 0 <= i < |run| ==> NothingFromOutside(run[i], u))
      && Forward(1, run + [DoEvaluate(u, at)])
      && Evaluate(c, Final(c, b, s, run), u, at).1.risk
  }

  lemma RiskLasts(c: RiskConfig, b: BlackList, u: int, t: int, s: Store, run: seq<Op>, at: int)
    requires KnownUpTo(c, s, u, t)
    requires forall i :: 0 <= i < |run| ==> NothingFromOutside(run[i], u)
    requires Forward(1, run + [DoEvaluate(u, at)])
    requires Evaluate(c, Final(c, b, s, run), u, at).1.risk
    ensures RiskCanLastUntil(c, b, u, t, at)
  {
  }

  /** An evaluation at `now` marks the user. */
  predicate MarksAt(c: RiskConfig, s: Store, u: int, now: int) {
    var marks := Evaluate(c, s, u, now).0.marks;
    u in marks && marks[u] == now + c.userTTL
  }

  ghost predicate Ready(c: RiskConfig, s: Store, u: int, t: int, now: int) {
    KnownUpTo(c, s, u, t) && now > 0 && MarksAt(c, s, u, now)
  }

  lemma {:induction false} OneEvaluationLasts(c: RiskConfig, b: BlackList, s: Store, u: int, t: int, now: int)
    requires c.Valid() && Ready(c, s, u, t, now)
    ensures RiskCanLastUntil(c, b, u, t, now + c.userTTL)
  {
    hide CountSince, HighSince;
    var run := [DoEvaluate(u, now)];
    assert Final(c, b, s, run) == Final(c, b, Evaluate(c, s, u, now).0, run[1..]) == Evaluate(c, s, u, now).0;
    assert run + [DoEvaluate(u, now + c.userTTL)] == [run[0], DoEvaluate(u, now + c.userTTL)];
    assert [run[0], DoEvaluate(u, now + c.userTTL)][1..] == [DoEvaluate(u, now + c.userTTL)];
    assert Forward(now, [DoEvaluate(u, now + c.userTTL)]);
    assert Marked(Evaluate(c, s, u, now).0, u, now + c.userTTL);
  }

  lemma RenewedBurstLasts(c: RiskConfig, b: BlackList, u: int, t: int)
    requires c.Valid() && t > 0 && c.userTTL <= c.highWindow
    ensures RiskCanLastUntil(c, b, u, t, Horizon(c, t))
  {
    HorizonAttained(c, b, u, t);
    RenewedBurstIsForward(c, u, t);
    hide *;
    RiskLasts(c, b, u, t, BurstStore(c, u, t), RenewedBurst(c, u, t), Horizon(c, t));
  }

  lemma BurstIsMarked(c: RiskConfig, u: int, t: int)
    requires c.Valid() && t > 0
    ensures MarksAt(c, BurstStore(c, u, t), u, t + c.recentWindow)
  {
    BurstIsHighRisk(c, u, t);
    hide Evaluate, BurstStore;
  }

  lemma BurstIsReady(c: RiskConfig, u: int, t: int)
    requires c.Valid() && t > 0
    ensures Ready(c, BurstStore(c, u, t), u, t, t + c.recentWindow)
  {
    BurstIsKnown(c, u, t);
    BurstIsMarked(c, u, t);
    hide KnownUpTo, MarksAt, BurstStore;
  }

  lemma BurstLasts(c: RiskConfig, b: BlackList, u: int, t: int)
    requires c.Valid() && t > 0
    ensures RiskCanLastUntil(c, b, u, t, t + c.recentWindow + c.userTTL)
  {
    BurstIsReady(c, u, t);
    hide *;
    OneEvaluationLasts(c, b, BurstStore(c, u, t), u, t, t + c.recentWindow);
  }

  lemma HighRecordIsReady(c: RiskConfig, s: Store, u: int, t: int)
    requires c.Valid() && t > 0 && s == Store(map[], map[u := [Record(u, RATE_LIMIT_HIT, HIGH, t)]])
    ensures Ready(c, s, u, t, t + c.highWindow)
  {
    HighRecordMarksAgain(c, s, u, 0, t + c.highWindow);
    hide CountSince, HighSince, Evaluate;
  }

  lemma HighRecordLasts(c: RiskConfig, b: BlackList, u: int, t: int)
    requires c.Valid() && t > 0
    ensures RiskCanLastUntil(c, b, u, t, t + c.highWindow + c.userTTL)
  {
    var s := Store(map[], map[u := [Record(u, RATE_LIMIT_HIT, HIGH, t)]]);
    HighRecordIsReady(c, s, u, t);
    hide *;
    OneEvaluationLasts(c, b, s, u, t, t + c.highWindow);
  }

  lemma LastMomentAttained(c: RiskConfig, b: BlackList, u: int, t: int)
    requires c.Valid() && t > 0
    ensures RiskCanLastUntil(c, b, u, t, LastMoment(c, t))
  {
    hide RiskCanLastUntil;
    if c.userTTL <= c.highWindow {
      RenewedBurstLasts(c, b, u, t);
    } else if c.recentWindow >= c.highWindow {
      BurstLasts(c, b, u, t);
    } else {
      HighRecordLasts(c, b, u, t);
    }
  }

  lemma RenewedBurstIsForward(c: RiskConfig, u: int, t: int)
    requires c.Valid() && t > 0 && c.userTTL <= c.highWindow
    ensures Forward(1, RenewedBurst(c, u, t) + [DoEvaluate(u, Horizon(c, t))])
    ensures |RenewedBurst(c, u, t)| == 3
    ensures forall i :: 0 <= i < 3 ==> NothingFromOutside(RenewedBurst(c, u, t)[i], u)
  {
    var r, last := RenewedBurst(c, u, t), DoEvaluate(u, Horizon(c, t));
    assert Forward(r[2].now, [last]);
    assert [r[2], last][1..] == [last];
    assert [r[1], r[2], last][1..] == [r[2], last];
    assert (r + [last])[1..] == [r[1], r[2], last];
  }

  /** No moment after `LastMoment` and that moment itself: the bound is exact. */
  lemma {:induction false} RiskLastsExactlyUntil(c: RiskConfig, b: BlackList, u: int, t: int, at: int)
    requires c.Valid() && t > 0
    ensures RiskCanLastUntil(c, b, u, t, LastMoment(c, t))
    ensures RiskCanLastUntil(c, b, u, t, at) ==> at <= LastMoment(c, t)
  {
    LastMomentAttained(c, b, u, t);
    if RiskCanLastUntil(c, b, u, t, at) && at > LastMoment(c, t) {
      var s: Store, run: seq<Op> :|
        && KnownUpTo(c, s, u, t)
        && (forall i :: 0 <= i < |run| ==> NothingFromOutside(run[i], u))
        && Forward(1, run + [DoEvaluate(u, at)])
        && Evaluate(c, Final(c, b, s, run), u, at).1.risk;
      VerdictEndsInTime(c, b, s, u, t, run, at);
    }
  }

  /** So the sum of both windows and the user TTL can be reached under such a clock exactly if
      a mark does not outlive the high-risk window. */
  lemma {:induction false} HorizonAttainedIff(c: RiskConfig, b: BlackList, u: int, t: int)
    requires c.Valid() && t > 0
    ensures RiskCanLastUntil(c, b, u, t, Horizon(c, t)) <==> c.userTTL <= c.highWindow
  {
    hide RiskCanLastUntil;
    RiskLastsExactlyUntil(c, b, u, t, Horizon(c, t));
  }

  // ---------------------------------------------------------------------------
  // Repository and evaluator
  // ---------------------------------------------------------------------------

  method AnyOf<T(==)>(s: set<T>) returns (x: T)
    requires s != {}
    ensures x in s
  {
    x :| x in s;
  }

  class MemoryStore {
    var riskUsers: map<int, int>
    var riskRecords: map<int, seq<Record>>

    ghost function Value(): Store
      reads this
    {
      Store(riskUsers, riskRecords)
    }

    constructor ()
      ensures Value() == Store(map[], map[])
    {
      riskUsers, riskRecords := map[], map[];
    }

    method MarkRiskUser(u: int, ttl: int, now: int)
      modifies this
      ensures Value() == Mark(old(Value()), u, ttl, now)
    {
      riskUsers := riskUsers[u := now + ttl];
    }

    method IsRiskUser(u: int, now: int) returns (marked: bool)
      modifies this
      ensures marked == Marked(old(Value()), u, now)
      ensures Value() == DropExpired(old(Value()), u, now)
    {
      if u !in riskUsers || Expired(riskUsers[u], now) {
        riskUsers := riskUsers - {u};
        return false;
      }
      return true;
    }

    method RecordRiskAction(r: Record, now: int)
      modifies this
      ensures Value() == Append(old(Value()), r, now)
      ensures RecordsOf(Value(), r.userID) ==
        RecordsOf(old(Value()), r.userID) + [if r.createdAt == 0 then r.(createdAt := now) else r]
    {
      var dated := if r.createdAt == UNSET then r.(createdAt := now) else r;
      riskRecords := riskRecords[r.userID := (if r.userID in riskRecords then riskRecords[r.userID] else []) + [dated]];
    }

    method CountRecentRiskActions(u: int, action: string, since: int) returns (count: nat)
      ensures count == CountSince(RecordsOf(Value(), u), action, since)
    {
      count := 0;
      var rs := if u in riskRecords then riskRecords[u] else [];
      for i := 0 to |rs|
        invariant count == CountSince(rs[..i], action, since)
      {
        if rs[i].action == action && rs[i].createdAt >= since {
          count := count + 1;
        }
        assert rs[..i + 1][..i] == rs[..i];
      }
      assert rs[..|rs|] == rs;
    }

    method HasHighRiskRecord(u: int, since: int) returns (found: bool)
      ensures found == HighSince(RecordsOf(Value(), u), since)
    {
      var rs := if u in riskRecords then riskRecords[u] else [];
      for i := 0 to |rs|
        invariant forall j :: 0 <= j < i ==> !(rs[j].level >= HIGH && rs[j].createdAt >= since)
      {
        if rs[i].level >= HIGH && rs[i].createdAt >= since {
          return true;
        }
      }
      return false;
    }

    /** Removes marks that are due at `now`, one moment earlier than a lookup would. */
    method CleanupExpiredRiskUsers(now: int) returns (deleted: nat)
      modifies this
      ensures Value() == Sweep(old(Value()), now)
      ensures deleted == |old(riskUsers)| - |riskUsers|
    {
      deleted := 0;
      var unseen := riskUsers.Keys;
      while unseen != {}
        invariant unseen <= old(riskUsers).Keys && riskRecords == old(riskRecords)
        invariant riskUsers ==
          map u | u in old(riskUsers) && (u in unseen || Kept(old(riskUsers)[u], now)) :: old(riskUsers)[u]
        invariant deleted == |old(riskUsers)| - |riskUsers|
        decreases |unseen|
      {
        var u := AnyOf(unseen);
        if riskUsers[u] != UNSET && riskUsers[u] <= now {
          ghost var before := riskUsers;
          riskUsers := riskUsers - {u};
          assert riskUsers.Keys == before.Keys - {u};
          deleted := deleted + 1;
        }
        unseen := unseen - {u};
      }
      assert riskUsers == Sweep(old(Value()), now).marks;
    }
  }

  class Evaluator {
    const repo: MemoryStore
    const config: BlackList
    const risk: RiskConfig

    constructor (repo: MemoryStore, config: BlackList, risk: RiskConfig)
      ensures this.repo == repo && this.config == config && this.risk == risk
    {
      this.repo, this.config, this.risk := repo, config, risk;
    }

    method EvaluateUser(u: int, now: int) returns (v: Verdict)
      modifies repo
      ensures (repo.Value(), v) == Evaluate(NormalRisk(risk), old(repo.Value()), u, now)
    {
      var inBlackList := repo.IsRiskUser(u, now);
      if inBlackList {
        return Verdict(true, HIGH, "BLACKLIST");
      }
      var c := NormalRisk(risk);
      var hasHighRisk := repo.HasHighRiskRecord(u, now - c.highWindow);
      if hasHighRisk {
        repo.MarkRiskUser(u, c.userTTL, now);
        return Verdict(true, HIGH, "HIGH_RISK_RECORD");
      }
      var recentCount := repo.CountRecentRiskActions(u, SECKILL, now - c.recentWindow);
      if recentCount >= c.threshold {
        repo.MarkRiskUser(u, c.userTTL, now);
        repo.RecordRiskAction(Record(u, RATE_LIMIT_HIT, HIGH, now), now);
        return Verdict(true, HIGH, "RECENT_SECKILL_THRESHOLD");
      }
      return Verdict(false, NORMAL, "");
    }

    method MarkSuspiciousUser(u: int, startTime: int, now: int)
      modifies repo
      ensures repo.Value() == MarkSuspicious(NormalBlackList(config), old(repo.Value()), u, startTime, now)
    {
      var c := NormalBlackList(config);
      if !c.enabled {
        return;
      }
      if startTime - c.startBefore < now && now < startTime - c.endBefore {
        repo.MarkRiskUser(u, c.expireAfter, now);
        repo.RecordRiskAction(Record(u, PRE_CHECK, SUSPICIOUS, now), now);
      }
    }
  }
}
