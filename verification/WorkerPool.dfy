/** The gateway's worker pool: a bounded channel, workers that receive from it, and the
    shutdown that cancels, closes and drains. */
module WorkerPool {
  import opened Prelude

  datatype PartInEvent = PartInEvent(userID: int, activityNo: string, skuNo: string, quantity: int, traceID: string)

  // ---------------------------------------------------------------------------
  // What processing one event comes to
  // ---------------------------------------------------------------------------

  /** What the pool's collaborators answer while one event is processed: `None` where they
      report an error. */
  datatype Answers = Answers(
    riskChecked: bool, risky: Option<bool>, open: Option<bool>, stockPeeked: bool, stock: Option<int>, published: bool)

  datatype Verdict = Publish | Fail(reason: string)

  const RISK_USER_BLOCKED := "risk_user_blocked"
  const ACTIVITY_NOT_FOUND := "activity_not_found"
  const ACTIVITY_NOT_OPEN := "activity_not_open"
  const STOCK_CHECK_FAILED := "stock_check_failed"
  const STOCK_EMPTY := "STOCK_EMPTY"
  const PUBLISH_FAILED := "publish_failed"

  const REASONS :=
    {RISK_USER_BLOCKED, ACTIVITY_NOT_FOUND, ACTIVITY_NOT_OPEN, STOCK_CHECK_FAILED, STOCK_EMPTY, PUBLISH_FAILED}

  /** A risk service in trouble lets users pass; any other trouble fails the event. */
  function Decide(a: Answers): (v: Verdict)
    ensures v == Publish <==>
      && !(a.riskChecked && a.risky == Some(true))
      && a.open == Some(true)
      && (a.stockPeeked ==> a.stock.Some? && a.stock.value > 0)
      && a.published
    ensures v.Fail? ==> v.reason in REASONS
  {
    if a.riskChecked && a.risky == Some(true) then Fail(RISK_USER_BLOCKED)
    else if a.open.None? then Fail(ACTIVITY_NOT_FOUND)
    else if !a.open.value then Fail(ACTIVITY_NOT_OPEN)
    else if a.stockPeeked && a.stock.None? then Fail(STOCK_CHECK_FAILED)
    else if a.stockPeeked && a.stock.value <= 0 then Fail(STOCK_EMPTY)
    else if !a.published then Fail(PUBLISH_FAILED)
    else Publish
  }

  /** A failed event is told the first check that stopped it. */
  lemma WhyItFails(a: Answers)
    ensures Decide(a) == Fail("risk_user_blocked") <==> a.riskChecked && a.risky == Some(true)
    ensures Decide(a) == Fail("activity_not_found") <==> !(a.riskChecked && a.risky == Some(true)) && a.open == None
    ensures Decide(a) == Fail("activity_not_open") <==>
      !(a.riskChecked && a.risky == Some(true)) && a.open == Some(false)
    ensures Decide(a) == Fail("stock_check_failed") <==>
      !(a.riskChecked && a.risky == Some(true)) && a.open == Some(true) && a.stockPeeked && a.stock == None
    ensures Decide(a) == Fail("STOCK_EMPTY") <==>
      && !(a.riskChecked && a.risky == Some(true)) && a.open == Some(true)
      && a.stockPeeked && a.stock.Some? && a.stock.value <= 0
    ensures Decide(a) == Fail("publish_failed") <==>
      && !(a.riskChecked && a.risky == Some(true)) && a.open == Some(true)
      && (a.stockPeeked ==> a.stock.Some? && a.stock.value > 0) && !a.published
  {
    assert "risk_user_blocked"[0] == 'r' && "STOCK_EMPTY"[0] == 'S' && "publish_failed"[0] == 'p';
    assert "stock_check_failed"[0] == 's' && "activity_not_found"[0] == 'a' && "activity_not_open"[0] == 'a';
    assert "activity_not_found"[13] == 'f' && "activity_not_open"[13] == 'o';
  }

  /** What has become of processed events. */
  datatype Log = Log(published: seq<PartInEvent>, failed: seq<PartInEvent>)

  function Record(log: Log, e: PartInEvent, v: Verdict): Log {
    if v == Publish then log.(published := log.published + [e]) else log.(failed := log.failed + [e])
  }

  function RecordAll(log: Log, events: seq<PartInEvent>, answers: seq<Answers>): Log
    requires |answers| >= |events|
    decreases |events|
  {
    if events == [] then log
    else RecordAll(Record(log, events[0], Decide(answers[0])), events[1..], answers[1..])
  }

  function Settled(log: Log): multiset<PartInEvent> {
    multiset(log.published) + multiset(log.failed)
  }

  // ---------------------------------------------------------------------------
  // The pool as a protocol
  // ---------------------------------------------------------------------------

  datatype Worker = Waiting | Busy(event: PartInEvent, draining: bool) | Draining | Exited

  /** `accepted`, `received` and `sinceExit` (the events accepted since a worker last
      exited) are history variables. `returned`: `Start` has returned. */
  datatype State = State(
    size: nat, queue: seq<PartInEvent>, workers: seq<Worker>, cancelled: bool, closed: bool, returned: bool, log: Log,
    accepted: seq<PartInEvent>, received: seq<PartInEvent>, sinceExit: seq<PartInEvent>)

  datatype Event =
    | Submit(event: PartInEvent)
    | Receive(worker: nat)
    | Process(worker: nat, answers: Answers)
    | SeeCancelled(worker: nat)
    | Exit(worker: nat)
    | Cancel
    | Close
    | Return

  /** A send on a closed channel would panic. A worker exits when it finds the channel
      closed and empty, or, once it has seen the cancellation, merely empty. */
  predicate Enabled(s: State, e: Event) {
    match e
    case Submit(_) => !s.closed
    case Receive(w) => w < |s.workers| && s.queue != [] && (s.workers[w].Waiting? || s.workers[w].Draining?)
    case Process(w, _) => w < |s.workers| && s.workers[w].Busy?
    case SeeCancelled(w) => w < |s.workers| && s.workers[w].Waiting? && s.cancelled
    case Exit(w) =>
      && w < |s.workers| && s.queue == []
      && (s.workers[w].Draining? || (s.workers[w].Waiting? && s.closed))
    case Cancel => true
    case Close => s.cancelled && !s.closed
    case Return => s.closed && s.queue == []
  }

  function Next(s: State, e: Event): State
    requires Enabled(s, e)
  {
    match e
    case Submit(event) =>
      if |s.queue| < s.size then
        s.(queue := s.queue + [event], accepted := s.accepted + [event], sinceExit := s.sinceExit + [event])
      else s
    case Receive(w) =>
      s.(queue := s.queue[1..], received := s.received + [s.queue[0]],
         workers := s.workers[w := Busy(s.queue[0], s.workers[w].Draining?)])
    case Process(w, answers) =>
      s.(log := Record(s.log, s.workers[w].event, Decide(answers)),
         workers := s.workers[w := if s.workers[w].draining then Draining else Waiting])
    case SeeCancelled(w) => s.(workers := s.workers[w := Draining])
    case Exit(w) => s.(workers := s.workers[w := Exited], sinceExit := [])
    case Cancel => s.(cancelled := true)
    case Close => s.(closed := true)
    case Return => s.(returned := true)
  }

  function Start(size: nat, workers: nat): State {
    State(size, [], seq(workers, i => Waiting), false, false, false, Log([], []), [], [], [])
  }

  ghost predicate Reaches(from: State, run: seq<Event>, to: State)
    decreases |run|
  {
    if run == [] then from == to
    else Enabled(from, run[0]) && Reaches(Next(from, run[0]), run[1..], to)
  }

  // ---------------------------------------------------------------------------
  // Conservation
  // ---------------------------------------------------------------------------

  function Held(w: Worker): multiset<PartInEvent> {
    if w.Busy? then multiset{w.event} else multiset{}
  }

  /** The events workers are busy with. */
  function InFlight(ws: seq<Worker>): multiset<PartInEvent> {
    if ws == [] then multiset{} else Held(ws[0]) + InFlight(ws[1..])
  }

  lemma Regroup(a: multiset<PartInEvent>, x: multiset<PartInEvent>, y: multiset<PartInEvent>,
                h: multiset<PartInEvent>, w: multiset<PartInEvent>)
    requires y + h == x + w
    ensures (a + y) + h == (a + x) + w
  {
    assert (a + y) + h == a + (y + h);
    assert (a + x) + w == a + (x + w);
  }

  lemma {:induction false} InFlightUpdate(ws: seq<Worker>, i: nat, w: Worker)
    requires i < |ws|
    ensures InFlight(ws[i := w]) + Held(ws[i]) == InFlight(ws) + Held(w)
  {
    hide Held;
    var ws' := ws[i := w];
    if i == 0 {
      assert ws'[1..] == ws[1..];
    } else {
      assert ws'[1..] == ws[1..][i - 1 := w];
      InFlightUpdate(ws[1..], i - 1, w);
      Regroup(Held(ws[0]), InFlight(ws[1..]), InFlight(ws'[1..]), Held(ws[i]), Held(w));
    }
  }

  lemma {:induction false} NobodyBusy(ws: seq<Worker>)
    requires forall i :: 0 <= i < |ws| ==> !ws[i].Busy?
    ensures InFlight(ws) == multiset{}
  {
    if ws != [] {
      NobodyBusy(ws[1..]);
    }
  }

  predicate AllExited(s: State) {
    forall i :: 0 <= i < |s.workers| ==> s.workers[i].Exited?
  }

  /** Events are received in the order in which they were accepted, and everything received
      is in flight, published or failed. */
  ghost predicate Conserved(s: State) {
    && |s.queue| <= s.size
    && s.accepted == s.received + s.queue
    && multiset(s.received) == InFlight(s.workers) + Settled(s.log)
  }

  ghost predicate PhasesRight(s: State) {
    && (AllExited(s) ==> s.queue == s.sinceExit)
    && (s.closed ==> s.cancelled)
    && (forall i :: 0 <= i < |s.workers| && (s.workers[i].Exited? || s.workers[i].Draining?) ==> s.cancelled)
    && (forall i :: 0 <= i < |s.workers| && s.workers[i].Busy? && s.workers[i].draining ==> s.cancelled)
    && (s.returned ==> s.closed && s.queue == [])
  }

  ghost predicate Inv(s: State) {
    Conserved(s) && PhasesRight(s)
  }

  lemma StartHoldsInv(size: nat, workers: nat)
    ensures Inv(Start(size, workers))
  {
    NobodyBusy(Start(size, workers).workers);
  }

  lemma RecordSettles(log: Log, e: PartInEvent, v: Verdict)
    ensures Settled(Record(log, e, v)) == Settled(log) + multiset{e}
  {
  }

  lemma Takes(x: multiset<PartInEvent>, y: multiset<PartInEvent>, t: multiset<PartInEvent>, m: multiset<PartInEvent>)
    requires y + multiset{} == x + m
    ensures (x + t) + m == y + t
  {
    assert y == x + m;
  }

  lemma Gives(x: multiset<PartInEvent>, y: multiset<PartInEvent>, t: multiset<PartInEvent>, m: multiset<PartInEvent>)
    requires y + m == x + multiset{}
    ensures x + t == y + (t + m)
  {
    assert y + m == x;
  }

  /** Replacing what a worker holds, whether or not something is settled with it. */
  lemma WorkerConserves(ws: seq<Worker>, i: nat, w: Worker, received: seq<PartInEvent>, log: Log)
    requires i < |ws| && multiset(received) == InFlight(ws) + Settled(log)
    ensures ws[i].Busy? && !w.Busy? ==>
      forall v :: multiset(received) == InFlight(ws[i := w]) + Settled(Record(log, ws[i].event, v))
    ensures !ws[i].Busy? && w.Busy? ==> multiset(received + [w.event]) == InFlight(ws[i := w]) + Settled(log)
    ensures !ws[i].Busy? && !w.Busy? ==> multiset(received) == InFlight(ws[i := w]) + Settled(log)
  {
    InFlightUpdate(ws, i, w);
    var x, y, t := InFlight(ws), InFlight(ws[i := w]), Settled(log);
    hide InFlight, Settled, Record;
    if ws[i].Busy? && !w.Busy? {
      Gives(x, y, t, multiset{ws[i].event});
      forall v
        ensures Settled(Record(log, ws[i].event, v)) == t + multiset{ws[i].event}
      {
        RecordSettles(log, ws[i].event, v);
      }
    } else if !ws[i].Busy? {
      Takes(x, y, t, Held(w));
    }
  }

  lemma StepConserves(s: State, e: Event)
    requires Conserved(s) && Enabled(s, e)
    ensures Conserved(Next(s, e))
  {
    hide InFlight, Decide, Settled, Record;
    if e.Receive? || e.Process? || e.SeeCancelled? || e.Exit? {
      WorkerConserves(s.workers, e.worker, Next(s, e).workers[e.worker], s.received, s.log);
    }
    if e.Receive? {
      assert s.queue == [s.queue[0]] + s.queue[1..];
    }
  }

  lemma StepKeepsPhases(s: State, e: Event)
    requires PhasesRight(s) && Enabled(s, e)
    ensures PhasesRight(Next(s, e))
  {
    hide Decide, Record;
    var s' := Next(s, e);
    if e.Receive? || e.Process? || e.SeeCancelled? {
      assert !s'.workers[e.worker].Exited?;
    }
  }

  lemma StepKeepsInv(s: State, e: Event)
    requires Inv(s) && Enabled(s, e)
    ensures Inv(Next(s, e))
  {
    StepConserves(s, e);
    StepKeepsPhases(s, e);
  }

  lemma {:induction false} RunKeepsInv(from: State, run: seq<Event>, to: State)
    requires Inv(from) && Reaches(from, run, to)
    ensures Inv(to)
    decreases |run|
  {
    if run != [] {
      StepKeepsInv(from, run[0]);
      RunKeepsInv(Next(from, run[0]), run[1..], to);
    }
  }

  /** At every moment of every run nothing is lost and nothing doubled, and the queue stays
      within its size. */
  lemma EventsConserved(size: nat, workers: nat, run: seq<Event>, to: State)
    requires Reaches(Start(size, workers), run, to)
    ensures |to.queue| <= to.size
    ensures to.accepted == to.received + to.queue
    ensures multiset(to.accepted) == multiset(to.queue) + InFlight(to.workers) + Settled(to.log)
  {
    StartHoldsInv(size, workers);
    RunKeepsInv(Start(size, workers), run, to);
    hide InFlight, Settled, Reaches;
  }

  // ---------------------------------------------------------------------------
  // Shutdown
  // ---------------------------------------------------------------------------

  /** Once every worker has exited, what is left in the queue is exactly what was accepted
      after the last exit; everything else was published or failed. */
  lemma StrandedExactly(size: nat, workers: nat, run: seq<Event>, to: State)
    requires Reaches(Start(size, workers), run, to) && AllExited(to)
    ensures to.queue == to.sinceExit
    ensures multiset(to.accepted) == multiset(to.sinceExit) + Settled(to.log)
  {
    EventsConserved(size, workers, run, to);
    StartHoldsInv(size, workers);
    RunKeepsInv(Start(size, workers), run, to);
    NobodyBusy(to.workers);
  }

  /** Nothing is submitted after the cancellation. */
  predicate NoLateSubmits(cancelled: bool, run: seq<Event>)
    decreases |run|
  {
    run != [] ==> !(cancelled && run[0].Submit?) && NoLateSubmits(cancelled || run[0].Cancel?, run[1..])
  }

  predicate SomeoneExited(s: State) {
    exists i :: 0 <= i < |s.workers| && s.workers[i].Exited?
  }

  lemma StepNotLate(s: State, e: Event)
    requires Inv(s) && Enabled(s, e) && !(s.cancelled && e.Submit?)
    requires SomeoneExited(s) ==> s.sinceExit == []
    ensures SomeoneExited(Next(s, e)) ==> Next(s, e).sinceExit == []
    ensures |Next(s, e).workers| == |s.workers|
    ensures Next(s, e).cancelled == (s.cancelled || e.Cancel?)
  {
    hide InFlight, Decide, Settled, Record;
    var s' := Next(s, e);
    if SomeoneExited(s') && !e.Exit? {
      var i :| 0 <= i < |s'.workers| && s'.workers[i].Exited?;
      assert s.workers[i].Exited?;
    }
  }

  lemma {:induction false} NothingLate(from: State, run: seq<Event>, to: State)
    requires Inv(from) && Reaches(from, run, to) && NoLateSubmits(from.cancelled, run)
    requires SomeoneExited(from) ==> from.sinceExit == []
    ensures SomeoneExited(to) ==> to.sinceExit == []
    ensures |to.workers| == |from.workers|
    decreases |run|
  {
    hide Inv, Enabled, Next, SomeoneExited;
    if run != [] {
      StepKeepsInv(from, run[0]);
      StepNotLate(from, run[0]);
      NothingLate(Next(from, run[0]), run[1..], to);
    }
  }

  /** With no submit after the cancellation, once all workers have exited the queue is
      empty and each accepted event was published or failed, once. */
  lemma DrainIsComplete(size: nat, workers: nat, run: seq<Event>, to: State)
    requires workers > 0 && Reaches(Start(size, workers), run, to) && NoLateSubmits(false, run) && AllExited(to)
    ensures to.queue == []
    ensures multiset(to.accepted) == Settled(to.log)
  {
    StartHoldsInv(size, workers);
    NothingLate(Start(size, workers), run, to);
    assert to.workers[0].Exited?;
    StrandedExactly(size, workers, run, to);
  }

  /** When `Start` returns everything accepted has been received, and everything is settled
      exactly if no worker is busy at that moment. */
  lemma ReturnMeansReceived(size: nat, workers: nat, run: seq<Event>, to: State)
    requires Reaches(Start(size, workers), run, to) && to.returned
    ensures to.received == to.accepted
    ensures multiset(to.accepted) == InFlight(to.workers) + Settled(to.log)
    ensures multiset(to.accepted) == Settled(to.log) <==> forall i :: 0 <= i < |to.workers| ==> !to.workers[i].Busy?
  {
    StartHoldsInv(size, workers);
    RunKeepsInv(Start(size, workers), run, to);
    assert to.received + [] == to.received;
    if forall i :: 0 <= i < |to.workers| ==> !to.workers[i].Busy? {
      NobodyBusy(to.workers);
    } else {
      var i :| 0 <= i < |to.workers| && to.workers[i].Busy?;
      BusyIsInFlight(to.workers, i);
      hide InFlight, Settled, Reaches;
      assert |InFlight(to.workers) + Settled(to.log)| == |InFlight(to.workers)| + |Settled(to.log)|;
    }
  }

  lemma {:induction false} BusyIsInFlight(ws: seq<Worker>, i: nat)
    requires i < |ws| && ws[i].Busy?
    ensures ws[i].event in InFlight(ws) && |InFlight(ws)| > 0
  {
    if i > 0 {
      BusyIsInFlight(ws[1..], i - 1);
    }
    assert multiset{ws[i].event} <= InFlight(ws);
  }

  lemma {:induction false} Extend(from: State, run: seq<Event>, mid: State, e: Event)
    requires Reaches(from, run, mid) && Enabled(mid, e)
    ensures Reaches(from, run + [e], Next(mid, e))
    decreases |run|
  {
    if run == [] {
      assert Reaches(Next(mid, e), [], Next(mid, e));
      assert run + [e] == [e] && [e][1..] == [];
    } else {
      assert (run + [e])[1..] == run[1..] + [e];
      Extend(Next(from, run[0]), run[1..], mid, e);
    }
  }

  /** One more step of a run. */
  lemma Go(from: State, run: seq<Event>, s: State, e: Event) returns (run': seq<Event>, s': State)
    requires Reaches(from, run, s) && Enabled(s, e)
    ensures Reaches(from, run', s') && s' == Next(s, e)
  {
    run', s' := run + [e], Next(s, e);
    Extend(from, run, s, e);
  }

  /** `Start` promises to block until all events are processed; with any queue and any
      workers it may return with one still in a worker's hands. */
  lemma StartReturnsTooEarly(size: nat, workers: nat, e: PartInEvent)
    requires size > 0 && workers > 0
    ensures exists run, to ::
      Reaches(Start(size, workers), run, to) && to.returned && to.accepted == [e] && to.log == Log([], [])
  {
    var from := Start(size, workers);
    var run: seq<Event>, s := [], from;
    assert Reaches(from, run, s);
    hide Reaches;
    run, s := Go(from, run, s, Submit(e));
    run, s := Go(from, run, s, Receive(0));
    run, s := Go(from, run, s, Cancel);
    run, s := Go(from, run, s, Close);
    run, s := Go(from, run, s, Return);
    assert s.accepted == [e];
  }

  /** Whenever `Start` has returned, every accepted event was published or failed. */
  ghost predicate ReturnsSettled(size: nat, workers: nat) {
    forall run, to :: Reaches(Start(size, workers), run, to) && to.returned ==> multiset(to.accepted) == Settled(to.log)
  }

  lemma {:induction false} NothingReceived(from: State, run: seq<Event>, to: State)
    requires Reaches(from, run, to) && from.received == []
    requires from.workers == [] || (from.size == 0 && from.queue == [])
    ensures to.received == []
    decreases |run|
  {
    if run != [] {
      NothingReceived(Next(from, run[0]), run[1..], to);
    }
  }

  /** What `Start` promises holds exactly of pools that can never process anything: those
      without room in the queue or without workers, which the constructor never makes. */
  lemma ReturnsSettledIff(size: nat, workers: nat)
    ensures ReturnsSettled(size, workers) <==> size == 0 || workers == 0
  {
    if size == 0 || workers == 0 {
      forall run, to | Reaches(Start(size, workers), run, to) && to.returned
        ensures multiset(to.accepted) == Settled(to.log)
      {
        NothingReceived(Start(size, workers), run, to);
        StartHoldsInv(size, workers);
        RunKeepsInv(Start(size, workers), run, to);
        assert multiset(to.received) == multiset{};
      }
    } else {
      var e := PartInEvent(0, "", "", 0, "");
      StartReturnsTooEarly(size, workers, e);
      var run, to :|
        Reaches(Start(size, workers), run, to) && to.returned && to.accepted == [e] && to.log == Log([], []);
      assert e in multiset(to.accepted) && e !in Settled(to.log);
    }
  }

  /** The pool after its first `k` workers have exited. */
  function Leaving(size: nat, workers: nat, k: nat): State
    requires k <= workers
  {
    Start(size, workers).(cancelled := true, workers := seq(workers, i => if i < k then Exited else Waiting))
  }

  lemma {:induction false} WorkersLeave(size: nat, workers: nat, k: nat) returns (run: seq<Event>)
    requires k <= workers
    ensures Reaches(Start(size, workers), run, Leaving(size, workers, k))
  {
    var from, s := Start(size, workers), Start(size, workers);
    if k == 0 {
      run := [];
      assert Reaches(from, run, s);
      run, s := Go(from, run, s, Cancel);
      assert s.workers == Leaving(size, workers, 0).workers;
    } else {
      run := WorkersLeave(size, workers, k - 1);
      s := Leaving(size, workers, k - 1);
      hide Reaches;
      run, s := Go(from, run, s, SeeCancelled(k - 1));
      run, s := Go(from, run, s, Exit(k - 1));
      assert s.workers == Leaving(size, workers, k).workers;
    }
  }

  /** With any queue and any workers, a submit between cancellation and close can be accepted
      and then never be processed. */
  lemma LateSubmitCanBeStranded(size: nat, workers: nat, e: PartInEvent)
    requires size > 0
    ensures exists run, to :: Reaches(Start(size, workers), run, to) && AllExited(to) && to.queue == [e]
  {
    var run := WorkersLeave(size, workers, workers);
    var s := Leaving(size, workers, workers);
    run, s := Go(Start(size, workers), run, s, Submit(e));
    assert AllExited(s) && s.queue == [e];
  }

  // ---------------------------------------------------------------------------
  // Events processed after the cancellation
  // ---------------------------------------------------------------------------

  /** What collaborators that honour a cancelled context answer: every one of them reports an
      error. */
  predicate AllRefuse(a: Answers) {
    a.risky.None? && a.open.None?
  }

  /** Collaborators honour the cancellation. */
  predicate Honoured(cancelled: bool, run: seq<Event>)
    decreases |run|
  {
    run != [] ==>
      && (cancelled && run[0].Process? ==> AllRefuse(run[0].answers))
      && Honoured(cancelled || run[0].Cancel?, run[1..])
  }

  /** Workers drain with the cancelled context. Where collaborators honour it, nothing is
      published any more: every event processed after the cancellation fails. */
  lemma {:induction false} NothingPublishedAfterCancel(from: State, run: seq<Event>, to: State)
    requires Reaches(from, run, to) && from.cancelled && Honoured(true, run)
    ensures to.log.published == from.log.published
    decreases |run|
  {
    if run != [] {
      NothingPublishedAfterCancel(Next(from, run[0]), run[1..], to);
    }
  }

  // ---------------------------------------------------------------------------
  // The pool as an object
  // ---------------------------------------------------------------------------

  /** One write to the result store. */
  datatype ResultWrite = Processing(traceID: string) | Failed(traceID: string, reason: string)

  function WritesFor(traceID: string, v: Verdict): seq<ResultWrite> {
    [Processing(traceID)] + if v.Fail? then [Failed(traceID, v.reason)] else []
  }

  /** Writing for several events, one after the other. */
  function WriteAll(writes: seq<ResultWrite>, events: seq<PartInEvent>, generated: seq<string>, answers: seq<Answers>)
    : seq<ResultWrite>
    requires |generated| >= |events| && |answers| >= |events|
    decreases |events|
  {
    if events == [] then writes
    else
      var traceID := if events[0].traceID == "" then generated[0] else events[0].traceID;
      WriteAll(writes + WritesFor(traceID, Decide(answers[0])), events[1..], generated[1..], answers[1..])
  }

  class WorkerPool {
    const queueSize: nat
    const workerCount: nat
    const hasResults: bool
    var events: seq<PartInEvent>
    var writes: seq<ResultWrite>
    var log: Log

    constructor (queueSize: int, workerCount: int, numCPU: nat, hasResults: bool)
      ensures this.queueSize == if queueSize <= 0 then 10000 else queueSize
      ensures this.workerCount == if workerCount <= 0 then numCPU else workerCount
      ensures this.hasResults == hasResults
      ensures events == [] && writes == [] && log == Log([], [])
    {
      this.queueSize := if queueSize <= 0 then 10000 else queueSize;
      this.workerCount := if workerCount <= 0 then numCPU else workerCount;
      this.hasResults := hasResults;
      events, writes, log := [], [], Log([], []);
    }

    /** Refuses, without blocking, exactly when the queue is full. */
    method Submit(event: PartInEvent) returns (ok: bool)
      modifies `events
      ensures ok <==> old(|events|) < queueSize
      ensures events == if ok then old(events) + [event] else old(events)
    {
      ok := |events| < queueSize;
      if ok {
        events := events + [event];
      }
    }

    /** `generated` is the trace id made up for an event that has none. A processed event
        is published once or marked as failed once, after being marked as in process. */
    method ProcessEvent(event: PartInEvent, generated: string, answers: Answers)
      modifies `writes, `log
      ensures log == Record(old(log), event, Decide(answers))
      ensures log.published == old(log.published) +
        if !(answers.riskChecked && answers.risky == Some(true)) && answers.open == Some(true)
           && (answers.stockPeeked ==> answers.stock.Some? && answers.stock.value > 0) && answers.published
        then [event] else []
      ensures |log.published| + |log.failed| == |old(log.published)| + |old(log.failed)| + 1
      ensures writes == old(writes) + if hasResults
        then WritesFor(if event.traceID == "" then generated else event.traceID, Decide(answers)) else []
    {
      var traceID := if event.traceID == "" then generated else event.traceID;
      if hasResults {
        writes := writes + [Processing(traceID)];
      }
      if answers.riskChecked && answers.risky.Some? && answers.risky.value {
        MarkFailed(event, traceID, RISK_USER_BLOCKED);
        return;
      }
      if answers.open.None? {
        MarkFailed(event, traceID, ACTIVITY_NOT_FOUND);
        return;
      }
      if !answers.open.value {
        MarkFailed(event, traceID, ACTIVITY_NOT_OPEN);
        return;
      }
      var stock := 1;
      if answers.stockPeeked {
        if answers.stock.None? {
          MarkFailed(event, traceID, STOCK_CHECK_FAILED);
          return;
        }
        stock := answers.stock.value;
      }
      if stock <= 0 {
        MarkFailed(event, traceID, STOCK_EMPTY);
        return;
      }
      if !answers.published {
        MarkFailed(event, traceID, PUBLISH_FAILED);
        return;
      }
      log := log.(published := log.published + [event]);
    }

    method MarkFailed(event: PartInEvent, traceID: string, reason: string)
      modifies `writes, `log
      ensures log == old(log).(failed := old(log).failed + [event])
      ensures writes == old(writes) + if hasResults then [Failed(traceID, reason)] else []
    {
      log := log.(failed := log.failed + [event]);
      if hasResults {
        writes := writes + [Failed(traceID, reason)];
      }
    }

    /** A worker alone after the cancellation: it takes event after event until none is
        left. */
    method Drain(generated: seq<string>, answers: seq<Answers>)
      requires |generated| >= |events| && |answers| >= |events|
      modifies `events, `writes, `log
      ensures events == []
      ensures log == RecordAll(old(log), old(events), answers)
      ensures writes == if hasResults then WriteAll(old(writes), old(events), generated, answers) else old(writes)
    {
      hide WritesFor, Decide, Record;
      var n := 0;
      while events != []
        invariant n <= old(|events|) && events == old(events)[n..]
        invariant |generated[n..]| >= |events| && |answers[n..]| >= |events|
        invariant RecordAll(log, events, answers[n..]) == RecordAll(old(log), old(events), answers)
        invariant hasResults ==>
          WriteAll(writes, events, generated[n..], answers[n..])
            == WriteAll(old(writes), old(events), generated, answers)
        invariant !hasResults ==> writes == old(writes)
        decreases |events|
      {
        var event := events[0];
        events := events[1..];
        ProcessEvent(event, generated[n], answers[n]);
        assert answers[n..][1..] == answers[n + 1..] && generated[n..][1..] == generated[n + 1..];
        n := n + 1;
      }
    }
  }

  /** A drain with collaborators that honour the cancellation fails every waiting event. */
  lemma {:induction false} DrainAfterCancelFailsAll(log: Log, events: seq<PartInEvent>, answers: seq<Answers>)
    requires |answers| >= |events| && forall i :: 0 <= i < |events| ==> AllRefuse(answers[i])
    ensures RecordAll(log, events, answers) == log.(failed := log.failed + events)
    decreases |events|
  {
    if events == [] {
      assert log.failed + events == log.failed;
    } else {
      var next := Record(log, events[0], Decide(answers[0]));
      DrainAfterCancelFailsAll(next, events[1..], answers[1..]);
      assert log.failed + [events[0]] + events[1..] == log.failed + events;
    }
  }

  /** Draining settles exactly the events that were waiting. */
  lemma {:induction false} DrainSettlesAll(log: Log, events: seq<PartInEvent>, answers: seq<Answers>)
    requires |answers| >= |events|
    ensures Settled(RecordAll(log, events, answers)) == Settled(log) + multiset(events)
    decreases |events|
  {
    if events != [] {
      DrainSettlesAll(Record(log, events[0], Decide(answers[0])), events[1..], answers[1..]);
      RecordSettles(log, events[0], Decide(answers[0]));
      assert events == [events[0]] + events[1..];
    }
  }
}
