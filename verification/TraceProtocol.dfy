/** The result a client polls for: who writes it, in which order, and how it is read. */
module TraceProtocol {
  import opened Prelude
  import I = Idempotency
  import W = WorkerPool

  const QUEUE_FULL := "system busy: queue full"

  // ---------------------------------------------------------------------------
  // Reading a stored value
  // ---------------------------------------------------------------------------

  const FAIL_REASONS := {"ACTIVITY_CLOSED", "RISK_USER", "STOCK_EMPTY", "ORDER_FAIL", "PROCESS_ERROR", "PUBLISH_FAILED"}

  /** The reasons the processor refuses a message for. */
  const PROCESSOR_REASONS := {"ACTIVITY_CLOSED", "STOCK_EMPTY", "RISK_USER", "ORDER_FAIL"}

  datatype SeckillResult = SeckillResult(status: string, orderNo: string, error: string)

  function InProcess(): SeckillResult { SeckillResult("processing", "", "") }

  function Success(orderNo: string): SeckillResult { SeckillResult("success", orderNo, "") }

  function Failure(error: string): SeckillResult { SeckillResult("failed", "", error) }

  /** `parse` reads a JSON object, if the text is one. */
  predicate IsJson(value: string, parse: string -> Option<SeckillResult>) {
    "{" <= value && parse(value).Some?
  }

  function Decode(value: string, parse: string -> Option<SeckillResult>): SeckillResult {
    if IsJson(value, parse) then parse(value).value
    else if value == PROCESSING || value == "" then InProcess()
    else if value in FAIL_REASONS then Failure(value)
    else Success(value)
  }

  /** An order number comes back as that order's success exactly if it is none of the words
      with a meaning of their own, and a reason as that failure exactly if it is one of the
      known reasons. Values that are JSON objects are read as what they say. */
  lemma RoundTripsIff(value: string, parse: string -> Option<SeckillResult>)
    requires !IsJson(value, parse)
    ensures Decode(value, parse) == Success(value) <==> value !in FAIL_REASONS + {PROCESSING, ""}
    ensures Decode(value, parse) == Failure(value) <==> value in FAIL_REASONS
    ensures Decode(value, parse) == InProcess() <==> value in {PROCESSING, ""}
  {
    assert "success" != "failed" && "success" != "processing" && "failed" != "processing" by {
      assert "success"[0] == 's' && "failed"[0] == 'f' && "processing"[0] == 'p';
    }
  }

  predicate StartsIn(value: string, low: char, high: char) {
    value != "" && low <= value[0] <= high
  }

  lemma FailReasonsAreCapital(r: string)
    requires r in FAIL_REASONS
    ensures StartsIn(r, 'A', 'Z') && r != PROCESSING
  {
    assert "ACTIVITY_CLOSED"[0] == 'A' && "RISK_USER"[0] == 'R' && "STOCK_EMPTY"[0] == 'S' && "ORDER_FAIL"[0] == 'O';
    assert "PROCESS_ERROR"[0] == 'P' && "PROCESS_ERROR"[7] == '_' && PROCESSING[7] == 'I';
    assert "PUBLISH_FAILED"[0] == 'P' && "PUBLISH_FAILED"[1] == 'U' && PROCESSING[1] == 'R';
  }

  lemma GatewayReasonsAreSmall(r: string)
    requires r in W.REASONS + {QUEUE_FULL}
    ensures r == W.STOCK_EMPTY || StartsIn(r, 'a', 'z')
  {
    assert W.RISK_USER_BLOCKED[0] == 'r' && W.ACTIVITY_NOT_FOUND[0] == 'a' && W.ACTIVITY_NOT_OPEN[0] == 'a';
    assert W.STOCK_CHECK_FAILED[0] == 's' && W.PUBLISH_FAILED[0] == 'p' && QUEUE_FULL[0] == 's';
  }

  /** Of the reasons the gateway itself writes, only the empty stock is read as a failure;
      every other one is shown to the client as a success with that reason for an order
      number. Every reason of the processor is read as a failure. */
  lemma GatewayReasonsReadAsSuccess(reason: string, parse: string -> Option<SeckillResult>)
    ensures reason in W.REASONS ==>
      Decode(reason, parse) == if reason == W.STOCK_EMPTY then Failure(reason) else Success(reason)
    ensures Decode(QUEUE_FULL, parse) == Success(QUEUE_FULL)
    ensures reason in PROCESSOR_REASONS ==> Decode(reason, parse) == Failure(reason)
  {
    assert PROCESSING[0] == 'P';
    if reason in W.REASONS + {QUEUE_FULL} {
      GatewayReasonsAreSmall(reason);
    }
    GatewayReasonsAreSmall(QUEUE_FULL);
    forall r | r in FAIL_REASONS
      ensures StartsIn(r, 'A', 'Z') && r != PROCESSING
    {
      FailReasonsAreCapital(r);
    }
    hide W.REASONS;
  }

  datatype Poll = Stop(reason: string) | Continue | Done(orderNo: string) | Trouble

  /** `None`: nothing is stored under either key, which the poll reports as an error. */
  function PollAnswer(traceID: string, found: Option<SeckillResult>): Poll {
    if traceID == "" then Stop("")
    else match found
      case None => Trouble
      case Some(r) =>
        if r.status == "success" then Done(r.orderNo) else if r.status == "failed" then Stop(r.error) else Continue
  }

  // ---------------------------------------------------------------------------
  // The writers of one trace's result, interleaved
  // ---------------------------------------------------------------------------

  /** Where a request is, from the handler to the worker pool. */
  datatype Stage =
    | Arrived
    | Refused
    | Ready
    | Full
    | Queued
    | Checking
    | Unsuccessful(reason: string)
    | Over

  /** The way the handler takes the user's token and marks the trace as in process: both in
      one pipeline; in a pipeline that fails (and may have written) and then separately; or
      separately to begin with. */
  datatype Acquisition =
    | Pipelined(allowed: bool)
    | PipelineFailed(wrote: bool, allowed: bool, lost: bool)
    | Separate(allowed: bool, lost: bool)

  /** `trace`: the trace all of this is about, and `requests`, how many requests carry it.
      `accurate`: publishing reports an error exactly when the message did not get into the
      stream. `work`: how long claimants of the message take at most. `marksArrive`: a claimant
      that has told the result also gets it into the processor's own key. */
  datatype Config = Config(trace: string, requests: nat, accurate: bool, work: nat, marksArrive: bool)

  /** `key` is the stored result, `writes` all results that were ever stored, and `stored`
      the requests whose message is in the stream, from where it can be delivered any number
      of times. Whoever processes a delivery first claims the trace: `claims` are the
      processor's own keys and its claimants, `told` the claimants that have reported their
      result but not yet marked it there, and `marked` when a mark first arrived. */
  datatype State = State(
    stages: map<nat, Stage>, stored: set<nat>, key: Option<string>, writes: seq<string>,
    claims: I.State, told: map<nat, string>, marked: Option<int>)

  /** `lost`: the write failed, or there is no result store. */
  datatype Event =
    | Reject(id: nat)
    | Acquire(id: nat, how: Acquisition)
    | Submit(id: nat, accepted: bool)
    | MarkFull(id: nat, lost: bool)
    | Take(id: nat, lost: bool)
    | Process(id: nat, answers: W.Answers, inStream: bool)
    | MarkFailed(id: nat, lost: bool)
    | Claim(step: I.Event)
    | Tell(claimant: nat, value: string, lost: bool)
    | Expire

  function StageOf(s: State, id: nat): Stage {
    if id in s.stages then s.stages[id] else Arrived
  }

  /** A message can only get into the stream where the worker publishes it. */
  predicate Publishes(cfg: Config, answers: W.Answers, inStream: bool) {
    && (inStream ==> W.Decide(answers) in {W.Publish, W.Fail(W.PUBLISH_FAILED)})
    && (cfg.accurate ==> (inStream <==> W.Decide(answers) == W.Publish))
  }

  /** The processor's steps on its own key: it claims on delivery, marks what it has told,
      and releases if it ran into trouble instead. */
  predicate Steps(cfg: Config, s: State, e: I.Event) {
    && I.Enabled(s.claims, e)
    && match e
       case TryStart(_, trace, ttl, _) => s.stored != {} && trace == cfg.trace && ttl == I.PROCESSING_TTL
       case Mark(id, value, ttl, _, _) => id in s.told && value == s.told[id] && ttl == RESULT_TTL
       case Release(id, _, _) => id !in s.told
       case Die(_, _) => true
  }

  ghost predicate Kept(cfg: Config, s: State, e: I.Event) {
    && I.Brief(s.claims, e.at, cfg.work)
    && (cfg.marksArrive ==> (e.Mark? ==> !e.lost) && (e.Die? ==> e.id !in s.told))
  }

  ghost predicate Enabled(cfg: Config, s: State, e: Event) {
    match e
    case Expire => true
    case Claim(step) => Steps(cfg, s, step) && Kept(cfg, s, step)
    case Tell(c, value, _) => s.stored != {} && c in s.claims.active && c !in s.told && value != PROCESSING
    case _ =>
      e.id < cfg.requests &&
      match e
      case Reject(id) => StageOf(s, id).Arrived?
      case Acquire(id, _) => StageOf(s, id).Arrived?
      case Submit(id, _) => StageOf(s, id).Ready?
      case MarkFull(id, _) => StageOf(s, id).Full?
      case Take(id, _) => StageOf(s, id).Queued?
      case Process(id, answers, inStream) => StageOf(s, id).Checking? && Publishes(cfg, answers, inStream)
      case MarkFailed(id, _) => StageOf(s, id).Unsuccessful?
  }

  function Move(s: State, id: nat, stage: Stage): State {
    s.(stages := s.stages[id := stage])
  }

  function Write(s: State, value: string, really: bool): State {
    if really then s.(key := Some(value), writes := s.writes + [value]) else s
  }

  /** In the pipeline the trace is marked as in process even if the user is refused. */
  function Acquired(s: State, id: nat, how: Acquisition): State {
    var stage := if how.allowed then Ready else Refused;
    match how
    case Pipelined(_) => Move(Write(s, PROCESSING, true), id, stage)
    case PipelineFailed(wrote, allowed, lost) =>
      Move(Write(Write(s, PROCESSING, wrote), PROCESSING, allowed && !lost), id, stage)
    case Separate(allowed, lost) => Move(Write(s, PROCESSING, allowed && !lost), id, stage)
  }

  function Next(cfg: Config, s: State, e: Event): State
    requires Enabled(cfg, s, e)
  {
    match e
    case Reject(id) => Move(s, id, Refused)
    case Acquire(id, how) => Acquired(s, id, how)
    case Submit(id, accepted) => Move(s, id, if accepted then Queued else Full)
    case MarkFull(id, lost) => Move(Write(s, QUEUE_FULL, !lost), id, Over)
    case Take(id, lost) => Move(Write(s, PROCESSING, !lost), id, Checking)
    case Process(id, answers, inStream) =>
      var v := W.Decide(answers);
      Move(s.(stored := if inStream then s.stored + {id} else s.stored), id,
           if v.Fail? then Unsuccessful(v.reason) else Over)
    case MarkFailed(id, lost) => Move(Write(s, StageOf(s, id).reason, !lost), id, Over)
    case Claim(step) =>
      s.(claims := I.Next(s.claims, step),
         told := if step.TryStart? then s.told else s.told - {step.id},
         marked := if step.Mark? && !step.lost && s.marked.None? then Some(step.at) else s.marked)
    case Tell(c, value, lost) => Write(s, value, !lost).(told := s.told[c := value])
    case Expire => s.(key := None)
  }

  function Start(): State {
    State(map[], {}, None, [], I.Start(0), map[], None)
  }

  ghost predicate Reaches(cfg: Config, from: State, run: seq<Event>, to: State)
    decreases |run|
  {
    if run == [] then from == to
    else Enabled(cfg, from, run[0]) && Reaches(cfg, Next(cfg, from, run[0]), run[1..], to)
  }

  lemma {:induction false} Extend(cfg: Config, from: State, run: seq<Event>, mid: State, e: Event)
    requires Reaches(cfg, from, run, mid) && Enabled(cfg, mid, e)
    ensures Reaches(cfg, from, run + [e], Next(cfg, mid, e))
    decreases |run|
  {
    if run == [] {
      assert Reaches(cfg, Next(cfg, mid, e), [], Next(cfg, mid, e));
      assert run + [e] == [e] && [e][1..] == [];
    } else {
      assert (run + [e])[1..] == run[1..] + [e];
      Extend(cfg, Next(cfg, from, run[0]), run[1..], mid, e);
    }
  }

  lemma Go(cfg: Config, run: seq<Event>, s: State, e: Event) returns (run': seq<Event>, s': State)
    requires Reaches(cfg, Start(), run, s) && Enabled(cfg, s, e)
    ensures Reaches(cfg, Start(), run', s') && s' == Next(cfg, s, e)
  {
    run', s' := run + [e], Next(cfg, s, e);
    Extend(cfg, Start(), run, s, e);
  }

  /** The stages before the message may be in the stream or a failure is known. */
  predicate Early(stage: Stage) {
    stage.Arrived? || stage.Refused? || stage.Ready? || stage.Full? || stage.Queued? || stage.Checking?
  }

  predicate AllProcessing(writes: seq<string>) {
    forall i :: 0 <= i < |writes| ==> writes[i] == PROCESSING
  }

  /** Nothing is marked as in process after it got a result. */
  predicate NeverRegresses(writes: seq<string>) {
    forall i, j :: 0 <= i < j < |writes| && writes[i] != PROCESSING ==> writes[j] != PROCESSING
  }

  ghost predicate Inv(s: State) {
    && NeverRegresses(s.writes)
    && (Early(StageOf(s, 0)) ==> AllProcessing(s.writes) && s.stored == {})
    && (StageOf(s, 0).Unsuccessful? ==> StageOf(s, 0).reason in W.REASONS)
    && (s.key.Some? ==> s.writes != [] && s.key.value == s.writes[|s.writes| - 1])
  }

  lemma FinalWords(reason: string)
    requires reason in W.REASONS + {QUEUE_FULL}
    ensures reason != PROCESSING
  {
    assert PROCESSING[0] == 'P';
    GatewayReasonsAreSmall(reason);
    assert W.STOCK_EMPTY[0] == 'S';
  }

  /** One more write: after marks of being in process anything goes, after a result only
      results do. */
  lemma OneMoreWrite(writes: seq<string>, value: string)
    requires NeverRegresses(writes) && (AllProcessing(writes) || value != PROCESSING)
    ensures NeverRegresses(writes + [value])
    ensures AllProcessing(writes) && value == PROCESSING ==> AllProcessing(writes + [value])
  {
  }

  lemma AcquiringKeepsInv(s: State, how: Acquisition)
    requires Inv(s) && StageOf(s, 0).Arrived?
    ensures Inv(Acquired(s, 0, how))
  {
    OneMoreWrite(s.writes, PROCESSING);
    OneMoreWrite(s.writes + [PROCESSING], PROCESSING);
    hide NeverRegresses, AllProcessing;
  }

  /** The steps of the request before it has a verdict. */
  lemma EarlyStepKeepsInv(cfg: Config, s: State, e: Event)
    requires cfg.requests <= 1 && Inv(s) && Enabled(cfg, s, e)
    requires e.Reject? || e.Submit? || e.MarkFull? || e.Take? || e.Process?
    ensures Inv(Next(cfg, s, e))
  {
    FinalWords(QUEUE_FULL);
    OneMoreWrite(s.writes, if e.MarkFull? then QUEUE_FULL else PROCESSING);
    hide W.REASONS, W.Decide, FAIL_REASONS, NeverRegresses, AllProcessing;
  }

  /** The other steps write results, or nothing. */
  lemma LateStepKeepsInv(cfg: Config, s: State, e: Event)
    requires cfg.requests <= 1 && Inv(s) && Enabled(cfg, s, e)
    requires e.MarkFailed? || e.Claim? || e.Tell? || e.Expire?
    ensures Inv(Next(cfg, s, e))
  {
    if e.MarkFailed? {
      FinalWords(StageOf(s, 0).reason);
      OneMoreWrite(s.writes, StageOf(s, 0).reason);
    }
    if e.Tell? {
      OneMoreWrite(s.writes, e.value);
    }
    hide W.REASONS, W.Decide, FAIL_REASONS, NeverRegresses, AllProcessing, I.Next, Steps, Kept;
  }

  lemma StepKeepsInv(cfg: Config, s: State, e: Event)
    requires cfg.requests <= 1 && Inv(s) && Enabled(cfg, s, e)
    ensures Inv(Next(cfg, s, e))
  {
    hide W.REASONS, Inv, Steps, Kept;
    match e
    case Acquire(id, how) => AcquiringKeepsInv(s, how);
    case MarkFailed(_, _) => LateStepKeepsInv(cfg, s, e);
    case Claim(_) => LateStepKeepsInv(cfg, s, e);
    case Tell(_, _, _) => LateStepKeepsInv(cfg, s, e);
    case Expire => LateStepKeepsInv(cfg, s, e);
    case _ => EarlyStepKeepsInv(cfg, s, e);
  }

  lemma {:induction false} RunKeepsInv(cfg: Config, from: State, run: seq<Event>, to: State)
    requires cfg.requests <= 1 && Inv(from) && Reaches(cfg, from, run, to)
    ensures Inv(to)
    decreases |run|
  {
    if run != [] {
      StepKeepsInv(cfg, from, run[0]);
      RunKeepsInv(cfg, Next(cfg, from, run[0]), run[1..], to);
    }
  }

  // ---------------------------------------------------------------------------
  // A result never goes back to being in process
  // ---------------------------------------------------------------------------

  ghost predicate AlwaysForward(cfg: Config) {
    forall run, to :: Reaches(cfg, Start(), run, to) ==> NeverRegresses(to.writes)
  }

  /** With one request for a trace: in every interleaving with any number of deliveries, and
      whatever writes are lost, a trace that is stored as in process has never had a result. */
  lemma InProcessMeansNoResultYet(cfg: Config, run: seq<Event>, to: State)
    requires cfg.requests <= 1 && Reaches(cfg, Start(), run, to)
    ensures NeverRegresses(to.writes)
    ensures to.key == Some(PROCESSING) ==> AllProcessing(to.writes)
  {
    RunKeepsInv(cfg, Start(), run, to);
  }

  lemma RegressionWithTwoRequests(cfg: Config)
    requires cfg.requests >= 2
    ensures exists run, to :: Reaches(cfg, Start(), run, to) && !NeverRegresses(to.writes)
  {
    var how := Separate(true, false);
    FinalWords(QUEUE_FULL);
    var run: seq<Event>, s := [], Start();
    assert Reaches(cfg, Start(), run, s);
    hide Reaches;
    run, s := Go(cfg, run, s, Acquire(0, how));
    run, s := Go(cfg, run, s, Submit(0, false));
    run, s := Go(cfg, run, s, MarkFull(0, false));
    run, s := Go(cfg, run, s, Acquire(1, how));
    assert s.writes == [PROCESSING, QUEUE_FULL, PROCESSING];
    assert s.writes[1] != PROCESSING && s.writes[2] == PROCESSING;
  }

  /** Results never go back exactly when no two requests share a trace; whether publishing
      reports errors accurately does not matter here. */
  lemma AlwaysForwardIff(cfg: Config)
    ensures AlwaysForward(cfg) <==> cfg.requests <= 1
  {
    if cfg.requests <= 1 {
      forall run, to | Reaches(cfg, Start(), run, to)
        ensures NeverRegresses(to.writes)
      {
        InProcessMeansNoResultYet(cfg, run, to);
      }
    } else {
      RegressionWithTwoRequests(cfg);
    }
  }

  // ---------------------------------------------------------------------------
  // A result, once there, is the only one
  // ---------------------------------------------------------------------------

  predicate OneResult(writes: seq<string>) {
    forall i, j :: 0 <= i < j < |writes| && writes[i] != PROCESSING && writes[j] != PROCESSING ==>
      writes[i] == writes[j]
  }

  /** No later than the first mark lasts. */
  predicate Within(s: State) {
    s.marked.Some? ==> s.claims.now <= s.marked.value + RESULT_TTL
  }

  /** What a deployment has to provide for one result per trace. */
  predicate WellRun(cfg: Config) {
    cfg.requests <= 1 && cfg.accurate && cfg.work <= I.PROCESSING_TTL && cfg.marksArrive
  }

  ghost predicate GatewaySettling(s: State) {
    && (Early(StageOf(s, 0)) || StageOf(s, 0).Unsuccessful? ==> AllProcessing(s.writes) && s.stored == {})
    && (s.stored == {} ==> s.claims.active == map[] && s.marked.None?)
  }

  /** Until the one claimant tells its result there is none; once it has marked it, nobody is
      granted the trace again. */
  ghost predicate ClaimsSettling(cfg: Config, s: State) {
    && I.Exclusive(s.claims) && I.ClaimsOf(s.claims, I.PROCESSING_TTL)
    && (forall c :: c in s.claims.active ==> s.claims.active[c].trace == cfg.trace)
    && (forall c :: c in s.told ==> c in s.claims.active && s.told[c] != PROCESSING)
    && (s.told != map[] ==> s.marked.None?)
    && (s.marked.Some? ==>
          I.Final(s.claims.entries, cfg.trace, s.marked.value + RESULT_TTL) && s.claims.active == map[])
  }

  ghost predicate Settling(cfg: Config, s: State) {
    && OneResult(s.writes)
    && GatewaySettling(s)
    && ClaimsSettling(cfg, s)
    && (s.stored != {} && s.told == map[] && s.marked.None? ==> AllProcessing(s.writes))
  }

  lemma FirstResult(writes: seq<string>, value: string)
    requires AllProcessing(writes)
    ensures OneResult(writes + [value])
    ensures value == PROCESSING ==> AllProcessing(writes + [value])
  {
  }

  /** What a request's own steps do to the writes: nothing once its message may be in the
      stream, and before that only the last one is not a mark of being in process. */
  lemma RequestStepWrites(cfg: Config, s: State, e: Event)
    requires WellRun(cfg) && Settling(cfg, s) && Enabled(cfg, s, e) && !e.Claim? && !e.Tell?
    ensures OneResult(Next(cfg, s, e).writes)
    ensures var stage := StageOf(Next(cfg, s, e), 0);
            Early(stage) || stage.Unsuccessful? ==> AllProcessing(Next(cfg, s, e).writes)
    ensures s.stored != {} ==> Next(cfg, s, e).writes == s.writes
  {
    if Early(StageOf(s, 0)) || StageOf(s, 0).Unsuccessful? {
      FirstResult(s.writes, PROCESSING);
      FirstResult(s.writes + [PROCESSING], PROCESSING);
      FirstResult(s.writes, QUEUE_FULL);
      if StageOf(s, 0).Unsuccessful? {
        FirstResult(s.writes, StageOf(s, 0).reason);
      }
    }
    hide W.REASONS, W.Decide, FAIL_REASONS, ClaimsSettling, OneResult, AllProcessing;
  }

  lemma RequestStepKeepsSettling(cfg: Config, s: State, e: Event)
    requires WellRun(cfg) && Settling(cfg, s) && Enabled(cfg, s, e) && !e.Claim? && !e.Tell?
    ensures Settling(cfg, Next(cfg, s, e))
  {
    RequestStepWrites(cfg, s, e);
    RequestStepStages(cfg, s, e);
    hide W.REASONS, W.Decide, FAIL_REASONS, I.Exclusive, I.Final, OneResult, AllProcessing, Next, Enabled;
  }

  lemma RequestStepStages(cfg: Config, s: State, e: Event)
    requires WellRun(cfg) && Settling(cfg, s) && Enabled(cfg, s, e) && !e.Claim? && !e.Tell?
    ensures var s' := Next(cfg, s, e);
            && s'.claims == s.claims && s'.told == s.told && s'.marked == s.marked
            && (Early(StageOf(s', 0)) || StageOf(s', 0).Unsuccessful? ==> s'.stored == {})
            && (s'.stored == {} ==> s.stored == {})
            && (s'.stored != {} && s.stored == {} ==> s'.writes == s.writes && AllProcessing(s.writes))
  {
    hide W.REASONS, FAIL_REASONS, ClaimsSettling, OneResult, AllProcessing, W.Decide;
    assert W.Publish != W.Fail(W.PUBLISH_FAILED);
  }

  lemma TellKeepsSettling(cfg: Config, s: State, e: Event)
    requires WellRun(cfg) && Settling(cfg, s) && Enabled(cfg, s, e) && e.Tell?
    ensures Settling(cfg, Next(cfg, s, e))
  {
    var teller := e.claimant;
    assert s.told == map[] by {
      assert s.claims.active.Keys == {teller};
    }
    FirstResult(s.writes, e.value);
    hide I.Exclusive, I.Final, OneResult, AllProcessing;
  }

  lemma ClaimKeepsSettling(cfg: Config, s: State, e: Event)
    requires WellRun(cfg) && Settling(cfg, s) && Enabled(cfg, s, e) && e.Claim? && Within(Next(cfg, s, e))
    ensures Settling(cfg, Next(cfg, s, e))
  {
    var s', step := Next(cfg, s, e), e.step;
    I.StepKeepsExclusive(s.claims, step);
    if s.marked.Some? {
      assert step.TryStart? && !I.Started(s.claims.entries, step.trace, step.ttl, step.at).1;
      assert s'.claims.entries == s.claims.entries && s'.claims.active == map[];
    } else if !step.TryStart? {
      assert forall c :: c in s.claims.active ==> c == step.id;
      assert s'.claims.active == map[] && s'.told == map[];
    }
  }

  lemma StepKeepsSettling(cfg: Config, s: State, e: Event)
    requires WellRun(cfg) && Inv(s) && Settling(cfg, s) && Enabled(cfg, s, e) && Within(Next(cfg, s, e))
    ensures Settling(cfg, Next(cfg, s, e))
  {
    if e.Claim? {
      ClaimKeepsSettling(cfg, s, e);
    } else if e.Tell? {
      TellKeepsSettling(cfg, s, e);
    } else {
      RequestStepKeepsSettling(cfg, s, e);
    }
  }

  lemma {:induction false} FirstMarkStays(cfg: Config, from: State, run: seq<Event>, to: State)
    requires Reaches(cfg, from, run, to)
    ensures from.claims.now <= to.claims.now && (from.marked.Some? ==> to.marked == from.marked)
    decreases |run|
  {
    if run != [] {
      FirstMarkStays(cfg, Next(cfg, from, run[0]), run[1..], to);
    }
  }

  lemma {:induction false} RunKeepsSettling(cfg: Config, from: State, run: seq<Event>, to: State)
    requires WellRun(cfg) && Inv(from) && Settling(cfg, from) && Reaches(cfg, from, run, to) && Within(to)
    ensures Settling(cfg, to)
    decreases |run|
  {
    if run != [] {
      FirstMarkStays(cfg, Next(cfg, from, run[0]), run[1..], to);
      StepKeepsInv(cfg, from, run[0]);
      StepKeepsSettling(cfg, from, run[0]);
      hide Settling, Inv, Enabled, Next;
      RunKeepsSettling(cfg, Next(cfg, from, run[0]), run[1..], to);
    }
  }

  lemma StartSettles(cfg: Config)
    ensures Inv(Start()) && Settling(cfg, Start())
  {
  }

  /** No two different results are ever stored for the trace, as long as the first mark
      lasts. */
  ghost predicate AlwaysSettles(cfg: Config) {
    forall run, to :: Reaches(cfg, Start(), run, to) && Within(to) ==> OneResult(to.writes)
  }

  const ALL_WELL := W.Answers(false, None, Some(true), false, None, true)

  /** One order number, and what a second processing can come to once the first has used up
      the user's limit. */
  const FIRST_RESULT := "O1"
  const SECOND_RESULT := "STOCK_EMPTY"

  function Claims(cfg: Config, claimant: nat, at: int): Event {
    Claim(I.TryStart(claimant, cfg.trace, I.PROCESSING_TTL, at))
  }

  /** A run in which the first request's message has got into the stream. */
  lemma Published(cfg: Config, reported: bool) returns (run: seq<Event>, s: State)
    requires cfg.requests >= 1 && (cfg.accurate ==> reported)
    ensures Reaches(cfg, Start(), run, s)
    ensures s.writes == [PROCESSING, PROCESSING] && s.stored == {0} && s.claims == I.Start(0) && s.told == map[]
    ensures s.marked == None
    ensures StageOf(s, 0) == if reported then Over else Unsuccessful(W.PUBLISH_FAILED)
  {
    var answers := ALL_WELL.(published := reported);
    assert W.Decide(answers) == if reported then W.Publish else W.Fail(W.PUBLISH_FAILED);
    run, s := [], Start();
    assert Reaches(cfg, Start(), run, s);
    hide Reaches, W.Decide;
    run, s := Go(cfg, run, s, Acquire(0, Separate(true, false)));
    run, s := Go(cfg, run, s, Submit(0, true));
    run, s := Go(cfg, run, s, Take(0, false));
    run, s := Go(cfg, run, s, Process(0, answers, true));
  }

  lemma ResultsDiffer()
    ensures FIRST_RESULT != SECOND_RESULT && FIRST_RESULT != PROCESSING && SECOND_RESULT != PROCESSING
    ensures FIRST_RESULT != W.PUBLISH_FAILED && W.PUBLISH_FAILED != PROCESSING
  {
    assert |FIRST_RESULT| == 2 && |SECOND_RESULT| == 11 && |PROCESSING| == 10 && |W.PUBLISH_FAILED| == 14;
  }

  /** A publish that reports an error although the message is in the stream: the worker's
      mark replaces the processor's result, and is then read as an order number. */
  lemma InaccuratePublishReplacesResult(cfg: Config) returns (run: seq<Event>, to: State)
    requires cfg.requests >= 1 && !cfg.accurate && cfg.trace != ""
    ensures Reaches(cfg, Start(), run, to) && Within(to)
    ensures to.writes == [PROCESSING, PROCESSING, FIRST_RESULT, W.PUBLISH_FAILED]
  {
    ResultsDiffer();
    run, to := Published(cfg, false);
    hide Reaches;
    run, to := Go(cfg, run, to, Claims(cfg, 1, 0));
    run, to := Go(cfg, run, to, Tell(1, FIRST_RESULT, false));
    run, to := Go(cfg, run, to, MarkFailed(0, false));
  }

  /** The message is in the stream, and a first claimant has its trace. */
  lemma ClaimedOnce(cfg: Config) returns (run: seq<Event>, s: State)
    requires cfg.requests >= 1 && cfg.trace != ""
    ensures Reaches(cfg, Start(), run, s) && s.writes == [PROCESSING, PROCESSING]
    ensures s.marked == None && s.stored != {} && s.told == map[] && s.claims.now == 0
    ensures s.claims.active == map[1 := I.Claim(cfg.trace, 0, Some(I.PROCESSING_TTL))]
    ensures s.claims.entries == map[cfg.trace := I.Entry(PROCESSING, Some(I.PROCESSING_TTL))]
  {
    run, s := Published(cfg, true);
    hide Reaches;
    run, s := Go(cfg, run, s, Claims(cfg, 1, 0));
  }

  /** A result whose mark gets lost: the claim expires a minute after it was made, the message
      is processed again, and what that comes to replaces what the client was told. */
  lemma LostMarkReplacesResult(cfg: Config) returns (run: seq<Event>, to: State)
    requires cfg.requests >= 1 && !cfg.marksArrive && cfg.trace != ""
    ensures Reaches(cfg, Start(), run, to) && Within(to)
    ensures to.writes == [PROCESSING, PROCESSING, FIRST_RESULT, SECOND_RESULT]
  {
    ResultsDiffer();
    run, to := ClaimedOnce(cfg);
    hide Reaches;
    run, to := Go(cfg, run, to, Tell(1, FIRST_RESULT, false));
    run, to := Go(cfg, run, to, Claim(I.Mark(1, FIRST_RESULT, RESULT_TTL, 0, true)));
    assert to.claims.active == map[];
    run, to := Go(cfg, run, to, Claims(cfg, 2, I.PROCESSING_TTL + 1));
    run, to := Go(cfg, run, to, Tell(2, SECOND_RESULT, false));
  }

  /** A claimant that outlives its claim tells its result beside a second one. */
  lemma LateClaimantReplacesResult(cfg: Config) returns (run: seq<Event>, to: State)
    requires cfg.requests >= 1 && cfg.work > I.PROCESSING_TTL && cfg.trace != ""
    ensures Reaches(cfg, Start(), run, to) && Within(to)
    ensures to.writes == [PROCESSING, PROCESSING, FIRST_RESULT, SECOND_RESULT]
  {
    ResultsDiffer();
    run, to := ClaimedOnce(cfg);
    hide Reaches;
    run, to := Go(cfg, run, to, Claims(cfg, 2, I.PROCESSING_TTL + 1));
    run, to := Go(cfg, run, to, Tell(1, FIRST_RESULT, false));
    run, to := Go(cfg, run, to, Tell(2, SECOND_RESULT, false));
  }

  /** The lifetime of the first mark is no accident: a moment later, and however well
      everything is run, the message can be processed again to a different result. */
  lemma AfterTheMarkAnotherResult(cfg: Config) returns (run: seq<Event>, to: State)
    requires cfg.requests >= 1 && cfg.trace != ""
    ensures Reaches(cfg, Start(), run, to) && !OneResult(to.writes)
    ensures to.marked.Some? && to.claims.now == to.marked.value + RESULT_TTL + 1
  {
    ResultsDiffer();
    run, to := ToldAndMarked(cfg);
    hide Reaches;
    run, to := Go(cfg, run, to, Claims(cfg, 2, RESULT_TTL + 1));
    run, to := Go(cfg, run, to, Tell(2, SECOND_RESULT, false));
    assert to.writes[2] == FIRST_RESULT && to.writes[3] == SECOND_RESULT;
  }

  lemma ToldAndMarked(cfg: Config) returns (run: seq<Event>, s: State)
    requires cfg.requests >= 1 && cfg.trace != ""
    ensures Reaches(cfg, Start(), run, s) && s.writes == [PROCESSING, PROCESSING, FIRST_RESULT]
    ensures s.marked == Some(0) && s.stored != {} && s.told == map[] && s.claims.now == 0 && s.claims.active == map[]
    ensures s.claims.entries == map[cfg.trace := I.Entry(FIRST_RESULT, Some(RESULT_TTL))]
  {
    ResultsDiffer();
    run, s := ClaimedOnce(cfg);
    hide Reaches;
    run, s := Go(cfg, run, s, Tell(1, FIRST_RESULT, false));
    run, s := Go(cfg, run, s, Claim(I.Mark(1, FIRST_RESULT, RESULT_TTL, 0, false)));
  }

  lemma LastTwoDiffer(cfg: Config, run: seq<Event>, to: State)
    requires Reaches(cfg, Start(), run, to) && Within(to) && |to.writes| == 4
    requires to.writes[2] != PROCESSING && to.writes[3] != PROCESSING && to.writes[2] != to.writes[3]
    ensures !AlwaysSettles(cfg)
  {
  }

  /** All results that are ever stored for a trace, while the first mark lasts, are the same
      exactly when no two requests share the trace, publishing reports errors accurately,
      claimants take no longer than a claim lasts, and what they tell they also mark. */
  lemma AlwaysSettlesIff(cfg: Config)
    requires cfg.trace != ""
    ensures AlwaysSettles(cfg) <==> cfg.requests == 0 || WellRun(cfg)
  {
    ResultsDiffer();
    if cfg.requests == 0 {
      forall run, to | Reaches(cfg, Start(), run, to)
        ensures OneResult(to.writes)
      {
        NoRequestNoResult(cfg, Start(), run, to);
      }
    } else if WellRun(cfg) {
      StartSettles(cfg);
      forall run, to | Reaches(cfg, Start(), run, to) && Within(to)
        ensures OneResult(to.writes)
      {
        RunKeepsSettling(cfg, Start(), run, to);
      }
    } else if cfg.requests >= 2 {
      TwoRequestsTwoResults(cfg);
    } else if !cfg.accurate {
      var run, to := InaccuratePublishReplacesResult(cfg);
      LastTwoDiffer(cfg, run, to);
    } else if !cfg.marksArrive {
      var run, to := LostMarkReplacesResult(cfg);
      LastTwoDiffer(cfg, run, to);
    } else {
      var run, to := LateClaimantReplacesResult(cfg);
      LastTwoDiffer(cfg, run, to);
    }
  }

  lemma {:induction false} NoRequestNoResult(cfg: Config, from: State, run: seq<Event>, to: State)
    requires cfg.requests == 0 && Reaches(cfg, from, run, to) && from.stored == {}
    ensures to.writes == from.writes
    decreases |run|
  {
    if run != [] {
      NoRequestNoResult(cfg, Next(cfg, from, run[0]), run[1..], to);
    }
  }

  /** A run in which the first request has met a full queue. */
  lemma FirstFindsQueueFull(cfg: Config) returns (run: seq<Event>, s: State)
    requires cfg.requests >= 2
    ensures Reaches(cfg, Start(), run, s) && s == Start().(stages := s.stages, key := s.key, writes := [QUEUE_FULL])
    ensures StageOf(s, 1).Arrived?
  {
    run, s := [], Start();
    assert Reaches(cfg, Start(), run, s);
    hide Reaches;
    run, s := Go(cfg, run, s, Acquire(0, Separate(true, true)));
    run, s := Go(cfg, run, s, Submit(0, false));
    run, s := Go(cfg, run, s, MarkFull(0, false));
  }

  lemma TwoRequestsTwoResults(cfg: Config)
    requires cfg.requests >= 2
    ensures !AlwaysSettles(cfg)
  {
    var answers := ALL_WELL.(open := None);
    assert W.Decide(answers) == W.Fail(W.ACTIVITY_NOT_FOUND);
    FinalWords(QUEUE_FULL);
    FinalWords(W.ACTIVITY_NOT_FOUND);
    var run, s := FirstFindsQueueFull(cfg);
    hide Reaches, W.Decide;
    run, s := Go(cfg, run, s, Acquire(1, Separate(true, true)));
    run, s := Go(cfg, run, s, Submit(1, true));
    run, s := Go(cfg, run, s, Take(1, true));
    run, s := Go(cfg, run, s, Process(1, answers, false));
    run, s := Go(cfg, run, s, MarkFailed(1, false));
    assert s.writes == [QUEUE_FULL, W.ACTIVITY_NOT_FOUND];
    assert s.writes[0][0] == 's' && s.writes[1][0] == 'a';
  }

  lemma {:induction false} WritesGrow(cfg: Config, from: State, run: seq<Event>, to: State)
    requires Reaches(cfg, from, run, to)
    ensures from.writes <= to.writes
    decreases |run|
  {
    if run != [] {
      WritesGrow(cfg, Next(cfg, from, run[0]), run[1..], to);
    }
  }

  /** Where all is well run: once a client has been told success or failure, every later poll
      is told the same, until the stored result or the first mark expires. */
  lemma PolledResultStands(cfg: Config, before: seq<Event>, mid: State, run: seq<Event>, to: State,
                           traceID: string, parse: string -> Option<SeckillResult>)
    requires WellRun(cfg) && Reaches(cfg, Start(), before, mid) && Reaches(cfg, mid, run, to) && Within(to)
    requires mid.key.Some? && mid.key.value != PROCESSING && to.key.Some?
    ensures PollAnswer(traceID, Some(Decode(to.key.value, parse)))
         == PollAnswer(traceID, Some(Decode(mid.key.value, parse)))
  {
    StartSettles(cfg);
    FirstMarkStays(cfg, mid, run, to);
    RunKeepsInv(cfg, Start(), before, mid);
    RunKeepsSettling(cfg, Start(), before, mid);
    RunKeepsInv(cfg, mid, run, to);
    RunKeepsSettling(cfg, mid, run, to);
    WritesGrow(cfg, mid, run, to);
    hide Reaches, Decode, PollAnswer;
    var i, j := |mid.writes| - 1, |to.writes| - 1;
    assert to.writes[i] == mid.key.value && to.writes[j] == to.key.value;
    if i < j {
      assert to.writes[j] != PROCESSING;
    }
  }

  /** A refused user leaves the trace marked as in process unless no pipeline wrote: either
      none was used, or it failed before writing. */
  predicate LeavesUnmarked(how: Acquisition) {
    how.Separate? || (how.PipelineFailed? && !how.wrote)
  }

  /** What a poll is told, where nothing is stored under the former key. */
  function Polled(s: State, traceID: string, parse: string -> Option<SeckillResult>): Poll {
    PollAnswer(traceID, if s.key.Some? then Some(Decode(s.key.value, parse)) else None)
  }

  /** After a refusal the trace never gets a result. It has been marked exactly if a pipeline
      wrote; then, until the mark expires, polls are told to go on, and otherwise, as for any
      unknown trace, that something is wrong. */
  lemma {:induction false} RefusedIsPolledForever(
    cfg: Config, how: Acquisition, run: seq<Event>, to: State, traceID: string, parse: string -> Option<SeckillResult>)
    requires cfg.requests == 1 && !how.allowed && traceID != ""
    requires Reaches(cfg, Next(cfg, Start(), Acquire(0, how)), run, to)
    ensures to.writes == [] <==> LeavesUnmarked(how)
    ensures to.writes == [] || to.writes == [PROCESSING]
    ensures Polled(to, traceID, parse) == if LeavesUnmarked(how) || Expire in run then Trouble else Continue
  {
    var from := Next(cfg, Start(), Acquire(0, how));
    NothingFollows(cfg, from, run, to);
    assert !IsJson(PROCESSING, parse) by {
      assert PROCESSING[0] == 'P';
    }
  }

  /** A request that is refused, or over without its message being in the stream. */
  lemma {:induction false} NothingFollows(cfg: Config, from: State, run: seq<Event>, to: State)
    requires cfg.requests <= 1 && from.stored == {} && Reaches(cfg, from, run, to)
    requires StageOf(from, 0).Refused? || StageOf(from, 0).Over?
    ensures to.key == (if Expire in run then None else from.key) && to.writes == from.writes
    decreases |run|
  {
    if run != [] {
      NothingFollows(cfg, Next(cfg, from, run[0]), run[1..], to);
    }
  }

  /** A queued event that is drained after the cancellation, with collaborators and a result
      store that honour it: the event fails, the mark that says so is lost, and the trace stays
      marked as in process until that expires. */
  lemma {:induction false} DrainedAfterCancelIsPolledForever(
    cfg: Config, s: State, answers: W.Answers, run: seq<Event>, to: State)
    requires cfg.requests == 1 && Inv(s) && StageOf(s, 0).Queued? && W.AllRefuse(answers)
    requires var taken := Next(cfg, s, Take(0, true));
             var failed := Next(cfg, taken, Process(0, answers, false));
             Reaches(cfg, Next(cfg, failed, MarkFailed(0, true)), run, to)
    ensures to.writes == s.writes && to.key == if Expire in run then None else s.key
  {
    var taken := Next(cfg, s, Take(0, true));
    var failed := Next(cfg, taken, Process(0, answers, false));
    NothingFollows(cfg, Next(cfg, failed, MarkFailed(0, true)), run, to);
  }

  // ---------------------------------------------------------------------------
  // The stores
  // ---------------------------------------------------------------------------

  const RESULT_PREFIX := "seckill:order:result:"
  const LEGACY_PREFIX := "seckill:trace:"

  function ResultKey(id: string): string { RESULT_PREFIX + id }

  function LegacyKey(id: string): string { LEGACY_PREFIX + id }

  lemma KeysApart(a: string, b: string)
    ensures ResultKey(a) == ResultKey(b) <==> a == b
    ensures ResultKey(a) != LegacyKey(b)
  {
    assert ResultKey(a)[|RESULT_PREFIX|..] == a && ResultKey(b)[|RESULT_PREFIX|..] == b;
    assert RESULT_PREFIX[8] == 'o' && LEGACY_PREFIX[8] == 't';
    assert ResultKey(a)[8] == 'o' && LegacyKey(b)[8] == 't';
  }

  /** `None`: no result under the current key nor under the one used formerly. */
  function Lookup(es: I.Entries, id: string, parse: string -> Option<SeckillResult>, at: int): Option<SeckillResult> {
    if I.Live(es, ResultKey(id), at) then Some(Decode(es[ResultKey(id)].value, parse))
    else LookupLegacy(es, id, parse, at)
  }

  function LookupLegacy(es: I.Entries, id: string, parse: string -> Option<SeckillResult>, at: int)
    : Option<SeckillResult>
  {
    if I.Live(es, LegacyKey(id), at) then Some(Decode(es[LegacyKey(id)].value, parse)) else None
  }

  /** What is set is read, for the lifetime of the entry, by everyone asking for that id,
      whatever was stored before; after that the former key counts again. Other ids are not
      concerned. */
  lemma SetThenGet(es: I.Entries, id: string, value: string, at: int, later: int, other: string,
                   parse: string -> Option<SeckillResult>)
    requires at <= later
    ensures var es' := I.Marked(es, ResultKey(id), value, RESULT_TTL, at);
            && Lookup(es', id, parse, later)
                 == (if later <= at + RESULT_TTL then Some(Decode(value, parse))
                     else LookupLegacy(es, id, parse, later))
            && (other != id ==> Lookup(es', other, parse, later) == Lookup(es, other, parse, later))
  {
    hide Decode;
    KeysApart(id, other);
    KeysApart(id, id);
  }

  /** What a client polling for its result is told. */
  function QueueAnswer(es: I.Entries, traceID: string, parse: string -> Option<SeckillResult>, at: int): Poll {
    PollAnswer(traceID, Lookup(es, traceID, parse, at))
  }

  /** From the writer to the client. As long as what was written under a trace's key stays
      there, its client is told to go on while it is the word for being in process, that there
      is no order, and why, if it is a known reason, and otherwise that it is the order. What is
      not such a word but a JSON object is taken at its word. After that, unless there is
      something under the former key, there is nothing to be told. */
  lemma {:induction false} WrittenIsPolled(
    es: I.Entries, traceID: string, value: string, ttl: nat, at: int, later: int,
    parse: string -> Option<SeckillResult>)
    requires traceID != "" && at <= later
    ensures var reasons :=
              {"ACTIVITY_CLOSED", "RISK_USER", "STOCK_EMPTY", "ORDER_FAIL", "PROCESS_ERROR", "PUBLISH_FAILED"};
            var answer := QueueAnswer(
              I.Marked(es, "seckill:order:result:" + traceID, value, ttl, at), traceID, parse, later);
            if ttl != 0 && later > at + ttl then
              !I.Live(es, "seckill:trace:" + traceID, later) ==> answer == Trouble
            else if "{" <= value && parse(value).Some? then
              var told := parse(value).value;
              && (told.status == "success" ==> answer == Done(told.orderNo))
              && (told.status == "failed" ==> answer == Stop(told.error))
              && (told.status !in {"success", "failed"} ==> answer == Continue)
            else
              && (value in {"PROCESSING", ""} ==> answer == Continue)
              && (value in reasons ==> answer == Stop(value))
              && (value !in reasons + {"PROCESSING", ""} ==> answer == Done(value))
  {
    KeysApart(traceID, traceID);
    assert "success"[0] == 's' && "failed"[0] == 'f' && "processing"[0] == 'p';
    if value in FAIL_REASONS {
      FailReasonsAreCapital(value);
    }
  }

  /** The keys of one Redis instance, which gateway and processor share. */
  class Redis {
    var entries: I.Entries

    constructor ()
      ensures entries == map[]
    {
      entries := map[];
    }
  }

  /** The gateway's access to results. */
  class RedisResultStore {
    const redis: Redis

    constructor (redis: Redis)
      ensures this.redis == redis
    {
      this.redis := redis;
    }

    method SetProcessing(requestID: string, now: int)
      modifies redis
      ensures redis.entries == I.Marked(old(redis.entries), ResultKey(requestID), PROCESSING, RESULT_TTL, now)
    {
      redis.entries := redis.entries[ResultKey(requestID) := I.Entry(PROCESSING, Some(now + RESULT_TTL))];
    }

    method SetSuccess(requestID: string, orderNo: string, now: int)
      modifies redis
      ensures redis.entries == I.Marked(old(redis.entries), ResultKey(requestID), orderNo, RESULT_TTL, now)
    {
      redis.entries := redis.entries[ResultKey(requestID) := I.Entry(orderNo, Some(now + RESULT_TTL))];
    }

    method SetFailed(requestID: string, errMsg: string, now: int)
      modifies redis
      ensures redis.entries == I.Marked(old(redis.entries), ResultKey(requestID), errMsg, RESULT_TTL, now)
    {
      redis.entries := redis.entries[ResultKey(requestID) := I.Entry(errMsg, Some(now + RESULT_TTL))];
    }

    method Get(requestID: string, parse: string -> Option<SeckillResult>, now: int) returns (r: Option<SeckillResult>)
      ensures r == Lookup(redis.entries, requestID, parse, now)
    {
      var key := ResultKey(requestID);
      if !I.Live(redis.entries, key, now) {
        key := LegacyKey(requestID);
        if !I.Live(redis.entries, key, now) {
          return None;
        }
      }
      var val := redis.entries[key].value;
      if "{" <= val {
        var parsed := parse(val);
        if parsed.Some? {
          return parsed;
        }
      }
      if val == PROCESSING || val == "" {
        return Some(InProcess());
      }
      if val in FAIL_REASONS {
        return Some(Failure(val));
      }
      return Some(Success(val));
    }
  }

  /** The processor's access to the same keys. */
  class TraceRedisStore {
    const redis: Redis

    constructor (redis: Redis)
      ensures this.redis == redis
    {
      this.redis := redis;
    }

    method TryStart(traceID: string, ttl: nat, now: int) returns (ok: bool)
      modifies redis
      ensures (redis.entries, ok) == I.Started(old(redis.entries), ResultKey(traceID), ttl, now)
    {
      ok := !I.Live(redis.entries, ResultKey(traceID), now);
      if ok {
        redis.entries := redis.entries[ResultKey(traceID) := I.Entry(PROCESSING, I.Deadline(ttl, now))];
      }
    }

    method MarkSuccess(traceID: string, orderNo: string, ttl: nat, now: int)
      modifies redis
      ensures redis.entries == I.Marked(old(redis.entries), ResultKey(traceID), orderNo, ttl, now)
    {
      redis.entries := redis.entries[ResultKey(traceID) := I.Entry(orderNo, I.Deadline(ttl, now))];
    }

    method MarkFail(traceID: string, reason: string, ttl: nat, now: int)
      modifies redis
      ensures redis.entries == I.Marked(old(redis.entries), ResultKey(traceID), reason, ttl, now)
    {
      redis.entries := redis.entries[ResultKey(traceID) := I.Entry(reason, I.Deadline(ttl, now))];
    }

    method Delete(traceID: string, now: int)
      modifies redis
      ensures redis.entries ==
        if traceID == "" then old(redis.entries) else I.Released(old(redis.entries), ResultKey(traceID), now)
    {
      if traceID == "" {
        return;
      }
      var key := ResultKey(traceID);
      if I.Live(redis.entries, key, now) && redis.entries[key].value == PROCESSING {
        redis.entries := redis.entries - {key};
      }
    }
  }

  // ---------------------------------------------------------------------------
  // The writers
  // ---------------------------------------------------------------------------

  /** Storing several values under one key, one after the other. */
  function StoreAll(es: I.Entries, key: string, values: seq<string>, at: int): I.Entries
    decreases |values|
  {
    if values == [] then es else StoreAll(I.Marked(es, key, values[0], RESULT_TTL, at), key, values[1..], at)
  }

  /** Without a result store the handler's own writes are lost; the pipeline's are not. */
  function Effective(how: Acquisition, hasResults: bool): Acquisition {
    match how
    case Pipelined(_) => how
    case PipelineFailed(wrote, allowed, lost) => PipelineFailed(wrote, allowed, lost || !hasResults)
    case Separate(allowed, lost) => Separate(allowed, lost || !hasResults)
  }

  /** What the handler stores for its trace while acquiring, and because of a full queue. */
  function HandlerWrites(how: Acquisition, accepted: bool, fullLost: bool): seq<string> {
    Acquired(Start(), 0, how).writes + if how.allowed && !accepted && !fullLost then [QUEUE_FULL] else []
  }

  lemma StoreOne(es: I.Entries, key: string, value: string, at: int)
    ensures StoreAll(es, key, [value], at) == I.Marked(es, key, value, RESULT_TTL, at)
    ensures StoreAll(es, key, [], at) == es
  {
    assert [value][1..] == [];
  }

  lemma {:induction false} StoreMore(es: I.Entries, key: string, values: seq<string>, value: string, at: int)
    ensures StoreAll(es, key, values + [value], at)
         == I.Marked(StoreAll(es, key, values, at), key, value, RESULT_TTL, at)
    decreases |values|
  {
    if values == [] {
      assert values + [value] == [value];
      StoreOne(es, key, value, at);
    } else {
      assert (values + [value])[1..] == values[1..] + [value];
      StoreMore(I.Marked(es, key, values[0], RESULT_TTL, at), key, values[1..], value, at);
    }
  }

  datatype Reply = Invalid(missing: string) | TryLater | SystemBusy | QueuedUnder(traceID: string)

  class SeckillApp {
    const redis: Redis
    const results: RedisResultStore?
    const workerPool: W.WorkerPool

    constructor (redis: Redis, results: RedisResultStore?, workerPool: W.WorkerPool)
      requires results != null ==> results.redis == redis
      ensures this.redis == redis && this.results == results && this.workerPool == workerPool
    {
      this.redis, this.results, this.workerPool := redis, results, workerPool;
    }

    /** `machinePassed`: the machine check is off or passed. The event is queued exactly if
        the request is complete, passes, is allowed, and there is room; what is stored for
        the trace is what the protocol's handler stores. */
    method PartInFastPath(event: W.PartInEvent, machinePassed: bool, how: Acquisition, fullLost: bool, now: int)
      returns (reply: Reply)
      requires results != null ==> results.redis == redis
      modifies redis, workerPool`events
      ensures reply.Invalid? <==> event.activityNo == "" || event.skuNo == ""
      ensures reply.Invalid? ==> reply.missing == if event.activityNo == "" then "activity_no" else "sku_no"
      ensures reply.TryLater? <==> !reply.Invalid? && (!machinePassed || !how.allowed)
      ensures reply.QueuedUnder? ==> reply.traceID == event.traceID
      ensures reply.QueuedUnder? <==>
        !reply.Invalid? && machinePassed && how.allowed && old(|workerPool.events|) < workerPool.queueSize
      ensures workerPool.events == old(workerPool.events) + if reply.QueuedUnder? then [event] else []
      ensures redis.entries == StoreAll(old(redis.entries), ResultKey(event.traceID),
        if reply.Invalid? || !machinePassed then []
        else HandlerWrites(Effective(how, results != null), reply.QueuedUnder?, fullLost || results == null), now)
    {
      ghost var es, key := redis.entries, ResultKey(event.traceID);
      StoreOne(es, key, PROCESSING, now);
      if event.activityNo == "" {
        return Invalid("activity_no");
      }
      if event.skuNo == "" {
        return Invalid("sku_no");
      }
      if !machinePassed {
        return TryLater;
      }
      ghost var values := Acquired(Start(), 0, Effective(how, results != null)).writes;
      AcquireTrace(event.traceID, how, now);
      if !how.allowed {
        return TryLater;
      }
      var ok := workerPool.Submit(event);
      if !ok {
        if results != null && !fullLost {
          StoreMore(es, key, values, QUEUE_FULL, now);
          results.SetFailed(event.traceID, QUEUE_FULL, now);
        }
        return SystemBusy;
      }
      return QueuedUnder(event.traceID);
    }

    /** What a client polling for its result is told. */
    method CheckQueue(traceID: string, parse: string -> Option<SeckillResult>, now: int) returns (answer: Poll)
      ensures traceID == "" ==> answer == Stop("")
      ensures traceID != "" && results == null ==> answer == Continue
      ensures results != null ==> answer == QueueAnswer(results.redis.entries, traceID, parse, now)
    {
      if traceID == "" {
        return Stop("");
      }
      if results == null {
        return Continue;
      }
      var found := results.Get(traceID, parse, now);
      if found.None? {
        return Trouble;
      }
      if found.value.status == "success" {
        return Done(found.value.orderNo);
      } else if found.value.status == "failed" {
        return Stop(found.value.error);
      }
      return Continue;
    }

    /** Taking the user's token and marking the trace as in process. */
    method AcquireTrace(traceID: string, how: Acquisition, now: int)
      requires results != null ==> results.redis == redis
      modifies redis
      ensures redis.entries == StoreAll(old(redis.entries), ResultKey(traceID),
        Acquired(Start(), 0, Effective(how, results != null)).writes, now)
    {
      ghost var es, key := redis.entries, ResultKey(traceID);
      StoreOne(es, key, PROCESSING, now);
      StoreMore(es, key, [PROCESSING], PROCESSING, now);
      match how
      case Pipelined(_) =>
        redis.entries := redis.entries[ResultKey(traceID) := I.Entry(PROCESSING, Some(now + RESULT_TTL))];
      case PipelineFailed(wrote, allowed, lost) =>
        if wrote {
          redis.entries := redis.entries[ResultKey(traceID) := I.Entry(PROCESSING, Some(now + RESULT_TTL))];
        }
        if allowed && !lost && results != null {
          results.SetProcessing(traceID, now);
        }
      case Separate(allowed, lost) =>
        if allowed && !lost && results != null {
          results.SetProcessing(traceID, now);
        }
    }
  }

  /** The handler's steps in the protocol store what the handler's code stores. */
  lemma HandlerFollowsProtocol(cfg: Config, how: Acquisition, accepted: bool, fullLost: bool)
    requires cfg.requests >= 1
    ensures exists run, to ::
      && Reaches(cfg, Start(), run, to)
      && to.writes == HandlerWrites(how, accepted, fullLost)
      && StageOf(to, 0) == if !how.allowed then Refused else if accepted then Queued else Over
  {
    var run: seq<Event>, s := [], Start();
    assert Reaches(cfg, Start(), run, s);
    hide Reaches;
    run, s := Go(cfg, run, s, Acquire(0, how));
    if how.allowed {
      run, s := Go(cfg, run, s, Submit(0, accepted));
      if !accepted {
        run, s := Go(cfg, run, s, MarkFull(0, fullLost));
      }
    }
    assert s.writes == HandlerWrites(how, accepted, fullLost);
  }

  /** From the handler to the client: a full queue is told as an order whose number says so.
      Otherwise the client is told to go on, even if it was refused, as soon as one of the
      handler's marks has been written, and what it was told before if none was. */
  lemma {:induction false} HandlerWordIsPolled(
    es: I.Entries, traceID: string, how: Acquisition, accepted: bool, fullLost: bool, at: int, later: int,
    parse: string -> Option<SeckillResult>)
    requires traceID != "" && at <= later <= at + 300_000_000_000
    ensures var es' := StoreAll(es, ResultKey(traceID), HandlerWrites(how, accepted, fullLost), at);
            var marked := match how
              case Pipelined(_) => true
              case PipelineFailed(wrote, allowed, lost) => wrote || (allowed && !lost)
              case Separate(allowed, lost) => allowed && !lost;
            QueueAnswer(es', traceID, parse, later) ==
              if how.allowed && !accepted && !fullLost then Done("system busy: queue full")
              else if marked then Continue
              else QueueAnswer(es, traceID, parse, later)
  {
    var writes := HandlerWrites(how, accepted, fullLost);
    HandlerLastWrite(how, accepted, fullLost);
    hide HandlerWrites, QueueAnswer;
    if writes == [] {
      StoreOne(es, ResultKey(traceID), PROCESSING, at);
    } else {
      LastWordIsPolled(es, traceID, writes, at, later, parse);
    }
  }

  lemma HandlerLastWrite(how: Acquisition, accepted: bool, fullLost: bool)
    ensures var writes := HandlerWrites(how, accepted, fullLost);
            var marked := match how
              case Pipelined(_) => true
              case PipelineFailed(wrote, allowed, lost) => wrote || (allowed && !lost)
              case Separate(allowed, lost) => allowed && !lost;
            && (how.allowed && !accepted && !fullLost ==> writes != [] && writes[|writes| - 1] == QUEUE_FULL)
            && (!(how.allowed && !accepted && !fullLost) ==>
                  && (writes != [] <==> marked)
                  && (marked ==> writes[|writes| - 1] == PROCESSING))
  {
  }

  lemma LastWordIsPolled(
    es: I.Entries, traceID: string, values: seq<string>, at: int, later: int, parse: string -> Option<SeckillResult>)
    requires traceID != "" && at <= later <= at + 300_000_000_000
    requires values != [] && values[|values| - 1] in {PROCESSING, QUEUE_FULL}
    ensures var es' := StoreAll(es, ResultKey(traceID), values, at);
            QueueAnswer(es', traceID, parse, later) ==
              if values[|values| - 1] == QUEUE_FULL then Done("system busy: queue full") else Continue
  {
    var most, last := values[..|values| - 1], values[|values| - 1];
    assert values == most + [last];
    StoreMore(es, ResultKey(traceID), most, last, at);
    WrittenIsPolled(StoreAll(es, ResultKey(traceID), most, at), traceID, last, RESULT_TTL, at, later, parse);
    QueueFullIsNoReason();
    assert PROCESSING[0] == 'P' && QUEUE_FULL[0] == 's';
    hide StoreAll, QueueAnswer;
  }

  lemma QueueFullIsNoReason()
    ensures QUEUE_FULL !in {"ACTIVITY_CLOSED", "RISK_USER", "STOCK_EMPTY", "ORDER_FAIL", "PROCESS_ERROR",
                            "PUBLISH_FAILED", "PROCESSING", ""}
  {
    assert QUEUE_FULL[0] == 's' && PROCESSING[0] == 'P';
    forall r | r in FAIL_REASONS
      ensures r != QUEUE_FULL
    {
      FailReasonsAreCapital(r);
    }
  }

  function ValueOf(w: W.ResultWrite): string {
    match w
    case Processing(_) => PROCESSING
    case Failed(_, reason) => reason
  }

  function ValuesOf(writes: seq<W.ResultWrite>): seq<string> {
    seq(|writes|, i requires 0 <= i < |writes| => ValueOf(writes[i]))
  }

  /** A worker's steps in the protocol store what its code stores. */
  lemma WorkerFollowsProtocol(cfg: Config, s: State, id: nat, answers: W.Answers, inStream: bool)
    requires Enabled(cfg, s, Take(id, false)) && Publishes(cfg, answers, inStream)
    ensures var v := W.Decide(answers);
      exists run, to ::
      && Reaches(cfg, s, run, to) && StageOf(to, id).Over?
      && to.writes == s.writes + ValuesOf(W.WritesFor("", v))
  {
    var v := W.Decide(answers);
    var s1 := Next(cfg, s, Take(id, false));
    var s2 := Next(cfg, s1, Process(id, answers, inStream));
    var values := ValuesOf(W.WritesFor("", v));
    if v.Fail? {
      var s3 := Next(cfg, s2, MarkFailed(id, false));
      assert Reaches(cfg, s2, [MarkFailed(id, false)], s3) by { assert Reaches(cfg, s3, [], s3); }
      assert Reaches(cfg, s1, [Process(id, answers, inStream)] + [MarkFailed(id, false)], s3);
      assert Reaches(cfg, s, [Take(id, false)] + ([Process(id, answers, inStream)] + [MarkFailed(id, false)]), s3);
      assert values == [PROCESSING, v.reason];
      assert s3.writes == s.writes + values;
    } else {
      assert Reaches(cfg, s1, [Process(id, answers, inStream)], s2) by { assert Reaches(cfg, s2, [], s2); }
      assert Reaches(cfg, s, [Take(id, false)] + [Process(id, answers, inStream)], s2);
      assert values == [PROCESSING];
      assert s2.writes == s.writes + values;
    }
  }

  /** What a client is told once a worker has written its verdict. */
  function ToldOf(v: W.Verdict): Poll {
    if v == W.Publish then Continue
    else if v.reason == "STOCK_EMPTY" then Stop("STOCK_EMPTY")
    else Done(v.reason)
  }

  lemma {:induction false} WorkerWordIsPolled(
    es: I.Entries, traceID: string, v: W.Verdict, at: int, later: int, parse: string -> Option<SeckillResult>)
    requires traceID != "" && at <= later <= at + 300_000_000_000 && (v.Fail? ==> v.reason in W.REASONS)
    ensures var es' := StoreAll(es, ResultKey(traceID), ValuesOf(W.WritesFor(traceID, v)), at);
            QueueAnswer(es', traceID, parse, later) == ToldOf(v)
  {
    var key, values := ResultKey(traceID), ValuesOf(W.WritesFor(traceID, v));
    StoreOne(es, key, PROCESSING, at);
    if v.Fail? {
      assert values == [PROCESSING] + [v.reason];
      StoreMore(es, key, [PROCESSING], v.reason, at);
      WrittenIsPolled(StoreAll(es, key, [PROCESSING], at), traceID, v.reason, RESULT_TTL, at, later, parse);
      WorkerWord(v.reason);
      assert QueueAnswer(StoreAll(es, key, values, at), traceID, parse, later) == ToldOf(v);
    } else {
      assert values == [PROCESSING];
      WrittenIsPolled(es, traceID, PROCESSING, RESULT_TTL, at, later, parse);
      assert PROCESSING[0] == 'P';
      assert QueueAnswer(StoreAll(es, key, values, at), traceID, parse, later) == ToldOf(v);
    }
    hide StoreAll, ValuesOf, W.WritesFor, W.REASONS;
  }

  lemma WorkerWord(reason: string)
    requires reason in W.REASONS
    ensures !("{" <= reason)
    ensures reason != "STOCK_EMPTY" ==>
      reason !in {"ACTIVITY_CLOSED", "RISK_USER", "STOCK_EMPTY", "ORDER_FAIL", "PROCESS_ERROR", "PUBLISH_FAILED",
                  "PROCESSING", ""}
  {
    GatewayReasonsAreSmall(reason);
    forall r | r in FAIL_REASONS
      ensures StartsIn(r, 'A', 'Z')
    {
      FailReasonsAreCapital(r);
    }
    assert "PROCESSING"[0] == 'P';
    hide W.REASONS, FAIL_REASONS;
  }

  /** From the worker to the client: while an event is under way, and after it was published,
      the client is told to go on. Of the checks that can stop it only the empty stock is told
      as such; after any other the client is told there is an order, with the reason for its
      number. */
  lemma {:induction false} WorkerVerdictIsPolled(
    es: I.Entries, traceID: string, a: W.Answers, at: int, later: int, parse: string -> Option<SeckillResult>)
    requires traceID != "" && at <= later <= at + 300_000_000_000
    ensures var es' := StoreAll(es, ResultKey(traceID), ValuesOf(W.WritesFor(traceID, W.Decide(a))), at);
            var answer, stopped := QueueAnswer(es', traceID, parse, later), a.riskChecked && a.risky == Some(true);
            var empty := a.stockPeeked && a.stock.Some? && a.stock.value <= 0;
            && (stopped ==> answer == Done("risk_user_blocked"))
            && (!stopped && a.open == None ==> answer == Done("activity_not_found"))
            && (!stopped && a.open == Some(false) ==> answer == Done("activity_not_open"))
            && (!stopped && a.open == Some(true) && a.stockPeeked && a.stock == None ==>
                  answer == Done("stock_check_failed"))
            && (!stopped && a.open == Some(true) && empty ==> answer == Stop("STOCK_EMPTY"))
            && (!stopped && a.open == Some(true) && !empty && (a.stockPeeked ==> a.stock.Some?) ==>
                  answer == if a.published then Continue else Done("publish_failed"))
  {
    W.WhyItFails(a);
    WorkerWordIsPolled(es, traceID, W.Decide(a), at, later, parse);
    assert W.Decide(a).Fail? || W.Decide(a) == W.Publish;
    assert "STOCK_EMPTY"[0] == 'S' && "publish_failed"[0] == 'p' && "risk_user_blocked"[0] == 'r';
    assert "activity_not_found"[0] == 'a' && "activity_not_open"[0] == 'a' && "stock_check_failed"[0] == 's';
    hide StoreAll, ValuesOf, W.WritesFor, W.REASONS, FAIL_REASONS, QueueAnswer;
  }
}
