/** The processor's side of a message: the use case that claims the trace and submits, and
    the handlers that report what came of it. */
module Processor {
  import opened Prelude
  import I = Idempotency
  import T = TraceProtocol

  /** Submitting to the domain service ends in an order, in a refusal (both are announced, and
      handlers of the announcement report them), in an error, or with the process dying. */
  datatype Outcome = Created(orderNo: string) | Rejected(reason: string) | Trouble | Death

  /** Which of the best-effort requests to the stores fail: the one for the result that the
      client polls for, and the one for the processor's own key. */
  datatype Losses = Losses(result: bool, own: bool)

  function Stored(es: I.Entries, traceID: string, value: string, at: int): I.Entries {
    if traceID == "" then es else I.Marked(es, T.ResultKey(traceID), value, RESULT_TTL, at)
  }

  /** The handlers of the processor's announcements. */
  class ProcessorApp {
    const traceResults: T.TraceRedisStore?
    const processorStore: I.ProcessorStore?

    constructor (traceResults: T.TraceRedisStore?, processorStore: I.ProcessorStore?)
      ensures this.traceResults == traceResults && this.processorStore == processorStore
    {
      this.traceResults, this.processorStore := traceResults, processorStore;
    }

    ghost function Touched(): set<object> {
      (if traceResults != null then {traceResults.redis} else {})
      + (if processorStore != null then {processorStore} else {})
    }

    /** The result the client polls for and the processor's own key get the same value, as far
        as the requests arrive; the first one's failure does not keep the second from being
        sent. */
    method MarkTraceSuccess(traceID: string, orderNo: string, lost: Losses, now: int)
      modifies Touched()
      ensures traceResults != null ==>
        traceResults.redis.entries ==
        (if lost.result then old(traceResults.redis.entries)
         else Stored(old(traceResults.redis.entries), traceID, orderNo, now))
      ensures processorStore != null ==>
        processorStore.entries ==
        (if lost.own then old(processorStore.entries)
         else I.Marked(old(processorStore.entries), traceID, orderNo, RESULT_TTL, now))
    {
      if traceID == "" {
        return;
      }
      if traceResults != null && !lost.result {
        traceResults.MarkSuccess(traceID, orderNo, RESULT_TTL, now);
      }
      if processorStore != null && !lost.own {
        processorStore.MarkSuccess(traceID, orderNo, RESULT_TTL, now);
      }
    }

    /** Likewise for a refusal. */
    method MarkTraceFail(traceID: string, reason: string, lost: Losses, now: int)
      modifies Touched()
      ensures traceResults != null ==>
        traceResults.redis.entries ==
        (if lost.result then old(traceResults.redis.entries)
         else Stored(old(traceResults.redis.entries), traceID, reason, now))
      ensures processorStore != null ==>
        processorStore.entries ==
        (if lost.own then old(processorStore.entries)
         else I.Marked(old(processorStore.entries), traceID, reason, RESULT_TTL, now))
    {
      if traceID == "" {
        return;
      }
      if traceResults != null && !lost.result {
        traceResults.MarkFail(traceID, reason, RESULT_TTL, now);
      }
      if processorStore != null && !lost.own {
        processorStore.MarkFail(traceID, reason, RESULT_TTL, now);
      }
    }
  }

  /** In the protocol a claimant that reports a result makes two steps, which store what the
      handlers store. */
  lemma HandlersFollowProtocol(cfg: T.Config, s: T.State, claimant: nat, value: string, lost: Losses, at: int)
    requires s.stored != {} && claimant in s.claims.active && s.claims.active[claimant].trace == cfg.trace
    requires claimant !in s.told && value != PROCESSING && s.claims.now <= at
    requires I.Brief(s.claims, at, cfg.work) && (cfg.marksArrive ==> !lost.own)
    ensures exists run, to ::
      && T.Reaches(cfg, s, run, to)
      && to.writes == s.writes + (if lost.result then [] else [value])
      && to.claims.entries ==
         if lost.own then s.claims.entries else I.Marked(s.claims.entries, cfg.trace, value, RESULT_TTL, at)
  {
    var tell := T.Tell(claimant, value, lost.result);
    var mark := T.Claim(I.Mark(claimant, value, RESULT_TTL, at, lost.own));
    var s1 := T.Next(cfg, s, tell);
    var s2 := T.Next(cfg, s1, mark);
    assert T.Reaches(cfg, s2, [], s2);
    assert T.Reaches(cfg, s1, [mark], s2);
    assert T.Reaches(cfg, s, [tell] + [mark], s2);
  }

  // ---------------------------------------------------------------------------
  // Deliveries of one message
  // ---------------------------------------------------------------------------

  /** What becomes of the request to claim the trace; in the last two cases it reports an
      error, though in the last one the claim may have been made. */
  datatype ClaimReply = Answered | RequestLost | ReplyLost

  /** One delivery: when it claims and how that goes, when its outcome is reported, and whether
      the report (or the release after an error) fails to reach the processor's own key. */
  datatype Delivery = Delivery(start: int, claim: ClaimReply, finish: int, outcome: Outcome, lost: bool)

  function Concluded(es: I.Entries, trace: string, d: Delivery): I.Entries {
    if d.lost then es
    else match d.outcome
      case Created(orderNo) => I.Marked(es, trace, orderNo, RESULT_TTL, d.finish)
      case Rejected(reason) => I.Marked(es, trace, reason, RESULT_TTL, d.finish)
      case Trouble => I.Released(es, trace, d.finish)
      case Death => es
  }

  predicate Free(es: I.Entries, trace: string, at: int) {
    I.Started(es, trace, I.PROCESSING_TTL, at).1
  }

  /** The domain service is called. */
  predicate Submits(es: I.Entries, trace: string, d: Delivery) {
    d.claim.Answered? && Free(es, trace, d.start)
  }

  function Delivered(es: I.Entries, trace: string, d: Delivery): I.Entries {
    var claimed := I.Started(es, trace, I.PROCESSING_TTL, d.start).0;
    match d.claim
    case RequestLost => es
    case ReplyLost => claimed
    case Answered => if Free(es, trace, d.start) then Concluded(claimed, trace, d) else es
  }

  /** What the use case returns to the consumer: on `Done` the message is acknowledged and
      never comes again, on an error it is delivered again, as it is if the process dies. */
  datatype Answer = Done | Error | Nothing

  function AnswerOf(es: I.Entries, trace: string, d: Delivery): Answer {
    if !d.claim.Answered? then Error
    else if !Free(es, trace, d.start) then Done
    else match d.outcome
      case Trouble => Error
      case Death => Nothing
      case _ => Done
  }

  /** What the client's key holds after a delivery that was submitted. */
  function ResultAfter(es: I.Entries, trace: string, d: Delivery): I.Entries {
    match d.outcome
    case Created(orderNo) => Stored(es, trace, orderNo, d.finish)
    case Rejected(reason) => Stored(es, trace, reason, d.finish)
    case _ => es
  }

  class SubmitSeckill {
    const store: I.ProcessorStore?
    const handlers: ProcessorApp

    constructor (store: I.ProcessorStore?, handlers: ProcessorApp)
      ensures this.store == store && this.handlers == handlers
    {
      this.store, this.handlers := store, handlers;
    }

    /** A claim that reports an error fails the message, and is not released even if it was
        made. A message whose trace is claimed or has a result is dropped without error.
        Otherwise it is submitted; the processor's own key afterwards holds what arrived of
        the report or the release. */
    method Execute(traceID: string, requestTraceID: string, d: Delivery, resultLost: bool)
      returns (submitted: bool, answer: Answer)
      requires handlers.processorStore == store
      modifies handlers.Touched()
      ensures var trace := if traceID == "" then requestTraceID else traceID;
              store != null ==>
                && submitted == Submits(old(store.entries), trace, d)
                && answer == AnswerOf(old(store.entries), trace, d)
                && store.entries == Delivered(old(store.entries), trace, d)
      ensures handlers.traceResults != null ==>
        handlers.traceResults.redis.entries ==
        if submitted && !resultLost
        then ResultAfter(old(handlers.traceResults.redis.entries), if traceID == "" then requestTraceID else traceID, d)
        else old(handlers.traceResults.redis.entries)
      ensures store == null ==>
        submitted && answer == if d.outcome.Trouble? then Error else if d.outcome.Death? then Nothing else Done
    {
      var trace := if traceID == "" then requestTraceID else traceID;
      if store != null {
        if d.claim.RequestLost? {
          return false, Error;
        }
        var acquired := store.TryStart(trace, I.PROCESSING_TTL, d.start);
        if d.claim.ReplyLost? {
          return false, Error;
        }
        if !acquired {
          return false, Done;
        }
      }
      submitted := true;
      var lost := Losses(resultLost, d.lost);
      match d.outcome
      case Created(orderNo) =>
        handlers.MarkTraceSuccess(trace, orderNo, lost, d.finish);
        answer := Done;
      case Rejected(reason) =>
        handlers.MarkTraceFail(trace, reason, lost, d.finish);
        answer := Done;
      case Trouble =>
        if store != null && trace != "" && !d.lost {
          store.Release(trace, d.finish);
        }
        answer := Error;
      case Death =>
        answer := Nothing;
    }
  }

  /** From the domain service to the client: for five minutes after an order was created and
      reported, the client is told that order, and after a refusal the processor's reason. */
  lemma {:induction false} OutcomeIsPolled(
    es: I.Entries, trace: string, d: Delivery, later: int, parse: string -> Option<T.SeckillResult>)
    requires trace != "" && d.finish <= later <= d.finish + 300_000_000_000
    ensures d.outcome.Created? && d.outcome.orderNo !in T.FAIL_REASONS + {"PROCESSING", ""}
            && !T.IsJson(d.outcome.orderNo, parse) ==>
      T.QueueAnswer(ResultAfter(es, trace, d), trace, parse, later) == T.Done(d.outcome.orderNo)
    ensures d.outcome.Rejected? && d.outcome.reason in {"ACTIVITY_CLOSED", "STOCK_EMPTY", "RISK_USER", "ORDER_FAIL"} ==>
      T.QueueAnswer(ResultAfter(es, trace, d), trace, parse, later) == T.Stop(d.outcome.reason)
  {
    if d.outcome.Created? {
      T.WrittenIsPolled(es, trace, d.outcome.orderNo, RESULT_TTL, d.finish, later, parse);
    } else if d.outcome.Rejected? {
      T.WrittenIsPolled(es, trace, d.outcome.reason, RESULT_TTL, d.finish, later, parse);
      assert "ACTIVITY_CLOSED"[0] == 'A' && "STOCK_EMPTY"[0] == 'S' && "RISK_USER"[0] == 'R' && "ORDER_FAIL"[0] == 'O';
    }
  }

  /** What a submitted delivery leaves under the processor's own key: its result for five
      minutes, nothing if it ran into trouble, and otherwise its claim for one minute. */
  lemma {:induction false} OwnKeyAfter(es: I.Entries, trace: string, d: Delivery, later: int)
    requires trace != "" && Submits(es, trace, d) && d.start <= d.finish <= later
    ensures var es' := Delivered(es, trace, d);
            if !d.lost && (d.outcome.Created? || d.outcome.Rejected?) then
              && I.Live(es', trace, later) == (later <= d.finish + 300_000_000_000)
              && es'[trace].value == if d.outcome.Created? then d.outcome.orderNo else d.outcome.reason
            else if !d.lost && d.outcome.Trouble? then !I.Live(es', trace, later)
            else I.Live(es', trace, later) == (later <= d.start + 60_000_000_000) && es'[trace].value == "PROCESSING"
  {
  }

  // ---------------------------------------------------------------------------
  // Redelivery
  // ---------------------------------------------------------------------------

  function DeliveredAll(trace: string, ds: seq<Delivery>): I.Entries {
    if ds == [] then map[] else Delivered(DeliveredAll(trace, ds[..|ds| - 1]), trace, ds[|ds| - 1])
  }

  /** The last delivery that claimed the trace, whether it learned of that or not. */
  function LastClaim(trace: string, ds: seq<Delivery>): Option<Delivery> {
    if ds == [] then None
    else
      var earlier, d := ds[..|ds| - 1], ds[|ds| - 1];
      if !d.claim.RequestLost? && Free(DeliveredAll(trace, earlier), trace, d.start) then Some(d)
      else LastClaim(trace, earlier)
  }

  /** One delivery after the other. */
  predicate InTurn(ds: seq<Delivery>) {
    && (forall i :: 0 <= i < |ds| ==> ds[i].start <= ds[i].finish)
    && (forall i :: 0 < i < |ds| ==> ds[i - 1].finish <= ds[i].start)
  }

  /** It came to a result that was reported to the processor's own key. */
  predicate Reported(d: Delivery) {
    d.claim.Answered? && (d.outcome.Created? || d.outcome.Rejected?) && !d.lost
  }

  /** An error whose release arrived. */
  predicate GaveBack(d: Delivery) {
    d.claim.Answered? && d.outcome.Trouble? && !d.lost
  }

  /** Until when a delivery that claimed the trace keeps the next one from doing so: its report
      lasts for five minutes, a claim that was neither reported on nor given back for one. */
  predicate Blocks(d: Delivery, at: int) {
    if Reported(d) then at <= d.finish + RESULT_TTL
    else !GaveBack(d) && at <= d.start + I.PROCESSING_TTL
  }

  predicate Blocked(trace: string, ds: seq<Delivery>, at: int) {
    LastClaim(trace, ds).Some? && Blocks(LastClaim(trace, ds).value, at)
  }

  lemma {:induction false} FreeUnlessBlocked(trace: string, ds: seq<Delivery>, again: int)
    requires trace != "" && InTurn(ds) && (ds != [] ==> ds[|ds| - 1].finish <= again)
    ensures Free(DeliveredAll(trace, ds), trace, again) <==> !Blocked(trace, ds, again)
    decreases |ds|
  {
    if ds != [] {
      var earlier, d := ds[..|ds| - 1], ds[|ds| - 1];
      if d.claim.RequestLost? || !Free(DeliveredAll(trace, earlier), trace, d.start) {
        FreeUnlessBlocked(trace, earlier, again);
      }
    }
  }

  /** After any sequence of deliveries of one message, one after the other, however each of
      them ended and whatever of it arrived: the next one is submitted exactly if its claim is
      answered and the last one that claimed the trace does not block it. */
  lemma {:induction false} RedeliverySubmitsIff(trace: string, ds: seq<Delivery>, d: Delivery)
    requires trace != "" && InTurn(ds + [d])
    ensures Submits(DeliveredAll(trace, ds), trace, d) <==> d.claim.Answered? && !Blocked(trace, ds, d.start)
  {
    EarlierInTurn(ds, d);
    FreeUnlessBlocked(trace, ds, d.start);
  }

  lemma EarlierInTurn(ds: seq<Delivery>, d: Delivery)
    requires InTurn(ds + [d])
    ensures InTurn(ds) && d.start <= d.finish && (ds != [] ==> ds[|ds| - 1].finish <= d.start)
  {
    var all := ds + [d];
    assert all[|ds|] == d && forall i :: 0 <= i < |ds| ==> all[i] == ds[i];
  }

  /** A result whose report was lost is not safe: the message is submitted again as soon as
      the claim has expired. */
  lemma LostReportIsResubmitted(trace: string, d: Delivery, again: Delivery)
    requires trace != "" && d.claim.Answered? && d.lost && InTurn([d, again])
    requires again.claim.Answered? && again.start > d.start + I.PROCESSING_TTL
    ensures Submits(DeliveredAll(trace, [d]), trace, again)
  {
    assert [d][..0] == [] && [d] + [again] == [d, again];
    assert LastClaim(trace, [d]) == Some(d);
    RedeliverySubmitsIff(trace, [d], again);
  }

  // ---------------------------------------------------------------------------
  // Messages that are lost
  // ---------------------------------------------------------------------------

  /** Some delivery came to an order or to a refusal. */
  predicate Processed(trace: string, ds: seq<Delivery>) {
    ds != [] &&
    var earlier, d := ds[..|ds| - 1], ds[|ds| - 1];
    Processed(trace, earlier)
    || (Submits(DeliveredAll(trace, earlier), trace, d) && (d.outcome.Created? || d.outcome.Rejected?))
  }

  /** With its last delivery the message is acknowledged, and it never came to anything. */
  predicate LostWith(trace: string, ds: seq<Delivery>, d: Delivery) {
    AnswerOf(DeliveredAll(trace, ds), trace, d).Done? && !Processed(trace, ds + [d])
  }

  lemma {:induction false} UnprocessedClaim(trace: string, ds: seq<Delivery>)
    requires !Processed(trace, ds) && LastClaim(trace, ds).Some?
    ensures !Reported(LastClaim(trace, ds).value)
    decreases |ds|
  {
    if ds != [] {
      var earlier, d := ds[..|ds| - 1], ds[|ds| - 1];
      if d.claim.RequestLost? || !Free(DeliveredAll(trace, earlier), trace, d.start) {
        UnprocessedClaim(trace, earlier);
      }
    }
  }

  /** A message is lost exactly if nothing has come of it so far and it is delivered again,
      with its claim answered, while the claim of a delivery that died, never learned of its
      claim, or could not give it back still lasts: within a minute of that one's start. */
  lemma {:induction false} MessageLostIff(trace: string, ds: seq<Delivery>, d: Delivery)
    requires trace != "" && InTurn(ds + [d])
    ensures LostWith(trace, ds, d) <==>
      && !Processed(trace, ds) && d.claim.Answered? && LastClaim(trace, ds).Some?
      && !GaveBack(LastClaim(trace, ds).value)
      && d.start <= LastClaim(trace, ds).value.start + I.PROCESSING_TTL
  {
    var all := ds + [d];
    assert all[..|all| - 1] == ds && all[|all| - 1] == d;
    EarlierInTurn(ds, d);
    FreeUnlessBlocked(trace, ds, d.start);
    if !Processed(trace, ds) && LastClaim(trace, ds).Some? {
      UnprocessedClaim(trace, ds);
    }
  }

  /** Each delivery starts at least `gap` after the one before it. */
  predicate Spaced(ds: seq<Delivery>, gap: nat) {
    forall i :: 0 < i < |ds| ==> ds[i].start >= ds[i - 1].start + gap
  }

  ghost predicate NeverLoses(gap: nat) {
    forall trace: string, ds: seq<Delivery>, d: Delivery ::
      trace != "" && InTurn(ds + [d]) && Spaced(ds + [d], gap) ==> !LostWith(trace, ds, d)
  }

  lemma {:induction false} LastClaimIsEarlier(trace: string, ds: seq<Delivery>, d: Delivery, gap: nat)
    requires Spaced(ds + [d], gap) && InTurn(ds + [d]) && LastClaim(trace, ds).Some?
    ensures LastClaim(trace, ds).value.start + gap <= d.start
    decreases |ds|
  {
    var all, earlier, last := ds + [d], ds[..|ds| - 1], ds[|ds| - 1];
    assert all[|ds|] == d && all[|ds| - 1] == last;
    if LastClaim(trace, ds) != Some(last) {
      var shorter := earlier + [last];
      assert shorter == ds && forall i :: 0 <= i < |ds| ==> all[i] == ds[i];
      LastClaimIsEarlier(trace, earlier, last, gap);
    }
  }

  lemma DeathLosesMessage(trace: string, gap: nat)
    requires trace != "" && gap <= I.PROCESSING_TTL
    ensures !NeverLoses(gap)
  {
    var died, again := Delivery(0, Answered, 0, Death, false), Delivery(gap, Answered, gap, Trouble, false);
    var ds := [died];
    assert ds[..0] == [] && !Processed(trace, []) && LastClaim(trace, ds) == Some(died);
    assert ds + [again] == [died, again];
    MessageLostIff(trace, ds, again);
    assert LostWith(trace, ds, again);
  }

  /** No message is ever lost exactly if redeliveries are more than a claim's lifetime apart. */
  lemma {:induction false} NeverLosesIff(gap: nat)
    ensures NeverLoses(gap) <==> gap > I.PROCESSING_TTL
  {
    if gap > I.PROCESSING_TTL {
      forall trace: string, ds: seq<Delivery>, d: Delivery
        | trace != "" && InTurn(ds + [d]) && Spaced(ds + [d], gap)
        ensures !LostWith(trace, ds, d)
      {
        MessageLostIff(trace, ds, d);
        if LastClaim(trace, ds).Some? {
          LastClaimIsEarlier(trace, ds, d, gap);
        }
      }
    } else {
      DeathLosesMessage("t", gap);
    }
  }
}
