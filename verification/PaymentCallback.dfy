/** The payment callback as a protocol: any number of concurrent notifications for one
    order, interleaved with the order being closed, with a lock that has no owner, and
    with requests or replies of the order service getting lost. */
module PaymentCallback {
  import opened Prelude
  import opened OrderStore

  /** Which optional collaborators are configured (and not switched off). */
  datatype Config = Config(lock: bool, queue: bool, sync: bool, cards: bool)

  /** A notification and the transaction number it carries. */
  datatype Call = Call(id: nat, txn: string)

  datatype Kind = Sync | Card

  datatype How = Queued | Inline

  datatype Effect = Effect(call: Call, kind: Kind, how: How)

  /** Where a notification is. From `Locked` to `Settled` or `Leaving` it is inside the
      section guarded by the lock. */
  datatype Place =
    | Idle
    | Locked
    | SeenPending
    | MarkedPaid
    | SyncTried(syncQueued: bool)
    | BothTried(syncQueued: bool, cardQueued: bool)
    | SyncSettled(cardQueued: bool)
    | Settled
    | Leaving
    | Completed
    | Returned
    | Crashed(at: Place)

  /** `payer` and `heard` are history variables: the call whose request moved the order to
      paid, and whether the reply to that request arrived. */
  datatype State = State(
    order: Option<Order>, lock: Option<Call>, places: map<Call, Place>, log: seq<Effect>,
    payer: Option<Call>, heard: bool)

  datatype Event =
    | TryLock(call: Call, replyLost: bool)
    | GetOrder(call: Call, fails: bool)
    | MarkPaid(call: Call, at: int, requestLost: bool, replyLost: bool)
    | PublishSync(call: Call, ok: bool)
    | PublishCard(call: Call, ok: bool)
    | NoQueue(call: Call)
    | SettleSync(call: Call)
    | SettleCard(call: Call)
    | Unlock(call: Call)
    | Crash(call: Call)
    | LockExpires
    | CloseOrder(at: int)

  predicate InSection(p: Place) {
    !p.Idle? && !p.Completed? && !p.Returned? && !p.Crashed?
  }

  function PlaceOf(s: State, c: Call): Place {
    if c in s.places then s.places[c] else Idle
  }

  /** The lock only expires when its holder is no longer inside: sections are shorter
      than the lock's lifetime, unless the holder has died. */
  predicate Enabled(cfg: Config, s: State, e: Event) {
    match e
    case TryLock(c, _) => PlaceOf(s, c).Idle?
    case GetOrder(c, _) => PlaceOf(s, c).Locked?
    case MarkPaid(c, _, _, _) => PlaceOf(s, c).SeenPending?
    case PublishSync(c, _) => PlaceOf(s, c).MarkedPaid? && cfg.queue
    case PublishCard(c, _) => PlaceOf(s, c).SyncTried?
    case NoQueue(c) => PlaceOf(s, c).MarkedPaid? && !cfg.queue
    case SettleSync(c) => PlaceOf(s, c).BothTried?
    case SettleCard(c) => PlaceOf(s, c).SyncSettled?
    case Unlock(c) => PlaceOf(s, c).Settled? || PlaceOf(s, c).Leaving?
    case Crash(c) => InSection(PlaceOf(s, c))
    case LockExpires => s.lock.Some? && !InSection(PlaceOf(s, s.lock.value))
    case CloseOrder(_) => true
  }

  function Move(s: State, c: Call, p: Place): State {
    s.(places := s.places[c := p])
  }

  function Do(s: State, c: Call, kind: Kind, how: How, really: bool): State {
    if really then s.(log := s.log + [Effect(c, kind, how)]) else s
  }

  function Next(cfg: Config, s: State, e: Event): State
    requires Enabled(cfg, s, e)
  {
    match e
    case TryLock(c, replyLost) =>
      if !cfg.lock then Move(s, c, Locked)
      else if s.lock.Some? then Move(s, c, Returned)
      else Move(s.(lock := Some(c)), c, if replyLost then Returned else Locked)
    case GetOrder(c, fails) =>
      if fails || s.order.None? || s.order.value.status != PENDING then Move(s, c, Leaving)
      else Move(s, c, SeenPending)
    case MarkPaid(c, at, requestLost, replyLost) =>
      if requestLost || s.order.None? then Move(s, c, Leaving)
      else
        var (updated, ok) := TransitPaid(s.order.value, c.txn, at);
        var first := ok && s.order.value.status != PAID;
        Move(s.(order := if ok then Some(updated) else s.order,
                payer := if first then Some(c) else s.payer, heard := if first then !replyLost else s.heard), c,
             if ok && !replyLost then MarkedPaid else Leaving)
    case PublishSync(c, ok) => Move(Do(s, c, Sync, Queued, ok), c, SyncTried(ok))
    case PublishCard(c, ok) => Move(Do(s, c, Card, Queued, ok), c, BothTried(PlaceOf(s, c).syncQueued, ok))
    case NoQueue(c) => Move(s, c, BothTried(false, false))
    case SettleSync(c) =>
      Move(Do(s, c, Sync, Inline, !PlaceOf(s, c).syncQueued && cfg.sync), c, SyncSettled(PlaceOf(s, c).cardQueued))
    case SettleCard(c) =>
      Move(Do(s, c, Card, Inline, !PlaceOf(s, c).cardQueued && cfg.cards), c, Settled)
    case Unlock(c) =>
      Move(if cfg.lock then s.(lock := None) else s, c, if PlaceOf(s, c).Settled? then Completed else Returned)
    case Crash(c) => Move(s, c, Crashed(PlaceOf(s, c)))
    case LockExpires => s.(lock := None)
    case CloseOrder(at) =>
      if s.order.None? then s
      else
        var (updated, ok) := TransitClosed(s.order.value, at);
        s.(order := if ok then Some(updated) else s.order)
  }

  function Start(order: Option<Order>): State {
    State(order, None, map[], [], None, false)
  }

  ghost predicate Reaches(cfg: Config, from: State, run: seq<Event>, to: State)
    decreases |run|
  {
    if run == [] then from == to
    else Enabled(cfg, from, run[0]) && Reaches(cfg, Next(cfg, from, run[0]), run[1..], to)
  }

  // ---------------------------------------------------------------------------
  // What a call has done so far
  // ---------------------------------------------------------------------------

  /** How call `c` dealt with one kind of post-pay work, in order. */
  function Hows(log: seq<Effect>, c: Call, kind: Kind): seq<How> {
    if log == [] then []
    else
      var e := log[|log| - 1];
      Hows(log[..|log| - 1], c, kind) + if e.call == c && e.kind == kind then [e.how] else []
  }

  lemma HowsAppend(log: seq<Effect>, e: Effect, c: Call, kind: Kind)
    ensures Hows(log + [e], c, kind) == Hows(log, c, kind) + if e.call == c && e.kind == kind then [e.how] else []
  {
    assert (log + [e])[..|log|] == log;
  }

  predicate QueuedIf(h: seq<How>, queued: bool) {
    h == if queued then [Queued] else []
  }

  /** Queued or inline, once; nothing at all only where no service is configured. */
  predicate Handled(h: seq<How>, configured: bool) {
    h == [Queued] || h == if configured then [Inline] else []
  }

  ghost predicate Progress(cfg: Config, p: Place, sync: seq<How>, card: seq<How>) {
    match p
    case SyncTried(q) => QueuedIf(sync, q) && card == []
    case BothTried(q, r) => QueuedIf(sync, q) && QueuedIf(card, r)
    case SyncSettled(r) => Handled(sync, cfg.sync) && QueuedIf(card, r)
    case Settled => Handled(sync, cfg.sync) && Handled(card, cfg.cards)
    case Completed => Handled(sync, cfg.sync) && Handled(card, cfg.cards)
    case Crashed(at) => Progress(cfg, at, sync, card)
    case _ => sync == [] && card == []
  }

  predicate Dispatching(p: Place) {
    p.MarkedPaid? || p.SyncTried? || p.BothTried? || p.SyncSettled? || p.Settled? || p.Completed?
  }

  /** Where a call was when it stopped. */
  function Stopped(p: Place): Place {
    if p.Crashed? then p.at else p
  }

  predicate PaidBy(s: State, c: Call) {
    s.order.Some? && s.order.value.status == PAID && s.order.value.transactionNo == c.txn
  }

  ghost predicate CallInv(cfg: Config, s: State, c: Call) {
    && (InSection(PlaceOf(s, c)) ==> s.lock == Some(c))
    && (PlaceOf(s, c).SeenPending? ==> s.order.Some? && s.order.value.status != PAID)
    && (Dispatching(Stopped(PlaceOf(s, c))) ==> s.payer == Some(c))
    && (PlaceOf(s, c).Crashed? ==> InSection(PlaceOf(s, c).at))
    && (s.payer == Some(c) ==>
          if s.heard then Dispatching(Stopped(PlaceOf(s, c)))
          else Stopped(PlaceOf(s, c)).Leaving? || PlaceOf(s, c).Returned?)
    && ((Hows(s.log, c, Sync) != [] || Hows(s.log, c, Card) != []) ==> s.payer == Some(c))
    && Progress(cfg, PlaceOf(s, c), Hows(s.log, c, Sync), Hows(s.log, c, Card))
  }

  ghost predicate Inv(cfg: Config, s: State) {
    && (forall c: Call :: CallInv(cfg, s, c))
    && (s.payer.Some? ==> PaidBy(s, s.payer.value))
  }

  function Actor(e: Event): Option<Call> {
    match e
    case LockExpires => None
    case CloseOrder(_) => None
    case _ => Some(e.call)
  }

  lemma PaidTransition(o: Order, txn: string, at: int)
    ensures var (u, ok) := TransitPaid(o, txn, at);
            && (o.status == PAID ==> ok && u == o)
            && (o.status != PAID && ok ==> u.status == PAID && u.transactionNo == txn)
  {
  }

  lemma ClosedTransition(o: Order, at: int)
    ensures var (u, ok) := TransitClosed(o, at);
            && (o.status == PAID ==> !ok)
            && (ok ==> u.status != PAID)
  {
    assert !CanTransition(PAID, CLOSED);
  }

  /** What one step does to the order, seen from the payment side. */
  lemma OrderSteps(cfg: Config, s: State, e: Event)
    requires Enabled(cfg, s, e)
    ensures var s' := Next(cfg, s, e);
            && (s.order.Some? && s.order.value.status == PAID ==> s'.order == s.order)
            && (s'.payer != s.payer ==> e.MarkPaid? && s'.payer == Some(e.call) && PaidBy(s', e.call))
            && (s'.order.Some? && s'.order.value.status == PAID && !(s.order.Some? && s.order.value.status == PAID)
                ==> e.MarkPaid? && s'.payer == Some(e.call))
            && (s.order.Some? ==> s'.order.Some?)
  {
    if e.CloseOrder? && s.order.Some? {
      ClosedTransition(s.order.value, e.at);
    }
    if e.MarkPaid? && s.order.Some? {
      PaidTransition(s.order.value, e.call.txn, e.at);
    }
  }

  lemma StepKeepsPayer(cfg: Config, s: State, e: Event)
    requires cfg.lock && Inv(cfg, s) && Enabled(cfg, s, e)
    ensures var s' := Next(cfg, s, e); s'.payer.Some? ==> PaidBy(s', s'.payer.value)
  {
    OrderSteps(cfg, s, e);
    hide Next, Enabled, CallInv;
  }

  /** Getting into the section and out of it leaves the work done as it was. */
  lemma MovingKeepsActor(cfg: Config, s: State, e: Event)
    requires cfg.lock && Enabled(cfg, s, e)
    requires e.TryLock? || e.GetOrder? || e.Unlock? || e.Crash? || e.NoQueue?
    requires CallInv(cfg, s, e.call)
    ensures CallInv(cfg, Next(cfg, s, e), e.call)
  {
    hide TransitPaid, TransitClosed, Hows;
  }

  lemma PayingKeepsActor(cfg: Config, s: State, e: Event)
    requires cfg.lock && Inv(cfg, s) && Enabled(cfg, s, e) && e.MarkPaid?
    ensures CallInv(cfg, Next(cfg, s, e), e.call)
  {
    assert CallInv(cfg, s, e.call);
    hide TransitPaid, TransitClosed, Hows;
  }

  /** Dispatching adds to it. */
  lemma WorkingKeepsActor(cfg: Config, s: State, e: Event)
    requires cfg.lock && Inv(cfg, s) && Enabled(cfg, s, e)
    requires e.PublishSync? || e.PublishCard? || e.SettleSync? || e.SettleCard?
    ensures CallInv(cfg, Next(cfg, s, e), e.call)
  {
    hide TransitPaid, TransitClosed, Hows;
    var c := e.call;
    assert CallInv(cfg, s, c);
    var kind, how := if e.PublishSync? || e.SettleSync? then Sync else Card,
                     if e.PublishSync? || e.PublishCard? then Queued else Inline;
    HowsAppend(s.log, Effect(c, kind, how), c, Sync);
    HowsAppend(s.log, Effect(c, kind, how), c, Card);
  }

  /** The acting call's own invariant. */
  lemma StepKeepsActor(cfg: Config, s: State, e: Event)
    requires cfg.lock && Inv(cfg, s) && Enabled(cfg, s, e) && Actor(e).Some?
    ensures CallInv(cfg, Next(cfg, s, e), e.call)
  {
    assert CallInv(cfg, s, e.call);
    hide Inv, Enabled, Next, CallInv;
    if e.PublishSync? || e.PublishCard? || e.SettleSync? || e.SettleCard? {
      WorkingKeepsActor(cfg, s, e);
    } else if e.MarkPaid? {
      PayingKeepsActor(cfg, s, e);
    } else {
      MovingKeepsActor(cfg, s, e);
    }
  }

  lemma OthersUnmoved(cfg: Config, s: State, e: Event, c: Call)
    requires cfg.lock && Inv(cfg, s) && Enabled(cfg, s, e) && Actor(e) != Some(c)
    ensures PlaceOf(Next(cfg, s, e), c) == PlaceOf(s, c)
    ensures InSection(PlaceOf(s, c)) ==> Next(cfg, s, e).lock == s.lock && !e.MarkPaid?
  {
    hide TransitPaid, TransitClosed, Hows, Progress, Dispatching, Stopped, PaidBy;
    assert CallInv(cfg, s, c);
    if Actor(e).Some? {
      assert CallInv(cfg, s, e.call);
    }
  }

  lemma OthersWorkStays(cfg: Config, s: State, e: Event, c: Call, kind: Kind)
    requires Enabled(cfg, s, e) && Actor(e) != Some(c)
    ensures Hows(Next(cfg, s, e).log, c, kind) == Hows(s.log, c, kind)
  {
    hide TransitPaid, TransitClosed, Hows;
    if Actor(e).Some? {
      HowsAppend(s.log, Effect(e.call, Sync, Queued), c, kind);
      HowsAppend(s.log, Effect(e.call, Card, Queued), c, kind);
      HowsAppend(s.log, Effect(e.call, Sync, Inline), c, kind);
      HowsAppend(s.log, Effect(e.call, Card, Inline), c, kind);
    }
  }

  /** Who paid is settled once and for all. */
  lemma PayerIsFixed(cfg: Config, s: State, e: Event)
    requires cfg.lock && Inv(cfg, s) && Enabled(cfg, s, e)
    ensures var s' := Next(cfg, s, e); s.payer.Some? ==> s'.payer == s.payer && s'.heard == s.heard
    ensures var s' := Next(cfg, s, e); s'.payer != s.payer ==> s'.payer == Actor(e)
  {
    hide TransitPaid, TransitClosed, Hows, Progress, Dispatching, Stopped;
    OrderSteps(cfg, s, e);
    if e.MarkPaid? {
      assert CallInv(cfg, s, e.call);
    }
  }

  /** Everyone else's: nobody else is inside, and what others have done stays. */
  lemma StepKeepsOthers(cfg: Config, s: State, e: Event, c: Call)
    requires cfg.lock && Inv(cfg, s) && Enabled(cfg, s, e) && Actor(e) != Some(c)
    ensures CallInv(cfg, Next(cfg, s, e), c)
  {
    assert CallInv(cfg, s, c);
    OrderSteps(cfg, s, e);
    OthersUnmoved(cfg, s, e, c);
    OthersWorkStays(cfg, s, e, c, Sync);
    OthersWorkStays(cfg, s, e, c, Card);
    PayerIsFixed(cfg, s, e);
    hide Next, Enabled, Inv, Hows, Progress, Dispatching, PlaceOf, Actor;
  }

  lemma StepKeepsInv(cfg: Config, s: State, e: Event)
    requires cfg.lock && Inv(cfg, s) && Enabled(cfg, s, e)
    ensures Inv(cfg, Next(cfg, s, e))
  {
    forall c: Call
      ensures CallInv(cfg, Next(cfg, s, e), c)
    {
      if Actor(e) == Some(c) {
        StepKeepsActor(cfg, s, e);
      } else {
        StepKeepsOthers(cfg, s, e, c);
      }
    }
    StepKeepsPayer(cfg, s, e);
  }

  lemma {:induction false} RunKeepsInv(cfg: Config, from: State, run: seq<Event>, to: State)
    requires cfg.lock && Inv(cfg, from) && Reaches(cfg, from, run, to)
    ensures Inv(cfg, to)
    decreases |run|
  {
    if run != [] {
      StepKeepsInv(cfg, from, run[0]);
      RunKeepsInv(cfg, Next(cfg, from, run[0]), run[1..], to);
    }
  }

  lemma StartHoldsInv(cfg: Config, order: Option<Order>)
    ensures Inv(cfg, Start(order))
  {
  }

  // ---------------------------------------------------------------------------
  // Exactly once
  // ---------------------------------------------------------------------------

  lemma {:induction false} EffectShows(log: seq<Effect>, i: nat)
    requires i < |log|
    ensures Hows(log, log[i].call, log[i].kind) != []
    decreases |log|
  {
    if i < |log| - 1 {
      EffectShows(log[..|log| - 1], i);
    }
  }

  /** With the lock, in every interleaving: all post-pay work in the log was dispatched by
      one call, and the order is stored as paid with that call's transaction number. */
  lemma {:induction false} DispatchedOnlyByThePayer(
    cfg: Config, order: Option<Order>, run: seq<Event>, to: State, i: nat)
    requires cfg.lock && Reaches(cfg, Start(order), run, to) && i < |to.log|
    ensures to.payer == Some(to.log[i].call)
    ensures PaidBy(to, to.log[i].call)
  {
    StartHoldsInv(cfg, order);
    RunKeepsInv(cfg, Start(order), run, to);
    EffectShows(to.log, i);
    assert CallInv(cfg, to, to.log[i].call);
  }

  /** No call ever dispatches one kind of work twice, and a call that completes after
      paying has sent sync and card each to the queue or inline: never both, and neither
      only where the service is not configured. */
  lemma {:induction false} CompletedMeansHandled(cfg: Config, order: Option<Order>, run: seq<Event>, to: State, c: Call)
    requires cfg.lock && Reaches(cfg, Start(order), run, to)
    ensures |Hows(to.log, c, Sync)| <= 1 && |Hows(to.log, c, Card)| <= 1
    ensures PlaceOf(to, c).Completed? ==>
      && to.payer == Some(c) && PaidBy(to, c)
      && Handled(Hows(to.log, c, Sync), cfg.sync)
      && Handled(Hows(to.log, c, Card), cfg.cards)
  {
    StartHoldsInv(cfg, order);
    RunKeepsInv(cfg, Start(order), run, to);
    assert CallInv(cfg, to, c);
    assert Progress(cfg, Stopped(PlaceOf(to, c)), Hows(to.log, c, Sync), Hows(to.log, c, Card));
  }

  lemma {:induction false} MutualExclusion(
    cfg: Config, order: Option<Order>, run: seq<Event>, to: State, c: Call, d: Call)
    requires cfg.lock && Reaches(cfg, Start(order), run, to)
    requires InSection(PlaceOf(to, c)) && InSection(PlaceOf(to, d))
    ensures c == d
  {
    StartHoldsInv(cfg, order);
    RunKeepsInv(cfg, Start(order), run, to);
    assert CallInv(cfg, to, c) && CallInv(cfg, to, d);
  }

  // ---------------------------------------------------------------------------
  // Exactly when one dispatcher is guaranteed
  // ---------------------------------------------------------------------------

  predicate OneDispatcher(log: seq<Effect>) {
    forall i, j :: 0 <= i < |log| && 0 <= j < |log| ==> log[i].call == log[j].call
  }

  ghost predicate AlwaysOneDispatcher(cfg: Config) {
    forall order, run, to :: Reaches(cfg, Start(order), run, to) ==> OneDispatcher(to.log)
  }

  predicate AnyService(cfg: Config) {
    cfg.queue || cfg.sync || cfg.cards
  }

  lemma {:induction false} NothingConfiguredNothingLogged(cfg: Config, from: State, run: seq<Event>, to: State)
    requires !AnyService(cfg) && Reaches(cfg, from, run, to)
    requires from.log == [] && forall c :: !PlaceOf(from, c).SyncTried?
    ensures to.log == []
    decreases |run|
  {
    if run != [] {
      forall c
        ensures !PlaceOf(Next(cfg, from, run[0]), c).SyncTried?
      {
        assert !PlaceOf(from, c).SyncTried?;
      }
      NothingConfiguredNothingLogged(cfg, Next(cfg, from, run[0]), run[1..], to);
    }
  }

  const A := Call(0, "a")
  const B := Call(1, "b")
  const OPEN_ORDER := Order("O1", 7, "A1", 9900, PENDING, "", None, None, 0)

  /** Both calls read the order as pending before either marks it paid; the second mark
      is acknowledged because the order is paid already. */
  function BothPay(): seq<Event> {
    [TryLock(A, false), TryLock(B, false), GetOrder(A, false), GetOrder(B, false),
     MarkPaid(A, 1, false, false), MarkPaid(B, 2, false, false)]
  }

  function BothPaid(): State {
    State(Some(OPEN_ORDER.(status := PAID, transactionNo := "a", paidAt := Some(1))), None,
          map[A := MarkedPaid, B := MarkedPaid], [], Some(A), true)
  }

  lemma {:induction false} BothPayReaches(cfg: Config)
    requires !cfg.lock
    ensures Reaches(cfg, Start(Some(OPEN_ORDER)), BothPay(), BothPaid())
  {
    var from := Start(Some(OPEN_ORDER));
    var run: seq<Event>, s := [], from;
    assert Reaches(cfg, from, run, s);
    assert PAID in ALLOWED[PENDING];
    hide Reaches;
    run, s := Go(cfg, from, run, s, TryLock(A, false));
    run, s := Go(cfg, from, run, s, TryLock(B, false));
    assert s == from.(places := map[A := Locked, B := Locked]);
    run, s := Go(cfg, from, run, s, GetOrder(A, false));
    run, s := Go(cfg, from, run, s, GetOrder(B, false));
    assert s == from.(places := map[A := SeenPending, B := SeenPending]);
    run, s := Go(cfg, from, run, s, MarkPaid(A, 1, false, false));
    assert s == BothPaid().(places := map[A := MarkedPaid, B := SeenPending]);
    run, s := Go(cfg, from, run, s, MarkPaid(B, 2, false, false));
    assert run == BothPay() && s == BothPaid();
  }

  lemma OneStep(cfg: Config, s: State, e: Event, next: State, run: seq<Event>, to: State)
    requires Enabled(cfg, s, e) && Next(cfg, s, e) == next && Reaches(cfg, next, run, to)
    ensures Reaches(cfg, s, [e] + run, to)
  {
    assert ([e] + run)[1..] == run;
  }

  lemma {:induction false} RunsCompose(cfg: Config, s: State, r1: seq<Event>, mid: State, r2: seq<Event>, to: State)
    requires Reaches(cfg, s, r1, mid) && Reaches(cfg, mid, r2, to)
    ensures Reaches(cfg, s, r1 + r2, to)
    decreases |r1|
  {
    hide Next, Enabled;
    if r1 == [] {
      assert r1 + r2 == r2;
    } else {
      assert (r1 + r2)[1..] == r1[1..] + r2;
      RunsCompose(cfg, Next(cfg, s, r1[0]), r1[1..], mid, r2, to);
    }
  }

  /** From there each call dispatches on its own. */
  lemma {:induction false} DispatchesAlone(cfg: Config, s: State, c: Call) returns (run: seq<Event>, to: State)
    requires AnyService(cfg) && PlaceOf(s, c).MarkedPaid?
    ensures Reaches(cfg, s, run, to)
    ensures |to.log| > |s.log| && to.log[..|s.log|] == s.log && to.log[|s.log|].call == c
    ensures forall d :: d != c ==> PlaceOf(to, d) == PlaceOf(s, d)
  {
    if cfg.queue {
      run, to := [PublishSync(c, true)], Next(cfg, s, PublishSync(c, true));
      OneStep(cfg, s, PublishSync(c, true), to, [], to);
    } else {
      var s1 := Next(cfg, s, NoQueue(c));
      var s2 := Next(cfg, s1, SettleSync(c));
      to := Next(cfg, s2, SettleCard(c));
      run := [NoQueue(c)] + ([SettleSync(c)] + ([SettleCard(c)] + []));
      OneStep(cfg, s2, SettleCard(c), to, [], to);
      OneStep(cfg, s1, SettleSync(c), s2, [SettleCard(c)] + [], to);
      OneStep(cfg, s, NoQueue(c), s1, [SettleSync(c)] + ([SettleCard(c)] + []), to);
    }
  }

  /** Without the lock, two notifications for one order can both dispatch. */
  lemma {:induction false} WithoutLockBothDispatch(cfg: Config) returns (run: seq<Event>, to: State)
    requires !cfg.lock && AnyService(cfg)
    ensures Reaches(cfg, Start(Some(OPEN_ORDER)), run, to) && !OneDispatcher(to.log)
  {
    BothPayReaches(cfg);
    var r1, s1 := DispatchesAlone(cfg, BothPaid(), A);
    var r2, s2 := DispatchesAlone(cfg, s1, B);
    RunsCompose(cfg, Start(Some(OPEN_ORDER)), BothPay(), BothPaid(), r1, s1);
    RunsCompose(cfg, Start(Some(OPEN_ORDER)), BothPay() + r1, s1, r2, s2);
    run, to := BothPay() + r1 + r2, s2;
    assert s2.log[0] == s2.log[..|s1.log|][0];
    assert s2.log[0].call == A && s2.log[|s1.log|].call == B;
  }

  /** Post-pay work is dispatched by at most one call in every interleaving exactly when
      the callback lock is configured (or there is nothing to dispatch to). */
  lemma {:induction false} OneDispatcherIff(cfg: Config)
    ensures AlwaysOneDispatcher(cfg) <==> cfg.lock || !AnyService(cfg)
  {
    if cfg.lock || !AnyService(cfg) {
      forall order, run, to | Reaches(cfg, Start(order), run, to)
        ensures OneDispatcher(to.log)
      {
        if cfg.lock {
          forall i, j | 0 <= i < |to.log| && 0 <= j < |to.log|
            ensures to.log[i].call == to.log[j].call
          {
            DispatchedOnlyByThePayer(cfg, order, run, to, i);
            DispatchedOnlyByThePayer(cfg, order, run, to, j);
          }
        } else {
          NothingConfiguredNothingLogged(cfg, Start(order), run, to);
        }
      }
    } else {
      var run, to := WithoutLockBothDispatch(cfg);
    }
  }

  // ---------------------------------------------------------------------------
  // At most once, not at least once
  // ---------------------------------------------------------------------------

  predicate MayDispatch(p: Place) {
    p.MarkedPaid? || p.SyncTried? || p.BothTried? || p.SyncSettled?
  }

  /** Once the order is paid and nobody is dispatching, nothing is ever dispatched again:
      a payment whose reply was lost leaves its post-pay work undone for good. */
  lemma {:induction false} PaidOrderNeverDispatchesAgain(cfg: Config, from: State, run: seq<Event>, to: State)
    requires cfg.lock && Inv(cfg, from) && Reaches(cfg, from, run, to)
    requires from.order.Some? && from.order.value.status == PAID
    requires forall c :: !MayDispatch(PlaceOf(from, c))
    ensures to.log == from.log
    decreases |run|
  {
    if run != [] {
      StepKeepsInv(cfg, from, run[0]);
      OrderSteps(cfg, from, run[0]);
      QuietStep(cfg, from, run[0]);
      hide Next, Enabled;
      PaidOrderNeverDispatchesAgain(cfg, Next(cfg, from, run[0]), run[1..], to);
    }
  }

  lemma QuietStep(cfg: Config, s: State, e: Event)
    requires Inv(cfg, s) && Enabled(cfg, s, e)
    requires s.order.Some? && s.order.value.status == PAID
    requires forall c :: !MayDispatch(PlaceOf(s, c))
    ensures Next(cfg, s, e).log == s.log
    ensures forall c :: !MayDispatch(PlaceOf(Next(cfg, s, e), c))
  {
    hide TransitPaid, TransitClosed, Hows, Progress;
    if Actor(e).Some? {
      assert CallInv(cfg, s, e.call) && !MayDispatch(PlaceOf(s, e.call));
    }
    forall c
      ensures !MayDispatch(PlaceOf(Next(cfg, s, e), c))
    {
      assert !MayDispatch(PlaceOf(s, c));
    }
  }

  /** One more step of a run. */
  lemma Go(cfg: Config, from: State, run: seq<Event>, s: State, e: Event) returns (run': seq<Event>, s': State)
    requires Reaches(cfg, from, run, s) && Enabled(cfg, s, e)
    ensures Reaches(cfg, from, run', s') && s' == Next(cfg, s, e) && run' == run + [e]
  {
    run', s' := run + [e], Next(cfg, s, e);
    OneStep(cfg, s, e, s', [], s');
    assert [e] + [] == [e];
    RunsCompose(cfg, from, run, s, [e], s');
  }

  predicate IsPaid(s: State) {
    s.order.Some? && s.order.value.status == PAID
  }

  /** Nobody is inside the guarded section. */
  ghost predicate Quiet(s: State) {
    forall c :: !InSection(PlaceOf(s, c))
  }

  /** A payment whose reply is lost: the order is paid, everyone is done, and no work was
      dispatched. By `PaidOrderNeverDispatchesAgain` it never will be. */
  lemma LostReplyLeavesWorkUndone(cfg: Config) returns (run: seq<Event>, to: State)
    requires cfg.lock
    ensures Reaches(cfg, Start(Some(OPEN_ORDER)), run, to)
    ensures IsPaid(to) && Quiet(to) && to.lock == None && to.log == []
  {
    var from := Start(Some(OPEN_ORDER));
    run, to := [], from;
    assert Reaches(cfg, from, run, to);
    assert PAID in ALLOWED[PENDING];
    hide Reaches;
    run, to := Go(cfg, from, run, to, TryLock(A, false));
    run, to := Go(cfg, from, run, to, GetOrder(A, false));
    run, to := Go(cfg, from, run, to, MarkPaid(A, 1, false, true));
    run, to := Go(cfg, from, run, to, Unlock(A));
  }

  // ---------------------------------------------------------------------------
  // Exactly when a payment gets its post-pay work
  // ---------------------------------------------------------------------------

  /** Both kinds of work of this call are queued or done, or not configured. */
  predicate AllHandled(cfg: Config, s: State, c: Call) {
    Handled(Hows(s.log, c, Sync), cfg.sync) && Handled(Hows(s.log, c, Card), cfg.cards)
  }

  /** What a payer that stopped at this place still owes. */
  predicate Owes(cfg: Config, p: Place, kind: Kind) {
    match (p, kind)
    case (SyncTried(queued), Sync) => !queued && cfg.sync
    case (BothTried(queued, _), Sync) => !queued && cfg.sync
    case (BothTried(_, queued), Card) => !queued && cfg.cards
    case (SyncSettled(_), Sync) => false
    case (SyncSettled(queued), Card) => !queued && cfg.cards
    case (Settled, _) => false
    case (Completed, _) => false
    case (_, Sync) => cfg.sync
    case (_, Card) => cfg.cards
  }

  lemma HandledIffNothingOwed(cfg: Config, p: Place, sync: seq<How>, card: seq<How>)
    requires Progress(cfg, p, sync, card) && !p.Crashed?
    ensures Handled(sync, cfg.sync) <==> !Owes(cfg, p, Sync)
    ensures Handled(card, cfg.cards) <==> !Owes(cfg, p, Card)
  {
  }

  lemma {:induction false} PaidByItsPayer(cfg: Config, from: State, run: seq<Event>, to: State)
    requires cfg.lock && Inv(cfg, from) && Reaches(cfg, from, run, to)
    requires IsPaid(from) ==> from.payer.Some?
    ensures IsPaid(to) ==> to.payer.Some?
    decreases |run|
  {
    if run != [] {
      StepKeepsInv(cfg, from, run[0]);
      OrderSteps(cfg, from, run[0]);
      hide Next, Enabled, Inv;
      PaidByItsPayer(cfg, Next(cfg, from, run[0]), run[1..], to);
    }
  }

  /** This is the request that paid, and `heard` says whether its reply arrived. */
  predicate PaysWith(e: Event, s: State) {
    e.MarkPaid? && s.payer == Some(e.call) && !e.requestLost && s.heard == !e.replyLost
  }

  /** The request that paid is in the run, and `heard` says whether its reply was lost. */
  lemma {:induction false} HeardIsTheReply(cfg: Config, from: State, run: seq<Event>, to: State)
    requires cfg.lock && Inv(cfg, from) && Reaches(cfg, from, run, to)
    ensures (to.payer == from.payer && to.heard == from.heard) || exists i :: 0 <= i < |run| && PaysWith(run[i], to)
    decreases |run|
  {
    if run != [] {
      var next := Next(cfg, from, run[0]);
      StepKeepsInv(cfg, from, run[0]);
      assert (next.payer == from.payer && next.heard == from.heard) || PaysWith(run[0], next);
      hide Next, Enabled, Inv;
      HeardIsTheReply(cfg, next, run[1..], to);
      if !(to.payer == next.payer && to.heard == next.heard) {
        var i :| 0 <= i < |run[1..]| && PaysWith(run[1..][i], to);
        assert run[i + 1] == run[1..][i];
      } else if PaysWith(run[0], next) {
        assert PaysWith(run[0], to);
      }
    }
  }

  /** Every run with the lock that ends with the order paid and nobody inside: both kinds
      of post-pay work are handled exactly if the reply to the paying request arrived and the
      payer, if it crashed, owed nothing any more where it did. */
  lemma {:induction false} PaidIsHandledIff(cfg: Config, order: Option<Order>, run: seq<Event>, to: State)
    requires cfg.lock && !IsPaid(Start(order)) && Reaches(cfg, Start(order), run, to)
    requires IsPaid(to) && Quiet(to)
    ensures to.payer.Some?
    ensures var c := to.payer.value;
            var at := Stopped(PlaceOf(to, c));
            AllHandled(cfg, to, c) <==>
            ((to.heard || !(cfg.sync || cfg.cards))
             && (PlaceOf(to, c).Crashed? ==> !Owes(cfg, at, Sync) && !Owes(cfg, at, Card)))
  {
    StartHoldsInv(cfg, order);
    RunKeepsInv(cfg, Start(order), run, to);
    PaidByItsPayer(cfg, Start(order), run, to);
    var c := to.payer.value;
    assert CallInv(cfg, to, c) && !InSection(PlaceOf(to, c));
    HandledIffNothingOwed(cfg, Stopped(PlaceOf(to, c)), Hows(to.log, c, Sync), Hows(to.log, c, Card));
    hide Hows, Reaches;
  }

  /** Without crashes it is the reply alone that decides. */
  lemma {:induction false} PaidIsHandledIffHeard(cfg: Config, order: Option<Order>, run: seq<Event>, to: State)
    requires cfg.lock && (cfg.sync || cfg.cards) && !IsPaid(Start(order)) && Reaches(cfg, Start(order), run, to)
    requires IsPaid(to) && Quiet(to) && forall i :: 0 <= i < |run| ==> !run[i].Crash?
    ensures to.payer.Some?
    ensures AllHandled(cfg, to, to.payer.value) <==> to.heard
  {
    PaidIsHandledIff(cfg, order, run, to);
    NobodyCrashes(cfg, Start(order), run, to, to.payer.value);
  }

  lemma {:induction false} NobodyCrashes(cfg: Config, from: State, run: seq<Event>, to: State, c: Call)
    requires Reaches(cfg, from, run, to) && !PlaceOf(from, c).Crashed?
    requires forall i :: 0 <= i < |run| ==> !run[i].Crash?
    ensures !PlaceOf(to, c).Crashed?
    decreases |run|
  {
    if run != [] {
      NobodyCrashes(cfg, Next(cfg, from, run[0]), run[1..], to, c);
    }
  }

  // ---------------------------------------------------------------------------
  // The callback itself
  // ---------------------------------------------------------------------------

  /** What lock, order service and queue answer during one notification. */
  datatype Env = Env(
    lockReplyLost: bool, getFails: bool, circuitOpen: bool, paidAt: int,
    requestLost: bool, replyLost: bool, syncOk: bool, cardOk: bool)

  datatype Outcome = Ok | InvalidRequest | Unavailable | MarkFailed

  predicate TriesToPay(run: seq<Event>) {
    exists i :: 0 <= i < |run| && run[i].MarkPaid?
  }

  predicate Reads(run: seq<Event>) {
    exists i :: 0 <= i < |run| && run[i].GetOrder?
  }

  predicate ReadFails(run: seq<Event>) {
    exists i :: 0 <= i < |run| && run[i].GetOrder? && run[i].fails
  }

  lemma OneMoreEvent(run: seq<Event>, e: Event)
    ensures TriesToPay(run + [e]) <==> TriesToPay(run) || e.MarkPaid?
    ensures Reads(run + [e]) <==> Reads(run) || e.GetOrder?
    ensures ReadFails(run + [e]) <==> ReadFails(run) || (e.GetOrder? && e.fails)
  {
    assert (run + [e])[|run|] == e;
    assert forall i :: 0 <= i < |run| ==> (run + [e])[i] == run[i];
  }

  /** The post-pay work of a call, as queue and configuration decide: each kind is queued, and
      what could not be queued is done inline where there is a service for it. */
  function WorkOf(c: Call, cfg: Config, syncOk: bool, cardOk: bool): seq<Effect> {
    (if cfg.queue && syncOk then [Effect(c, Sync, Queued)] else [])
    + (if cfg.queue && cardOk then [Effect(c, Card, Queued)] else [])
    + (if !(cfg.queue && syncOk) && cfg.sync then [Effect(c, Sync, Inline)] else [])
    + (if !(cfg.queue && cardOk) && cfg.cards then [Effect(c, Card, Inline)] else [])
  }

  predicate IsPending(s: State) {
    s.order.Some? && s.order.value.status == "PENDING_PAY"
  }

  class App {
    const cfg: Config
    var state: State

    constructor (cfg: Config, order: Option<Order>)
      ensures this.cfg == cfg && state == Start(order)
    {
      this.cfg := cfg;
      this.state := Start(order);
    }

    method Act(e: Event, ghost from: State, ghost before: seq<Event>) returns (ghost run: seq<Event>)
      requires Enabled(cfg, state, e) && Reaches(cfg, from, before, state)
      modifies this
      ensures state == Next(cfg, old(state), e)
      ensures run == before + [e] && Reaches(cfg, from, run, state)
      ensures TriesToPay(run) <==> TriesToPay(before) || e.MarkPaid?
      ensures Reads(run) <==> Reads(before) || e.GetOrder?
      ensures ReadFails(run) <==> ReadFails(before) || (e.GetOrder? && e.fails)
    {
      OneMoreEvent(before, e);
      state := Next(cfg, state, e);
      run := before + [e];
      OneStep(cfg, old(state), e, state, [], state);
      assert [e] + [] == [e];
      RunsCompose(cfg, from, before, old(state), [e], state);
    }

    /** One notification, start to end, is a run of the protocol by that call alone: the
        lock is released on every path that took it, and the call ends outside.

        The answer: a request to mark the order paid is acknowledged exactly if it was heard to
        succeed, and reported as failed otherwise, even where it was carried out and only the
        reply was lost. Without such a request the provider is told to come back only by an open
        circuit; it gets an acknowledgement where the lock is taken, where reading the order
        fails in any other way, and where the order is not pending. */
    method Notify(c: Call, env: Env) returns (outcome: Outcome, ghost run: seq<Event>)
      requires PlaceOf(state, c).Idle?
      modifies this
      ensures Reaches(cfg, old(state), run, state)
      ensures forall i :: 0 <= i < |run| ==> Actor(run[i]) == Some(c)
      ensures c.txn == "" <==> outcome == InvalidRequest
      ensures c.txn == "" ==> run == []
      ensures c.txn != "" ==> PlaceOf(state, c).Completed? || PlaceOf(state, c).Returned?
      ensures state.lock ==
        if c.txn == "" || !cfg.lock || old(state.lock).Some? then old(state.lock)
        else if env.lockReplyLost then Some(c) else None
      ensures Reads(run) <==> c.txn != "" && (!cfg.lock || (old(state.lock).None? && !env.lockReplyLost))
      ensures ReadFails(run) <==> Reads(run) && env.getFails
      ensures TriesToPay(run) <==> Reads(run) && !ReadFails(run) && IsPending(old(state))
      ensures TriesToPay(run) ==>
        && outcome == (if PlaceOf(state, c).Completed? then Ok else MarkFailed)
        && (outcome == Ok <==> !env.requestLost && !env.replyLost)
        && (if env.requestLost then state.order == old(state.order) else PaidBy(state, c))
      ensures !TriesToPay(run) ==> state.order == old(state.order) && outcome != MarkFailed
      ensures state.log == old(state.log) +
        if PlaceOf(state, c).Completed? then WorkOf(c, cfg, env.syncOk, env.cardOk) else []
      ensures outcome == Unavailable <==> ReadFails(run) && env.circuitOpen
      ensures outcome == Ok && !TriesToPay(run) <==>
        c.txn != "" && (!Reads(run) || (if ReadFails(run) then !env.circuitOpen else !IsPending(old(state))))
    {
      hide TransitPaid, TransitClosed, Hows;
      ghost var from := state;
      run := [];
      assert Reaches(cfg, from, run, state);
      hide Reaches, Do;
      if c.txn == "" {
        return InvalidRequest, run;
      }
      run := Act(TryLock(c, env.lockReplyLost), from, run);
      if state.places[c].Returned? {
        return Ok, run;
      }
      outcome, run := PayOnce(c, env, from, run);
    }

    /** Inside the lock: the order is paid if it is still pending. */
    method PayOnce(c: Call, env: Env, ghost from: State, ghost before: seq<Event>)
      returns (outcome: Outcome, ghost run: seq<Event>)
      requires PlaceOf(state, c).Locked? && Reaches(cfg, from, before, state)
      requires forall i :: 0 <= i < |before| ==> Actor(before[i]) == Some(c)
      requires !TriesToPay(before) && !Reads(before) && !ReadFails(before)
      modifies this
      ensures Reaches(cfg, from, run, state)
      ensures forall i :: 0 <= i < |run| ==> Actor(run[i]) == Some(c)
      ensures outcome != InvalidRequest
      ensures PlaceOf(state, c).Completed? || PlaceOf(state, c).Returned?
      ensures state.lock == if cfg.lock then None else old(state.lock)
      ensures Reads(run) && (ReadFails(run) <==> env.getFails)
      ensures TriesToPay(run) <==> !env.getFails && IsPending(old(state))
      ensures TriesToPay(run) ==>
        && outcome == (if PlaceOf(state, c).Completed? then Ok else MarkFailed)
        && (outcome == Ok <==> !env.requestLost && !env.replyLost)
        && (if env.requestLost then state.order == old(state.order) else PaidBy(state, c))
      ensures state.log == old(state.log) +
        if PlaceOf(state, c).Completed? then WorkOf(c, cfg, env.syncOk, env.cardOk) else []
      ensures !TriesToPay(run) ==> state.order == old(state.order)
      ensures !TriesToPay(run) ==> outcome == if env.getFails && env.circuitOpen then Unavailable else Ok
    {
      hide TransitClosed, Hows, Reaches, TriesToPay, Reads, ReadFails;
      assert PAID in ALLOWED[PENDING];
      run := Act(GetOrder(c, env.getFails), from, before);
      if state.places[c].Leaving? {
        run := Act(Unlock(c), from, run);
        return if env.getFails && env.circuitOpen then Unavailable else Ok, run;
      }
      run := Act(MarkPaid(c, env.paidAt, env.requestLost, env.replyLost), from, run);
      if state.places[c].Leaving? {
        run := Act(Unlock(c), from, run);
        return MarkFailed, run;
      }
      run := Dispatch(c, env, from, run);
      return Ok, run;
    }

    /** Offers both kinds of work to the queue, if there is one. */
    method PublishPostPayTasks(c: Call, env: Env, ghost from: State, ghost before: seq<Event>)
      returns (ghost run: seq<Event>)
      requires PlaceOf(state, c).MarkedPaid? && Reaches(cfg, from, before, state)
      requires forall i :: 0 <= i < |before| ==> Actor(before[i]) == Some(c)
      modifies this
      ensures Reaches(cfg, from, run, state) && state.order == old(state.order) && state.lock == old(state.lock)
      ensures forall i :: 0 <= i < |run| ==> Actor(run[i]) == Some(c)
      ensures PlaceOf(state, c) == BothTried(cfg.queue && env.syncOk, cfg.queue && env.cardOk)
      ensures state.log == old(state.log)
        + (if cfg.queue && env.syncOk then [Effect(c, Sync, Queued)] else [])
        + if cfg.queue && env.cardOk then [Effect(c, Card, Queued)] else []
      ensures (TriesToPay(run) <==> TriesToPay(before)) && (Reads(run) <==> Reads(before))
      ensures ReadFails(run) <==> ReadFails(before)
    {
      hide TriesToPay, Reads, ReadFails, Reaches, TransitPaid, TransitClosed, Hows;
      if cfg.queue {
        run := Act(PublishSync(c, env.syncOk), from, before);
        run := Act(PublishCard(c, env.cardOk), from, run);
      } else {
        run := Act(NoQueue(c), from, before);
      }
    }

    /** After the order is marked paid: queue what can be queued, do the rest inline. */
    method Dispatch(c: Call, env: Env, ghost from: State, ghost before: seq<Event>) returns (ghost run: seq<Event>)
      requires PlaceOf(state, c).MarkedPaid? && Reaches(cfg, from, before, state)
      requires forall i :: 0 <= i < |before| ==> Actor(before[i]) == Some(c)
      modifies this
      ensures Reaches(cfg, from, run, state)
      ensures forall i :: 0 <= i < |run| ==> Actor(run[i]) == Some(c)
      ensures PlaceOf(state, c).Completed? && state.order == old(state.order)
      ensures state.lock == if cfg.lock then None else old(state.lock)
      ensures state.log == old(state.log) + WorkOf(c, cfg, env.syncOk, env.cardOk)
      ensures (TriesToPay(run) <==> TriesToPay(before)) && (Reads(run) <==> Reads(before))
      ensures ReadFails(run) <==> ReadFails(before)
    {
      hide TriesToPay, Reads, ReadFails, Reaches, TransitPaid, TransitClosed, Hows;
      run := PublishPostPayTasks(c, env, from, before);
      run := Act(SettleSync(c), from, run);
      run := Act(SettleCard(c), from, run);
      run := Act(Unlock(c), from, run);
    }
  }
}
