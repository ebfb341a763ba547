# Guarantees of the flash-sale system

A flash sale sends a burst of requests through a rate-limited gateway into a bounded worker
pool, over a queue to a processor, and on to stock, orders and payment. This project models
the parts of that system that carry guarantees, as Dafny functions, state machines and
classes, and proves the guarantees over all inputs, all runs and all interleavings.

| file | what it models |
|---|---|
| TokenBucket.dfy, LimiterStore.dfy | the in-process token bucket, the map of limiters, the sharded variant, and which limit a route has |
| LuaBucket.dfy | the Redis script for user limits, with key expiry, and its equivalence with the in-process bucket |
| SlidingWindow.dfy | the Redis sliding window as a protocol of two pipelines per call |
| OrderStore.dfy | the order state machine and the sorted listings |
| PaymentCallback.dfy | concurrent payment notifications for one order, with losses and crashes |
| KeyStrings.dfy, StockStore.dfy | stock, per-user purchase counters, and cleanup by key strings |
| WorkerPool.dfy | the bounded queue, its workers, and shutdown |
| Idempotency.dfy, Processor.dfy | the processor's claim on a trace, the use case that makes it, and the handlers that report results |
| TraceProtocol.dfy | the writers of the result a client polls for, with the claims among them, and how it is read |
| Breaker.dfy | the per-route circuit breaker |
| Risk.dfy | risk marks, records and the verdict |
| ConfigMerge.dfy, ConfigHeap.dfy | merging configuration, on values and on shared map objects |
| Prelude.dfy | optional values, minimum, counting |

Each module follows one plan. A datatype and a step function say what one operation does,
with the branches, error results and constants of the code. A class repeats the code's
in-place form, and its methods are proved to follow the step function. Lemmas then speak
about whole runs. Concurrent parts are state machines whose steps are the atomic operations
of the code; a run is any sequence of enabled steps. Reading a clock, the answers of remote
services, and whether a request or its reply is lost are parameters of the steps.

Assumptions that all modules share: times are integers, and float64 and Lua numbers are exact
reals; a method that holds a mutex is one atomic step; a Redis command, script or pipeline is
one atomic step; a Redis key is gone once the clock is past its deadline, and setting an
expiry of zero deletes it.

## Where the code differs from its comments

The model follows the code. The members named below prove what is said.

- A non-positive limit is normalised when a limiter is made but not when it is compared, so
  such a limit never refuses anybody (`NonPositiveLimitNeverRefuses`). `routeLimit`
  never passes one (`RouteLimit`); the guard in `limitUser` is not part of this model.
- The Lua bucket follows a clock that steps back, the in-process one does not
  (`AnyClockIsOnwardTime`, `SteppingBackAlwaysShows`).
- The comment on `TryAcquireAndSetProcessing` calls marking a refused request equivalent to
  not marking it. A client that polls such a trace is told to go on until the mark expires
  (`RefusedIsPolledForever`), where an unmarked trace is an error.
- `Start` of the worker pool says that it blocks until all events are processed. Any pool
  that can process events may return with one in a worker's hands (`ReturnsSettledIff`).
- Most failure reasons that the gateway writes are not among the known reasons, and are shown
  as successes with the reason for an order number (`GatewayReasonsReadAsSuccess`,
  `WorkerVerdictIsPolled`, `HandlerWordIsPolled`).
- The comment on `ApplyGatewaySegment` says that a deleted segment falls back to the values of
  the file. The copies are two levels deep; a deeper map of an earlier segment has been written
  into base and stays (`EveryDeletionFallsBackIff`, `DeletionFallsBackIff`).
- The idempotency key has no owner, so a late release can free somebody else's claim
  (`LateReleaseFreesAnothersClaim`); claims have to outlive the work (`AlwaysOneEachIff`).
- The processor reports results to its own key on a best-effort basis. A lost report lets the
  message be processed again a minute after it was claimed, and the result that a client has been
  told be replaced
  (`LostMarkReplacesResult`, `RedeliverySubmitsIff`).
- A message that is redelivered within a minute of a claim whose holder died is acknowledged
  without ever being processed (`MessageLostIff`, `NeverLosesIff`).
- Events drained at shutdown are processed with the cancelled context; where collaborators honour
  it, all of them fail (`NothingPublishedAfterCancel`).
- An observation that arrives late can end the breaker's half-open phase, unless requests are
  shorter than the timeout (`AlwaysRightIff`).
- A payment whose acknowledgement was lost never gets its post-pay work
  (`LostReplyLeavesWorkUndone`, `PaidIsHandledIff`).

## Model

| member | source | states |
|---|---|---|
| TokenBucket.RunStaysInBounds | services/seckill-gateway/internal/server/rate_limit.go:345-362 | Throughout every run of calls, whatever the clock does, the bucket holds between 0 and its capacity. |
| TokenBucket.LastIsLatestReading | services/seckill-gateway/internal/server/rate_limit.go:349-356 | The bucket time is the latest reading ever seen; a clock that steps back never moves it back. |
| TokenBucket.AdmissionsBounded | services/seckill-gateway/internal/server/rate_limit.go:314-362 | In any run, under a clock that may step back, calls i..j-1 are admitted at most limit + (last_j - last_i)*limit/interval times. |
| TokenBucket.AdmissionsBoundedByClock | services/seckill-gateway/internal/server/rate_limit.go:314-362 | The same bound in clock readings when the clock does not step back. |
| TokenBucket.AdmissionsSpendTokens | services/seckill-gateway/internal/server/rate_limit.go:345-362 | Admissions plus the tokens left never exceed the tokens there were plus what time added. |
| TokenBucket.TokensAccountedFor | services/seckill-gateway/internal/server/rate_limit.go:345-362 | Tokens left plus admissions since any moment w are at least what an empty bucket would have gained since w, up to the capacity. |
| TokenBucket.RefusedOnlyWithCause | services/seckill-gateway/internal/server/rate_limit.go:314-362 | A refusal, in any run since construction, means at least `limit` calls were admitted during the interval before it. |
| TokenBucket.RefusalMeansBusyInterval | services/seckill-gateway/internal/server/rate_limit.go:314-362 | The same in clock readings, for a clock that does not step back: at least `limit` admissions in (now - interval, now]. |
| TokenBucket.FreshAllowance | services/seckill-gateway/internal/server/rate_limit.go:314-334 | In the caller's own numbers, one call and one second where none are given: a new limiter holds the limit, gains it again in one interval, and in proportion in any time. |
| TokenBucket.RateLimiter.constructor | services/seckill-gateway/internal/server/rate_limit.go:314-334 | A new limiter is full; a non-positive limit becomes 1 and a non-positive interval one second. |
| TokenBucket.RateLimiter.Allow | services/seckill-gateway/internal/server/rate_limit.go:345-362 | Updates tokens and time in place exactly as the specification bucket does, and gives its answer. |
| LimiterStore.RouteLimit | services/seckill-gateway/internal/server/rate_limit.go:139-158 | The first rule for the route decides, one without positive count lifts the limit even where a general limit exists. The general limit is per second: a limiter made for it holds and gains that many tokens in 1,000,000,000 nanoseconds. |
| LimiterStore.LocalRateLimitStore.Allow | services/seckill-gateway/internal/server/rate_limit.go:214-223 | One admission decision on the map of limiters: the stored limiter if its settings agree, a new one otherwise; no other key is affected. |
| LimiterStore.KeysAreIndependent | services/seckill-gateway/internal/server/rate_limit.go:214-223 | Requests on other keys can be dropped from any run without changing any answer to this key. |
| LimiterStore.OneLimiterPerKey | services/seckill-gateway/internal/server/rate_limit.go:214-223 | A key never seen, or last used with other settings, asked with one positive limit and one interval gets the answers of a single limiter born at its first request. |
| LimiterStore.KeyAdmissionsBounded | services/seckill-gateway/internal/server/rate_limit.go:214-223 | The admission bound of the bucket, per key, through the store and among requests on any other keys. |
| LimiterStore.KeyRefusalMeansBusyInterval | services/seckill-gateway/internal/server/rate_limit.go:214-223 | Refusal with cause, per key: under a clock that does not step back a refused request follows at least `limit` admissions for that key within the interval before it. |
| LimiterStore.NonPositiveLimitNeverRefuses | services/seckill-gateway/internal/server/rate_limit.go:214-223 | Because the comparison does not normalise the limit, a non-positive limit gets a fresh full limiter every time and never refuses. |
| LimiterStore.ShardedRateLimitStore.Allow | services/seckill-gateway/internal/server/rate_limit_sharded.go:37-54 | For any hash function: the same answers and the same contents as the single-map store; shard i holds exactly the keys that hash to i. |
| LimiterStore.ShardsAnswerAlone | services/seckill-gateway/internal/server/rate_limit_sharded.go:37-54 | For any hash function and any run, the answers to the keys of one shard are those the shard gives on its own, seeing no other request. |
| LuaBucket.ExpiryUnobservable | services/seckill-gateway/internal/infrastructure/entrystore/redis.go:18-43 | From any state, under a clock that does not step back, key expiry changes no answer if a key outlives its interval. |
| LuaBucket.ExpiryUnobservableIff | services/seckill-gateway/internal/infrastructure/entrystore/redis.go:18-43 | Key expiry is unobservable exactly when a key outlives its interval. |
| LuaBucket.BothBurstsAdmitted | services/seckill-gateway/internal/infrastructure/entrystore/redis.go:18-43 | Emptying the bucket, waiting until the key is gone and emptying it again is admitted in full. |
| LuaBucket.LastingRefusesSecondBurst | services/seckill-gateway/internal/infrastructure/entrystore/redis.go:18-43 | Without expiry the same two bursts are not both admitted in full if the key lives shorter than the interval. |
| LuaBucket.RedisBucketIsLocalBucket | services/seckill-gateway/internal/infrastructure/entrystore/redis.go:18-43 | Under a clock that does not step back, and if a key outlives its interval, the script with expiry answers every sequence of calls as the in-process limiter born at the first call does. |
| LuaBucket.SameRun | services/seckill-gateway/internal/server/rate_limit.go:345-362 | The script without expiry and the in-process limiter stay in step from any matching states. |
| LuaBucket.AnyClockIsOnwardTime | services/seckill-gateway/internal/infrastructure/entrystore/redis.go:30-40 | On any clock, stepping back or not, the script on a key that does not expire answers as the in-process bucket does on the time that went forward. |
| LuaBucket.SteppingBackAlwaysShows | services/seckill-gateway/internal/infrastructure/entrystore/redis.go:30-40 | For all settings there is a clock that steps back once on which the script, with key expiry and without, answers differently from the in-process limiter. |
| LuaBucket.SteppingBackTellsThemApart | services/seckill-gateway/internal/infrastructure/entrystore/redis.go:30-40 | A small instance of such a clock, with key expiry. |
| LuaBucket.RedisStore.TryAcquire | services/seckill-gateway/internal/infrastructure/entrystore/redis.go:61-85 | Users or rates that are not positive pass untouched; otherwise the answer and the hashes of all users are those of one call as specified, about whose runs the next four members speak. |
| LuaBucket.RedisStore.TryAcquireAndSetProcessing | services/seckill-gateway/internal/infrastructure/entrystore/redis.go:95-130 | As TryAcquire, and the result key is set to PROCESSING whether or not the caller is admitted. |
| LuaBucket.UsersAreIndependent | services/seckill-gateway/internal/infrastructure/entrystore/redis.go:61-85 | Among the calls of any users, the answers to one user with fixed settings are those of the script on that user's hash alone. |
| LuaBucket.UserIsLimitedLocally | services/seckill-gateway/internal/infrastructure/entrystore/redis.go:61-85 | In the caller's own settings, ten seconds and five minutes where none are given: under a clock that does not step back and with a lifetime no shorter than the interval, a new user gets exactly the answers of an in-process limiter with that rate and interval, whatever other users do. |
| LuaBucket.AlwaysAsLocalIff | services/seckill-gateway/internal/infrastructure/entrystore/redis.go:61-85 | For which lifetimes and intervals that is so: exactly where the lifetime in whole milliseconds is positive and falls short of the interval by at most one millisecond. |
| LuaBucket.TinyIntervalNeverRefuses | services/seckill-gateway/internal/infrastructure/entrystore/redis.go:66-79 | A positive interval below a millisecond is sent as zero, and then nobody is refused. |
| SlidingWindow.AnswerIsByHistory | services/seckill-gateway/internal/server/rate_limit.go:269-286 | The trimmed, expiring count decides as the full history of recorded admissions would, for any expiry no shorter than the window. |
| SlidingWindow.SettingsAreValid | services/seckill-gateway/internal/server/rate_limit.go:262-292 | The window in whole milliseconds and the expiry in whole seconds, as the store computes them, always meet that need with more than four seconds to spare; the window is empty exactly for a positive interval below a millisecond. |
| SlidingWindow.EmptyWindowAdmits | services/seckill-gateway/internal/server/rate_limit.go:269-286 | A limiter with an empty window refuses nobody. |
| SlidingWindow.RunKeepsConsistent | services/seckill-gateway/internal/server/rate_limit.go:258-299 | In every interleaving of first and second pipelines the sorted set holds every recorded admission of the current window and nothing that was not recorded. |
| SlidingWindow.NewAdmissionFits | services/seckill-gateway/internal/server/rate_limit.go:274-286 | Around a call admitted now, any window ending now or later holds at most limit-1 others not in flight plus those in flight. |
| SlidingWindow.WindowBound | services/seckill-gateway/internal/server/rate_limit.go:258-299 | With at most c callers between the two pipelines, no window of one interval ever holds more than limit + c - 1 recorded admissions. |
| SlidingWindow.WindowBoundAttained | services/seckill-gateway/internal/server/rate_limit.go:258-299 | For every limit and every c some run reaches exactly limit + c - 1, so the bound is tight. |
| SlidingWindow.AdmittedExactlyIf | services/seckill-gateway/internal/server/rate_limit.go:269-286 | In every run a call is let through exactly if fewer than `limit` admissions are recorded in the interval that ends with it. |
| SlidingWindow.IntervalBound | services/seckill-gateway/internal/server/rate_limit.go:258-299 | Both statements in the caller's nanoseconds, for whole milliseconds, and with one second where no interval is given. |
| SlidingWindow.RedisRateLimitStore.Begin | services/seckill-gateway/internal/server/rate_limit.go:258-286 | Up to the first pipeline: fail-open without touching Redis for a non-positive limit or an error, otherwise trim, count and refuse at the limit; the interval is defaulted and then cut to milliseconds. |
| SlidingWindow.RedisRateLimitStore.Complete | services/seckill-gateway/internal/server/rate_limit.go:288-298 | The second pipeline records the earlier reading and renews the expiry of that key only, in whole seconds; an error still admits. |
| OrderStore.TerminalForever | services/order-service/internal/infrastructure/persistence/memory.go:148-184 | A paid or closed record never changes again, whatever is called. |
| OrderStore.FirstDecisionWins | services/order-service/internal/infrastructure/persistence/memory.go:148-184 | In every run a pending order ends as its first payment or closing left it: transaction number and timestamps are those of that call. |
| OrderStore.RunKeepsWellFormed | services/order-service/internal/domain/status/order.go:48-81 | In every run a pending order has no timestamp and a terminal one exactly the one of its outcome. |
| OrderStore.PaymentAcknowledgedIff | services/order-service/internal/infrastructure/persistence/memory.go:148-165 | A payment is acknowledged exactly when the order is paid afterwards; a later transaction number is acknowledged and dropped. |
| OrderStore.ClosingAcknowledgedIff | services/order-service/internal/infrastructure/persistence/memory.go:168-184 | A closing is acknowledged exactly when the order is closed afterwards; a paid one refuses it. |
| OrderStore.FirstCreationWins | services/order-service/internal/infrastructure/persistence/memory.go:29-38 | The first creation under a number is filed, and every later one, after any run, is refused and changes nothing. |
| OrderStore.BeforeIsStrictOrder | services/order-service/internal/infrastructure/persistence/memory.go:187-194 | Newest first, then greater number first, is a strict total order on distinct order numbers. |
| OrderStore.ListingIsNewestFirst | services/order-service/internal/infrastructure/persistence/memory.go:187-194 | Along a listing creation times never increase, and where they are equal order numbers decrease; it holds exactly the orders of the activity or user asked for. |
| OrderStore.LessIsPrecedes | services/order-service/internal/infrastructure/persistence/memory.go:187-194 | The recursive comparison of order numbers is the order by the first character that differs. |
| OrderStore.ListingIsUnique | services/order-service/internal/infrastructure/persistence/memory.go:77-91 | Store and filter determine the listing: no map iteration order shows in it. |
| OrderStore.SortByCreateTimeDesc | services/order-service/internal/infrastructure/persistence/memory.go:187-194 | Returns the same orders, each once, in listing order. |
| OrderStore.MemoryStore.CreateOrder | services/order-service/internal/infrastructure/persistence/memory.go:29-38 | Files a new order, refuses a number that exists. |
| OrderStore.MemoryStore.MarkOrderPaid | services/order-service/internal/infrastructure/persistence/memory.go:148-165 | Applies the payment transition to the named order only, with not-found and invalid-state errors. |
| OrderStore.MemoryStore.CloseOrder | services/order-service/internal/infrastructure/persistence/memory.go:168-184 | Applies the closing transition to the named order only, with not-found and invalid-state errors. |
| OrderStore.MemoryStore.List | services/order-service/internal/infrastructure/persistence/memory.go:77-91 | The listing of one activity or one user: exactly the matching orders, newest first. |
| OrderStore.MemoryStore.ListOrdersByActivities | services/order-service/internal/infrastructure/persistence/memory.go:94-126 | Groups for exactly the requested non-empty activities, each equal to the listing of that activity alone. |
| PaymentCallback.RunKeepsInv | services/support-service/internal/application/payment.go:165-247 | With the lock, in every interleaving of notifications, losses, crashes and closings, each notification has done exactly the post-pay work its position implies. |
| PaymentCallback.MutualExclusion | services/support-service/internal/application/payment.go:172-179 | With the lock, no two notifications are inside the guarded section. |
| PaymentCallback.DispatchedOnlyByThePayer | services/support-service/internal/application/payment.go:180-206 | All post-pay work is dispatched by one call, and the order is stored as paid with that call's transaction number. |
| PaymentCallback.CompletedMeansHandled | services/support-service/internal/application/payment.go:194-247 | A completed call has sent sync and card each to the queue or inline, never both, and neither only where no service is configured; no call ever does one twice. |
| PaymentCallback.OneDispatcherIff | services/support-service/internal/application/payment.go:172-206 | One dispatcher is guaranteed in all interleavings exactly when the callback lock is configured or there is nothing to dispatch to. |
| PaymentCallback.WithoutLockBothDispatch | services/support-service/internal/application/payment.go:172-206 | Without the lock a run in which two notifications of one order both dispatch. |
| PaymentCallback.PaidOrderNeverDispatchesAgain | services/support-service/internal/application/payment.go:187-193 | Once the order is paid and nobody is dispatching, nothing is ever dispatched again: the work is done at most once, not at least once. |
| PaymentCallback.LostReplyLeavesWorkUndone | services/support-service/internal/application/payment.go:190-193 | A run that ends with the order paid, everybody done, the lock free and no post-pay work dispatched: the reply to the payment was lost. |
| PaymentCallback.PaidIsHandledIff | services/support-service/internal/application/payment.go:165-247 | Every run with the lock that ends with the order paid and nobody inside: both kinds of work are handled exactly if the reply to the paying request arrived and the payer, if it crashed, owed nothing where it did. |
| PaymentCallback.PaidIsHandledIffHeard | services/support-service/internal/application/payment.go:190-206 | In runs without crashes the arrival of that reply alone decides. |
| PaymentCallback.HeardIsTheReply | services/support-service/internal/application/payment.go:190-193 | The paying request is one of the run, and the history variable says whether its reply arrived. |
| PaymentCallback.App.Notify | services/support-service/internal/application/payment.go:165-207 | One notification is a run of the protocol by that call alone that leaves the lock on every path. A request to mark the order paid is acknowledged exactly if it was heard to succeed; without one, only an open circuit is reported as unavailable, and a taken lock, another read error or an order that is not pending are acknowledged. Exactly a completed notification does post-pay work, of each kind queued or inline. |
| PaymentCallback.App.PayOnce | services/support-service/internal/application/payment.go:180-207 | Inside the lock: pays only a pending order, leaves the lock on every path, answers as stated for the notification, and completes only after dispatching. |
| PaymentCallback.App.PublishPostPayTasks | services/support-service/internal/application/payment.go:232-247 | Each kind of work is queued exactly if there is a queue and it takes it; one refusal does not keep the other from being offered. |
| PaymentCallback.App.Dispatch | services/support-service/internal/application/payment.go:194-206 | After payment: what the queue took is queued, the rest is done inline where there is a service for it, in the order of the code. |
| KeyStrings.SkuKeyInjective | services/activity-service/internal/infrastructure/persistence/memory.go:378-380 | Stock keys of colon-free activities determine activity and product. |
| KeyStrings.UserPurchaseKeyInjective | services/activity-service/internal/infrastructure/persistence/memory.go:383-385 | Purchase keys of colon-free activities determine user, activity and product. |
| KeyStrings.DecimalInjective | services/activity-service/internal/infrastructure/persistence/memory.go:383-385 | The printed user number determines the user. |
| KeyStrings.PrefixMatchesActivity | services/activity-service/internal/infrastructure/persistence/memory.go:277-299 | The prefix test matches exactly the stock keys of the given activity. |
| KeyStrings.SubstringMatchesActivity | services/activity-service/internal/infrastructure/persistence/memory.go:302-314 | The substring test matches exactly the purchase keys of the given activity. |
| KeyStrings.SkuKeysCollideIff | services/activity-service/internal/infrastructure/persistence/memory.go:378-380 | Two activities have products with one stock key exactly if one number is the other, or the other continued after a colon. |
| KeyStrings.UserPurchaseKeysCollideIff | services/activity-service/internal/infrastructure/persistence/memory.go:383-385 | Purchase keys collide exactly for one user and where stock keys do. |
| KeyStrings.PrefixMatchesIff | services/activity-service/internal/infrastructure/persistence/memory.go:288-296 | Which stock keys the prefix test matches, for any identifiers. |
| KeyStrings.PrefixReachesIff | services/activity-service/internal/infrastructure/persistence/memory.go:288-296 | Some product of an activity is cleaned up with another activity exactly if one number is the other, or the other continued after a colon. |
| KeyStrings.SubstringMatchesIff | services/activity-service/internal/infrastructure/persistence/memory.go:302-314 | Which purchase keys the substring test matches, for any identifiers: it looks only behind the user, and for products without a colon only at the activity number between colons. |
| KeyStrings.ColonsConfuseActivities | services/activity-service/internal/infrastructure/persistence/memory.go:277-314 | The smallest instances of such a collision and of both tests matching another activity. |
| StockStore.StockConserved | services/activity-service/internal/infrastructure/persistence/memory.go:71-89 | In every run of adds, deductions and releases, stock is the first initial value minus units granted plus units released. |
| StockStore.StockNeverNegative | services/activity-service/internal/infrastructure/persistence/memory.go:240-260 | With positive quantities stock is never negative. |
| StockStore.AddingAgainChangesNothing | services/activity-service/internal/infrastructure/persistence/memory.go:71-89 | Adding a product again, anywhere in a run, leaves all stock and counters as they would be without it. |
| StockStore.CounterIsOutstanding | services/activity-service/internal/infrastructure/persistence/memory.go:240-274 | With a positive limit and releases that repay grants, a counter is its user's outstanding units and exists only while there are some. |
| StockStore.CounterWithinLimit | services/activity-service/internal/infrastructure/persistence/memory.go:240-260 | Under a fixed limit no user ever holds more than the limit. |
| StockStore.CounterAccounts | services/activity-service/internal/infrastructure/persistence/memory.go:240-274 | In every run, whatever limits and quantities: a counter is what its user holds, less units granted without a limit, plus units given back beyond the counter. |
| StockStore.CountersExactIff | services/activity-service/internal/infrastructure/persistence/memory.go:240-274 | Where releases give back what is held, counters stay the outstanding units throughout a run exactly if nothing was granted without a limit. |
| StockStore.HoldingsBounded | services/activity-service/internal/infrastructure/persistence/memory.go:240-274 | With deductions of one fixed limit and deductions without, a user holds at most the limit and what the counter lost sight of. |
| StockStore.CountersAddUp | services/activity-service/internal/infrastructure/persistence/memory.go:240-274 | The counters of all users for a product add up to the first initial value minus the stock. |
| StockStore.GrantedExactlyIf | services/activity-service/internal/infrastructure/persistence/memory.go:240-260 | After any run, a deduction is refused as not ready exactly for a product without an opening, and granted exactly if as many units are left and the user's counted units leave room under the limit, if there is one. |
| StockStore.GrantedByHoldings | services/activity-service/internal/infrastructure/persistence/memory.go:240-260 | Where all deductions had limits and releases repaid grants, the counted units are the user's holdings. |
| StockStore.FirstComeFirstServed | services/activity-service/internal/infrastructure/persistence/memory.go:240-260 | After any run, of different users who each ask for one unit within their limit, exactly the first as many are granted as units are left. |
| StockStore.SellsToTheLastUnit | services/activity-service/internal/infrastructure/persistence/memory.go:240-260 | A product opened with T units is sold out: of n users asking for one each, exactly the smaller of n and T get one. |
| StockStore.StepMovesSum | services/activity-service/internal/infrastructure/persistence/memory.go:240-274 | One deduction or release moves the sum of its product's counters by its quantity and no other product's. |
| StockStore.StockCleanupIsExact | services/activity-service/internal/infrastructure/persistence/memory.go:277-299 | For colon-free identifiers, cleaning up an activity's stock leaves exactly the entries of all other activities. |
| StockStore.PurchaseCleanupIsExact | services/activity-service/internal/infrastructure/persistence/memory.go:302-314 | The same for purchase counters. |
| StockStore.ListedMatches | services/activity-service/internal/infrastructure/persistence/memory.go:277-287 | With a list, an entry goes exactly if it is of a listed product of the activity. |
| StockStore.RunsStayPlain | services/activity-service/internal/infrastructure/persistence/memory.go:240-274 | Runs on colon-free identifiers only ever make such entries, so the cleanups are exact after every one of them. |
| StockStore.MemoryStore.AddActivity | services/activity-service/internal/infrastructure/persistence/memory.go:71-89 | Files the activity and adds each of its products in turn. |
| StockStore.MemoryStore.AddActivitySKU | services/activity-service/internal/infrastructure/persistence/memory.go:137-164 | Unknown activity: nothing changes; otherwise the product replaces its namesake or is appended, and stock is only added when absent. |
| StockStore.AddedIsFound | services/activity-service/internal/infrastructure/persistence/memory.go:137-164 | After adding a product, it is found under its number, every other product as before, and none is listed twice. |
| StockStore.FiledIsFound | services/activity-service/internal/infrastructure/persistence/memory.go:71-89 | After filing an activity, each product is found under its stock key, as the last one listed with that number and as belonging to the activity. |
| StockStore.FilingKeepsOthers | services/activity-service/internal/infrastructure/persistence/memory.go:71-89 | What is filed under other keys stays. |
| StockStore.MemoryStore.DeductStockWithLimit | services/activity-service/internal/infrastructure/persistence/memory.go:240-260 | The ledger step of a deduction: not-ready, over-limit and out-of-stock refusals change nothing. |
| StockStore.MemoryStore.ReleaseStock | services/activity-service/internal/infrastructure/persistence/memory.go:263-274 | The ledger step of a release: stock grows, the counter shrinks or disappears. |
| StockStore.MemoryStore.CleanupActivityStock | services/activity-service/internal/infrastructure/persistence/memory.go:277-299 | Deletes exactly the listed products or, without a list, everything under the prefix, and returns how many. |
| StockStore.MemoryStore.CleanupActivityPurchases | services/activity-service/internal/infrastructure/persistence/memory.go:302-314 | Deletes exactly the keys containing the activity between colons, and returns how many. |
| Breaker.FieldsMeanWhatTheySay | services/seckill-gateway/internal/server/degrade.go:189-246 | In every run `failures` is the failing suffix of the observations since the breaker last closed and stays below the threshold; the probe flag is set exactly in half-open. |
| Breaker.CleanRunsAreRight | services/seckill-gateway/internal/server/degrade.go:189-246 | With requests that have identities: if nothing admitted earlier is still out whenever half-open begins, then in every run half-open holds exactly while one probe has not reported. |
| Breaker.NextKeepsRightIff | services/seckill-gateway/internal/server/degrade.go:210-232 | In half-open, every next step keeps that so exactly if nothing but the probe is out. |
| Breaker.AlwaysRightIff | services/seckill-gateway/internal/server/degrade.go:189-246 | Where requests take at most `work` to report, half-open holds exactly while one probe is out, in all runs from a fresh breaker, exactly if `work` is less than the timeout. |
| Breaker.OneProbeBetweenObservations | services/seckill-gateway/internal/server/degrade.go:189-207 | While not closed, at most one call is let through between two observations. |
| Breaker.OpenRefusesUntilTimeout | services/seckill-gateway/internal/server/degrade.go:189-207 | An open breaker refuses every call until the timeout has passed. |
| Breaker.StaysClosedIff | services/seckill-gateway/internal/server/degrade.go:189-232 | From a breaker that has just closed, whatever is asked and reported: it stays closed exactly as long as there are no `threshold` failures in a row, and until then lets everyone through. |
| Breaker.OpensAtTheRow | services/seckill-gateway/internal/server/degrade.go:210-240 | It opens at the report that completes the first such row, at the time of that report. |
| Breaker.ProbeDecides | services/seckill-gateway/internal/server/degrade.go:189-246 | Recovery: the first ask after the timeout is let through and nobody after it until there is a report; a success then closes the breaker with a clean record, a failure opens it again at its own time. |
| Breaker.FailingRouteIsThrottled | services/seckill-gateway/internal/server/degrade.go:145-246 | With one request at a time and every request failing, at most threshold + duration/timeout requests get through. |
| Breaker.AttemptsStayPaced | services/seckill-gateway/internal/server/degrade.go:189-240 | Along every such run, each request beyond the threshold has cost a full timeout. |
| Breaker.LateObservationEndsHalfOpen | services/seckill-gateway/internal/server/degrade.go:210-232 | For all settings, a run from a fresh breaker in which a request admitted while closed reports during half-open and ends it, either way, while the probe is still out. |
| Breaker.RouteBreaker.AllowAt | services/seckill-gateway/internal/server/degrade.go:189-207 | Updates the breaker in place as the specification does. |
| Breaker.RouteBreaker.ObserveAt | services/seckill-gateway/internal/server/degrade.go:210-232 | Updates the breaker in place as the specification does. |
| Breaker.DegradeController.AllowRoute | services/seckill-gateway/internal/server/degrade.go:145-149 | Only the asked route's breaker moves; a route never seen is fresh. |
| Breaker.DegradeController.ObserveRoute | services/seckill-gateway/internal/server/degrade.go:152-156 | Only the observed route's breaker moves. |
| Risk.VerdictPersists | services/risk-service/internal/application/risk/evaluator.go:48-95 | After a threshold verdict at t every evaluation dated up to t + HighRiskWindow says risk, whatever calls come in between. |
| Risk.HighRiskVerdictPersists | services/risk-service/internal/application/risk/evaluator.go:60-70 | A high-risk verdict lasts until its record leaves HighRiskWindow, whatever calls come in between. |
| Risk.MarkLasts | services/risk-service/internal/application/risk/evaluator.go:50-56 | A blacklist verdict lasts until its mark expires if nobody marks the user for a shorter time. |
| Risk.SuspicionCutsShort | services/risk-service/internal/application/risk/evaluator.go:22-45 | The probing check is such a shorter mark: it ends a blacklist verdict early wherever the records do not call for one. |
| Risk.SuspectedExactlyIf | services/risk-service/internal/application/risk/evaluator.go:22-45 | A suspicion changes anything exactly strictly between 300 and 10 seconds before the start, unless configured otherwise: then it marks that user for 300 seconds and leaves a record, and nobody else's verdict changes. |
| Risk.VerdictMeans | services/risk-service/internal/application/risk/evaluator.go:48-95 | Risk exactly while marked, with a high-risk record in the last 24 hours, or with 10 requests in the last hour, unless configured otherwise; the first that holds is the reason. |
| Risk.RequestsTip | services/risk-service/internal/application/risk/evaluator.go:48-95 | From nothing known, after any number of recorded requests at any times, the verdict is risk exactly if the threshold is reached within the recent window. |
| Risk.EvaluationLeaves | services/risk-service/internal/application/risk/evaluator.go:48-95 | An evaluation leaves a mark that holds, marks a new risk for 24 hours unless configured otherwise, drops an expired mark, and leaves a high-risk record only for too many requests. |
| Risk.CountIsNumber | services/risk-service/internal/infrastructure/persistence/memory.go:61-71 | The count is the number of the user's records of that action since then. |
| Risk.SweepIsSeenOnlyAtOnce | services/risk-service/internal/infrastructure/persistence/memory.go:97-109 | A sweep shows in a verdict only at the very moment at which a mark runs out; a mark without expiry is never swept. |
| Risk.RiskWhateverHappensIff | services/risk-service/internal/application/risk/evaluator.go:48-95 | Risk at a given time whatever calls come first, exactly if a high-risk record or enough requests are still within their windows; a mark alone never suffices. |
| Risk.VerdictEnds | services/risk-service/internal/application/risk/evaluator.go:48-95 | If nothing arrives from outside after t, every evaluation after t + RecentWindow + HighRiskWindow + RiskUserTTL says normal, however often the user was evaluated and whatever the clock does. |
| Risk.VerdictEndsInTime | services/risk-service/internal/application/risk/evaluator.go:48-95 | Under a clock that does not step back a RiskUserTTL longer than HighRiskWindow ends the verdict sooner: by t + RiskUserTTL plus the longer of the two windows. |
| Risk.EvaluateKeepsFading | services/risk-service/internal/application/risk/evaluator.go:48-95 | An evaluation adds nothing that could outlast that horizon. |
| Risk.HorizonAttained | services/risk-service/internal/application/risk/evaluator.go:48-95 | For all settings the first horizon is attained: two well-timed evaluations and a sweep keep the user marked up to that very moment. |
| Risk.RiskLastsExactlyUntil | services/risk-service/internal/application/risk/evaluator.go:48-95 | Under a clock that does not step back the sharper bound is exact for all settings: risk can last until then and never longer. |
| Risk.HorizonAttainedIff | services/risk-service/internal/application/risk/evaluator.go:48-95 | Under such a clock the sum of both windows and the RiskUserTTL is attained exactly if RiskUserTTL is at most HighRiskWindow, as it is by default. |
| Risk.RecordsOnlyGrow | services/risk-service/internal/infrastructure/persistence/memory.go:50-58 | Records are only ever appended. |
| Risk.MemoryStore.IsRiskUser | services/risk-service/internal/infrastructure/persistence/memory.go:38-48 | A mark holds until its expiry has passed; an expired one is removed when looked at. |
| Risk.MemoryStore.RecordRiskAction | services/risk-service/internal/infrastructure/persistence/memory.go:50-58 | Appends the record, dated now if undated. |
| Risk.MemoryStore.CountRecentRiskActions | services/risk-service/internal/infrastructure/persistence/memory.go:61-71 | Counts the user's records of that action dated no earlier than the given moment. |
| Risk.MemoryStore.HasHighRiskRecord | services/risk-service/internal/infrastructure/persistence/memory.go:74-83 | True exactly if some record of the user has high level and is dated no earlier. |
| Risk.MemoryStore.CleanupExpiredRiskUsers | services/risk-service/internal/infrastructure/persistence/memory.go:97-109 | Removes exactly the marks that are due and returns how many. |
| Risk.Evaluator.EvaluateUser | services/risk-service/internal/application/risk/evaluator.go:48-95 | Verdict and new store as specified, with defaulted configuration. |
| Risk.Evaluator.MarkSuspiciousUser | services/risk-service/internal/application/risk/evaluator.go:22-45 | Marks and records exactly within the probing window before the start. |
| WorkerPool.EventsConserved | services/seckill-gateway/internal/application/worker_pool.go:77-161 | At every moment of every run the accepted events are, as a multiset, those queued, in flight, published and failed; they are received in order and the queue stays within its size. |
| WorkerPool.DrainIsComplete | services/seckill-gateway/internal/application/worker_pool.go:77-161 | If no submit follows the cancellation, once all workers have exited the queue is empty and each accepted event was published once or failed once. |
| WorkerPool.StrandedExactly | services/seckill-gateway/internal/application/worker_pool.go:120-161 | Once all workers have exited, what is left unprocessed is exactly what was accepted after the last exit. |
| WorkerPool.LateSubmitCanBeStranded | services/seckill-gateway/internal/application/worker_pool.go:120-161 | With any queue and any workers, a run in which an event accepted after the cancellation is never processed. |
| WorkerPool.ReturnMeansReceived | services/seckill-gateway/internal/application/worker_pool.go:91-104 | When `Start` returns every accepted event has been received, and all are settled exactly if no worker is busy at that moment. |
| WorkerPool.StartReturnsTooEarly | services/seckill-gateway/internal/application/worker_pool.go:76-104 | With any queue and any workers, a run in which `Start` returns while an event is neither published nor failed. |
| WorkerPool.ReturnsSettledIff | services/seckill-gateway/internal/application/worker_pool.go:76-104 | In all runs everything accepted is settled once `Start` has returned exactly if the pool has no room or no workers, which the constructor never makes. |
| WorkerPool.DrainSettlesAll | services/seckill-gateway/internal/application/worker_pool.go:145-158 | Draining publishes or fails exactly the waiting events. |
| WorkerPool.NothingPublishedAfterCancel | services/seckill-gateway/internal/application/worker_pool.go:145-158 | Events are drained with the cancelled context: where collaborators honour it, nothing is published after the cancellation in any run. |
| WorkerPool.DrainAfterCancelFailsAll | services/seckill-gateway/internal/application/worker_pool.go:145-158 | Such a drain fails every waiting event, in order. |
| WorkerPool.WorkerPool.Submit | services/seckill-gateway/internal/application/worker_pool.go:120-127 | Refuses exactly when the queue is full, without blocking. |
| WorkerPool.WorkerPool.ProcessEvent | services/seckill-gateway/internal/application/worker_pool.go:165-252 | Marks the trace as in process and then either publishes once or writes one failure, with the reason of the first check that fails. |
| WorkerPool.WorkerPool.Drain | services/seckill-gateway/internal/application/worker_pool.go:145-158 | A worker alone after the cancellation processes all waiting events in order, with the same log and writes as one after the other, and leaves the queue empty. |
| WorkerPool.Decide | services/seckill-gateway/internal/application/worker_pool.go:183-245 | An event is published exactly if no check stops it; a risk service in trouble lets it pass, any other trouble fails it. |
| WorkerPool.WhyItFails | services/seckill-gateway/internal/application/worker_pool.go:193-245 | Each reason is given exactly if its check fails and none before it did. |
| Idempotency.AtMostOneActive | common/traceresult/processor.go:59-104 | If every claimant marks, releases or dies before its key expires, in every interleaving at most one claimant per trace is at work. |
| Idempotency.FinalResultBlocks | common/traceresult/processor.go:59-104 | However late claimants are, a trace with a final result keeps one and is granted to nobody as long as the result was to stay; a release never removes it. |
| Idempotency.AtMostOneConclusion | common/traceresult/processor.go:59-104 | If claimants are punctual and marks arrive, then in every interleaving at most one of any number of claimants concludes a trace while marks stay. |
| Idempotency.AlwaysOneEachIff | common/traceresult/processor.go:59-104 | Where no claimant takes longer than `work`, at most one is at work on a trace in all interleavings exactly if claims never expire or last at least that long. |
| Idempotency.LateReleaseFreesAnothersClaim | common/traceresult/processor.go:96-104 | For every lifetime, a run in which a late claimant's release frees a punctual second one's claim and a third is let in beside it. |
| Idempotency.ExpiredResultCanBeReclaimed | common/traceresult/processor.go:59-91 | After a mark the trace can be claimed again exactly once the mark has expired. |
| Idempotency.ReleaseRemovesOnlyClaims | common/traceresult/processor.go:96-104 | A release removes nothing but a claim in process of its own trace, and then the trace can be claimed at once. |
| Idempotency.ProcessorStore.TryStart | common/traceresult/processor.go:59-68 | Claims exactly if the trace is named and has no live key. |
| Idempotency.ProcessorStore.MarkSuccess | common/traceresult/processor.go:72-80 | Overwrites whatever is there with the order number. |
| Idempotency.ProcessorStore.MarkFail | common/traceresult/processor.go:83-91 | Overwrites whatever is there with the reason. |
| Idempotency.ProcessorStore.Release | common/traceresult/processor.go:96-104 | Deletes the key exactly if it is live and holds PROCESSING. |
| Processor.SubmitSeckill.Execute | services/seckill-processor/internal/application/usecase/submit_seckill.go:62-116 | A claim that reports an error fails the message and is not released, even if it was made. A message whose trace is taken is dropped without error. Otherwise it is submitted, and the key holds what arrived of the handlers' report or of the release. |
| Processor.OutcomeIsPolled | services/seckill-processor/internal/application/seckill.go:140-193 | For five minutes after an order was created and reported the client is told that order, and after a refusal the processor's reason. |
| Processor.OwnKeyAfter | services/seckill-processor/internal/application/usecase/submit_seckill.go:62-105 | A submitted delivery leaves its result for five minutes, nothing after an error that was given back, and otherwise its claim for one minute. |
| Processor.RedeliverySubmitsIff | services/seckill-processor/internal/application/usecase/submit_seckill.go:62-116 | After any sequence of deliveries one after the other, however each ended and whatever of its claim, report or release was lost, the next is submitted exactly if its claim is answered and the last one that claimed the trace no longer blocks it: five minutes after an arrived report, one after a claim neither reported on nor given back. |
| Processor.MessageLostIff | services/seckill-processor/internal/application/usecase/submit_seckill.go:62-105 | A message is acknowledged without ever coming to anything exactly if it is delivered again, with its claim answered, within a minute of a delivery that claimed it and then died, never learned of its claim, or could not give it back. |
| Processor.NeverLosesIff | services/seckill-processor/internal/application/usecase/submit_seckill.go:62-105 | No message is ever lost that way exactly if deliveries are more than a claim's lifetime apart. |
| Processor.LostReportIsResubmitted | services/seckill-processor/internal/application/seckill.go:153-193 | A message whose report was lost is submitted again as soon as the claim has expired. |
| TraceProtocol.InProcessMeansNoResultYet | services/seckill-gateway/internal/application/seckill.go:270-332 | With one request per trace, in every interleaving of handler, worker and redelivering processor and whatever writes are lost, nothing is marked as in process after it got a result. |
| TraceProtocol.AlwaysForwardIff | services/seckill-gateway/internal/application/seckill.go:270-332 | That holds in all interleavings exactly when no two requests share a trace. |
| TraceProtocol.AlwaysSettlesIff | services/seckill-processor/internal/application/seckill.go:137-193 | While the first mark lasts, all results ever stored for a trace are the same exactly when no two requests share it, publishing reports errors accurately, claimants take no longer than a claim lasts, and what they tell they also mark. |
| TraceProtocol.LostMarkReplacesResult | services/seckill-processor/internal/application/seckill.go:150-171 | A run in which a lost mark lets the message be processed again, to a different result that replaces the one told. |
| TraceProtocol.LateClaimantReplacesResult | services/seckill-processor/internal/application/usecase/submit_seckill.go:62-105 | A run in which a claimant that outlives its claim tells its result beside a second one. |
| TraceProtocol.AfterTheMarkAnotherResult | services/seckill-processor/internal/application/seckill.go:150-193 | One moment after the first mark has expired, and however well all is run, the message can be processed again to a different result. |
| TraceProtocol.InaccuratePublishReplacesResult | services/seckill-gateway/internal/application/worker_pool.go:239-245 | A run in which a publish error for a message that did get through replaces the processor's result. |
| TraceProtocol.PolledResultStands | services/seckill-gateway/internal/application/seckill.go:519-542 | Under the conditions of `AlwaysSettlesIff`: once a client has been told success or failure, every later poll says the same until the stored result or the first mark expires. |
| TraceProtocol.RefusedIsPolledForever | services/seckill-gateway/internal/application/seckill.go:270-304 | A refused request's trace is left unmarked exactly if no pipeline wrote, and never gets a result: polls are told to go on until the mark expires, where an unmarked trace is an error. |
| TraceProtocol.DrainedAfterCancelIsPolledForever | services/seckill-gateway/internal/application/worker_pool.go:145-161 | An event drained with a cancelled context that all collaborators honour leaves its trace marked as in process: no result ever follows. |
| TraceProtocol.RoundTripsIff | services/seckill-gateway/internal/infrastructure/queue/result_store.go:74-104 | An order number is read back as that success, and a reason as that failure, exactly under the stated conditions on the word. |
| TraceProtocol.GatewayReasonsReadAsSuccess | services/seckill-gateway/internal/infrastructure/queue/result_store.go:28-36 | Of the reasons the gateway writes only STOCK_EMPTY is read as a failure, all others as successes; all reasons of the processor are read as failures. |
| TraceProtocol.SetThenGet | services/seckill-gateway/internal/infrastructure/queue/result_store.go:50-104 | What is set is read by everyone asking for that id for the lifetime of the entry, then the former key counts again; other ids are not concerned. |
| TraceProtocol.KeysApart | services/seckill-gateway/internal/infrastructure/queue/result_store.go:106-112 | Result keys of different ids, and result keys and former keys, never coincide. |
| TraceProtocol.RedisResultStore.SetProcessing | services/seckill-gateway/internal/infrastructure/queue/result_store.go:50-55 | Overwrites the result with PROCESSING for five minutes. |
| TraceProtocol.RedisResultStore.SetSuccess | services/seckill-gateway/internal/infrastructure/queue/result_store.go:58-63 | Overwrites the result with the order number. |
| TraceProtocol.RedisResultStore.SetFailed | services/seckill-gateway/internal/infrastructure/queue/result_store.go:66-71 | Overwrites the result with the reason. |
| TraceProtocol.RedisResultStore.Get | services/seckill-gateway/internal/infrastructure/queue/result_store.go:74-104 | Reads the result key, then the former key, and decodes JSON, PROCESSING, the known reasons and order numbers. |
| TraceProtocol.TraceRedisStore.TryStart | common/traceresult/redis.go:33-39 | Marks the trace as in process exactly if it has no live result key. |
| TraceProtocol.TraceRedisStore.MarkSuccess | common/traceresult/redis.go:43-48 | Overwrites the key the gateway reads. |
| TraceProtocol.TraceRedisStore.MarkFail | common/traceresult/redis.go:52-57 | Overwrites the key the gateway reads. |
| TraceProtocol.TraceRedisStore.Delete | common/traceresult/redis.go:60-69 | Deletes the key exactly if it is live and holds PROCESSING. |
| TraceProtocol.SeckillApp.PartInFastPath | services/seckill-gateway/internal/application/seckill.go:253-333 | An event is queued exactly if the request is complete, passes, is allowed and there is room; what is stored for the trace is what the protocol's handler stores. |
| TraceProtocol.SeckillApp.CheckQueue | services/seckill-gateway/internal/application/seckill.go:520-542 | Stop without a trace, continue without a store, and otherwise the answer about which the next three members speak. |
| TraceProtocol.WrittenIsPolled | services/seckill-gateway/internal/application/seckill.go:520-542 | From any writer to the client, for the lifetime of the entry: continue for PROCESSING, stop with the reason for each known reason, done with the order for anything else, and a JSON object is taken at its word; afterwards an error if there is no former key. |
| TraceProtocol.HandlerWordIsPolled | services/seckill-gateway/internal/application/seckill.go:270-332 | After the handler: a full queue is told as an order with that text for its number; otherwise continue if one of its marks was written, even for a refused user, and what was told before if none was. |
| TraceProtocol.WorkerVerdictIsPolled | services/seckill-gateway/internal/application/worker_pool.go:165-262 | After the worker: continue for a published event, stop for an empty stock, and for each other failed check an order with its reason for the number. |
| TraceProtocol.HandlerFollowsProtocol | services/seckill-gateway/internal/application/seckill.go:270-332 | Every outcome of the handler is a run of the protocol with the same writes and the matching stage. |
| TraceProtocol.WorkerFollowsProtocol | services/seckill-gateway/internal/application/worker_pool.go:165-262 | Every outcome of processing an event is a run of the protocol with the same writes. |
| Processor.ProcessorApp.MarkTraceSuccess | services/seckill-processor/internal/application/seckill.go:153-171 | Writes the order number to the polled key and to the processor's own key; each request may be lost without the other. |
| Processor.ProcessorApp.MarkTraceFail | services/seckill-processor/internal/application/seckill.go:175-193 | Writes the reason to the polled key and to the processor's own key; each request may be lost without the other. |
| Processor.HandlersFollowProtocol | services/seckill-processor/internal/application/seckill.go:150-193 | What the handlers store, losses included, is a run of two steps of the protocol. |
| ConfigMerge.MergedLookup | common/config/config.go:152-163 | For every path: the source's scalar, else the destination's answer where the source's walk ends at a missing key, nothing below a scalar of the source, a map where the source has a map. |
| ConfigMerge.MergedLookupDotted | common/config/config.go:314-327 | The same law for dotted paths as `Lookup` takes them. |
| ConfigMerge.LookupByLoop | common/config/config.go:314-327 | The loop over the parts of the path finds what the recursive walk finds. |
| ConfigMerge.LookupDescends | common/config/config.go:314-327 | A lookup takes the key before the first dot from the map and goes on with the rest below it; a key without dots is the map's own entry. |
| ConfigMerge.SplitThenJoin | common/config/config.go:316-317 | Joining the parts of a path with dots gives the path back, and no part holds a dot. |
| ConfigMerge.JoinThenSplit | common/config/config.go:316-317 | Any parts without dots come back from the path made of them. |
| ConfigMerge.MergeIsIdempotent | common/config/config.go:152-163 | Merging the same source twice equals merging it once. |
| ConfigMerge.MergeChangesNothingIff | common/config/config.go:152-163 | A merge leaves its destination as it was exactly when the source is covered by it. |
| ConfigHeap.MergeMap | common/config/config.go:152-163 | On shared map objects: the destination becomes the merged tree, the source stays as it is, and the only objects written are the destination and its maps on paths where both sides hold maps. |
| ConfigHeap.MergedValue | common/config/config.go:152-163 | The tree that the in-place merge leaves stands for the merged value. |
| ConfigHeap.WrittenAreDestinations | common/config/config.go:152-163 | Everything a merge writes belongs to the destination's tree. |
| ConfigHeap.ApplyGatewaySegment | services/seckill-gateway/internal/server/apply.go:45-66 | Nothing to do for an empty base; an empty segment puts a copy of base to use; otherwise the gateway section put to use is base's with the segment merged over it. Of what exists only nested maps of base's gateway section met by maps of the segment are written. |
| ConfigHeap.TopLevelsUnchanged | services/seckill-gateway/internal/server/apply.go:49-64 | The entries of base's own map and of its gateway section's own map are as they were. |
| ConfigHeap.AppliedValue | services/seckill-gateway/internal/server/apply.go:54-64 | The gateway section put to use means base's section merged with the segment. |
| ConfigHeap.NoMeetingNoLeak | services/seckill-gateway/internal/server/apply.go:59-63 | Nothing of base is written exactly when no nested map of the segment meets a nested map of base's gateway section. |
| ConfigHeap.BaseUnchangedIff | services/seckill-gateway/internal/server/apply.go:41-64 | Base means the same after one segment exactly when every nested map of the segment that meets one of base only repeats what is there. |
| ConfigHeap.BaseStaysDistinct | services/seckill-gateway/internal/server/apply.go:45-66 | After a segment base is a tree again, of its own and the segment's maps only, so the next segment can be applied. |
| ConfigHeap.ApplyAllThenDelete | services/seckill-gateway/internal/server/apply.go:45-66 | Any sequence of separately parsed segments followed by a deletion, on the heap: base ends as specified, the configuration put to use is a copy of it, and means the values of the file if no segment did harm to them. |
| ConfigHeap.BaseMeansAfterAll | services/seckill-gateway/internal/server/apply.go:45-66 | After any sequence of segments base's other sections are as before, and each nested map of its gateway section has been merged with the segments' maps under its name, in order. |
| ConfigHeap.EveryDeletionFallsBackIff | services/seckill-gateway/internal/server/apply.go:41-64 | A deletion falls back to the values of the file, at whatever point of a sequence it comes, exactly if every nested map in it that meets one of base only repeats the file. |
| ConfigHeap.DeletionsMeanTheFileIff | services/seckill-gateway/internal/server/apply.go:41-64 | The configurations that deletions put to use, at whatever points of a sequence, all mean the values of the file exactly if no segment does harm to those values. |
| ConfigHeap.DeletionFallsBackIff | services/seckill-gateway/internal/server/apply.go:41-64 | What is put to use after the whole sequence means the values of the file exactly if, for each nested map, the segments' maps merged over it in order end where they began. |

## Left out

- Rounding of float64 and Lua numbers, overflow of int64, and durations beyond the range of `time.Duration`.
- The Go memory model. The two sections of a store's `Allow` (find the limiter, use it) are one step; a limiter replaced by changed settings in between is not modelled.
- The FNV-1a function itself; the hash of the sharded store is any function.
- Collisions of the random members of the sliding window; members are distinct. Partly executed Redis pipelines, other than in the handler's acquisition.
- The callback lock does not expire while its holder is inside the guarded section.
- Sending on the closed channel of the worker pool: a submit after the close is not a step.
- PaymentCallback.RunKeepsInv: only notifications pay the order, and the degrade switches do not change during a run; they are part of which services are configured.
- PaymentCallback.App.Notify: the order number is given and trimmed; a missing one is refused like a missing transaction number.
- TraceProtocol.AlwaysSettlesIff: of a processor with a store for its own keys; without one nothing keeps processings apart. What the domain service does with a message, and the unique index on traces, are not part of this model: each processing may come to any result.
- TraceProtocol.RedisResultStore.Get: JSON parsing is a parameter; read errors of Redis are not modelled.
- LuaBucket.RedisStore.TryAcquire: an error of Redis, which refuses the caller, and a store without a client, which admits it, are not modelled.
- LimiterStore.RouteLimit: trimming of the rule's resource name is left to the caller.
- Risk.Evaluator.EvaluateUser: the several clock readings of one evaluation are one reading; errors of the repository do not occur in memory.
- OrderStore.SortByCreateTimeDesc: an insertion sort stands for `sort.Slice`; any sort has the same result by `ListingIsUnique`.
- Processor.SubmitSeckill.Execute: the announcement is handled before the use case returns, as one step; the event bus is not part of this model.
- ConfigHeap.MergeMap: for a destination that is a tree and shares no map with the source, as freshly parsed configuration is; a nil destination map is not modelled.
- ConfigHeap.ApplyGatewaySegment: reading the merged map into the typed runtime configuration is not modelled.
- Order fields that no modelled operation reads; `GetByUserAndTrace`; `UpdateActivity`, `UpdateActivityStatus` and `RemoveActivitySKU`; the trace map of the activity store.
- Reading an activity overwrites the total stock of its products with the running stock, in a slice the store shares with its callers; no modelled operation depends on it.
- The per-request controllers of `DynamicRateLimitMiddleware` and of the degrade middleware without a controller, through which no bound carries.
- The synchronous slow path of the handler, queue state per user and activity, and the payment timeout task.
- Redis-backed order, risk and stock stores, the two-level caches, singleflight, the database stores, protobuf, HTTP, service discovery, logging, tracing and metrics.
