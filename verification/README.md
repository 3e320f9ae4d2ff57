# HYDRA, modelled in Dafny

HYDRA is an automated trading engine. This project models the parts of it whose behaviour over whole
runs matters, and proves what they guarantee.

**Order execution.** `OrderProtocol` is a transition system over what Redis, the exchanges and the
suspended `submit` coroutines hold. A step is one stretch of code between two awaits, or a move of the
environment: time passes and TTLs run out, the kill flag or the daily PnL is written, a shutdown blocks the
queue, the process dies and restarts. Redis calls are synchronous, so a stretch is atomic in one event
loop. An event that is impossible in a state leaves it unchanged, so every event sequence is a run.
`OrderQueue` holds the classes, each method proved to be one step. `OrderSafety`, `OrderOnce`, `OrderLimits`,
`OrderCalls` and `OrderEffects` hold the theorems. The idempotency promise of the queue is not unconditional: the lock lives ten
seconds and is deleted without checking its holder, while an exchange call may take fifteen.
`AtMostOnceExactly` says which three conditions are needed and that each is.

**Kill switch.** `KillSwitch` gives the trace of an execution for every pattern of exchange failures.
`success` does not mean that everything is closed: a recorded position on a market without a connector is
skipped without an error. `KillFlattensExactly` gives the exact condition. An execution is cut where its
cancellations are through, so that other coroutines may change the records before they are listed.

**Backtester.** `Broker`, `Runner` and `Metrics` follow the program's loops; `BrokerPairing`, `BrokerMoney`
and `Causality` prove that the broker refines a declarative pairing of signals, where the money goes, and that
a backtest never looks ahead. Floats are reals; `round` is rounding half to even on reals (`Rounding`).
The indicator library is an arbitrary function of the window.

**Components.** `RateLimiter` (token bucket under any clock that does not go back), `PnlTracker`
(four views of the realised profit), `Watchdog` (consecutive failures; a healthy answer whose reset raises is
counted as one), `Keys` (colon-separated keys), `Positions`, `Risk`.

Environment inputs are parameters: replies and failures of exchanges, clock readings, generated ids, dates, the
order in which Redis lists keys, the square root. Prices the program divides by are non-zero (type `Price`) and the
initial capital of a backtest is non-zero; the program raises a division error otherwise.

Lemmas carry `{:induction false}`: every induction in a proof is written out.

## Model

| member | source | states |
|---|---|---|
| Keys.SplitConcat | hydra/api/indicators.py:45 | Splitting `a:b` at colons gives the parts of `a` followed by the parts of `b`, so one separator never merges or drops parts |
| Keys.JoinSplit | hydra/api/indicators.py:53 | Joining the parts of a key with colons gives the key back, for every string |
| Keys.PrintThenParse | hydra/api/indicators.py:25-55 | A printed indicator key parses back to its triple if and only if market and timeframe hold no colon; the symbol is unrestricted, it may be empty or contain colons |
| Keys.ParseThenPrint | hydra/api/indicators.py:42-55 | Every key under the prefix that parses is reprinted exactly, and its parsed market and timeframe are colon-free |
| Keys.IndicatorKeyInjective | hydra/api/indicators.py:25 | Distinct triples never share a cache entry |
| Keys.PairInjective | hydra/core/position_tracker.py:16 | `market:symbol` determines both halves when the market has no colon |
| Keys.ListIndicators | hydra/api/indicators.py:42-56 | The listing loop returns the parsed triple of every well-formed key and nothing else, in key order |
| Keys.ListingRecoversTriples | hydra/api/indicators.py:25-56 | Listing the keys written for any sequence of colon-free triples returns exactly that sequence |
| Keys.PairOfPrinted | hydra/supplemental/orderbook.py:19-32 | The scan finds market and symbol of a printed key, in this order, and something exactly in keys of five or more parts |
| Keys.GetActiveSymbols | hydra/supplemental/orderbook.py:19-32 | The deduplicating scan returns every (market, symbol) behind a well-formed key exactly once, ordered by first appearance |
| Risk.TriggersAgree | hydra/core/risk_engine.py:34-38 | The configured kill trigger and the constant one of the kill switch (kill_switch.py:84-89) agree on every stored PnL if and only if the configured threshold is 0.05 |
| Risk.TriggeredLossRefusesOrders | hydra/core/risk_engine.py:23-32 | Every loss that fires the automatic trigger also refuses orders of every position size if and only if one of the two configured loss levels is at most 0.05 |
| Risk.GuardsExactly | hydra/core/risk_engine.py:15-38 | Exactly when an order is refused and for which reason, and when either trigger fires, a loss equal to the level included; nothing stored is no loss |
| Orders.NormaliseStable | hydra/core/order_queue.py:36-55 | A normalised request validated again comes back unchanged, with the same idempotency key, and normalising never moves a request to another lock |
| Orders.NormaliseExactly | hydra/core/order_queue.py:36-55 | A request is accepted if and only if its quantity is positive or missing and its leverage between 1 and 125; a missing key is generated, leverage on a futures market makes a futures order, and nothing else changes |
| Orders.LockKeyParts | hydra/core/order_queue.py:94 | The lock key splits into its prefix, market name, symbol and side name |
| Orders.LockKeyInjective | hydra/core/order_queue.py:94 | Two orders contend for one lock if and only if market, symbol and side agree, even for symbols with colons |
| OrderProtocol.BeginAdmitted | hydra/core/order_queue.py:79-120 | An admitted submission takes exactly its lock for ten seconds and is suspended in set_leverage, or in create_order with the call started |
| OrderProtocol.BeginRefused | hydra/core/order_queue.py:79-108 | A replayed, blocked, lock-held, risk-refused or unconnected submission changes nothing but the record of its own outcome |
| OrderQueue.Queue.constructor | hydra/core/order_queue.py:67-72 | A new queue on an empty server is the initial state of the protocol |
| OrderQueue.Queue.BlockNewOrders | hydra/core/order_queue.py:74-75 | The queue is blocked afterwards, and that is the Block step |
| OrderQueue.Queue.Submit | hydra/core/order_queue.py:77-120 | The code from the call to the first await performs exactly the Submit step: same branches, same order of checks, same Redis writes; a lock taken before a refusal is gone again |
| OrderQueue.Queue.ResumeAfterLeverage | hydra/core/order_queue.py:112-137 | The stretch after set_leverage performs exactly the LeverageDone step, including the release of the lock when it raised |
| OrderQueue.Queue.ResumeAfterCreate | hydra/core/order_queue.py:114-137 | The stretch after create_order performs exactly the CreateDone step: receipt with defaults, cache entry for 24 hours, result, unconditional release |
| OrderQueue.GracefulManager.Shutdown | hydra/resilience/graceful.py:23-33 | The first shutdown leaves the queue blocked and the snapshot stored, every later one changes nothing |
| OrderQueue.PositionTracker.Update | hydra/core/position_tracker.py:15-27 | Exactly the record of the (market, symbol) is replaced, with the mark price defaulting to the average price when missing or zero; records stay filed under their own key |
| OrderQueue.PositionTracker.Clear | hydra/core/position_tracker.py:43-46 | Exactly the record of the (market, symbol) disappears |
| OrderQueue.PositionTracker.GetAll | hydra/core/position_tracker.py:34-41 | The loop lists the record of every key, in the order in which Redis gives the keys |
| Positions.SnapshotIsUnique | hydra/core/position_tracker.py:34-41 | A snapshot of records filed under their own keys names each (market, symbol) at most once |
| Positions.PositionKeyInjective | hydra/core/position_tracker.py:16 | Two positions share a record if and only if they have the same market and symbol |
| Positions.PositionKeyParts | hydra/core/position_tracker.py:16 | The key of a record splits into its prefix, market and symbol |
| OrderSafety.LockBound | hydra/core/order_queue.py:93-137 | In every reachable state, for every lock: submissions in the critical section number at most one if the lock is present plus one per TTL expiry under a submission, despite the unconditional delete |
| OrderLimits.BoundIsReached | hydra/core/order_queue.py:93-137 | For every n some run has n + 1 copies of one request, same idempotency key, in the critical section after n expiries, so for calls of unbounded duration the bound cannot be improved |
| OrderSafety.NoOrphanLocks | hydra/core/order_queue.py:99-137 | Without a process death the last taker of a present lock is still in flight; when no submission is in flight no lock remains, whichever exit path was taken |
| OrderSafety.LocksRunOut | hydra/core/order_queue.py:12-95 | Whatever happens in between, process deaths included, ten seconds later every lock that no submission asked for again is gone |
| OrderSafety.KillFence | hydra/core/order_queue.py:89-114 | After the kill flag (or a block, while the process lives) every create_order still started belongs to a submission that was waiting in set_leverage, each at most once, and calls started plus submissions waiting never exceed those waiting at that moment; the flag stays set |
| OrderSafety.KillIsFinal | hydra/core/kill_switch.py:34-35 | If nobody waits in set_leverage when the flag is set, the queue never starts another create_order |
| OrderSafety.OrdersDrain | hydra/core/kill_switch.py:34-35 | After the kill flag (or a block, while the process lives) every order that still comes back belongs to a submission that was suspended in an exchange call at that moment, one each, and orders placed since plus submissions in flight never exceed those in flight then |
| OrderEffects.BlockIsFinal | hydra/resilience/graceful.py:30 | After a block, as long as the process lives and if nobody waits in set_leverage, the queue never starts another create_order |
| OrderEffects.LossIsFinal | hydra/core/risk_engine.py:23-28 | After a daily figure at either configured loss level, until another is written and if nobody waits in set_leverage, the queue never starts another create_order, process deaths included |
| OrderSafety.EveryCallWasAdmitted | hydra/core/order_queue.py:79-120 | Every create_order ever started belongs to a submission that at its own entry, with the order it still has, found its key uncached, no flag and no block, a free lock, an acceptable daily loss and a connected market; no submission starts two calls |
| OrderEffects.SubmitExactly | hydra/core/order_queue.py:77-120 | What a submission finds decides its outcome, for every cause: replayed, refused with which error, waiting in set_leverage, or sent; only an admitted one takes the lock, for ten seconds, and starts a call |
| OrderEffects.AnswersAreTheExchanges | hydra/core/order_queue.py:114-137 | Over any run every placement carries, field by field, the id and status the exchange gave to that submission's own call (the generated id and "submitted" for missing fields); the submission returned exactly that, and every cached or returned receipt is such an answer to the same key |
| OrderEffects.AnswerExactly | hydra/core/order_queue.py:121-137 | An answered call returns and caches the answer for a day, frees the lock and changes nothing else |
| OrderEffects.FailureExactly | hydra/core/order_queue.py:112-137 | A call that raised raises in the caller, caches nothing and frees the lock |
| OrderEffects.CrashExactly | hydra/core/order_queue.py:67-72 | A process death ends every suspended submission and forgets the block; Redis and finished submissions stay |
| OrderEffects.TickExactly | hydra/core/order_queue.py:95-132 | When time passes, exactly the cache entries and locks whose deadline lies ahead remain, and an expiry counts against a lock exactly when a submission is inside |
| OrderEffects.LockLastsTenSeconds | hydra/core/order_queue.py:12-95 | A lock just taken is present after waiting d seconds if and only if d < 10 |
| OrderEffects.AnswerLastsADay | hydra/core/order_queue.py:13-132 | An answer is replayed after waiting d seconds if and only if d is less than a day |
| OrderOnce.MutualExclusion | hydra/core/order_queue.py:93-137 | If no critical section of a lock reaches ten seconds, its critical sections never overlap and the TTL on the lock is that of its holder |
| OrderOnce.AtMostOnce | hydra/core/order_queue.py:77-137 | In every interleaving, with exchange failures, kill flags, blocks and process deaths, a key always used for one market, symbol and side is placed at most once, and every submission of it that returned returned that order's id and status, if no critical section reaches ten seconds and the receipt stays cached |
| OrderOnce.ReplayReturnsTheOrder | hydra/core/order_queue.py:78-90 | Once placed, every later submission of the key returns the order's id and status and changes nothing else, even with the kill flag set or the queue blocked |
| OrderCalls.AtMostOneCall | hydra/core/order_queue.py:77-137 | Under the same conditions a key starts at most one create_order more than those of its calls that raised or were lost in a process death; each submission starts at most one |
| OrderCalls.RetryCallsTwice | hydra/core/order_queue.py:77-137 | That bound is reached: one call that raised, and the same request again, start two calls under one key on a run that meets all three conditions |
| OrderLimits.AtMostOnceExactly | hydra/core/order_queue.py:12-137 | At-most-once holds on all runs that respect the conditions kept if and only if none of the three conditions is dropped: calls shorter than the lock TTL, receipts that outlive the run, one symbol per key |
| KillSwitch.Switch.BlockAndCancel | hydra/core/kill_switch.py:34-44 | The first part sets the flag, which is the KillFlag step of every queue on the server, then asks every connector to cancel, and collects exactly the failures |
| KillSwitch.Switch.CloseRecorded | hydra/core/kill_switch.py:46-82 | The second part lists whatever the tracker holds when it starts, completes the trace with one order per position with a connector, and reports the accepted closes and all errors of the whole trace, success meaning no error |
| KillSwitch.Switch.Execute | hydra/core/kill_switch.py:30-82 | For every pattern of exchange failures, and whatever the other coroutines do to the records meanwhile, the two parts together produce exactly the specified trace over the records the tracker then lists, and its report |
| KillSwitch.TraceOrder | hydra/core/kill_switch.py:34-63 | The flag is written first, then each connector gets one cancel_all, and only then each recorded position with a connector gets one order of the same size and opposite sign |
| KillSwitch.ClosedOrError | hydra/core/kill_switch.py:38-63 | `closed` is the symbols of the accepted attempts in order; `errors` is the failed cancellations in order and then the refused attempts in order; so each recorded position with a connector lands in exactly one of them, and success means that no call failed |
| KillSwitch.AttemptsExactly | hydra/core/kill_switch.py:46-63 | A close is attempted for exactly the recorded positions with a connector, in the order of the records |
| KillSwitch.ReportTells | hydra/core/kill_switch.py:38-82 | A symbol is reported closed if and only if some recorded position of it on a connected market was closed, as an error if and only if closing one raised, and a connector if and only if its cancellation raised |
| KillSwitch.SuccessfulRun | hydra/core/kill_switch.py:46-82 | When success is reported the accepted orders cancel the recorded signed exposure of every (market, symbol) on a connected market and leave the others as they were |
| KillSwitch.SuccessMeansFlatExactly | hydra/core/kill_switch.py:46-82 | Success implies that all recorded exposure is cancelled, for every failure pattern, if and only if no net exposure is recorded on an unconnected market |
| KillSwitch.KillFlattensExactly | hydra/core/kill_switch.py:46-82 | On a tracker snapshot: success implies a flat account if and only if every non-empty recorded position is on a connected market |
| KillSwitch.SecondKillReverses | hydra/core/kill_switch.py:46-63 | Executing twice on the same records leaves the reverse of the recorded exposure on connected markets, because nothing clears the records |
| RateLimiter.TokenBucketRateLimiter.constructor | hydra/resilience/rate_limiter.py:8-13 | A new bucket is full |
| RateLimiter.TokenBucketRateLimiter.Refill | hydra/resilience/rate_limiter.py:24-28 | A refill is exactly the Refill step of the bucket |
| RateLimiter.TokenBucketRateLimiter.Acquire | hydra/resilience/rate_limiter.py:15-22 | An acquire reads the clock until the first reading at which the request fits, then takes the tokens; it fails with a division by zero if and only if the request does not fit and the rate is zero |
| RateLimiter.RefillExactly | hydra/resilience/rate_limiter.py:24-28 | A refill adds what the elapsed time has earned and throws something away only when it leaves the bucket full |
| RateLimiter.AcquireIsLegal | hydra/resilience/rate_limiter.py:15-28 | Any acquire of a non-negative request on a clock that does not go back is a legal run granting exactly the request or nothing |
| RateLimiter.AcquiresAreLegal | hydra/resilience/rate_limiter.py:15-28 | So is any sequence of acquires, of arbitrary sizes and outcomes, and it grants exactly what the successful ones asked for |
| RateLimiter.AcquiresAreLimited | hydra/resilience/rate_limiter.py:15-28 | In any sequence of acquires, any stretch of them gets at most the capacity plus rate times the time from the last clock reading before the stretch to its last one |
| RateLimiter.Accounting | hydra/resilience/rate_limiter.py:8-28 | In every reachable state tokens lie between 0 and the capacity, and initial tokens plus earned tokens equal granted plus held plus discarded tokens exactly |
| RateLimiter.WindowBound | hydra/resilience/rate_limiter.py:15-28 | Between any two points of any run the tokens granted never exceed the capacity plus rate times elapsed time, for arbitrary request sizes and sleeps |
| RateLimiter.WindowBoundIsReached | hydra/resilience/rate_limiter.py:15-28 | Some run grants exactly the capacity plus what the elapsed time earned |
| RateLimiter.ServedAfterOneSleep | hydra/resilience/rate_limiter.py:18-21 | If sleeps last as long as requested, a request within the capacity is served at the second clock reading at the latest |
| RateLimiter.OversizedNeverServed | hydra/resilience/rate_limiter.py:18-27 | A request above the capacity is never served, whatever the clock does |
| RateLimiter.ServableExactly | hydra/resilience/rate_limiter.py:15-28 | With a positive rate some clock that does not go back serves a request if and only if it does not exceed the capacity |
| RateLimiter.SleepEarnsMissing | hydra/resilience/rate_limiter.py:19 | Sleeping exactly the requested wait earns exactly the missing tokens |
| Rounding.RoundError | hydra/backtest/broker.py:57 | A value rounded to k decimals is off by at most half a unit of the last decimal |
| Rounding.RoundExactly | hydra/backtest/broker.py:57 | A rounded value is a whole number of units, and from the middle between two the even one |
| Rounding.RoundedSumWithinOneUnit | hydra/core/pnl_tracker.py:91-94 | Rounding a sum and summing the rounded terms differ by at most one unit, although three roundings are involved |
| PnlTracker.Tracker.RecordTrade | hydra/core/pnl_tracker.py:30-38 | Recording a trade updates the total, the day, the count and the symbol counter, each by the amount recorded |
| PnlTracker.Tracker.ResetDaily | hydra/core/pnl_tracker.py:111-113 | A reset removes the counter of the day and nothing else |
| PnlTracker.TotalsMatchHistory | hydra/core/pnl_tracker.py:30-51 | In every reachable state the total is the sum of all records, the count their number, and a daily counter the sum of that day's records since its last reset |
| PnlTracker.SymbolsMatchHistory | hydra/core/pnl_tracker.py:37-55 | A symbol counter is the sum of the records of exactly that (market, symbol), even for symbols with colons |
| PnlTracker.SymbolKeyInjective | hydra/core/pnl_tracker.py:37 | Two symbol counters coincide if and only if market and symbol do |
| PnlTracker.SymbolsSumToTotal | hydra/core/pnl_tracker.py:30-39 | In every reachable state the realised total equals the sum over all symbol counters |
| PnlTracker.DaysSumToTotal | hydra/core/pnl_tracker.py:30-113 | In every reachable state the realised total equals the sum over all daily counters plus what resets have cleared |
| PnlTracker.WorthExactly | hydra/core/pnl_tracker.py:60-77 | A position is worth leverage times the difference between its value at the mark and at the average price, reversed for a short; missing fields take their defaults, and nothing is worth nothing |
| PnlTracker.GainsExactly | hydra/core/pnl_tracker.py:73-77 | At positive size and leverage a long gains if and only if the mark is above the average price, a short if and only if it is below |
| PnlTracker.ShortMirrorsLong | hydra/core/pnl_tracker.py:60-77 | A short position is worth the negative of the long one, and a position without a mark price, or marked at its own price, is worth nothing |
| PnlTracker.SummaryTotal | hydra/core/pnl_tracker.py:84-95 | The reported total differs from reported realised plus reported unrealised profit by at most one unit of the fourth decimal |
| PnlTracker.SummaryPositions | hydra/core/pnl_tracker.py:84-109 | The reported unrealised profit differs from the sum of the n reported per-position values by at most (n + 1) / 2 units of the fourth decimal |
| PnlTracker.SummaryMeans | hydra/core/pnl_tracker.py:84-109 | After any history the summary shows, each within half a unit of the fourth decimal, all recorded profit, that of the day, the worth of the positions one by one and together, and the total; the count is exact |
| PnlTracker.SymbolKeyParts | hydra/core/pnl_tracker.py:37 | The counter of a symbol splits into its prefix, market and symbol |
| Watchdog.Handler.Handle | scripts/dr_watchdog.py:54-72 | One invocation updates the stored counter, makes the emergency call when the third failure is reached and reports accordingly, whichever of the storage, health, emergency and alert calls raise |
| Watchdog.EffectExactly | scripts/dr_watchdog.py:55-64 | An invocation counts as healthy, as a failure with the fate of its calls, or not at all, exactly in the stated cases |
| Watchdog.StorageOnlySkipsTicks | scripts/dr_watchdog.py:54-72 | For any pattern of raising storage calls, counter and emergency calls are those of the ticks that reached the counter, so the two theorems below apply to them |
| Watchdog.ThreeAlike | scripts/dr_watchdog.py:56-70 | Three invocations alike make the emergency call if and only if the counter can be read and stored and the check fails or its reset raises: a healthy machine is closed down when only resets raise |
| Watchdog.CallsPerFailureRun | scripts/dr_watchdog.py:54-72 | If no call raises, the counter is 0, 1 or 2 between ticks and the calls made number the sum over maximal failure runs of a third of their length, rounded down |
| Watchdog.FiresExactly | scripts/dr_watchdog.py:64-72 | For any pattern of raising calls: a failing tick makes the emergency call if and only if the two ticks before it failed too and neither completed a call, so a call that raised is retried on every failing tick |
| Metrics.MaxDrawdown | hydra/backtest/result.py:58-67 | The single pass with a running peak returns the deepest percentage drop from the prefix maximum, attained at some point, for every curve |
| Metrics.OnePassIsAllPairs | hydra/backtest/result.py:58-67 | On a positive curve a figure is the one-pass drawdown if and only if it is the largest percentage loss over all ordered pairs of points, and it lies in [0, 100) |
| Metrics.ComputeMetrics | hydra/backtest/result.py:34-87 | The loops produce the win rate, average profit, drawdown, return and Sharpe ratio of the trades and the curve, with the shortcut for zero trades |
| Metrics.ReturnMeans | hydra/backtest/result.py:40 | The unrounded return leads from the initial to the final capital, and for positive capital it is positive if and only if the capital grew |
| Metrics.FiguresMean | hydra/backtest/result.py:40-87 | Each figure up to its rounding: the relative change of the capital, the share of trades with positive profit, the mean profit, and on a positive curve the largest loss between any two points in time order |
| Metrics.VarianceExactly | hydra/backtest/result.py:75 | n - 1 times the variance is the sum of squares minus n times the squared mean |
| Metrics.SharpeExactly | hydra/backtest/result.py:70-78 | With a spread the reported ratio is within half a unit of the fourth decimal of the number that, times the deviation, is the mean times the root of 252 |
| Metrics.SpreadExactly | hydra/backtest/result.py:70-78 | For any square root the deviation the ratio divides by is positive if and only if not all trades report the same profit |
| Metrics.SharpeSign | hydra/backtest/result.py:70-78 | The reported ratio never has the opposite sign of the total profit, and it is zero when all trades report the same profit |
| Metrics.WinsAreCounted | hydra/backtest/result.py:53 | The wins are the trades whose reported profit is positive |
| Metrics.ConstantCurve | hydra/backtest/result.py:43-65 | On a constant or empty curve the general formulas for drawdown and return give the zeros of the shortcut |
| Broker.BacktestBroker.constructor | hydra/backtest/broker.py:8-19 | A new broker holds the initial capital, no position, no trades and an empty curve |
| Broker.BacktestBroker.OnSignal | hydra/backtest/broker.py:21-38 | A signal performs exactly one step of the book |
| Broker.BacktestBroker.CloseOpenPosition | hydra/backtest/broker.py:40-65 | Closing, at any price, performs exactly the closing step of the book, and nothing when there is no position |
| BrokerMoney.Conservation | hydra/backtest/broker.py:21-65 | In every state of every run, and after the forced close, capital equals initial capital plus exact net profits minus one entry commission per position opened, and every trade reports its own profit |
| BrokerMoney.ReportedEquity | hydra/backtest/runner.py:91-114 | The reported final equity differs from initial capital plus reported profits minus entry commissions by at most n + 1 half units of the sixth decimal |
| BrokerMoney.CapitalInClosedForm | hydra/backtest/broker.py:22-50 | In every state of every run, and after the forced close, capital is the initial capital plus A((p/e)(1 - c) - (1 + c)) for each closed trade, minus one commission Ac while a position is open |
| BrokerMoney.GainsExactly | hydra/backtest/broker.py:22-50 | A round trip gains if and only if p(1 - c) > e(1 + c) |
| BrokerMoney.EntryCosts | hydra/backtest/broker.py:22-38 | Entering costs the commission on the fixed amount and buys that amount at the close |
| BrokerMoney.ExitBrings | hydra/backtest/broker.py:40-65 | Leaving brings the value of the lot less the commission on it, minus what the lot cost, and writes the point of the trade and of the bar |
| BrokerMoney.ForcedCloseBrings | hydra/backtest/runner.py:91-96 | So does the forced close at the last candle, and without a position it changes nothing |
| BrokerMoney.ReportedPct | hydra/backtest/broker.py:49-58 | The reported percentage is the price change within half a unit of the fourth decimal |
| BrokerMoney.CapitalFloor | hydra/backtest/broker.py:21-65 | On any run at positive prices, and after the forced close, capital never falls below initial capital minus n(A + Ac), minus a further Ac while a position is open |
| BrokerMoney.ReportAddsUp | hydra/backtest/runner.py:91-118 | In every report of a run the final equity is the initial capital plus the profits of the listed trades minus their entry commissions, up to n + 1 half units of the sixth decimal |
| BrokerMoney.ReportedFloor | hydra/backtest/runner.py:91-118 | At positive prices the reported final equity is at least the initial capital minus n(A + Ac) for the n listed trades, up to half a unit of the sixth decimal |
| BrokerMoney.ReportMeans | hydra/backtest/runner.py:98-118 | Every listed trade carries the market and symbol asked for and is otherwise the broker's own; the reported return is that of the unrounded final capital up to rounding |
| BrokerPairing.PairingIsUnique | hydra/backtest/broker.py:21-37 | Every signal sequence has one pairing only: each entry the first BUY after the previous exit, each exit the first SELL strictly after its entry |
| BrokerPairing.BrokerRefinesPairing | hydra/backtest/broker.py:21-65 | A pairing exists for every signal sequence and the broker's trades and open position are exactly those of the pairing |
| BrokerPairing.SpansAreOrdered | hydra/backtest/broker.py:21-37 | The intervals of the trades are disjoint and ordered |
| BrokerPairing.OnlyLastIsForced | hydra/backtest/runner.py:91-96 | The end of the data adds at most one trade, the last; it enters at the open bar of the pairing and leaves at the last candle |
| BrokerPairing.OtherBarsChangeNothing | hydra/backtest/broker.py:21-38 | A bar that neither enters nor exits changes neither capital nor position nor trades |
| Runner.SignalDirection | hydra/strategy/signal.py:26-57 | With the regime of hydra/regime/detector.py:7-17: BUY and SELL are issued exactly in the stated market conditions, never in a volatile market and never against a strong trend |
| Runner.BarOfCandle | hydra/backtest/runner.py:79-89 | A candle gives a bar if and only if the 210 candles ending at it have indicators; the bar is that candle, and kind and reason are decided on those indicators and on its own close |
| Runner.BarsExactly | hydra/backtest/runner.py:79-89 | The bars of a run are those of the candles with indicators, every one of them, in order |
| Runner.InformedExactly | hydra/backtest/runner.py:79-83 | Those candles are the ones from the start on whose window has indicators, each once, in increasing order |
| Runner.StartExactly | hydra/backtest/runner.py:58-63 | Trading starts at index i if and only if i is the first index from 210 on whose candle is not before `since` |
| Runner.LimitedExactly | hydra/backtest/runner.py:42-48 | A run sees the oldest candles, 100000 at most |
| Runner.StartIndex | hydra/backtest/runner.py:58-63 | The start is the first index with at least 210 candles before it and a time not before `since`, or none |
| Runner.Window | hydra/backtest/runner.py:80 | Every window has exactly 210 candles and ends at the current one |
| Runner.BacktestRunner.FirstTradable | hydra/backtest/runner.py:58-63 | The search loop finds the start index |
| Runner.BacktestRunner.Feed | hydra/backtest/runner.py:80-89 | One round of the bar loop moves the broker to the book of one more candle, skipping candles without indicators |
| Runner.BacktestRunner.Replay | hydra/backtest/runner.py:79-89 | The bar loop leaves the broker in the book of all candles |
| Runner.BookOfBars | hydra/backtest/runner.py:79-89 | Replaying the candles one after the other, skipping those without indicators, is processing the bars they make |
| Runner.BacktestRunner.Label | hydra/backtest/runner.py:98-101 | The loop writes market and symbol into every trade and changes nothing else |
| Runner.BacktestRunner.Conclude | hydra/backtest/runner.py:91-118 | The report is read off the book after the forced close |
| Runner.BacktestRunner.Run | hydra/backtest/runner.py:31-118 | A run fails if and only if the period is empty, and otherwise reports the final book of the candles up to `until` |
| Causality.SameStates | hydra/backtest/runner.py:79-89 | On every bar of a history the run over any longer history is in the identical broker state |
| Causality.NoLookAhead | hydra/backtest/runner.py:49-96 | Longer data keeps every trade and curve point that was not forced, and the forced trade has the entry price, size, time and reason of the trade at the same place |
| Causality.EnlargingUntilKeepsHistory | hydra/backtest/runner.py:42-96 | Enlarging `until`, adding later candles to the store, or both, never rewrites the history of a backtest |
| Causality.RunCurve | hydra/backtest/broker.py:38-65 | A run yields one curve point per processed bar and per trade, in time order, ending at the unrounded final equity |
| Causality.NoTradeMeansNoBuy | hydra/backtest/broker.py:21-38 | A run ends without trade or position if and only if no bar said BUY, and then its curve is constant |
| Causality.ZeroTradeShortcut | hydra/backtest/result.py:43-51 | For every run without trades, with or without processed bars, the general return and drawdown formulas round to the zeros of the early return |

## Left out

- HTTP routes, authentication, CLI, Telegram, Docker and n8n files: input, output and user interface.
- Exchange connectors, circuit breakers, retries and the indicator library: calls succeed or raise by choice of the environment, and indicators are any function of the window.
- SQLite and Postgres stores: a query gives the oldest candles up to the limit, in strictly increasing time.
- Live indicator, regime and strategy loops: the cached indicators carry no closing price, so the live path does not agree with the backtest and no equivalence is stated.
- Several server processes: the cache read and the lock are then separate Redis operations; the at-most-once theorem is for one event loop, with process deaths and restarts.
- Fills at an exchange that accepts an order but whose reply is lost or malformed: the protocol counts calls started and calls that returned. `AtMostOneCall` bounds what a retry can double.
- Aliasing of trade records: the runner rewrites market and symbol inside shared objects; the model rebuilds the sequence.
- OrderQueue.GracefulManager.Shutdown: the thirty-second timeout is not modelled, because listing positions never suspends.
- Broker.BacktestBroker.OnSignal: candles that close at zero are excluded; the program raises a division error when it buys at one, and would sell at one.
- RateLimiter.AcquireIsLegal: negative requests are excluded; they would put tokens in instead of taking them out.
- RateLimiter.TokenBucketRateLimiter.Acquire: stops when the supplied clock readings are used up, because an acquire may wait forever; the asyncio lock that serialises acquires and the unused priority argument are not modelled.
- Watchdog.Handler.Handle: a storage call that raises has written nothing, and ticks do not overlap.
- OrderLimits.BoundIsReached: the connectors' own time limits on a call are not modelled.
- IEEE float error, logging, wall-clock timestamps in signals, the order amount and exchange fields that `submit` ignores.
- Regime sizing, sentiment averages, configuration profiles, key encryption, news and event pollers: single-function members or input and output.
