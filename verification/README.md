# Verified model of the Autonomous Investment Swarm

This project models the parts of the Autonomous Investment Swarm (AIS, `src/aiswarm/`) whose state
outlives a single call, and proves what they keep over whole runs. `dafny verify dfyconfig.toml`
checks everything.

Objects that the program mutates are classes here (order store, event store, fill tracker, shared
memory, rate limiter, circuit breaker, weight manager, autoresearch loop, risk engine, coordinator).
Each method is proved equal to a step function on values. The theorems are about those step
functions, over every sequence of calls. Floats are reals. Every clock reading is a parameter.

| files | what they model |
|---|---|
| `Common`, `Orders`, `EventLog` | shared types, orders, the append-only event store |
| `Recovery`, `OrderStore` | the order store, its replay, and crash recovery over many sessions |
| `Memory`, `FillTracker` | mandate P&L books, portfolio snapshots, and the fill sync |
| `Backtest`, `BacktestTheorems` | the bar loop of the backtester; causality, accounting, solvency |
| `RateLimiter`, `CircuitBreaker`, `Retry` | the timed state machines of the resilience layer |
| `Ranking`, `Darwinian`, `WeightManager` | agent ranking and performance-based weights |
| `Autoresearch`, `Evolution` | the trial, keep or revert loop, alone and on top of the weight manager |
| `Drift` | CUSUM and maximum drawdown, two one-pass scans |
| `RiskToken`, `RiskEngine`, `Coordinator` | approval tokens, the risk gate, and order staging |

## Where the code differs from its documentation

The model follows the code. Each point below is stated by the lemmas named with it.

- The breaker counts failures since it last closed or was reset, not consecutive ones:
  `CircuitBreakers.CountIsStreakIff` says exactly when the two numbers agree, and
  `OpensWithoutStreak` opens a breaker without two failures in a row.
- HALF_OPEN is documented as one probe. It admits every request until an outcome is recorded:
  `CircuitBreakers.ProbesUnlimited`, with `TwoProbes` as the witness.
- The move to HALF_OPEN happens only when somebody looks, so reading `state` is not free.
  `CircuitBreakers.ReadUnnoticedIff` says exactly which reads can be noticed; `LookingMatters` is one.
- `sync_fills` looks a trade id up among exchange order ids to find trades it already matched, so
  repeating a sync can book trades twice. `FillTrackers.RepeatedSyncIff` says exactly when a repeated
  list changes nothing, and `LinkedTradeBooksTwice` which trades every repetition books again;
  `SyncTwiceDoubles` is a list that does.
- A live `record_submission` indexes an empty exchange id and replay does not; a reused id of a
  pruned order is lost as well. `Recovery.SubmissionRecoverableIff` gives the exact condition, and
  `Recovery.TrackRecoverableIff` that for orders tracked without an id or tracked again.
- `execute_staged` is documented to re-validate an expired order. It drops the order. It also takes
  the order out of the store before it verifies the token, so a missing secret loses an order that is
  still good. `Coordinators.DeparturesDeserved` shows that this is the only undeserved exit, and
  `MissingSecretLoses` that it happens.
- A signal of direction 0 opens a short when the backtest is flat, because only a direction of 1 or
  more is long: `BacktestTheorems.DirectionDecides` and `NeutralRunsShort`.
- From a baseline of zero any positive Sharpe is said to be an improvement. The code asks for the
  threshold there too: `Autoresearch.HistoryJudged`, by `ImprovedIffGained`.
- A negative request can overfill the token bucket; `RateLimiter.InRangeIff` says exactly when.

## Model

| member | source | states |
|---|---|---|
| Recovery.CrashRecovery | src/aiswarm/execution/order_store.py:171-214 | after any run of calls with restarts anywhere, restoring from the whole log gives exactly the live orders and index with terminal orders pruned, from a new process or over the running one |
| Recovery.RestoredIff | src/aiswarm/execution/order_store.py:171-214 | after any run a restart gives back exactly the orders neither filled nor cancelled; these are the orders whose latest logged event is a submission or the tracking of an unfinished order; every record is what the events about its order say |
| Recovery.LogIsCalls | src/aiswarm/execution/order_store.py:55-165 | the log is the sequence of the calls that did something, one event each with the call's arguments |
| Recovery.EventsTell | src/aiswarm/execution/order_store.py:82-165 | every event carries the symbol, side, mandate and exchange id that its order had when it was logged |
| Recovery.RestartsInvisible | src/aiswarm/execution/order_store.py:171-214 | a process that crashes and restores at arbitrary points writes the same log as one that never stops, and after pruning holds the same store |
| Recovery.SubmissionRecoverableIff | src/aiswarm/execution/order_store.py:82-109 | a submission stays recoverable if and only if its exchange id is non-empty and either was not that of an order pruned earlier or is lost anyway with a terminal order still in memory |
| Recovery.TrackRecoverableIff | src/aiswarm/execution/order_store.py:55-80 | tracking an order stays recoverable if and only if it has an id (or is finished already) and does not revive the exchange id of a pruned order that no other finished order has |
| Recovery.FreshIdsAdmissible | src/aiswarm/execution/order_store.py:55-109 | fresh order ids and unshared, non-empty exchange ids meet the hypotheses of crash recovery |
| Recovery.PruneAbsorbs | src/aiswarm/execution/order_store.py:194-202 | pruning the live store gives what pruning the never-pruned history gives, so an earlier pruning leaves no trace |
| Recovery.ReplayOver | src/aiswarm/execution/order_store.py:295-379 | replaying a well-ordered log over any leftover memory overwrites it entry by entry |
| Recovery.LiveStep | src/aiswarm/execution/order_store.py:55-165 | every live writer keeps the simulation between the live store and the history its log replays to |
| Recovery.IndexAgreesWithScan | src/aiswarm/execution/order_store.py:389-394 | in every reachable state, restores included, the lookup returns a record exactly when it is the only one with that exchange id |
| OrderStores.OrderStore.Track | src/aiswarm/execution/order_store.py:55-80 | stores a new record, replacing one of the same id, and appends one tracked event |
| OrderStores.OrderStore.RecordSubmission | src/aiswarm/execution/order_store.py:82-109 | marks the record submitted, indexes its exchange id, and appends one event; an unknown order changes nothing |
| OrderStores.OrderStore.RecordFill | src/aiswarm/execution/order_store.py:111-148 | marks the record filled at the given price and quantity and appends one fill event naming its mandate |
| OrderStores.OrderStore.RecordCancel | src/aiswarm/execution/order_store.py:150-165 | marks the record cancelled and appends one event |
| OrderStores.OrderStore.ApplyLogged | src/aiswarm/execution/order_store.py:295-379 | replays one logged event in place; empty ids are ignored |
| OrderStores.OrderStore.PruneTerminal | src/aiswarm/execution/order_store.py:194-202 | the pop loop removes exactly the filled and cancelled orders and their exchange ids |
| OrderStores.OrderStore.RestoreFromEvents | src/aiswarm/execution/order_store.py:171-214 | the whole restore equals replay followed by pruning, as `RestoredIff` reads it off the log, and returns the number of orders left |
| OrderStores.OrderStore.LookupExchangeId | src/aiswarm/execution/order_store.py:389-394 | finds the record object through the index, or nothing |
| OrderStores.OrderStore.OpenOrderIds | src/aiswarm/execution/order_store.py:396-398 | exactly the orders in status SUBMITTED |
| EventLog.EventStore.Append | src/aiswarm/data/event_store.py:77-103 | appends at the end, returns the next id, and changes nothing already stored |
| EventLog.EventStore.QueryOrderEvents | src/aiswarm/execution/order_store.py:271-293 | the order events of the log, all of them, in insertion order |
| FillTrackers.SyncConserves | src/aiswarm/execution/fill_tracker.py:62-131 | one fill event per matched trade, each mandate's daily and total P&L raised by exactly the P&L of its trades, each matched order filled at the price and quantity of its latest trade, every other order untouched |
| FillTrackers.MatchingRules | src/aiswarm/execution/fill_tracker.py:66-131 | the matching rules in the store's own terms: skipped exactly if the trade id leads to a filled order; else matched by order id; else to an order that awaits it, buys for buys and sells for sells; unmatched exactly if there is none |
| FillTrackers.LowerAt | src/aiswarm/execution/fill_tracker.py:122-130 | lower-casing letter by letter: A to Z shifted, everything else kept |
| FillTrackers.TallyCounts | src/aiswarm/execution/fill_tracker.py:62-109 | each counter is the number of trades with that outcome |
| FillTrackers.CountsSplit | src/aiswarm/execution/fill_tracker.py:62-109 | matched, unmatched and already filled add up to all trades, and one fill is owed per match |
| FillTrackers.SyncSurvivesCrash | src/aiswarm/execution/fill_tracker.py:62-109 | restoring after a sync gives the pruned live store, and no matched order is open again |
| FillTrackers.SyncMatchesIff | src/aiswarm/execution/fill_tracker.py:62-131 | a sync matches something if and only if some trade of its list matches where the sync starts; otherwise it changes nothing |
| FillTrackers.RepeatedSyncIff | src/aiswarm/execution/fill_tracker.py:62-131 | repeating a sync on its list changes nothing if and only if no trade is linked to an order, or has an open order left over, without being caught under its own trade id; what it books again is added to the mandates once more |
| FillTrackers.MatchedAgainWasMatched | src/aiswarm/execution/fill_tracker.py:62-131 | whatever a repeated sync matches the first one matched too, so it is booked twice |
| FillTrackers.LinkedTradeBooksTwice | src/aiswarm/execution/fill_tracker.py:66-131 | a trade that names a known order, under a trade id that is no order's, is matched by every sync that sees it |
| FillTrackers.RepeatBooksAgainIff | src/aiswarm/execution/fill_tracker.py:66-131 | one matched trade handed in again at once: exactly when it is skipped and exactly when it is booked again; booked to the same order its P&L counts twice |
| FillTrackers.FillTracker.MatchTradeToOrder | src/aiswarm/execution/fill_tracker.py:111-131 | the exchange-id match if there is one, else some open order on the symbol and side, else nothing |
| FillTrackers.FillTracker.SyncFills | src/aiswarm/execution/fill_tracker.py:44-109 | every trade is settled by the matching rules in order, and the counters count the outcomes |
| Memory.TrackerExplained | src/aiswarm/orchestration/memory.py:12-71 | after any updates and resets a tracker holds today's sum, the total, and the running peak of what was booked to it |
| Memory.MandateDrawdown | src/aiswarm/orchestration/memory.py:22-27 | a mandate's drawdown is the exact fraction of its running total below its running peak, and zero while it never rose |
| Memory.DrawdownFromHighestNav | src/aiswarm/orchestration/memory.py:40-49 | the rolling drawdown is the exact fraction below the highest NAV ever seen, and lies in [0, 1) |
| Memory.SharedMemory.UpdateSnapshot | src/aiswarm/orchestration/memory.py:40-49 | one snapshot updates peak, drawdown and leverage as specified |
| Memory.SharedMemory.GetMandateTracker | src/aiswarm/orchestration/memory.py:54-58 | returns the mandate's own tracker object, created empty when missing |
| Memory.SharedMemory.UpdateMandatePnl | src/aiswarm/orchestration/memory.py:60-66 | moves one mandate's tracker and no other |
| Memory.SharedMemory.ResetDailyMandatePnl | src/aiswarm/orchestration/memory.py:68-71 | zeroes every daily P&L and nothing else |
| Backtest.Run | src/aiswarm/backtest/engine.py:190-309 | the engine's loops compute the specified result, including both error cases |
| Backtest.ComputeStatistics | src/aiswarm/backtest/engine.py:376-427 | the one-pass counters are the counts and sums of the winning and losing trades |
| BacktestTheorems.BarByBar | src/aiswarm/backtest/engine.py:219-273 | every bar spelled out: it trades exactly on a signal, made from the candles up to this bar, from flat or against the position; it executes at this bar's close moved against the trader by the slippage; an opening spends the configured fraction of the cash; the commission and the equity point in full |
| BacktestTheorems.BarFailsIff | src/aiswarm/backtest/engine.py:325-353 | a bar fails exactly by opening at a price of zero |
| BacktestTheorems.SharesAgree | src/aiswarm/backtest/engine.py:376-427 | win counts, win rate and profit factor, from the trades themselves |
| BacktestTheorems.NoLookAhead | src/aiswarm/backtest/engine.py:219-294 | a run on a prefix of the candles gives that prefix of the equity curve, and the same trades up to there plus at most one forced close |
| BacktestTheorems.Causality | src/aiswarm/backtest/engine.py:219-273 | histories that agree up to a candle give the same state after it |
| BacktestTheorems.ForcedCloseIsNeutral | src/aiswarm/backtest/engine.py:275-294 | the forced close leaves the last equity point as it was marked and adds at most one trade |
| BacktestTheorems.Accounting | src/aiswarm/backtest/engine.py:214-294 | final capital is initial capital plus all trade P&L minus every commission; opens and closes alternate with equal quantity and opposite side |
| BacktestTheorems.StatisticsAgree | src/aiswarm/backtest/engine.py:376-427 | wins' profit less losses' loss, as reported, is the total P&L |
| BacktestTheorems.LongOnlySolvent | src/aiswarm/backtest/engine.py:239-273 | with p*k <= 1 and p <= (1 - p*k)^2, cash and every equity point of a long-only run stay positive |
| BacktestTheorems.SolventIffAffordable | src/aiswarm/backtest/engine.py:239-374 | that condition is exact: it holds if and only if every long-only strategy survives every positive price path |
| BacktestTheorems.RoundTripCost | src/aiswarm/backtest/engine.py:313-359 | entering and leaving at one close costs twice the slippage, long or short |
| BacktestTheorems.DirectionDecides | src/aiswarm/backtest/engine.py:239-273 | from flat a direction of 0 or less opens short and any other long; an open position closes only on the opposite sign, and 0 leaves it alone |
| BacktestTheorems.NeutralRunsShort | src/aiswarm/backtest/engine.py:219-273 | a generator that is always neutral opens one short at the first bar and holds it to the end |
| BacktestTheorems.CommissionIsRate | src/aiswarm/backtest/engine.py:320-323 | a commission leaves the fraction 1 - p*k of the cash |
| RateLimiter.WindowBound | src/aiswarm/resilience/rate_limiter.py:66-116 | tokens granted between t1 and t2 total at most max_tokens + refill_rate * (t2 - t1), in every run, negative requests counted as negative grants |
| RateLimiter.WindowBoundReachedIff | src/aiswarm/resilience/rate_limiter.py:66-116 | the bound is the best one: a fresh bucket attains it in every window, if and only if it has capacity or would not refill in that window |
| RateLimiter.GrantedIffRoom | src/aiswarm/resilience/rate_limiter.py:66-116 | a request is granted if and only if every window that ends with it, from the start or an earlier call, has room for it under the bound, so no limiter keeping the bound grants more |
| RateLimiter.CountersCount | src/aiswarm/resilience/rate_limiter.py:66-87 | `allowed` and `throttled` each count their own decisions |
| RateLimiter.LevelStaysInRange | src/aiswarm/resilience/rate_limiter.py:66-116 | without negative requests the level stays in [0, max_tokens], and every acquire is counted once |
| RateLimiter.InRangeIff | src/aiswarm/resilience/rate_limiter.py:66-87 | exactly which requests keep the level in range |
| RateLimiter.StatsChangeNoDecision | src/aiswarm/resilience/rate_limiter.py:98-116 | inserting or removing `stats` calls changes no decision |
| RateLimiter.TokenBucketRateLimiter.TryAcquire | src/aiswarm/resilience/rate_limiter.py:66-87 | refills, then grants and deducts, or throttles |
| RateLimiter.TokenBucketRateLimiter.GetStats | src/aiswarm/resilience/rate_limiter.py:98-109 | refills and reports |
| CircuitBreakers.DeterminedByTrace | src/aiswarm/resilience/circuit_breaker.py:121-231 | the failure count is the number of failures since the last close or reset; CLOSED exactly while that is zero or below the threshold; the phase follows from the timed trace |
| CircuitBreakers.CountersExplained | src/aiswarm/resilience/circuit_breaker.py:121-217 | over every trace the statistics count successes, failures and rejected requests, and keep the latest time of each outcome |
| CircuitBreakers.RejectedIff | src/aiswarm/resilience/circuit_breaker.py:121-137 | exactly which requests are rejected under a non-decreasing clock |
| CircuitBreakers.NothingPassesWhileOpen | src/aiswarm/resilience/circuit_breaker.py:121-231 | without a reset nothing passes from opening until recovery_timeout after the latest failure, and every request is counted as rejected |
| CircuitBreakers.ReadMattersIff | src/aiswarm/resilience/circuit_breaker.py:115-231 | a read changes what the next event leaves behind if and only if it moved the breaker and that event is a success, which then closes the breaker instead of being merely counted |
| CircuitBreakers.ReadUnnoticedIff | src/aiswarm/resilience/circuit_breaker.py:115-231 | over runs: a read slipped in anywhere can never be noticed from the next event on, if and only if that is not the case |
| CircuitBreakers.CountIsStreakIff | src/aiswarm/resilience/circuit_breaker.py:139-189 | the failure count is the number of consecutive failures if and only if no success came after a failure since the last close; otherwise it is larger |
| CircuitBreakers.ProbesUnlimited | src/aiswarm/resilience/circuit_breaker.py:121-137 | a half-open breaker admits every request, in any number, until an outcome is recorded |
| CircuitBreakers.CircuitBreaker.AllowRequest | src/aiswarm/resilience/circuit_breaker.py:121-137 | decision and new state of one request |
| CircuitBreakers.CircuitBreaker.ReadState | src/aiswarm/resilience/circuit_breaker.py:115-119 | the `state` property moves an open breaker whose timeout has passed, and returns the phase |
| CircuitBreakers.CircuitBreaker.RecordSuccess | src/aiswarm/resilience/circuit_breaker.py:139-156 | closes the breaker only from HALF_OPEN |
| CircuitBreakers.CircuitBreaker.RecordFailure | src/aiswarm/resilience/circuit_breaker.py:158-189 | opens from HALF_OPEN at once, from CLOSED at the threshold |
| CircuitBreakers.CircuitBreaker.ResetBreaker | src/aiswarm/resilience/circuit_breaker.py:191-202 | closes and forgets the failures, keeping the totals |
| Retry.SyncWrapper | src/aiswarm/resilience/retry.py:88-142 | the loop, driving the mutable breaker, computes the specified result and leaves the specified breaker |
| Retry.FailingRun | src/aiswarm/resilience/retry.py:93-142 | when all calls fail against a closed breaker with f failures and no sleep between attempts reaches the timeout, exactly min(max_attempts, threshold - f) calls are made, each is recorded once, and the exception reports that number; in which phase the breaker ends is exact as well |
| Retry.LastBackoffBounds | src/aiswarm/resilience/retry.py:53-63 | the sleeps are that short whenever the last backoff that can be taken is below the timeout |
| Retry.EveryCallRecorded | src/aiswarm/resilience/retry.py:93-142 | whatever happens, `RetryExhausted` reports the calls made, and the breaker hears of every call once except a non-retryable failure |
| Retry.FirstDecisiveAttempt | src/aiswarm/resilience/retry.py:93-142 | without a breaker the first call that is no retryable failure decides the result, or the last attempt does; the time spent is that of the calls made and the sleeps between them |
| Retry.DelayExact | src/aiswarm/resilience/retry.py:53-63 | without jitter the delay is the backoff, with it the draw places it between the half and the whole |
| Retry.BackoffDoubles | src/aiswarm/resilience/retry.py:53-63 | the delay doubles until it reaches its cap and never shrinks |
| Retry.JitterBounds | src/aiswarm/resilience/retry.py:53-63 | jitter at most halves a delay and never lengthens it |
| Ranking.SortedByRank | src/aiswarm/evolution/darwinian.py:156-198 | the stable descending sort puts each agent where counting the agents ahead of it predicts |
| Ranking.RankedSize | src/aiswarm/evolution/darwinian.py:156-198 | a block of consecutive ranks holds exactly that many agents |
| Ranking.LessIsOrder | src/aiswarm/evolution/darwinian.py:156-198 | Sharpe ratios are totally ordered, finite ones as numbers, with infinity on top |
| Darwinian.UpdateSelects | src/aiswarm/evolution/darwinian.py:200-238 | an update boosts exactly the top group, decays exactly the bottom group, and clamps everybody |
| Darwinian.UpdateMoves | src/aiswarm/evolution/darwinian.py:200-238 | each weight is multiplied by the factor of its group and kept within the bounds; a positive weight strictly inside them rises with a boost above one, falls with a decay below one, and stays in the middle |
| Darwinian.TableRow | src/aiswarm/evolution/darwinian.py:132-198 | the agent that is r-th best stands in row r with its Sharpe, win share, trade count, weight and quartile |
| Darwinian.SharpeOverRun | src/aiswarm/evolution/darwinian.py:107-146 | after any run an agent's Sharpe is the statistic of all outcomes ever recorded for it from the cutoff on, and none with too few |
| Darwinian.ConvictionAt | src/aiswarm/evolution/darwinian.py:118-131 | each return is weighted by its confidence |
| Darwinian.WeightsSet | src/aiswarm/evolution/darwinian.py:262-269 | setting a weight keeps it within the bounds, adding an agent does not, and nobody else is touched |
| Darwinian.UpdatesCounted | src/aiswarm/evolution/darwinian.py:200-238 | the update counter counts the weight updates of a run |
| Darwinian.GroupsAreExtremes | src/aiswarm/evolution/darwinian.py:156-198 | the groups have max(1, n//4) agents each, are disjoint, and nobody outside the top is better than anybody in it, nor anybody outside the bottom worse |
| Darwinian.InitialisedStep | src/aiswarm/evolution/darwinian.py:82-87 | each turn of the constructor keeps the list in order of first mention with one initial weight each |
| Darwinian.StepKeepsValid | src/aiswarm/evolution/darwinian.py:107-269 | every operation keeps exactly one weight for each listed agent, listed once |
| Darwinian.UpdateClamps | src/aiswarm/evolution/darwinian.py:200-238 | after an update every weight is within the bounds |
| Darwinian.WorstIsFirstLeast | src/aiswarm/evolution/darwinian.py:240-256 | the worst agent is the first with the least finite Sharpe among those with enough data |
| Darwinian.PruningInvisible | src/aiswarm/evolution/darwinian.py:107-256 | under a non-decreasing clock, weights, table and worst agent are now and later those of a manager that keeps every outcome |
| WeightManagers.DarwinianWeightManager.constructor | src/aiswarm/evolution/darwinian.py:70-95 | every listed agent once, in order of first mention, with its initial weight or 1.0 |
| WeightManagers.DarwinianWeightManager.RecordOutcome | src/aiswarm/evolution/darwinian.py:107-109 | appends the outcome to its agent's journal |
| WeightManagers.DarwinianWeightManager.PruneOldOutcomes | src/aiswarm/evolution/darwinian.py:111-116 | the in-place loop keeps exactly the outcomes from the cutoff on |
| WeightManagers.DarwinianWeightManager.ComputePerformance | src/aiswarm/evolution/darwinian.py:156-198 | prunes, then tabulates the ranked agents |
| WeightManagers.DarwinianWeightManager.UpdateWeights | src/aiswarm/evolution/darwinian.py:200-238 | the multiply-and-clamp loop computes the specified weights and returns them |
| WeightManagers.DarwinianWeightManager.GetWorstAgent | src/aiswarm/evolution/darwinian.py:240-256 | the scan computes the specified agent and prunes nothing |
| WeightManagers.DarwinianWeightManager.SetWeight | src/aiswarm/evolution/darwinian.py:262-264 | clamps the given weight and keeps one weight per agent |
| WeightManagers.DarwinianWeightManager.AddAgent | src/aiswarm/evolution/darwinian.py:266-269 | adds an unknown agent, unclamped, and changes no known one |
| Autoresearch.HistoryExplainsRun | src/aiswarm/evolution/autoresearch.py:186-358 | in every reachable state each parameter is the active trial's value, else that of its last kept modification, else its registered one |
| Autoresearch.HistoryJudged | src/aiswarm/evolution/autoresearch.py:297-358 | over every run: each entry of the history was judged by the table of the cycle that resolved it, and kept exactly if its agent's Sharpe gained the threshold as a share of the baseline's size (or the threshold itself from zero) |
| Autoresearch.KeptMeansBetter | src/aiswarm/evolution/autoresearch.py:308-323 | with a positive threshold a kept trial beat its baseline, and a higher final Sharpe is never reverted instead |
| Autoresearch.TrialsBegun | src/aiswarm/evolution/autoresearch.py:207-295 | over every run: each trial was begun by the cycle of its proposal, on the worst agent then, moving the picked parameter one step (or one step back at a bound), from the Sharpe in that cycle's table |
| Autoresearch.ProposesIff | src/aiswarm/evolution/autoresearch.py:207-258 | exactly when a quiet cycle begins a trial: known worst agent, cooldown since its latest proposal over, a picked parameter that can move |
| Autoresearch.OneStepIsShort | src/aiswarm/evolution/autoresearch.py:244-255 | within the bounds a move is no longer than a step |
| Autoresearch.DefaultsWithin | src/aiswarm/evolution/autoresearch.py:82-103 | the default parameters start within bounds that leave room for a step |
| Autoresearch.RevertsRestore | src/aiswarm/evolution/autoresearch.py:319-357 | run on from any quiet point to another with only reverted trials in between, and every parameter of every agent is back where it was |
| Autoresearch.BoundsHold | src/aiswarm/evolution/autoresearch.py:239-262 | a parameter registered within its bounds never leaves them |
| Autoresearch.TrialDiscipline | src/aiswarm/evolution/autoresearch.py:186-358 | one trial at a time, counter equals history plus trial, history resolved after max(1, trial_cycles) cycles, proposals a full trial plus one cycle apart and per agent at least the cooldown apart |
| Autoresearch.DefaultsDistinct | src/aiswarm/evolution/autoresearch.py:82-103 | the default tuning tables name each parameter once, as the other results need |
| Evolution.EvolutionIgnoresPruning | src/aiswarm/evolution/autoresearch.py:186-358 | the whole system, weights, trials and tuned parameters, behaves as if the manager never forgot |
| Evolution.AutoresearchLoop.RegisterAgent | src/aiswarm/evolution/autoresearch.py:153-184 | registers defaults with the caller's values once; a known agent is left alone |
| Evolution.AutoresearchLoop.StepCycle | src/aiswarm/evolution/autoresearch.py:186-205 | one cycle of loop and manager is the specified step of the whole system; returns the trial left active or just resolved |
| Evolution.AutoresearchLoop.ProposeModification | src/aiswarm/evolution/autoresearch.py:207-295 | proposes and returns the specified trial, or none; prunes the manager only when it does |
| Evolution.AutoresearchLoop.ResolveTrial | src/aiswarm/evolution/autoresearch.py:297-358 | keeps or reverts, moves the trial to history and returns it |
| Drift.CusumTest | src/aiswarm/quant/drift.py:136-203 | drift is reported exactly when some stretch of the normalised data moves up or down by more than the threshold; the score is the maximum over all segments, floored at 0 |
| Drift.DriftInData | src/aiswarm/quant/drift.py:178-203 | in the data's own terms: some stretch ran above, or below, the mean by more than the threshold and its allowances, in deviations |
| Drift.CusumScan | src/aiswarm/quant/drift.py:178-190 | the two one-pass maxima are the maximum segment sums of the rises and of the falls |
| Drift.HighestIsMaxSegment | src/aiswarm/quant/drift.py:178-190 | the running maximum of the restarting accumulator is the maximum over all contiguous segments |
| Drift.MaxDrawdown | src/aiswarm/intelligence/profiler.py:154-168 | the one pass finds the largest fall over all pairs i <= j, starting from zero |
| Drift.PeakGapIsCusum | src/aiswarm/intelligence/profiler.py:154-168 | at every step the gap below the running peak is the negative CUSUM accumulator with zero allowance |
| RiskToken.TokenRoundTrip | src/aiswarm/risk/limits.py:49-128 | for all ids and keys, a signed token verifies exactly for its own colon-free id, 0 to 300 seconds after the whole second it was signed in, under the current or previous secret |
| RiskToken.TokenShape | src/aiswarm/risk/limits.py:49-66 | a token is id, whole second, key id and the signature of these three, joined by colons |
| RiskToken.PyIntIff | src/aiswarm/risk/limits.py:98-106 | what `int` accepts in a token, and the value it gives: spaces, a sign, digits with single underscores |
| RiskToken.TokenWithoutSecret | src/aiswarm/risk/limits.py:86-128 | with no secret set, verifying a signed token is an error exactly while it is in time for its own id |
| RiskToken.VerifiesIffGenuine | src/aiswarm/risk/limits.py:86-128 | any string verifies exactly when it is a recent four-part token signed with a secret of the verifier |
| RiskToken.JoinSplit | src/aiswarm/risk/limits.py:86-98 | splitting on colons loses nothing and leaves no colon in a part |
| RiskToken.DecimalRoundTrip | src/aiswarm/risk/limits.py:49-66 | parsing inverts printing of every natural number |
| RiskEngines.RiskEngine.Validate | src/aiswarm/risk/limits.py:165-224 | approval exactly when every global limit is respected, with a token for this order; otherwise exactly the broken limits as reasons |
| RiskEngines.RiskEngine.ValidateWithMandate | src/aiswarm/risk/limits.py:226-303 | the same with the mandate's budget on top; its reasons only after the global limits pass; the kill switch trips as in `validate` |
| RiskEngines.LimitsMean | src/aiswarm/risk/limits.py:165-224 | the global limits in money, shares being of the NAV, or of a million while there is no snapshot |
| RiskEngines.BudgetMeans | src/aiswarm/risk/limits.py:226-303 | the mandate's budget in money: loss against its capital, drawdown against its own peak, exposure and size |
| Coordinators.StagingSafe | src/aiswarm/orchestration/coordinator.py:43-188 | a staged order leaves the store exactly once; whatever is handed out passed every guard when approved, carries a token for its own id, is re-verified if staged, and is handed out once |
| Coordinators.ReleasedAsIntended | src/aiswarm/orchestration/coordinator.py:43-130 | over every run: whatever is handed out or staged is the order of a round with an open session, no mandate refusal and all limits kept, changed only in mandate id, token and status |
| Coordinators.RoundIff | src/aiswarm/orchestration/coordinator.py:43-130 | and every such round gets its order through while a secret is set: handed out at once, or staged in staging mode |
| Coordinators.DeparturesDeserved | src/aiswarm/orchestration/coordinator.py:134-188 | why every order left: executed exactly if its token was in time and signed with an accepted secret, refused exactly if rejected by hand, else dropped; a dropped order was still good only if it was executed in time with the secret unset |
| Coordinators.StagedTokens | src/aiswarm/orchestration/coordinator.py:134-167 | in every reachable state a staged order's token verifies exactly while it is in time and its secret accepted, and is an error exactly while it is in time and the secret is unset |
| Coordinators.ListingKeepsGood | src/aiswarm/orchestration/coordinator.py:134-147 | listing with a secret set keeps exactly the orders that are still good |
| Coordinators.MissingSecretLoses | src/aiswarm/orchestration/coordinator.py:149-167 | executing any staged order with the secret unset drops it without handing it out, and raises exactly if it was still in time |
| Coordinators.ExitsAreFinal | src/aiswarm/orchestration/coordinator.py:134-188 | an order that left never comes back, and how it left never changes |
| Coordinators.StagedOrdersAreRecent | src/aiswarm/orchestration/coordinator.py:149-167 | a staged order is executed only 0 to 300 seconds after its approval was signed, by a secret still accepted |
| Coordinators.Coordinator.CoordinateRound | src/aiswarm/orchestration/coordinator.py:43-130 | returns, stages or drops the order as specified; a missing secret is an error only when a token is needed |
| Coordinators.Coordinator.GetStagedOrders | src/aiswarm/orchestration/coordinator.py:134-147 | lists the orders that still verify and forgets exactly the others |
| Coordinators.Coordinator.ExecuteStaged | src/aiswarm/orchestration/coordinator.py:149-167 | takes the order out, and hands it out exactly when its token verifies |
| Coordinators.Coordinator.RejectStaged | src/aiswarm/orchestration/coordinator.py:178-188 | takes the order out and returns it as rejected |

## Left out

- Recovery.CrashRecovery: a crash between the in-memory change and the append is not modelled; each locked method is one atomic step.
- Recovery.IndexAgreesWithScan: assumes that each order is tracked and submitted once, since a second submission leaves the first exchange id in the index.
- OrderStores.OrderStore.OpenOrderIds: a set, where the source returns a list in dictionary order.
- FillTrackers.FillTracker.SyncFills: holds for whichever candidate the fallback takes for each trade.
- FillTrackers.FillTracker.MatchTradeToOrder: the fallback may pick any matching open order, where the source picks the first in dictionary order.
- Backtest.Run: the risk metrics of the result are left out.
- Backtest.ComputeStatistics: leaves the Sharpe, Sortino and drawdown figures of the result out.
- Drift.CusumTest: the standard deviation is a parameter.
- Darwinian.PruningInvisible: the Sharpe statistic is an uninterpreted function of the confidence-weighted returns.
- RateLimiter.TokenBucketRateLimiter.GetStats: does not round the reported level.
- Retry.SyncWrapper: models the synchronous wrapper; the asynchronous one has the same loop.
- RiskToken.TokenRoundTrip: the keyed hash is any colon-free function that differs for different secrets; no cryptographic claim is made. `int()` is modelled for ASCII digits and spaces, and clocks before 1970 are left out.
- Coordinators.Coordinator.GetStagedOrders: a set, where the source returns a list in insertion order.
- Coordinators.Coordinator.CoordinateRound: takes the allocated order and the mandate's tracker as inputs.
- Coordinators.StagingSafe: assumes that the allocator gives every order a new id. Arbitration and allocation are left out; a round starts with the order they produce.
- Evolution.AutoresearchLoop.StepCycle: modifications and parameter records are values, so sharing of those objects with callers is not captured; one clock reading stands for the several that a step takes; creation and resolution times and the text form of modification ids are left out.
- SQLite, JSON, ISO timestamps, Redis, Prometheus, logging and the decision log: the log is a sequence of typed events, and encoding is assumed to be the identity.
- Float rounding: prices, weights and clocks are reals, and a zero divisor is an explicit error.
- `submitted_at`, stale-order queries and `persist_snapshot`: times are stamped again on replay, and the snapshot is derived data.
- `wait_and_acquire` of the rate limiter, the gauges of the breaker, and the emergency cancels of the kill switch.
- Commission fields of exchange trades; symbol normalisation is a function parameter of the fill tracker.
- JANUS weighting, indicator agents, the futures generator, exchange providers, mandate rules, the API and the command line.
