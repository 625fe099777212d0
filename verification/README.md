# Verification of the trading harness

A Dafny 4.11 model of the isolated executor and of the backtest engine, with proofs of
what they promise. `dafny verify dfyconfig.toml` checks the whole project.

## What is modelled

The executor decides, one serialized step at a time, whether to reconcile, recover,
protect or enter, and it fails closed. The modules follow its parts:

- `RuntimeStore` and `ExecutorRuntime`: the fenced runtime projection and the strict
  priority lanes over it. Handlers, scans and loss snapshots answer arbitrarily, a
  shutdown signal may arrive between any two checks, and other processes may act on the
  store before every access.
- `WorkScanner`: durable records become prioritised work items.
- `ExecutorService`: which evidence of one tick permits an entry.
- `RecoveryStore`, `RecoveryRuns`, `SafetyController`: the recovery records, the account
  safety decision, and the at-most-once noop fence over every interleaving of
  evaluations with the steps of other processes.
- `RecoveryHandler`: the reconciliation of one submitted recovery.
- `ComposedSafety`: the real safety handler and startup reconciler put into the runtime.
- `Dispatcher`: the persist-before-send protocol as a trace of calls, each of which may
  fail with any of the exceptions the dispatcher distinguishes.
- `SubmissionGuard`: lock, capability and shutdown flag as a step relation in which
  guards, signal handlers and halting threads interleave freely.
- `Coverage`, `DailyLoss`, `DailyLossRuns`: the append-only ledger, the interval sweep
  and the newest common watermark.
- `RiskBudget`: account risk snapshot and dispatch preflight.
- `ReadyConsumer`: one marker admitted at a time, and progress over many ticks.
- `WirePrice`, `Canonical`, `Decimals`: tick rounding, the canonical decimal text and
  the material of a domain-separated hash.
- `Strategy`, `Backtest`, `BacktestRuns`, `BacktestMetrics`: indicators and signals,
  one simulated position, a whole backtest, and its metrics, bootstrap and folds.

Conventions. Decimal values are exact rationals: integers counted in a power of ten
where digits matter, reals elsewhere. Instants of the loss ledger are reals, other times
are microseconds. Hashes, identifiers derived from hashes, and pseudo-random draws are
function parameters. Exceptions are result constructors. State the source changes in
place is a field of a class; each method is proved against a function of its inputs and
old state, and the properties are proved about that function or as an invariant.

## Where the code does not do what it says, and when it does

- The order in which loss events arrive changes the budget when two acceptable calls
  share an id or a source reference with different content (`ConflictMakesOrderMatter`).
  Every order gives the same stored events if and only if no two acceptable calls
  conflict (`OrderDoesNotMatterExactly`).
- Two coverage intervals that merely abut, one ending a clock tick before the next
  begins, count as a gap (`TickGap`). `TickExact` says which tick lists are accepted.
- A short close bound below one tick rounds to zero and is refused, while the same
  value is accepted for a long (`ShortBelowOneTick`, exact in `AcceptedExactly`).
- `latest_complete_snapshot` reads the clock twice. A current watermark is refused with a
  validation error exactly when the second reading falls on another day or before the
  watermark (`LatestCompleteSnapshot`; `MidnightRefuses` and `BackwardClockRefuses` show
  both).
- A shutdown signal that finds the lock taken may set its flag between a guard's read of
  the flag and the start of the body (`LateBodyHappens`). A body can start late if and
  only if some guard has passed the flag by then with a status that admits it
  (`LateAfterSignalExactly`), at most one does (`OneLateBody`), and none does when the
  signal got the lock (`AcquiredSignalIsFinal`).
- A manual halt persisted while a guard decides may come too late in the same way
  (`LateBodyAfterHaltHappens`): while it stays persisted a body can start if and only if
  some guard can start on the status it read before (`LateAfterHaltExactly`), which needs
  a guard that holds the lock.
- When a claim on a recovery expires, an attempt that had already started sending becomes
  `submitted_unknown`, but a merely prepared one becomes terminal
  (`ExpiredAttemptContinuesExactly`); the recovery handler expects the former and raises
  on the latter (`PreparedAttemptRaises`).
- When evidence ages or the lease runs out between the claim on a recovery and its use,
  the recovery handler gives the claim back and answers a wait that changed the store,
  which the result type rejects, so the runtime halts (`AgedAnswerHalts`). `ReconcileNext`
  says for which evidence, lease and clock readings this happens.
- `dry_run` forecasts an entry while the gate is not ready once shutdown was requested
  (`ShutdownHidesGate`, exact in `ForecastsExactly`).
- The consumer raises on a newly expired marker when its cache of expired markers is full
  (`FullCacheRaises`), exactly when such a marker comes before the smallest candidate
  (`AcceptingRaisesExactly`).

## Model

| member | source | states |
|---|---|---|
| WirePrice.AcceptedExactly | src/trading_harness/account_safety_controller.py:332-360 | a value gets a wire price if and only if it is positive, the size decimals are 0 to 6, a short reaches the finest tick, and a long is at most 99999·10^44 or a short below 10^49 |
| WirePrice.RangeExactly | src/trading_harness/account_safety_controller.py:332-360 | the rounded price stays in the persisted decimal range exactly for raw bounds up to that limit: a long above five nines carries out of it |
| WirePrice.OneTickExactly | src/trading_harness/account_safety_controller.py:343-346 | a value reaches its quantum exactly when it reaches the finest tick of the instrument |
| WirePrice.RoundsTowardTheBook | src/trading_harness/account_safety_controller.py:332-360 | an accepted price is a multiple of its quantum, within one quantum on the book side, within the venue's digit limits, and rounding it again changes nothing |
| WirePrice.RoundedIsOwnMultiple | src/trading_harness/account_safety_controller.py:332-360 | the rounded price is a multiple of the quantum computed for itself, even after a carry into the next power of ten |
| WirePrice.RoundedOnTick | src/trading_harness/hyperliquid_wire.py:150-169 | the rounded price has at most five significant digits and six minus szDecimals decimals, so the wire formatter accepts it |
| WirePrice.SlippageNeverWidens | src/trading_harness/account_safety_controller.py:1128-1157 | a long close bound is at least bid·(1−bps/10000) and a short one at most ask·(1+bps/10000), for every book price, size precision and slippage |
| WirePrice.ShortBelowOneTick | src/trading_harness/account_safety_controller.py:332-360 | a positive value that a long may use and a short may not |
| Canonical.RoundTrip | src/trading_harness/canonical.py:36-77 | parsing the canonical text of a bounded decimal gives its exact value |
| Canonical.NormalForm | src/trading_harness/canonical.py:36-77 | two bounded decimals have the same text if and only if they are numerically equal, whatever their sign of zero, trailing zeros and exponents |
| Canonical.EqualValuesEqualText | src/trading_harness/canonical.py:59-77 | equal values written with different exponents print the same |
| Canonical.DomainMaterialInjective | src/trading_harness/canonical.py:157-163 | no two pairs of domain and encoding share their digest material, because a domain holds no NUL |
| Coverage.CoverageStatus | src/trading_harness/daily_loss.py:1045-1073 | the sweep is complete if and only if every instant of the window lies in a stored interval, for any list in any order; otherwise, when coverage starts in time, its end is the end of the maximal covered prefix |
| Coverage.PrefixStops | src/trading_harness/daily_loss.py:1045-1073 | when every interval ends by a point or starts after a later barrier, the covered prefix is maximal at that point |
| Coverage.TickExact | src/trading_harness/daily_loss.py:1045-1073 | on whole ticks a list is gap-free if and only if the start is covered and each two neighbouring ticks share an interval |
| Coverage.TickGap | src/trading_harness/daily_loss.py:1045-1073 | a list that covers every tick and still has a gap |
| DailyLoss.DailyLossLedger.AppendEvent | src/trading_harness/daily_loss.py:731-800 | a future or negative row is refused; otherwise the new rows and the answer are those of the append specification, so exact replays and conflicts leave the ledger unchanged |
| DailyLoss.DailyLossLedger.RecordRealizedPnl | src/trading_harness/daily_loss.py:802-822 | a loss is charged in full and a gain not at all |
| DailyLoss.DailyLossLedger.RecordFee | src/trading_harness/daily_loss.py:824-843 | a negative fee is refused, every other fee is charged in full |
| DailyLoss.DailyLossLedger.RecordFunding | src/trading_harness/daily_loss.py:845-865 | funding paid is charged, funding received is not |
| DailyLoss.DailyLossLedger.RecordCoverage | src/trading_harness/daily_loss.py:867-937 | a new interval is stored exactly when no id or cursor clashes, accepted silently exactly when it repeats a stored record, and otherwise a conflict |
| DailyLoss.ReplayIsOnlyMatch | src/trading_harness/daily_loss.py:896-921 | with unique records a repeated one is the only match of the two uniqueness rules |
| DailyLoss.DailyLossLedger.SourceStatus | src/trading_harness/daily_loss.py:1001-1073 | the sweep over one stream's rows, in terms of the stored records |
| DailyLoss.DailyLossLedger.Snapshot | src/trading_harness/daily_loss.py:1075-1194 | each error exactly when its condition holds; the totals are the sums over the day's window, remaining stays within 0 and the limit, and the missing streams are exactly those with a gap |
| DailyLoss.DailyLossLedger.Totals | src/trading_harness/daily_loss.py:1134-1149 | the loop gives the charges of each kind in the window, their number, and together what is used |
| DailyLoss.ChargesAddUp | src/trading_harness/daily_loss.py:1134-1149 | what is used is the sum of the three kinds of charge |
| DailyLoss.UsedGrows | src/trading_harness/daily_loss.py:1134-1150 | more rows and a later instant never lower what is used |
| DailyLoss.CommonIsWatermark | src/trading_harness/daily_loss.py:1239-1261 | the earlier of the two covered prefixes is the one greatest instant up to which both streams are gap-free from midnight |
| DailyLoss.DailyLossLedger.LatestCompleteSnapshot | src/trading_harness/daily_loss.py:1196-1261 | missing coverage exactly when a stream does not reach midnight; for rows written by the first clock reading, staleness exactly when the common watermark is too old, and a validation error exactly when a current watermark lies after the second reading or the second reading on another day; otherwise the snapshot is taken at the common watermark, complete |
| DailyLoss.DailyLossLedger.NewestWatermark | src/trading_harness/daily_loss.py:1219-1260 | the earlier of the two covered prefixes, gap-free from midnight in both streams, or the reason why there is none |
| DailyLoss.MidnightRefuses | src/trading_harness/daily_loss.py:1094-1097 | complete coverage refused because the second clock reading falls on the next day |
| DailyLoss.BackwardClockRefuses | src/trading_harness/daily_loss.py:1094-1097 | complete coverage refused on one day because the second clock reading is the earlier one |
| DailyLossRuns.AppendDecides | src/trading_harness/daily_loss.py:756-800 | in a ledger with unique keys the three outcomes are exactly: nothing clashes, the same event is stored, or neither |
| DailyLossRuns.UsedNeverDecreases | src/trading_harness/daily_loss.py:731-865 | over any series of calls what is used never falls for a later instant, and every stored row stays valid |
| DailyLossRuns.OrderDoesNotMatterExactly | src/trading_harness/daily_loss.py:731-800 | every arrival order stores the same events if and only if no two acceptable calls conflict |
| DailyLossRuns.UsedIgnoresOrder | src/trading_harness/daily_loss.py:731-800 | compatible calls use the same budget in every arrival order |
| DailyLossRuns.FirstWins | src/trading_harness/daily_loss.py:756-800 | two acceptable calls that conflict make the outcome depend on the order |
| DailyLossRuns.ConflictMakesOrderMatter | src/trading_harness/daily_loss.py:756-800 | two fees with one id leave different budgets in the two orders |
| Strategy.ValidateSeries | src/trading_harness/strategy.py:249-278 | accepts exactly the series of one instrument and timeframe whose candles follow each other without a gap |
| Strategy.Ema | src/trading_harness/strategy.py:281-297 | the loop gives the recursive exponential average from the first full window on, and nothing before it |
| Strategy.EmaBounds | src/trading_harness/strategy.py:281-297 | every average lies between the lowest and the highest value seen so far |
| Strategy.RangeSeries | src/trading_harness/strategy.py:300-315 | the true range of every candle against the previous close |
| Strategy.Wilder | src/trading_harness/strategy.py:316-331 | the loop gives the recursively smoothed average from the first full window on |
| Strategy.FeatureSeries | src/trading_harness/strategy.py:346-378 | features exist exactly from the index where the slow average does, and are those of that index |
| Strategy.ScanSignals | src/trading_harness/strategy.py:381-453 | refuses exactly the invalid series and otherwise gives one signal per candle from the warm-up on |
| Strategy.SignalsLookBack | src/trading_harness/strategy.py:381-453 | the signals of a prefix are a prefix of the signals: no signal depends on a later candle |
| Strategy.NeverTwiceInARow | src/trading_harness/strategy.py:396-424 | the same direction is never signalled on two candles in a row |
| Strategy.DirectionalHasRange | src/trading_harness/strategy.py:300-331 | a directional signal has a positive average true range, so the backtest never divides by zero |
| Backtest.SimulateTrade | src/trading_harness/backtest.py:332-430 | the loop returns the trade that closes at the first triggering bar, or none |
| Backtest.ExitExactly | src/trading_harness/backtest.py:298-329 | a bar ends a position if and only if it touches a leg or holding is complete |
| Backtest.FirstExitFound | src/trading_harness/backtest.py:374-389 | the exit is at the first bar that triggers, within the maximum holding, and none is found only if no bar triggers |
| Backtest.ReferenceBounds | src/trading_harness/backtest.py:298-329 | the exit reference is never better than the bar or the target offered, and only a gap passes the stop, in both directions |
| Backtest.SimulateIsSound | src/trading_harness/backtest.py:332-430 | every trade enters at the next open filled adversely, has its bracket at the stop and target multiples, exits at the first trigger in time at the adverse fill of a reference the exit bar offers, loses at that reference at most the stop distance unless it gapped, gains at most the target distance, and its costs, net result and multiple follow |
| Backtest.ClosedIsSound | src/trading_harness/backtest.py:389-427 | prices, costs and result of a position closed at the reference of its exit bar |
| Backtest.GainIsBounded | src/trading_harness/backtest.py:389-412 | net result is at most gross, gross at most the target distance, and the net multiple at most 2 |
| Backtest.FillStaysPositive | src/trading_harness/backtest.py:285-295 | bounded slippage never turns a positive price into a non-positive fill |
| Backtest.NoTradeExactly | src/trading_harness/backtest.py:338-395 | a directional signal yields no trade if and only if there is no next bar, it expired, its bracket is invalid, or the series ends before it resolves |
| Backtest.SimulatePrefix | src/trading_harness/backtest.py:370-430 | on a prefix a trade is the same if it closes inside it and censored otherwise |
| BacktestRuns.RunBacktest | src/trading_harness/backtest.py:522-579 | refuses exactly the invalid series; otherwise the loop terminates with the trades and counters of the recursive run |
| BacktestRuns.CountDirectional | src/trading_harness/backtest.py:560-564 | counts the directional bars skipped while a position is open |
| BacktestRuns.SignalsConserved | src/trading_harness/backtest.py:541-567 | trades, ignored, expired and unresolved signals add up to the directional bars from the warm-up to the last bar, or through the bar where the run stops unresolved |
| BacktestRuns.TradesAreSound | src/trading_harness/backtest.py:541-567 | trades are disjoint in time and increasing, and each is a sound trade, with its prices, loss bound and costs, of a live directional signal |
| BacktestRuns.NoLookAhead | src/trading_harness/backtest.py:541-567 | the trades of a prefix are exactly the trades of the whole series that close inside it |
| BacktestRuns.PrefixTrades | src/trading_harness/backtest.py:541-567 | the trades of a prefix are a prefix of the trades of the whole series |
| BacktestMetrics.CalculateMetrics | src/trading_harness/backtest.py:472-519 | the one-pass loop gives the counts, gains, losses, drawdown, profit factor and bound defined from the list of net results; too few samples are refused |
| BacktestMetrics.NetIsGainsLessLosses | src/trading_harness/backtest.py:478-488 | the net result is what was won less what was lost |
| BacktestMetrics.DrawdownIsWorstFall | src/trading_harness/backtest.py:490-496 | the drawdown is the largest fall of equity from any moment to a later one, and some pair attains it |
| BacktestMetrics.DrawdownWithinLosses | src/trading_harness/backtest.py:490-496 | the drawdown never exceeds the total of the losing trades |
| BacktestMetrics.Resample | src/trading_harness/backtest.py:449-466 | each resample has the original length and consists of circular blocks starting where the draws say |
| BacktestMetrics.BootstrapLowerBound | src/trading_harness/backtest.py:433-469 | the bound is the fifth-percentile entry of the sorted resample means |
| BacktestMetrics.BoundWithinReturns | src/trading_harness/backtest.py:433-469 | no bootstrap bound leaves the range of the observed results |
| BacktestMetrics.SortPermutes | src/trading_harness/backtest.py:467-469 | sorting the means keeps each as often as it occurs |
| BacktestMetrics.ChronologicalFolds | src/trading_harness/backtest.py:582-618 | four adjacent folds tile the eligible bars without overlap, widths differ by at most one, and each is summarised from its own trades |
| BacktestMetrics.FoldsPartitionRun | src/trading_harness/backtest.py:582-618 | the trades of the four folds, in order, are exactly the trades of the run |
| RecoveryStore.NextQueued | src/trading_harness/execution_store.py:12961-13025 | a claim finds a queued recovery whenever there is one |
| RecoveryStore.SweepAdvances | src/trading_harness/execution_store.py:12695-12930 | normalising expired claims and ending expired queued recoveries only moves records forward |
| RecoveryStore.StepAdvances | src/trading_harness/execution_store.py:12695-13600 | every store step keeps every order, never reopens a terminal recovery and never forgets that one was sent |
| RecoveryRuns.StepSends | src/trading_harness/execution_store.py:13351-13427 | only a granted submission authority moves a recovery to sending, at most one per step, and each such grant is recorded once |
| RecoveryRuns.StepKeepsSafe | src/trading_harness/execution_store.py:12695-13600 | steps of other processes keep at most one recovery open and the fences exclusive |
| RecoveryRuns.QueueKeepsSafe | src/trading_harness/account_safety_controller.py:832-865 | queueing a fence that the suppression rule allows keeps the fences exclusive |
| RecoveryRuns.AtMostOneSent | src/trading_harness/account_safety_controller.py:832-865 | exclusive fences mean that at most one noop of a parent attempt was ever sent |
| RecoveryRuns.FenceUsedOnce | src/trading_harness/account_safety_controller.py:789-1019 | over every run of evaluations, dispatch steps, outcomes and expiries at most one same-nonce noop per parent attempt is ever authorised to send, and at most one recovery is open |
| SafetyController.SuppressesExactly | src/trading_harness/account_safety_controller.py:832-865 | an earlier noop blocks a replacement if and only if it is not terminal or was ever sent |
| SafetyController.AllowedStaysAllowed | src/trading_harness/account_safety_controller.py:832-865 | a replacement allowed by one store view stays allowed whatever other processes do meanwhile |
| SafetyController.ExecutionStore.Others | src/trading_harness/execution_store.py:12695-13600 | whatever other processes do, recoveries only advance and permits are untouched |
| SafetyController.ExecutionStore.ClaimNext | src/trading_harness/execution_store.py:12961-13025 | claiming changes recoveries only, and no claim means that nothing queued is left |
| SafetyController.ExecutionStore.RegisterPermit | src/trading_harness/execution_store.py:12024-12155 | a registered permit is found unconsumed and nothing else changes |
| SafetyController.ExecutionStore.QueueRecovery | src/trading_harness/execution_store.py:12258-12420 | a queued recovery is appended only when every other is terminal and its incident is open; a refusal changes nothing |
| SafetyController.ExecutionStore.FenceHolds | src/trading_harness/account_safety_controller.py:832-1019 | in every reachable store at most one recovery is open and at most one noop per parent was authorised |
| SafetyController.RegisteredCanQueue | src/trading_harness/account_safety_controller.py:903-962 | a permit just registered in a store without open recoveries can always be queued in time |
| SafetyController.UnknownCandidate | src/trading_harness/account_safety_controller.py:789-830 | the candidate is the oldest ambiguous attempt that awaits a noop, none means that no incident awaits one, and ambiguity means two parents |
| SafetyController.SafetyController.ActiveRecovery | src/trading_harness/account_safety_controller.py:567-718 | reports the only open recovery, bound and still in force; every halt names a condition that holds; an unsent expired one is normalised away |
| SafetyController.SafetyController.FindActive | src/trading_harness/account_safety_controller.py:970-991 | the store view the decision is taken from, read again after a normalisation |
| SafetyController.SafetyController.QueueRegistered | src/trading_harness/account_safety_controller.py:930-962 | queues the permit's order or reports the recovery that is already this action |
| SafetyController.SafetyController.QueueAction | src/trading_harness/account_safety_controller.py:903-962 | registering and queueing succeeds whenever the store would register the permit and nothing interferes |
| SafetyController.SafetyController.CheckAccount | src/trading_harness/account_safety_controller.py:1021-1070 | every account halt names a condition that holds, and passing leaves at most one position |
| SafetyController.SafetyController.FlattenIncident | src/trading_harness/account_safety_controller.py:1060-1110 | picks the first flattenable incident of the single parent behind the position, or says why there is none |
| SafetyController.SafetyController.Flatten | src/trading_harness/account_safety_controller.py:1060-1190 | the close order is reduce-only for the position, priced within the slippage bound, and bound to the incident and the snapshot |
| SafetyController.SafetyController.Cleanup | src/trading_harness/account_safety_controller.py:1191-1238 | the cancel names exactly the open orders, at most twenty, under the oldest incident of their one owner |
| SafetyController.SafetyController.DecideAccount | src/trading_harness/account_safety_controller.py:989-1248 | clear if and only if the account is flat without orders, open recoveries or open critical incidents; every undisturbed halt is explained and every recovery justified |
| SafetyController.SafetyController.Evaluate | src/trading_harness/account_safety_controller.py:964-1248 | the same for a whole evaluation under arbitrary interference, decided from a view the store went through; at most one recovery is queued, only when every other is terminal; clear means that no recovery is open afterwards; an active verdict names a recovery that was open |
| WorkScanner.Unique | src/trading_harness/execution_work_scanner.py:267-275 | accepts exactly the lists without an empty or repeated identifier |
| WorkScanner.ScanCommand | src/trading_harness/execution_work_scanner.py:319-366 | the work item of one command, refused exactly when its public state is unreadable |
| WorkScanner.ScanCommands | src/trading_harness/execution_work_scanner.py:319-366 | the items of all commands, refused exactly when one is unreadable |
| WorkScanner.ScanRecovery | src/trading_harness/execution_work_scanner.py:368-418 | the work item of one recovery, refused exactly when its public state is unreadable |
| WorkScanner.ScanRecoveries | src/trading_harness/execution_work_scanner.py:368-418 | the items of all recoveries, refused exactly when one is unreadable |
| WorkScanner.Scan | src/trading_harness/execution_work_scanner.py:277-502 | succeeds exactly on readable tables, and its items are the sorted items of all records |
| WorkScanner.SortKeeps | src/trading_harness/execution_work_scanner.py:480-489 | sorting loses and repeats no item |
| WorkScanner.KindsExactly | src/trading_harness/execution_work_scanner.py:319-478 | a scan shows a kind of work if and only if some record gives it |
| WorkScanner.DrainedExactly | src/trading_harness/executor_runtime.py:1085-1097 | no safety work remains if and only if every recovery is terminal, every command is terminal or provably unsent, no position is open, every protection is flat or protected, and no incident is open |
| RuntimeStore.DisturbedKeepsFence | src/trading_harness/executor_runtime_store.py:1208-1695 | other processes can halt our lease or take it over under a higher token, and nothing else |
| RuntimeStore.DisturbedKeepsHalt | src/trading_harness/executor_runtime_store.py:1375-1591 | a manual halt is always declared as a halted gate |
| RuntimeStore.Store.Acquire | src/trading_harness/executor_runtime_store.py:1270-1335 | granted exactly when no current lease is held, under the next token, starting, halted, without a heartbeat and with a manual halt kept |
| RuntimeStore.Store.Heartbeat | src/trading_harness/executor_runtime_store.py:1337-1373 | extends lease and heartbeat exactly for the current holder and moves neither process, gate nor halt |
| RuntimeStore.Store.Transition | src/trading_harness/executor_runtime_store.py:1375-1466 | accepted exactly for the current holder along the allowed process and gate steps; a halted store stays halted, and ready needs a running process, a current heartbeat and no manual halt |
| RuntimeStore.Store.EngageManualHalt | src/trading_harness/executor_runtime_store.py:1468-1494 | anyone may halt a started store; the gate is halted with it and lease and process are untouched |
| RuntimeStore.Store.RequestStop | src/trading_harness/executor_runtime_store.py:1593-1626 | accepted exactly for the current holder; a process that was not stopping yet is stopping with the gate halted |
| RuntimeStore.Store.MarkStopped | src/trading_harness/executor_runtime_store.py:1628-1657 | accepted exactly for the current holder whose process is stopping or stopped |
| RuntimeStore.Store.Release | src/trading_harness/executor_runtime_store.py:1659-1695 | accepted exactly for the current holder whose process has stopped, or as a repetition; afterwards the lease is inactive and the gate halted |
| RuntimeStore.Store.Read | src/trading_harness/executor_runtime_store.py:1697-1814 | the effective gate is ready exactly when the declared gate is, the lease and heartbeat are current, the process runs and no manual halt is set; otherwise it is halted or the declared one |
| ExecutorRuntime.Runtime.Start | src/trading_harness/executor_runtime.py:397-424 | starting never yields a ready gate and clears the startup proof |
| ExecutorRuntime.Runtime.HaltGate | src/trading_harness/executor_runtime.py:479-491 | afterwards the declared gate is halted, or a conflict was raised |
| ExecutorRuntime.Runtime.EngageHalt | src/trading_harness/executor_runtime.py:493-503 | the capability is revoked always, and the manual halt is persisted whenever the store accepts it |
| ExecutorRuntime.Runtime.AssessLocal | src/trading_harness/executor_runtime.py:505-532 | eligibility and both blocks from one local view; a block leaves the gate halted |
| ExecutorRuntime.Runtime.SafetyLane | src/trading_harness/executor_runtime.py:603-621 | exactly when the recovery dispatcher follows the safety handler in the same step, and what the lane then returns |
| ExecutorRuntime.Runtime.ReconcileLanes | src/trading_harness/executor_runtime.py:648-709 | which reconciler is asked, in strict priority, with the safety handler before the parent reconciler while an incident is open |
| ExecutorRuntime.Runtime.ProtectLanes | src/trading_harness/executor_runtime.py:711-756 | a step falls through if and only if protection and safety both find nothing to do |
| ExecutorRuntime.Runtime.StartupLane | src/trading_harness/executor_runtime.py:761-773 | startup is proved only by the reconciler's own complete answer, under the current lease |
| ExecutorRuntime.Runtime.EntryLane | src/trading_harness/executor_runtime.py:785-856 | the dispatcher is called if and only if the gate read ready, the step is eligible and permitted, and no shutdown was seen at either check |
| ExecutorRuntime.EntryExactly | src/trading_harness/executor_runtime.py:623-857 | a step calls the entry dispatcher if and only if every lane above is clear, startup is proved and the entry lane lets it through, and the startup reconciler if and only if every lane above is clear and startup is unproved |
| ExecutorRuntime.Runtime.RunPriority | src/trading_harness/executor_runtime.py:623-857 | the ports called are exactly those of the specified step, a drain step fails only if some port does, and no lane reports a gate step |
| ExecutorRuntime.Runtime.OpenGate | src/trading_harness/executor_runtime.py:888-952 | the gate moves one step, halted to reconciling to ready, only when eligible and not manually halted |
| ExecutorRuntime.Runtime.Tick | src/trading_harness/executor_runtime.py:859-952 | an entry needs a permit, proved startup, a compatible scan, complete coverage, positive budget, clear lanes and a ready gate; the gate opens only under the same conditions; a blocked or failing view calls nothing |
| ExecutorRuntime.Runtime.ReadyMeansProved | src/trading_harness/executor_runtime.py:397-943 | in every reachable state a ready gate declared under our lease means that startup was completed under that lease and no manual halt is set |
| ExecutorRuntime.Runtime.Drain | src/trading_harness/executor_runtime.py:1109-1136 | at most the given number of steps, never entry or startup, and a failure only if some port failed |
| ExecutorRuntime.Runtime.Shutdown | src/trading_harness/executor_runtime.py:1099-1180 | clean if and only if no step failed, the final scan is compatible and no safety work remains; entry and startup are never called, and the lease is given up |
| ExecutorRuntime.ForecastAgrees | src/trading_harness/executor_runtime.py:954-976 | the forecast names the lane whose port a real step would ask first |
| ExecutorRuntime.ForecastsExactly | src/trading_harness/executor_runtime.py:954-1008 | an entry is forecast if and only if nothing above it is left, startup is proved, the budget is positive, no manual halt is set, a command waits, and the gate is ready or shutdown was requested; the gate moves likewise |
| ExecutorRuntime.ShutdownHidesGate | src/trading_harness/executor_runtime.py:978-1008 | a view with the gate reconciling for which the forecast is an entry after a shutdown request |
| ExecutorRuntime.Runtime.DryRun | src/trading_harness/executor_runtime.py:978-1008 | the exact conditions for a forecast entry and for each forecast move of the gate, with the state read last |
| ExecutorRuntime.Runtime.constructor | src/trading_harness/executor_runtime.py:355-367 | a process that has not started infers a proved startup exactly from an effective gate that is ready |
| ComposedSafety.SafetyActionHandler.CachePrepared | src/trading_harness/executor_handlers.py:833-861 | the cache after every verdict, exactly: emptied by clear and halted, replaced by a fresh preparation if it is current, otherwise kept unless stale; ready exactly when it holds a current preparation for the verdict's recovery |
| ComposedSafety.SafetyActionHandler.Prepare | src/trading_harness/executor_handlers.py:863-897 | a preparation is handed out exactly when the order is durable, is the cached one and is still current, and only once; a stale one is dropped |
| ComposedSafety.SafetyActionHandler.Act | src/trading_harness/executor_handlers.py:899-922 | with the real controller, progress is answered exactly when the store changed, and no work only for a clear account or an open recovery that is ready to dispatch |
| ComposedSafety.StartupReconciler.ReconcileStartup | src/trading_harness/executor_handlers.py:949-965 | complete only with nothing to reconcile, no open recovery, no open critical incident and a flat account, and with the store unchanged; pending work waits without touching the store |
| ComposedSafety.OpenRecoveryShows | src/trading_harness/execution_work_scanner.py:368-418 | a recovery that has not ended always shows in one of the three recovery lanes |
| ComposedSafety.CriticalBlocksLanes | src/trading_harness/executor_runtime.py:623-760 | with an open critical incident the real safety answer never lets a step fall through |
| ComposedSafety.SafetyThenDispatch | src/trading_harness/executor_runtime.py:603-621 | a step that hears no work from the safety handler while a recovery lane shows ends with the recovery dispatcher |
| ComposedSafety.CriticalTick | src/trading_harness/executor_runtime.py:603-952 | a tick whose scan shows an open critical incident, with the real handler and no other writer in between, never calls the entry dispatcher or the startup reconciler and never opens the gate; an active recovery that is ready goes from the safety lane to the recovery dispatcher in the same tick |
| ComposedSafety.DrainedShutdown | src/trading_harness/executor_runtime.py:1099-1180 | a shutdown in which no port fails reports clean if and only if the final records are drained |
| RecoveryHandler.RecoveryReconciler.ReconcileNext | src/trading_harness/executor_handlers.py:520-634 | no work exactly when nothing needs reconciling, progress exactly when the claim is used in time on a proof the store takes, and the rejected wait exactly when the evidence aged or the lease ran out under the claim; what each leaves in the store |
| RecoveryHandler.RecoveryReconciler.ClaimAndApply | src/trading_harness/recovery_reconciliation.py:988-1110 | the claim is used in time or given back, and which of the two depends exactly on the clock readings |
| RecoveryHandler.ExpiredAttemptContinuesExactly | src/trading_harness/executor_handlers.py:553-586 | an expired attempt stays open for the handler if and only if it had started sending |
| RecoveryHandler.PreparedAttemptRaises | src/trading_harness/executor_handlers.py:567-586 | a reachable store with a prepared attempt whose claim expired, on which the handler raises whatever the venue says |
| RecoveryHandler.ClaimsExactly | src/trading_harness/executor_handlers.py:543-588 | of a recovery that needs reconciling only the evidence, the lease and an unsent attempt can stop the handler |
| RecoveryHandler.AgedAnswerHalts | src/trading_harness/executor_runtime.py:103-127 | the runtime takes a wait that changed the store for a failure, with clock readings for which the handler answers so |
| ExecutorService.ExecutorService.Gather | src/trading_harness/executor_service.py:626-704 | a permit if and only if an entry was previewed and this tick synced losses completely, synced learning and found the route ready; the work done is exactly what the preview and the age of the last sync call for |
| ExecutorService.ExecutorService.Tick | src/trading_harness/executor_service.py:626-840 | every entry dispatch happens with that evidence of the same tick and with everything the runtime itself requires; learning is synced again exactly after a step that is neither urgent nor a venue write |
| Dispatcher.ExecutionDispatcher.ClaimAndLoad | src/trading_harness/dispatcher.py:255-275 | nothing is loaded without a claim, and stored payloads must agree |
| Dispatcher.ExecutionDispatcher.PreflightPhase | src/trading_harness/dispatcher.py:276-340 | a preflight is recorded, or the claim is denied, deferred or voided |
| Dispatcher.ExecutionDispatcher.SigningPhase | src/trading_harness/dispatcher.py:341-412 | any failure before the attempt is prepared voids the claim and is raised |
| Dispatcher.ExecutionDispatcher.SecondRole | src/trading_harness/dispatcher.py:443-486 | a role failure after the attempt was persisted voids it as a prepared attempt and is raised |
| Dispatcher.ExecutionDispatcher.SubmitOnce | src/trading_harness/dispatcher.py:487-507 | the guard is entered once for one submit, and only a revocation voids |
| Dispatcher.ExecutionDispatcher.SendPhase | src/trading_harness/dispatcher.py:413-507 | an expired preflight voids unsent; once the attempt is prepared only a role failure or a revocation gives it back, and every other failure leaves it for reconciliation |
| Dispatcher.ExecutionDispatcher.RecordPhase | src/trading_harness/dispatcher.py:508-655 | a submitted order is recorded once or marked unknown once |
| Dispatcher.ExecutionDispatcher.DispatchNext | src/trading_harness/dispatcher.py:255-655 | whatever any call answers, the trace is one of the allowed ones: a successful prefix of the protocol, at most one failure, and the one ending prescribed for it |
| Dispatcher.SubmitsOnceAfterProtocol | src/trading_harness/dispatcher.py:255-507 | at most one submit per dispatch, preceded by the whole protocol in order and successful: claim, preflight, key role, signature, renewal, persisted attempt, send role |
| Dispatcher.VoidsOnlyUnsent | src/trading_harness/dispatcher.py:258-655 | a claim is given back only if submit was never entered or was revoked, and it is recorded whether an attempt existed |
| Dispatcher.DefersBeforeSigning | src/trading_harness/dispatcher.py:276-412 | a deferral never follows a signature, and is attempted if and only if the preflight reported a transient route problem while the plan is in force |
| Dispatcher.ConcludesOnce | src/trading_harness/dispatcher.py:492-655 | a submission is concluded at most once, by a response record or an unknown mark, and one that returned is concluded if and only if the transport result passes, the mark succeeds where it is made, and reading and recording fail only in the ways taken for an unclear answer; otherwise the dispatch raised |
| SubmissionGuard.StepKeepsSafe | src/trading_harness/executor_runtime.py:426-503 | every step of every thread keeps the lock exclusive and the capability off outside a dispatch |
| SubmissionGuard.OneBodyAtATime | src/trading_harness/executor_runtime.py:438-467 | under every interleaving at most one guarded submission is inside |
| SubmissionGuard.CapabilityOffOutsideDispatch | src/trading_harness/executor_runtime.py:816-839 | the capability is off once the dispatcher call has returned |
| SubmissionGuard.StatusWasRead | src/trading_harness/executor_runtime.py:450-452 | the status a guard decides on was read under the lock it still holds |
| SubmissionGuard.NoBodyAfterRevocation | src/trading_harness/executor_runtime.py:426-467 | a submission starts only on a status, read under the lock still held, that showed ready and no halt, with the capability on, and with a shutdown flag that had never been set when the guard read it |
| SubmissionGuard.LosingTheLockStillRevokes | src/trading_harness/executor_runtime.py:426-436 | no submission starts whose guard read the flag after a shutdown request had set it, even when the request lost the lock |
| SubmissionGuard.OneLateBody | src/trading_harness/executor_runtime.py:426-467 | at most one submission starts after the flag is set |
| SubmissionGuard.LateAfterSignalExactly | src/trading_harness/executor_runtime.py:426-467 | after a signal has set the flag a submission can still start if and only if some guard has passed the flag with a status that admits it |
| SubmissionGuard.AcquiredSignalIsFinal | src/trading_harness/executor_runtime.py:426-436 | no submission starts after a signal that got the lock has set the flag |
| SubmissionGuard.LateBodyHappens | src/trading_harness/executor_runtime.py:426-467 | an interleaving in which a submission starts after the flag is set |
| SubmissionGuard.CapabilityStaysOn | src/trading_harness/executor_runtime.py:438-467 | once a guard has seen the capability it stays on until the guard gives the lock back |
| SubmissionGuard.PersistedHaltRevokes | src/trading_harness/executor_runtime.py:493-503 | while a halt stays persisted, a submission can start only on a status read before it |
| SubmissionGuard.LateAfterHaltExactly | src/trading_harness/executor_runtime.py:438-503 | while a halt just persisted stays so, a submission can still start if and only if some guard can start on the status it read before, and then a guard holds the lock |
| SubmissionGuard.LateBodyAfterHaltHappens | src/trading_harness/executor_runtime.py:438-503 | an interleaving in which a submission starts after a halt was persisted |
| RiskBudget.TicketReasons | src/trading_harness/dispatch_preflight.py:92-115 | no reason if and only if ticket, command and snapshot agree and are current |
| RiskBudget.AccountReasons | src/trading_harness/dispatch_preflight.py:116-161 | no reason if and only if account, instrument and budgets admit the trade |
| RiskBudget.MarketReasons | src/trading_harness/dispatch_preflight.py:162-197 | no reason if and only if the market is current and admits the price |
| RiskBudget.BuildPreflight | src/trading_harness/dispatch_preflight.py:59-232 | denied exactly when inadmissible, stale exactly when admissible on account evidence older than its limit, passed otherwise; the expiry is the earliest of its five bounds and later than now |
| RiskBudget.BudgetChain | src/trading_harness/account_risk.py:90-140 | a passed preflight on a compiled snapshot keeps daily and open use plus the stressed loss within their limits, the notional within leverage times the smaller of equity and withdrawable, and the loss within the risk fraction of the equity |
| RiskBudget.ExhaustedAdmitsNothing | src/trading_harness/dispatch_preflight.py:141-156 | once the daily loss or the open risk is used up nothing is admitted |
| ReadyConsumer.TestnetChatReadyConsumer.ConsumeOnce | src/trading_harness/executor_chat_ready_consumer.py:522-598 | every tick admits at most one marker, the smallest admissible unadmitted one, also when it raises afterwards because the binding differs; no work means that every marker was classified exactly once and none could be admitted; raises if and only if a marker that cannot be passed over comes no later than the smallest candidate |
| ReadyConsumer.WalkAdmits | src/trading_harness/executor_chat_ready_consumer.py:530-575 | the marker reached by the loop is the smallest candidate and all before it are accounted for |
| ReadyConsumer.WalkEnds | src/trading_harness/executor_chat_ready_consumer.py:530-598 | a finished loop counted each class exactly |
| ReadyConsumer.FullCache | src/trading_harness/executor_chat_ready_consumer.py:545-562 | the cache overflows only when more expired markers exist than it holds |
| ReadyConsumer.AcceptingRaisesExactly | src/trading_harness/executor_chat_ready_consumer.py:545-562 | in an accepting directory a tick raises if and only if a newly expired marker before the smallest candidate finds the cache full |
| ReadyConsumer.FullCacheRaises | src/trading_harness/executor_chat_ready_consumer.py:545-562 | a full cache and one more expired marker make the tick raise |
| ReadyConsumer.CandidatesLeft | src/trading_harness/executor_chat_ready_consumer.py:522-598 | admitting one marker lowers the number of candidates by exactly one |
| ReadyConsumer.TestnetChatReadyConsumer.Settle | src/trading_harness/executor_chat_ready_consumer.py:522-598 | with a fixed directory and an accepting store every admissible marker is admitted, each once, in as many ticks as there are candidates |

## Left out

- Decimal contexts: rounding at 64 or 96 digits is not modelled, arithmetic is exact.
- SHA-256 and HMAC: hashes and the identifiers derived from them are function parameters; nothing is claimed about collisions.
- SQLite, schemas, write-ahead logs, journals, access lists and file locks: stores are in-memory records, and the account lock is taken to be exclusive.
- Torn reads: one store view is taken as one instant, although the source reads several lists in turn.
- Text and type validation of record fields: carried by the datatypes; unreadable records appear as a flag.
- Order builders, permit signing authority and the market brief: whether a builder accepts is an input, and so are the market's prices.
- `canonical_data`: the recursion over containers is not part of this model, only decimals and the hash material are.
- Parent reconciliation and protection inspection handlers: they answer arbitrarily.
- RecoveryHandler.RecoveryReconciler.ReconcileNext: the venue reading and the proof derived from it are inputs, and no other process writes during the call.
- Qualification pre-emption, entry command lifecycle and the transport: the dispatcher's calls to them may answer in any way the dispatcher distinguishes.
- `assess_promotion`, `validate_profitability`, candle chain hashes and run hashes: thresholds and digests over values that are modelled.
- Route and VPN guards, credentials, the learning projector and the chat registration: their answers are inputs of a tick.
- The filesystem scan of ready markers: the consumer gets a sorted list of markers, and handoff ids are natural numbers.
- The service's own release of expired entry claims: it writes to the entry store, which is not modelled, and calls no port of the runtime.
- ExecutorService.ExecutorService.Tick: an exception that the service does not catch ends the tick before the runtime's turn and is not modelled.
- ExecutorRuntime.Runtime.Tick: clock failures are folded into the call they are read for, and instance identities are taken to be unique.
- ExecutorRuntime.Runtime.Shutdown: whether stopping and releasing succeed depends on the store, so only a returned report is described.
- SafetyController.SafetyController.Evaluate: halts are explained only for an undisturbed evaluation without an open recovery; with interference or an open recovery only safety is stated.
- DailyLoss.DailyLossLedger.LatestCompleteSnapshot: staleness and refusal are exact for rows written no later than the first clock reading; of a ledger that holds later rows only the coverage and the answer's own totals are stated.
- Coverage.CoverageStatus: instants are dense; `TickExact` says what this means on microsecond ticks.
- RecoveryStore.StepAdvances: command, outbox and attempt rows of one recovery are one record, so disagreement between those tables is not modelled.
- SubmissionGuard.NoBodyAfterRevocation: the store read is one step and the lease comparison of its result one ready flag, and Python's memory model is taken as sequentially consistent.
