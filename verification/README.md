# Verified model of the deterministic trading machinery

An always-on trader for Interactive Brokers surrounds a language model and a broker with deterministic
code: a crash-recovery protocol for orders, rate limiters, a hysteresis rule for the watched symbols, bar
aggregation, a JSON scanner, position sizing, a risk gate with its session bookkeeping, and indicators.
This project models that code in Dafny and proves what it is relied on for. `dafny verify dfyconfig.toml`
checks everything.

## How the model is laid out

| file | what it models |
|---|---|
| `Common.dfy`, `Domain.dfy` | options, rounding, filters, a stable sort; quotes, positions, sized orders |
| `Terms.dfy` | what a quote comes to, spelled out over its fields |
| `Refs.dfy` | the order reference format and its parser |
| `OrderModel.dfy` | orders, rows, statuses; each stretch of the order manager between two awaits as a function on (memory, disk) |
| `Statuses.dfy` | what each status makes of an order and its row |
| `Reconciliation.dfy` | the broker's book and one whole reconciliation pass |
| `OrderManager.dfy` | `StateStore`, `Broker` and `OrderManager` as classes, every method equal to its function |
| `ReconcileProofs.dfy` | what a pass guarantees, and that a second pass is idle |
| `PassFacts.dfy` | what a pass makes of each order, and what its report says |
| `ReconcileLimits.dfy` | what a pass does not guarantee: failing inputs and exact conditions |
| `ProtectiveStops.dfy` | the stops a pass places: their prices, for whom, and when they go again |
| `OrderRuns.dfy` | runs of placements, failures, reports, reconciliations and crashes at any point, with a partly written disk |
| `OrderPasses.dfy` | a whole pass as steps of a run, and what runs keep of the naming of orders |
| `Resolution.dfy` | runs in which the gate is told what works: when a symbol trades again |
| `Pacing.dfy` | token bucket, historical-data pacer, orders-per-minute breaker, each with a ghost history of everything it forgot |
| `FocusList.dfy`, `FocusProofs.dfy` | the focus-list manager, and hysteresis over whole runs |
| `FocusFacts.dfy` | who keeps a slot, who walks in, and why a member leaves |
| `FocusLimits.dfy`, `FocusSkips.dfy` | scores against which the margin inverts; cycles that pass a challenger over |
| `Bars.dfy`, `BarFacts.dfy` | roll-ups; which fine bars a coarse one sums up |
| `BarStream.dfy`, `BarTrims.dfy` | the bucket-filling loop, streaming one bar at a time with late history, and what trims do to it |
| `JsonScan.dfy` | the string-aware scanner and the concrete syntax of RFC 8259 (sections 2, 4, 5 and 7) |
| `Sizing.dfy`, `SizingFacts.dfy` | from a proposal to prices and a share count, and what those are number by number |
| `RiskGate.dfy`, `GateFacts.dfy` | the 24 checks, the gate on exits, submission; what the checks ask number by number |
| `Submission.dfy` | the gate and the order manager together: when an approved order goes out |
| `SubmissionRuns.dfy` | runs of submissions with statuses, fills, passes and crashes among them |
| `Session.dfy`, `TradingCycle.dfy` | the execution step, approvals and session bookkeeping: runs of them, and the classes |
| `SessionFacts.dfy` | when a session enters, exits or asks, in terms of what it was told |
| `Indicators.dfy` | simple, exponential and Wilder averages, and RSI |

Where the source updates objects in place, the model has a class whose methods are proved equal to a
function of the old state; the properties are lemmas about those functions. A stretch of code between two
`await`s is one atomic step, time is a `real` that never decreases, and prices are exact reals. The files that end in
`Facts`, with `Statuses` and `ProtectiveStops`, say what the operations compute over the fields they read, without
calling the predicates that the operations share.

Assumptions that come from the environment: store writes succeed; refs name the symbol of their order
(`OrderPasses.RunNames` shows what runs need for that), and symbols and clock readings contain no colon; the
book has one status per ref and per id; a sleep lasts at least as long as asked; the account snapshot lists a
symbol once; the store a run starts from holds rows this code wrote (`Sound`). Where a theorem says so
(`LiveAnswers`), a stop placement that does not raise is answered with a live status for its own ref;
`ReconcileLimits.SettledExactlyWhen` says what happens otherwise.

## Where the code and its documentation part ways

Each item names a lemma that shows the case, at an input or for a whole family of them, and the lemma with
the exact condition.

- A stop that the broker answers as "Inactive" is counted as placed: the position ends a reconciliation
  pass unprotected with its symbol not blocked (`ReconcileLimits.RejectedStopGoesUnnoticed`). Over the whole
  pass and for any answer, the condition is `ReconcileLimits.SettledExactlyWhen`.
- "Protected" means any working order of the symbol with a stop price (`src/aitrader/broker/orders.py:428-432`),
  and an entry row carries one, so a half-filled entry counts as protection of the position it opened
  (`ReconcileLimits.EntryPassesForProtection`). When a position really has a stop that closes it is
  `ReconcileLimits.ClosedOffExactlyWhen`.
- Cancelling the exits of symbols not held also strips a resting bracket whose entry has not filled
  (`ReconcileLimits.UnfilledEntryLosesExits`, `ReconcileLimits.HeldKeepsExits`).
- The focus list documents `persistence_cycles` *consecutive* cycles
  (`src/aitrader/analytics/ranking.py:82-84`). A cycle that passes a challenger over (promotion cap reached, or
  the loop broke off) neither counts nor resets: `FocusSkips.SkippedCycleCounts` is a run in which a
  challenger displaces right after a cycle in which it won nothing, `FocusSkips.ConsecutiveExactlyWhen` the
  condition.
- With negative scores the margin test inverts: a better member can be displaced by a worse challenger, and
  a symbol can be reported as added without being in the list (`FocusLimits.NegativeScoresBreakAdded`). The
  condition for one comparison is `FocusProofs.MarginSoundExactlyWhen`, and for reports of whole updates
  `FocusLimits.NewMembersExactlyWhen`.
- The 5000-bar trim of the raw series can cut a five-minute bucket in half, and the series in memory then
  shows too little of it until that bucket has left memory: `BarTrims.TrimCutsPeriod` is such a stream, with
  the sizes of memory that still hold the bucket, `BarTrims.AgreesExactlyWhen` the condition for any stream.
- A stop that only the broker knows is adopted without its stop price, so it does not pass for protection
  and the pass places a second one beside it: `ReconcileLimits.AdoptedStopIsDoubled` is such a pass,
  `ReconcileLimits.SecondStopExactlyWhen` the condition.
- An approved submission need not send anything: an entry that memory or the store knows returns at once, is
  recorded and noted as an entry: `SubmissionRuns.ApprovedWithoutSending` is a run from an empty store in which
  this happens, `Submission.ApprovedAndSentExactlyWhen` the condition.

## Model

| member | source | states |
|---|---|---|
| Refs.ParseMake | src/aitrader/broker/orders.py:55-70 | parsing a made ref gives its fields back exactly when no field contains a colon, and nothing otherwise |
| Refs.MakeRefInjective | src/aitrader/broker/orders.py:55-63 | over colon-free fields two refs are equal iff day, cycle name, symbol and kind are |
| Refs.MakeParse | src/aitrader/broker/orders.py:55-70 | remaking a parsed ref gives it back iff its cycle field is not empty |
| OrderModel.RowRoundTrip | src/aitrader/broker/orders.py:527-540 | an order rebuilt from the row written for it is the same order |
| OrderModel.ReloadRestores | src/aitrader/broker/orders.py:518-544 | when memory mirrors disk, loading into a fresh process gives the order map and perm ids back |
| OrderModel.ApplyStatusMirror | src/aitrader/broker/orders.py:291-321 | absorbing a status, known or adopted, keeps memory and rows in step and forgets no order |
| Statuses.OrderAfterStatus | src/aitrader/broker/orders.py:291-312 | the state after a status, by its name, its fill and the state before; fill, id and average price as given, a missing one kept; an adopted order is for filled plus remaining, without prices or parent |
| Statuses.RowAfterStatus | src/aitrader/broker/orders.py:312-319 | the row then holds that state's text, the fill, the broker's id and the perm id given now or before |
| Statuses.OthersAfterStatus | src/aitrader/broker/orders.py:291-295 | no other order, row, perm id, block or fill changes, and a status for nobody's order changes nothing |
| Statuses.LastWordCounts | src/aitrader/broker/orders.py:291-321 | after any statuses an order is remembered and stored as filled or cancelled exactly when the last one for it that settles a state says so |
| Statuses.RowRebuilds | src/aitrader/broker/orders.py:527-540 | a row is rebuilt iff its state text is one of the six, field by field, with a missing fill read as zero |
| OrderRuns.AtMostOnce | src/aitrader/broker/orders.py:139-213 | over any run with failures, reports, reconciliations and crashes at any point, no entry (day, cycle, symbol) is handed to the broker twice |
| OrderRuns.SentIsStored | src/aitrader/broker/orders.py:151-186 | every entry ever handed over has its row on disk, in every reachable state |
| OrderModel.SentIsRecorded | src/aitrader/broker/orders.py:163-204 | when a bracket goes out, each of its three legs is in memory and rebuildable from disk exactly as sent, under three different refs that spell day, cycle, symbol and kind, with sides, prices, parent and cancel group as the bracket needs, pending and unfilled |
| OrderRuns.CrashLosesNothing | src/aitrader/broker/orders.py:518-544 | in every reachable state a crash and reload give back all orders and perm ids on every restored field |
| OrderRuns.FillsExactlyOnce | src/aitrader/broker/orders.py:329-349 | over any run, a process holds in order the fills of the first execution under each id since it restarted; on disk are those ids and the ones stored at the restart and no others, each under the fill first stored, and nothing stored ever changes or disappears |
| OrderRuns.SentExactlyWhen | src/aitrader/broker/orders.py:139-186 | a bracket is sent iff its symbol has no unexpired block and no stored ref parses to the same day, cycle, symbol entry |
| OrderRuns.FailureBlocks | src/aitrader/broker/orders.py:128-149 | within one process, whatever happens after a block at t0, every later hand-over for that symbol comes more than 600 s after it |
| OrderRuns.RefusedThenQuiet | src/aitrader/broker/orders.py:206-211 | a send that raised is followed by no bracket for its symbol for 600 s |
| OrderPasses.PassIsRun | src/aitrader/broker/orders.py:368-462 | a whole pass is a legal run of one resynchronisation, the executions and the repairs, ending in the pass's state and handing over no entry |
| OrderPasses.RunNames | src/aitrader/broker/orders.py:139-213 | over any run whose outside statuses and stored rows name their symbols, every order's ref names its symbol |
| OrderPasses.PassProtectsAfterAnyRun | src/aitrader/broker/orders.py:368-462 | after any run, crashes included, a pass whose stop placements are answered live protects every open position or reports it unresolved and blocks its symbol |
| ReconcileProofs.RebuiltSynced | src/aitrader/broker/orders.py:376-423 | after steps 1 to 3 the locally working orders are exactly the broker's live orders of ours, under the broker's ids |
| ReconcileProofs.ReconcileProtects | src/aitrader/broker/orders.py:368-462 | when a pass returns, every open position has a working order with a stop price that is live at the broker, or is reported unresolved with its symbol blocked |
| ReconcileProofs.WorkingIsReported | src/aitrader/broker/orders.py:381-457 | every order working locally after a pass was just reported live or is a stop this pass wrote |
| ReconcileProofs.SecondPassIsIdle | src/aitrader/broker/orders.py:368-462 | if the first pass placed every stop it needed and nothing else changed, a second adopts, orphans, places and cancels nothing, leaves the broker's book alone and adds no fill |
| ReconcileProofs.CancelsExactlyStale | src/aitrader/broker/orders.py:443-455 | of our live orders a pass cancels exactly the working children, known under an id, of symbols no longer held |
| ReconcileProofs.OthersUntouched | src/aitrader/broker/orders.py:368-462 | a pass leaves every order that is not ours as it was |
| ReconcileProofs.StopLimitsLoss | src/aitrader/broker/orders.py:484-501 | the protective stop closes the whole position, within half a cent of three percent on the losing side of the reference price |
| PassFacts.ListedAfterPass | src/aitrader/broker/orders.py:386-399 | an order the broker lists as open or completed ends a pass in the state its listing says, with its fill, id and price: what filled or was cancelled while nobody listened is recorded so |
| PassFacts.UnlistedAfterPass | src/aitrader/broker/orders.py:401-419 | an order the broker does not list is cancelled if it was thought to work, and otherwise unchanged |
| PassFacts.AdoptedAfterPass | src/aitrader/broker/orders.py:386-391 | an open order of ours that was not known is adopted as listed |
| PassFacts.NothingElseAfterPass | src/aitrader/broker/orders.py:368-462 | every order after a pass was known before, is listed as open, or is a stop of this pass |
| PassFacts.AdoptedSays | src/aitrader/broker/orders.py:387-391 | reported as adopted are exactly the open orders of ours that were not known |
| PassFacts.OrphanedSays | src/aitrader/broker/orders.py:401-408 | reported as orphaned are exactly the working orders that the broker does not list |
| PassFacts.UnprotectedSays | src/aitrader/broker/orders.py:428-435 | reported as unprotected are exactly the held symbols without a working order that has a stop price |
| ProtectiveStops.StopIsMeasured | src/aitrader/broker/orders.py:474-513 | the stop of an uncovered position is within half a cent of three percent from the mid of two sides or the last trade of a usable quote, else a mark that is not zero, else the cost; stored iff that is positive, sent and listed iff the call also returns |
| ProtectiveStops.StopsSent | src/aitrader/broker/orders.py:428-441 | a pass sends one such stop for each symbol it lists as placed, in that order, and nothing else |
| ProtectiveStops.RecoveredStopGoes | src/aitrader/broker/orders.py:443-455 | a stop placed by one pass is live after it, and cancelled by the next once its symbol is no longer held |
| ProtectiveStops.PassStaysFit | src/aitrader/broker/orders.py:368-462 | a pass leaves the manager and the book as the next one needs them |
| ReconcileLimits.SettledExactlyWhen | src/aitrader/broker/orders.py:425-514 | whatever the answers, a position leaves a pass with a working stop or unresolved iff it was covered before, or had no price, or the call raised, or the answer is not one that ends the stop, filled amounts included |
| ReconcileLimits.RejectedStopGoesUnnoticed | src/aitrader/broker/orders.py:505-511 | concrete pass in which an "Inactive" answer leaves a position unprotected, unblocked and not unresolved |
| ReconcileLimits.ClosedOffExactlyWhen | src/aitrader/broker/orders.py:425-441 | a position not reported unresolved leaves a pass with a live stop on its closing side iff nothing passed for protection before, or such a stop was there |
| ReconcileLimits.EntryPassesForProtection | src/aitrader/broker/orders.py:425-441 | concrete pass in which a half-filled buying entry is all that protects the long position it opened |
| ReconcileLimits.UnfilledEntryLosesExits | src/aitrader/broker/orders.py:443-455 | of a resting bracket in a symbol not held, exactly the orders without a parent stay in the book |
| ReconcileLimits.HeldKeepsExits | src/aitrader/broker/orders.py:443-455 | while its symbol is held, a live order of ours stays in the book |
| ReconcileLimits.SecondStopExactlyWhen | src/aitrader/broker/orders.py:425-441 | a closing stop of ours that only the broker knows stays live, and a stop for the whole position is placed beside it iff nothing else passes for protection |
| ReconcileLimits.AdoptedStopIsDoubled | src/aitrader/broker/orders.py:291-300 | a pass over an emptied store that leaves a long position with two live selling orders |
| Orders.StateStore.SaveOrder | src/aitrader/data/store.py:184-230 | the upsert: the whole row is replaced, except that a missing perm id keeps the stored one |
| Orders.StateStore.SaveFill | src/aitrader/data/store.py:254-270 | the first fill under an execution id stays |
| Orders.Broker.PlaceSingle | tests/fakes/fake_broker.py:203-208 | a raised call changes nothing; otherwise the book gets a fresh id and the answered status under its ref |
| Orders.Broker.CancelOrder | tests/fakes/fake_broker.py:210-219 | the first status with the id becomes cancelled with nothing remaining |
| Orders.OrderManager.UnblockExpired | src/aitrader/broker/orders.py:128-133 | exactly the blocks older than 600 s are dropped |
| Orders.OrderManager.BeginBracket | src/aitrader/broker/orders.py:139-204 | refuses a blocked, known or stored entry without writing; otherwise writes all three rows before the specs go out |
| Orders.OrderManager.FailBracket | src/aitrader/broker/orders.py:206-211 | a raised wire call keeps every row and blocks the symbol at that time |
| Orders.OrderManager.ApplyStatus | src/aitrader/broker/orders.py:291-321 | the new memory and row after one status, with the mirror kept |
| Orders.OrderManager.OnExecution | src/aitrader/broker/orders.py:329-349 | a fill is counted and stored the first time its execution id is seen, and never again |
| Orders.OrderManager.LoadFromStore | src/aitrader/broker/orders.py:518-544 | restores exactly the rows that can be rebuilt, and their perm ids |
| Orders.OrderManager.EmitProtectiveStop | src/aitrader/broker/orders.py:464-514 | reference price by quote, mark, cost; the stop is written ahead, sent, and its answer absorbed |
| Orders.OrderManager.RebuildView | src/aitrader/broker/orders.py:375-423 | steps 1 to 3, with the adopted and orphaned refs |
| Orders.OrderManager.RepairPositions | src/aitrader/broker/orders.py:425-441 | step 4: one stop per uncovered position, a failure blocks its symbol |
| Orders.OrderManager.CancelStaleChildren | src/aitrader/broker/orders.py:443-455 | step 5: exactly the working child orders of symbols no longer held are cancelled at the broker |
| Orders.OrderManager.Reconcile | src/aitrader/broker/orders.py:368-462 | the imperative pass equals the function the theorems above are about, report included |
| Pacing.WindowBound | src/aitrader/data/ratelimit.py:101-133 | a history whose n+1 consecutive events span a window has at most n events in any stretch shorter than it |
| Pacing.TokenBucket.Refill | src/aitrader/data/ratelimit.py:53-58 | tokens grow by elapsed time times rate, up to the capacity |
| Pacing.TokenBucket.Acquire | src/aitrader/data/ratelimit.py:60-73 | takes min(n, capacity) tokens: at once iff they are there, else after one sleep of the time it takes to mint what is missing, at least a millisecond |
| Pacing.TokenBucket.ChargedBetween | src/aitrader/data/ratelimit.py:53-73 | tokens charged in any interval are at most the capacity plus rate times its length |
| Pacing.HistoricalDataPacer.WaitLocked | src/aitrader/data/ratelimit.py:106-115 | the wait is the longer of what the penalised spacing and a full window still ask, and zero when neither asks |
| Pacing.HistoricalDataPacer.Acquire | src/aitrader/data/ratelimit.py:117-133 | one grant with the spacing in force, after at most two looks plus one for each strict increase of the penalty, so never more than five |
| Pacing.HistoricalDataPacer.GrantsPaced | src/aitrader/data/ratelimit.py:101-133 | any stretch shorter than the window holds at most `capacity` of all grants ever made, and each kept the spacing in force at it |
| Pacing.OrderRateBreaker.Check | src/aitrader/risk/engine.py:360-364 | prunes to exactly the orders of the last minute and allows iff they are fewer than the limit |
| Pacing.RecentCounts | src/aitrader/risk/engine.py:360-364 | what pruning leaves is as many orders as came within the last minute |
| Pacing.OrderRateBreaker.MinuteBound | src/aitrader/risk/engine.py:360-401 | with at most c submits between check and record, any stretch under a minute holds at most limit + c - 1 recorded orders |
| FocusList.FocusListManager.Contend | src/aitrader/analytics/ranking.py:140-158 | the contested loop with its early exits equals the fold of one challenger after another |
| FocusList.FocusListManager.Update | src/aitrader/analytics/ranking.py:92-171 | the stateful update equals the specification the lemmas below are about |
| FocusProofs.UpdateKeepsShape | src/aitrader/analytics/ranking.py:115-171 | from a duplicate-free list: duplicate-free, at most the size or the kept protected symbols, every known protected symbol in, at most the allowed promotions, removed exactly the members that left |
| FocusFacts.OpeningSelects | src/aitrader/analytics/ranking.py:115-138 | protected symbols take their slots; of the other scored members the best keep theirs, as many as fit; the best challengers fill what is free up to the promotion cap |
| FocusFacts.LeavesBecause | src/aitrader/analytics/ranking.py:115-161 | a member leaves only unscored and unprotected, or displaced, or because protected symbols left fewer slots than there are members that score no less |
| FocusProofs.NewMembersAreAdded | src/aitrader/analytics/ranking.py:130-161 | when no challenger's score has the opposite sign of the margin, the new members are exactly the added ones and kept symbols that were not members |
| FocusProofs.StreaksCountWins | src/aitrader/analytics/ranking.py:149-166 | over any run a stored streak is the number of unbroken wins, lies in 1..persistence-1 and belongs to a scored non-member |
| FocusProofs.DisplacesExactlyOnPersistence | src/aitrader/analytics/ranking.py:149-158 | over any run a margin test displaces iff it is won and is the persistence-th win with no loss, missing score or membership in between |
| FocusProofs.DisplacementRaisesTotal | src/aitrader/analytics/ranking.py:140-158 | with non-negative scores the contest never lowers the total score and a displacement strictly raises it |
| FocusProofs.MarginSoundExactlyWhen | src/aitrader/analytics/ranking.py:149 | only better challengers beat a member iff its score and the margin do not have opposite signs |
| FocusLimits.NegativeScoresBreakAdded | src/aitrader/analytics/ranking.py:149-156 | concrete update in which a symbol is reported as added and is not in the list |
| FocusLimits.NewMembersExactlyWhen | src/aitrader/analytics/ranking.py:130-161 | for scores from a given set of values, every update of every run from a fresh manager reports its new members exactly iff there is no slot, or at most one promotion a cycle, or no value has the opposite sign of the margin; and iff every update of any list does |
| FocusSkips.TestedOnce | src/aitrader/analytics/ranking.py:140-158 | in one update every challenger is tested exactly once or passed over by a guard, with what that does to its count |
| FocusSkips.ConsecutiveExactlyWhen | src/aitrader/analytics/ranking.py:140-166 | over any run, a displacing challenger won a test in each of the last `persistence` updates iff no update since the first of its counted wins passed it over |
| FocusSkips.SkippedCycleCounts | src/aitrader/analytics/ranking.py:140-166 | a run from a fresh manager in which two wins running are asked for and a challenger displaces after a cycle in which it was passed over |
| Bars.AggregateFacts | src/aitrader/broker/market_data.py:43-71 | coarse bars start at strictly increasing multiples of the period and carry the total volume |
| BarFacts.CoarseBarIs | src/aitrader/broker/market_data.py:49-70 | a coarse bar starts at a multiple k of the period and holds the first open, last close, highest high, lowest low and whole volume of exactly the fine bars with k <= ts < k + period |
| BarFacts.EveryBarCounts | src/aitrader/broker/market_data.py:49-54 | every fine bar falls in one of the coarse ones |
| Bars.RollSummary | src/aitrader/broker/market_data.py:55-70 | a roll-up keeps volume, high, low, first open, last close and symbol of what it rolled up |
| Bars.RollUpsCompose | src/aitrader/broker/market_data.py:43-71 | when p divides q, aggregating to p and then to q is aggregating to q |
| BarStream.AggregateBars | src/aitrader/broker/market_data.py:49-71 | filling buckets and sorting each equals rolling up the runs of the sorted bars |
| BarStream.MarketDataService.OnBar | src/aitrader/broker/market_data.py:110-125 | the new feed of the bar's symbol, and every other symbol untouched |
| BarStream.IncrementalIsBatch | src/aitrader/broker/market_data.py:110-125 | while every trim fell between two buckets, the series in memory is the last bars of backfill followed by the batch roll-up of everything streamed |
| BarStream.IncrementalIsBatchUntilTrim | src/aitrader/broker/market_data.py:110-125 | up to 5000 bars the agreement needs no condition |
| BarStream.MarketDataService.LoadIntraday | src/aitrader/broker/market_data.py:232-254 | a symbol with more than 30 bars keeps its series, otherwise the history's last bars replace it, and other symbols are untouched |
| BarStream.LateBackfillIsBatch | src/aitrader/broker/market_data.py:110-125 | history that lands after streaming began, before the first trim, gives the same feed from then on as history that was there from the start |
| BarStream.LateHistoryCounts | src/aitrader/broker/market_data.py:232-254 | with at most 30 bars in memory the newest bars of late history stand in front of whatever streams from then on, otherwise what was there does |
| BarTrims.AgreesExactlyWhen | src/aitrader/broker/market_data.py:110-125 | for any number of bars and trims, any volumes and any memory, memory equals the batch after every bar iff after every bar the latest trim had cut no bucket, or one that is out of memory, or one whose bar the cut left as it was |
| BarTrims.TrimCutsPeriod | src/aitrader/broker/market_data.py:113-125 | a stream of n bars five seconds apart, one trim long, whose trim cuts a bucket; memory disagrees with the batch iff it holds at least (n-1)/60 - 15 bars, so until the bucket is forgotten |
| JsonScan.FindBalancedJson | src/aitrader/llm/structured.py:53-80 | returns the earliest opening brace whose string-aware scan closes, cut at its first closing point, and none iff no brace closes |
| JsonScan.FindsPrintedObject | src/aitrader/llm/structured.py:53-80 | for every JSON object text of RFC 8259, any prefix without an opening brace and any suffix, the answer is exactly the object's text and nothing else |
| Sizing.SharesAreMost | src/aitrader/risk/sizing.py:102-121 | k shares are at most the share count iff k respects risk budget, exposure cap, usable buying power and volume share |
| Sizing.SizedExactlyWhen | src/aitrader/risk/sizing.py:55-143 | an order comes back iff it is an entry with positive equity and price, the bracket is the right way round and one share fits; it is then for the most shares that fit |
| Sizing.SizedPassesGate | src/aitrader/risk/sizing.py:102-143 | every sized order passes checks 8, 12, 13 and 14 for the same account and limits, with stop and target on the right sides |
| Sizing.ConvictionMonotone | src/aitrader/risk/sizing.py:29-35 | more conviction keeps the prices and never gives fewer shares |
| SizingFacts.SizedPricesAre | src/aitrader/risk/sizing.py:38-91 | entry, stop and target are to the nearest cent the offset market price, one stop distance and its target multiple, mirrored for a short; the distance is the largest of the ATR multiple, 0.15 percent of the price and a cent |
| SizingFacts.SizedOrderIs | src/aitrader/risk/sizing.py:97-143 | the order is for the proposal's symbol and side and for the most shares allowed by the conviction-scaled budget, both caps and half a percent of the volume |
| SizingFacts.TickIsCent | src/aitrader/risk/sizing.py:51-52 | the two roundings of a price are one, to the nearest cent, ties to the even one |
| Sizing.SizedWithinCollar | src/aitrader/risk/sizing.py:74-91 | priced from a usable quote, the order passes the collar whenever offset plus half a tick over the mid is within it |
| GateFacts.VerdictIsFirstReason | src/aitrader/risk/engine.py:79-309 | running all 24 checks and reporting the first failure is judging them one by one over prices, quantities, equity, quotes, positions and notes: approval iff none fails, else refusal for the first that does |
| GateFacts.LosingMoreStaysRefused | src/aitrader/risk/engine.py:224-237 | with less equity a refusal never becomes an approval |
| RiskGate.OfficerOnlyVetoes | src/aitrader/risk/engine.py:291-296 | approval is the verdict with a willing officer, and the officer's consent where it is required |
| RiskGate.SizedOrdersFit | src/aitrader/risk/engine.py:158-211 | an order sized for the same account and limits is never refused for quantity, risk, exposure or cost |
| RiskGate.SizedBracketLimitsLoss | src/aitrader/broker/orders.py:188-205 | the legs sent for a sized order are an entry and two opposite exits around it, and the stop's loss on the whole quantity is within the cap on one trade |
| RiskGate.ExitGateIsPartOfEntryGate | src/aitrader/risk/engine.py:311-358 | an exit is allowed iff the entry gate's switch, phase, market data (all but the spread) and working-order checks pass |
| RiskGate.ExitsAreGatedLess | src/aitrader/risk/engine.py:311-358 | wherever an entry in a symbol would be approved, an exit is allowed |
| RiskGate.RiskEngine.Evaluate | src/aitrader/risk/engine.py:79-309 | the loop of appended failures equals the list in order; the loss flag is set iff it was or equity is down to what the limit leaves of the session's start; the rate history is pruned |
| RiskGate.RiskEngine.Submit | src/aitrader/risk/engine.py:373-407 | approved iff every check passes, the switch is off at the last look and the order manager returned; recorded exactly then |
| Submission.HandedExactlyWhen | src/aitrader/risk/engine.py:373-407 | the whole bracket is handed to the broker iff every check passes, the switch stays off to the last look, the symbol has no unexpired block and the entry is new |
| Submission.ApprovedAndSentExactlyWhen | src/aitrader/risk/engine.py:373-407 | approved and sent iff so and the broker answered; approved without sending iff the entry is known; sent without approval iff the call raised |
| Submission.RepeatSendsNothing | src/aitrader/broker/orders.py:139-157 | once handed over, an entry submitted again in its cycle and day sends nothing, and is approved whenever the gate is open and the symbol not blocked |
| Submission.PlaceBracket | src/aitrader/broker/orders.py:139-221 | the whole placement on the order manager object: what it leaves, what it hands over and whether it returns |
| Submission.SubmitOrder | src/aitrader/risk/engine.py:373-407 | gate and order manager objects together equal the function the results above are about, order rate included |
| SubmissionRuns.TryIsSubmit | src/aitrader/risk/engine.py:373-407 | a submission in a run leaves what `submit` leaves, and hands over one bracket iff the gate is open, the symbol not blocked and the entry new |
| SubmissionRuns.ApprovalsBalanceSends | src/aitrader/risk/engine.py:373-407 | over any run of submissions with statuses, passes and crashes among them, the brackets handed over are the approvals less those of known entries, plus the new entries whose call raised and those a crash cut off, each counted by its cause |
| SubmissionRuns.ActsRun | src/aitrader/risk/engine.py:373-407 | such a run is a legal run of the order manager in which every bracket passed the working-order check |
| SubmissionRuns.SubmittedAtMostOnce | src/aitrader/broker/orders.py:139-213 | so no entry is handed over twice, whatever is submitted again after whatever crash |
| Resolution.ResolvedInBetween | src/aitrader/broker/orders.py:11-15 | over any run in which the gate is told what works, between two brackets in one symbol each leg of the first is taken out of work by a status for it, a pass or a write under its ref |
| SubmissionRuns.ResolvedBeforeTradedAgain | src/aitrader/broker/orders.py:11-15 | the same of submissions with statuses, passes and crashes among them: a maybe-sent order is resolved before its symbol trades again |
| SubmissionRuns.UnresolvedIsRefused | src/aitrader/risk/engine.py:254-256 | after any such run that sent a bracket, failures and crashes included, a submission in its symbol, in any cycle, is approved or sends something only if a step since then took each leg out of work |
| SubmissionRuns.ApprovedWithoutSending | src/aitrader/risk/engine.py:399-407 | a run from an empty store with two approvals, one bracket handed over and one suppressed |
| Session.SessionsAreSafe | src/aitrader/risk/engine.py:221-281 | over any run of cycles, approvals, flattenings and resets: daily cap, per-cycle cap, cooldown between entries of a symbol, no entry within the flip-flop guard after a noted close, conviction of at least 0.55 |
| SessionFacts.EntryApprovedExactlyWhen | src/aitrader/engine/cycle.py:178-281 | an entry nobody is asked about is approved, noted and counted iff its symbol has features, its conviction is at least 0.55, it can be sized and no check fails on the account, session, market, working orders, notes and officer's answer as told, the switch stays off and the call returns |
| SessionFacts.EntryRefusedFor | src/aitrader/engine/cycle.py:178-288 | a refused entry is listed as without features, of low conviction, unsizeable, or under the gate's first objection, exactly as is the case |
| SessionFacts.EntriesWereCleared | src/aitrader/engine/cycle.py:229-281 | over any run of a session every entry was sent on a turn on which no order of its symbol worked, the switch was off and the market could be priced, and, unless a person said yes, a required officer consented |
| SessionFacts.ExitExactlyWhen | src/aitrader/engine/cycle.py:290-341 | an exit is noted iff the position is held, the exit gate is open, nobody is asked and the broker took it; queued whole and on the closing side iff somebody is asked |
| SessionFacts.ExitRefusedFor | src/aitrader/risk/engine.py:311-358 | which reason a refused exit carries, each exactly when |
| SessionFacts.ApprovedIdeaExactlyWhen | src/aitrader/engine/scheduler.py:569-655 | a yes takes exactly that idea off the list; the entry is sized and judged afresh, as decided just now, and noted iff it gets through |
| SessionFacts.ApprovedExitExactlyWhen | src/aitrader/engine/scheduler.py:582-604 | likewise an exit, noted iff the exit gate is open and the broker took it |
| Session.EveryProposalIsFiled | src/aitrader/engine/cycle.py:178-288 | each proposal ends exactly once as approved, pending or rejected; from any earlier state the pending ones number those a person is asked about, and the rejected count leaves out exactly the exits without a position and those the gate passed and the broker did not take |
| Session.ApprovedIsDone | src/aitrader/engine/cycle.py:272-288 | approvals are exactly the entries and exits noted, pendings exactly the ideas queued, and history is only appended to |
| Session.ManualSendsNothing | src/aitrader/engine/cycle.py:252-270 | with a person in the loop a cycle changes nothing but the list of waiting ideas |
| Session.KilledCycleIsQuiet | src/aitrader/risk/engine.py:318-332 | with the kill switch tripped a cycle sends no entry and no exit, approves nothing and queues no exit |
| Session.KilledApprovalIsQuiet | src/aitrader/engine/scheduler.py:569-655 | nor does approving a waiting idea, or for an entry when the switch trips between evaluation and last look |
| Trading.AppState.NoteEntry | src/aitrader/engine/state.py:104-107 | the entry is noted under its symbol and both counters grow |
| Trading.AppState.ResetForNewSession | src/aitrader/engine/state.py:112-127 | everything the gate reads starts afresh |
| Trading.TradingCycle.HandleClose | src/aitrader/engine/cycle.py:290-341 | the exit path, with its five outcomes |
| Trading.TradingCycle.Execute | src/aitrader/engine/cycle.py:168-288 | the loop equals handling the proposals one after another, each against the state the ones before it left |
| Trading.TradingCycle.RunCycle | src/aitrader/engine/cycle.py:98-140 | a cycle counts its entries afresh and then equals the execution step on the session's state |
| Trading.TradingCycle.ApproveProposal | src/aitrader/engine/scheduler.py:569-655 | an approved idea leaves the list and goes through sizing and the gate again |
| Indicators.SmaIsWindowMean | src/aitrader/analytics/indicators.py:23-31 | the difference of prefix sums is the mean of the window, defined once the window is full |
| Indicators.WilderSmooth | src/aitrader/analytics/indicators.py:52-65 | the loop fills exactly the recurrence |
| Indicators.ExponentialAverage | src/aitrader/analytics/indicators.py:34-49 | the loop fills exactly the recurrence |
| Indicators.WilderStaysWithin | src/aitrader/analytics/indicators.py:52-65 | defined exactly from the seed on, and within any bounds that hold of all values seen |
| Indicators.EmaStaysWithin | src/aitrader/analytics/indicators.py:34-49 | defined exactly from the seed on, and within any bounds that hold of all values seen |
| Indicators.WilderIsSlowEma | src/aitrader/analytics/indicators.py:45-64 | Wilder's series of period n and the exponential one of period 2n - 1 differ only by their seeds: the gap between them fades by the factor 1 - 1/n with every value |
| Indicators.WilderIsEmaExactlyWhen | src/aitrader/analytics/indicators.py:34-65 | the two series of one period n are equal iff n is 1 or every later value is the mean of the first n |
| Indicators.RsiIsShare | src/aitrader/analytics/indicators.py:68-86 | RSI is the average gains' share of average movement in percent, and 50 when nothing moved |
| Indicators.RsiInRange | src/aitrader/analytics/indicators.py:68-86 | defined exactly from index `period` on, and never outside [0, 100] |
| Indicators.RsiMirrors | src/aitrader/analytics/indicators.py:68-86 | RSI of a series and of its negation add up to 100, zero denominators included |
| Indicators.RsiOfRise | src/aitrader/analytics/indicators.py:68-86 | a series that only rises has index 100 wherever it is defined |

## Left out

- Store failures: `_persist` swallows them; the model assumes every write succeeds. A manager without a store is not modelled.
- Timestamps of orders and rows, the `order_transitions` table, the `orphaned_broker` list and all logging.
- Aliasing: managed orders are values in a map, so a caller that keeps a reference to one is not modelled.
- Order within the reports: loops over Python dicts that only collect refs are modelled as sets.
- Broker callbacks that arrive while `reconcile` is suspended: `OrderRuns` interleaves them between passes and steps, the protection and convergence theorems are about a pass without them.
- `close_position` and `cancel_symbol_orders` appear in the runs only as a single write-ahead row and the statuses that follow.
- ReconcileProofs.ReconcileProtects: says nothing about the price of the protecting order, because the code asks for none.
- ReconcileProofs.SecondPassIsIdle: the broker is the in-memory one, where a cancel takes effect at once; a cancel still in flight may be repeated.
- OrderRuns.FailureBlocks: only within one process, because blocks are not stored.
- Session.SessionsAreSafe: only for submits that do not overlap and between session resets of one process, because counters are neither locked nor stored.
- Session: whether the order manager returned is an input of the session runs; `Submission` says when it does and when that means a send.
- Sizing.SizedWithinCollar: gives a sufficient condition, because rounding may also move a price towards the mid.
- Pacing: a capacity below one (the source then fails on an empty deque) and negative token requests.
- Not-a-number and infinite inputs of the indicators, sizing and quotes; floating-point rounding everywhere.
- The seeding of the focus list before the market opens, and `score_symbol`, which is an arbitrary score here.
- Submissions in `SubmissionRuns` do not overlap, and no callback arrives while one awaits its answer; `OrderRuns` interleaves the steps of a placement with everything else.
- Resolution.ResolvedInBetween: a crash leaves the rows it was not writing as they were; a store that goes back to older rows is not modelled.
- A memory of zero bars: the configuration keeps `memory_bars` at 50 or more.
- Time-outs of waiting ideas are dropping an idea here; session phases, kill switch and account snapshots are inputs.
- The other indicators, strategy negotiation, prompts, dashboards, gateway and broker adapters.
