# Option-selling bots: a verified model

This project models the parts of the `deltabot` repository where money depends on state: the order and
position protocol of the live engines, the matching and all-or-nothing entry of the strangle ladder, the
pricing, search and indicator algorithms shared by live code and backtests, and the ledgers of three
repriced backtests. Strategies, quotes, calendars, network failures and exchange answers are arbitrary
inputs, so every result holds for all of them. Check everything with `dafny verify dfyconfig.toml`.

## How it is organised

| module | what it models |
|---|---|
| `Common`, `Exchange` | candles, optional values, the exchange's book of shorts and reduce-only buys |
| `HeikinAshiEngine`, `HeikinAshiSafety`, `HeikinAshiDecisions`, `HeikinAshiRuns` | the live Heikin-Ashi engine as a transition system: one program counter per asyncio task, atomic between awaits, with lost replies, blind queries, vanishing positions, crashes and restarts |
| `OptionsExecutor`, `Dcv2Exit`, `Dcv2Foreign` | one tracked option leg against the venue; DCv2's exit retried on every tick; its block on foreign positions |
| `LadderReconcile`, `LadderMatching`, `LadderEntry` | the 2N-leg strangle: two-pass startup matching, entry with unwind |
| `CandleResample`, `CandleAggregator` | batch resampling, the streaming bucket roll, closed-candle detection |
| `OptionPricing`, `StrikeSearch`, `StrikeChain` | premium lookup, fees, intrinsic value; the early-stopping strike search with its cache, against its window and against the whole chain |
| `EmaSignal`, `EmaWindow`, `EmaSession` | the EMA and the stacked signal; the live engine's window against the full history; one entry per session |
| `StranglePayoff`, `WeeklyHedge`, `WeeklyDecisions` | the weekly strangle: breakevens, hedged loss, hedge state machine, weekly accounts, what each candle decides |
| `SupertrendLedger`, `SupertrendDecisions`, `LadderBacktest` | compounding ledger with partial closes; combined target and stop over any number of legs |

Code that updates fields or fills buffers is a class or a method with loops, proved equal to a function of
its inputs or old state; the theorems are then about those functions. Money and premiums are `real`, times
and lots are `int`.

## Where the code does not do what it promises

Each of these is a theorem, with the exact condition where there is one.

* **A blind position query orphans a short.** The Heikin-Ashi engine is safe after every prefix of a run
  if and only if no position query after a lost reply was untruthful about a live order, and no restart went
  without both a fetch reporting the short and a state file naming it
  (`HeikinAshiRuns.SafeThroughoutIffNoShortMissed`, `HeikinAshiRuns.OrphanIsReachable`). Truthful queries and a first fetch that gets through are
  enough, on the events alone (`HeikinAshiRuns.TruthfulRunsAreSafe`).
* **The engine can wedge.** It ends up with an entry premium and no leg if and only if an entry price arrives
  for a leg that was closed while the engine was asking for it
  (`HeikinAshiRuns.NeverStuckIffNoGoneLegIsPriced`). No entry is possible then until a restart, or a reconnect
  that finds no state file (`HeikinAshiRuns.WedgedUntilRestart`, `HeikinAshiRuns.ReconnectFreesIffNoFile`); a
  run without any fault of the exchange gets there (`HeikinAshiRuns.WedgeIsReachable`).
* **Ladder entry is not always all-or-nothing.** An exception other than the margin error skips the unwind,
  and a leg that filled without a price is tracked but never unwound; both are the precise failing cases
  (`LadderEntry.EntryIsAllOrNothingIff`, `LadderEntry.PartialLadderIsReachable`).
* **The strike search is not a global minimum.** The docstring promises the closest premium on the live chain.
  On chains whose premiums fall along the strike axis it finds one if and only if, at each end, the 50-strike
  window quotes the far side of the target or the next premium beyond the window is no closer
  (`StrikeChain.SearchIsGlobalIff`); a chain falling by 10 a strike fails it
  (`StrikeChain.MonotoneChainIsMissed`). Within its own window it finds the closest strike for every target if
  and only if no strike is hidden: out of reach of the walk that crosses at some new low, dearer than that low
  but cheaper than everything before it, and quoted by nothing within reach
  (`StrikeSearch.EarlyStopIsExhaustiveIff`, `StrikeSearch.NonMonotoneChainIsMissed`).
* **Live and backtest signals can differ.** The live engine refetches four days of candles at every bar, so its
  EMAs are seeded later than the backtest's. The two agree on every history if and only if the window is the
  whole history (`EmaWindow.WindowAlwaysAgreesIffWhole`); at the default settings some history around 60000 of
  any length beyond four days makes the live engine go long where the backtest sees nothing
  (`EmaWindow.FourDayWindowCanDisagree`). Bar by bar they agree if and only if the seeds' decayed gaps keep the
  close and the two EMAs in order (`EmaWindow.LiveSignalAgreesIff`).
* **A session can be entered twice.** After an executed order, hunting once per bar, every continuation keeps
  to one order a session if and only if that order's session mark was written, or no bar boundary is left in
  the session. The mark is missing when the opener raised after the order, when the mark-price request raised,
  or when the file was not saved (`EmaSession.SessionStaysSingleIff`).
* **Breakevens need uncrossed strikes.** The interval between the breakevens is exactly the profitable zone if
  and only if the strikes are crossed by at most the premium, or by more than twice the premium
  (`StranglePayoff.BreakevensAreExactIff`).
* **A partial booking can empty a leg and keep it open.** With `--partial-lots` at least the leg's size the
  empty leg stays and blocks entries until some exit fires (`SupertrendLedger.EmptyLegStaysOpenIff`,
  `SupertrendLedger.EmptyLegBlocksIff`, `SupertrendLedger.EmptyLegIsReachable`).
* **A target exit can lose money.** The combined target gains on every ladder if and only if it outweighs both
  fee caps and both slippages (`LadderBacktest.TargetAlwaysGainsIff`).

## Model

| member | source | states |
|---|---|---|
| HeikinAshiSafety.StepKeepsInv | src/deltabot/core/heikin_ashi_trader.py:179-348 | Every step of every task, of the exchange, or a restart keeps: each guard flag is up exactly while one task is inside its section, and what every suspended task relies on stays true, unless the step hides a live short from the bot |
| HeikinAshiSafety.ActKeepsOthers | src/deltabot/core/heikin_ashi_trader.py:254-348 | Running one task to its next await never invalidates what any other suspended task relies on; opening and closing may overlap |
| HeikinAshiSafety.RestartKeepsInv | src/deltabot/core/heikin_ashi_trader.py:351-414 | A crash at any point followed by the startup reconcile re-establishes the invariant, an order still on its way being lost with the process, unless neither a fetch nor the state file reports the short |
| HeikinAshiSafety.InvIsSafe | src/deltabot/core/heikin_ashi_trader.py:254-348 | The invariant implies at most one live short, of the configured size, tracked or owned by the only order in flight |
| HeikinAshiDecisions.ToldToExitCloses | src/deltabot/core/heikin_ashi_trader.py:179-348 | From every guarded state with a tracked leg and no close under way, a forming bar or closed bar told to exit and the square-off send the buy-back of exactly the tracked product and size; once answered, the book is empty, nothing is tracked, no premium or file remains and the guard is down |
| HeikinAshiDecisions.HandlerClosesIff | src/deltabot/core/heikin_ashi_trader.py:192-251 | A handler sends a buy-back if and only if a leg is tracked, no close is under way, and it was told to exit or squares off |
| HeikinAshiDecisions.ToldToEnterOpens | src/deltabot/core/heikin_ashi_trader.py:254-310 | From every guarded state that is flat and idle, a bar told to enter ends with exactly the configured lots of the chosen product short, tracked, remembered at their price and named by the state file |
| HeikinAshiDecisions.HandlerOpensIff | src/deltabot/core/heikin_ashi_trader.py:192-265 | A handler starts opening if and only if it was told to enter, is not the square-off, and nothing is tracked, remembered or under way |
| HeikinAshiDecisions.ClosedBarGoesOnIff | src/deltabot/core/heikin_ashi_trader.py:198-203 | After its close a closed bar goes on to open if and only if it was told to enter and nothing is tracked, remembered or under way |
| HeikinAshiDecisions.HandlerElseEnds | src/deltabot/core/heikin_ashi_trader.py:179-251 | Otherwise a handler ends, having changed nothing |
| HeikinAshiDecisions.FetchSeesIff | src/deltabot/core/heikin_ashi_trader.py:370-385 | A reconcile sees the shorts if and only if one of three fetches does; a bot that believes it owns nothing looks once |
| HeikinAshiDecisions.RestartTracksLiveShort | src/deltabot/core/heikin_ashi_trader.py:387-396 | A restart that sees the live short tracks it at its live size, with the saved premium exactly when the file is about it |
| HeikinAshiRuns.SafeThroughoutIffNoShortMissed | src/deltabot/core/heikin_ashi_trader.py:179-414 | For every interleaving with crashes, lost replies and vanishing positions: safe after every prefix if and only if no event, in the state it met, was an untruthful query about a live order or a restart without a fetch or file reporting the short |
| HeikinAshiRuns.TruthfulRunsAreSafe | src/deltabot/core/heikin_ashi_trader.py:179-414 | On events alone: truthful recovery queries and a first fetch that gets through make every interleaving safe |
| HeikinAshiRuns.StepIsSafeIff | src/deltabot/core/heikin_ashi_trader.py:179-414 | From every state the guards can reach, a step is safe if and only if it hides no live short |
| HeikinAshiRuns.OnlyRecoveryMisses | src/deltabot/core/options_executor.py:209-216 | Short of a restart, safety ends if and only if a position query after a lost reply is untruthful about an order that is live, and the bot then goes on as if flat |
| HeikinAshiRuns.MissedShortIsOrphaned | src/deltabot/core/options_executor.py:209-216 | The step that misses a live short breaks safety at once |
| HeikinAshiRuns.RestartRecoversIff | src/deltabot/core/heikin_ashi_trader.py:351-414 | After a crash the restart is safe if and only if the book is flat, a fetch reports the short, or the state file names it; a stale file yields at worst a phantom leg over an empty book |
| HeikinAshiRuns.StuckIffGoneLegIsPriced | src/deltabot/core/heikin_ashi_trader.py:254-310 | Exactly one kind of step leaves a premium without a leg: the entry price of a leg that was closed meanwhile |
| HeikinAshiRuns.NeverStuckIffNoGoneLegIsPriced | src/deltabot/core/heikin_ashi_trader.py:254-348 | For every run: no prefix is ever stuck if and only if no entry price arrives after its leg was closed |
| HeikinAshiRuns.StuckBecomesWedged | src/deltabot/core/heikin_ashi_trader.py:254-348 | A stuck engine has nothing live, and once its opening task is done no task is left that could track a leg |
| HeikinAshiRuns.WedgedUntilRestart | src/deltabot/core/heikin_ashi_trader.py:254-310 | Then the premium without a leg persists through every event of the model but a restart, and no short is opened meanwhile |
| HeikinAshiRuns.ReconnectFreesIffNoFile | src/deltabot/core/heikin_ashi_trader.py:351-414 | A reconcile on reconnect, taken as one step, lets a wedged engine enter again if and only if no state file was written |
| HeikinAshiRuns.WedgeIsReachable | src/deltabot/core/options_executor.py:227-232 | A concrete safe run reaches the wedge with every request and reply arriving, nothing refused or vanishing, and every file write succeeding |
| HeikinAshiRuns.OrphanIsReachable | src/deltabot/core/options_executor.py:209-216 | One lost reply and one failed query reach a live short that nothing tracks |
| HeikinAshiRuns.OrphanIsUnsafe | src/deltabot/core/heikin_ashi_trader.py:254-310 | That state is unsafe and lets a second order start |
| OptionsExecutor.OptionsExecutor.OpenByPremium | src/deltabot/core/options_executor.py:175-249 | The tracked size equals the live short unless the reply was lost after execution and the query failed too; raises exactly when nothing is tracked; a tracked leg always has an entry price, from the reply, the position or the mark |
| OptionsExecutor.OptionsExecutor.CloseOption | src/deltabot/core/options_executor.py:670-723 | Tracking is dropped exactly when the close or a "no position" refusal got back; the book moves exactly when the request arrived |
| Dcv2Exit.Dcv2Engine.CloseLeg | src/deltabot/core/dcv2_trader.py:504-537 | Afterwards either nothing is tracked and no exit is pending, or the leg is still tracked and the exit is pending |
| Dcv2Exit.Dcv2Engine.RetryPendingExit | src/deltabot/core/dcv2_trader.py:493-502 | One retry, and whether the tick is consumed by it |
| Dcv2Exit.Dcv2Engine.RetryEveryTick | src/deltabot/core/dcv2_trader.py:287-289 | Every tick retries first: the state after any number of ticks is the fold the theorems below are about |
| Dcv2Exit.ExitOutcome | src/deltabot/core/dcv2_trader.py:493-537 | Over every sequence of lost, rejected and accepted closes the short is bought back whole and never beyond flat exactly when some request arrived; the exit ends exactly when some reply got back |
| Dcv2Exit.RetryingTerminates | src/deltabot/core/dcv2_trader.py:493-537 | Once failures stop the exit is over and stays over, whatever is retried later |
| Dcv2Exit.RetryNeedsTrackedLeg | src/deltabot/core/dcv2_trader.py:493-502 | From every state, a retry drops a pending exit whose leg is gone and moves nothing else |
| Dcv2Foreign.Dcv2ForeignGuard.RefreshForeign | src/deltabot/core/dcv2_trader.py:711-745 | When a refresh is judged (never in paper mode), and that nothing else changes the block |
| Dcv2Foreign.CandidateImplementsRule | src/deltabot/core/dcv2_trader.py:691-745 | The one-slot candidate implements the rule on the whole history of sightings: adopt the latest when it adds nothing or repeats the previous one |
| Dcv2Foreign.NewSymbolsNeedTwoSightings | src/deltabot/core/dcv2_trader.py:711-745 | A symbol enters the block only on the second of two identical sightings containing it |
| Dcv2Foreign.ShrinkingAndRepeatsApply | src/deltabot/core/dcv2_trader.py:711-745 | A shrinking sighting applies at once; two equal sightings in a row leave the block equal to them |
| LadderReconcile.SyncToExchange | src/deltabot/core/daily_strangle_9pm_laddered_trader.py:384-449 | Each leg object ends up holding exactly the short the two-pass matching gives it, a position of negative size the exchange reported, with symbol, size and the premium that goes with the saved symbol, or its saved leg, or flat |
| LadderReconcile.ShortsAre | src/deltabot/core/daily_strangle_9pm_laddered_trader.py:399 | The shorts considered are exactly the positions of negative size, in order |
| LadderReconcile.MatchStateFiles | src/deltabot/core/daily_strangle_9pm_laddered_trader.py:403-417 | The first loop claims exactly the exact-symbol matches and leaves other legs untouched |
| LadderReconcile.AdoptLeftovers | src/deltabot/core/daily_strangle_9pm_laddered_trader.py:422-449 | The second loop completes the matching |
| LadderMatching.MatchingIsInjective | src/deltabot/core/daily_strangle_9pm_laddered_trader.py:400-434 | No short is given to two legs |
| LadderMatching.SavedSymbolWins | src/deltabot/core/daily_strangle_9pm_laddered_trader.py:403-417 | A leg whose saved symbol is live and not saved by an earlier leg gets exactly that short |
| LadderMatching.UnpickedMeansExhausted | src/deltabot/core/daily_strangle_9pm_laddered_trader.py:422-434 | A leg is left without a live short only when every live short of its type is taken |
| LadderMatching.LeftoversMatchByType | src/deltabot/core/daily_strangle_9pm_laddered_trader.py:422-434 | Without a saved symbol a call leg takes only a symbol starting with C- and a put leg one starting with P- |
| LadderMatching.MatchingIsMaximum | src/deltabot/core/daily_strangle_9pm_laddered_trader.py:400-449 | The shorts claimed per type number the smaller of legs and live shorts of that type |
| LadderEntry.LadderEngine.MaybeEnter | src/deltabot/core/daily_strangle_9pm_laddered_trader.py:202-251 | The legs and the book after an entry attempt, for every way each open can end |
| LadderEntry.LadderEngine.Unwind | src/deltabot/core/daily_strangle_9pm_laddered_trader.py:253-273 | Every opened leg is closed once; those whose close failed stay tracked |
| LadderEntry.OpenedIsExact | src/deltabot/core/daily_strangle_9pm_laddered_trader.py:216-240 | While legs fill, each is tracked as it was filled and the book holds exactly the tracked lots, product by product |
| LadderEntry.UnwoundShape | src/deltabot/core/daily_strangle_9pm_laddered_trader.py:253-273 | Of the opened legs, one that is tracked is flat after the unwind if and only if its close reached and was answered, and is otherwise unchanged; exactly the others are recorded as failed |
| LadderEntry.UnwoundBuysBack | src/deltabot/core/daily_strangle_9pm_laddered_trader.py:253-273 | Each product is bought back by exactly the lots of its legs whose request reached the exchange |
| LadderEntry.UnwoundEntry | src/deltabot/core/daily_strangle_9pm_laddered_trader.py:202-273 | After a margin error or a missing contract: the legs and the book that are left, from the fills and the fates alone |
| LadderEntry.UnwoundKeepsCovered | src/deltabot/core/daily_strangle_9pm_laddered_trader.py:253-273 | Unwinding never leaves a live leg untracked, whatever the replies |
| LadderEntry.EntryIsAllOrNothingIff | src/deltabot/core/daily_strangle_9pm_laddered_trader.py:202-273 | For any number of legs, entry leaves the full ladder, or only tracked legs whose own close was tried and lost, if and only if the first failure is a margin error, a missing contract, or an exception on the first leg whose order did not execute |
| LadderEntry.PartialLadderIsReachable | src/deltabot/core/daily_strangle_9pm_laddered_trader.py:202-251 | One pair: the call fills, the put's reply is lost; the put is live and untracked and the call stands alone |
| CandleResample.ResampleCandles | scripts/backtest_dchannel.py:61-78 | The dictionary and its insertion order are the batch resample |
| CandleResample.StreamBuckets | scripts/backtest_heikin_ashi.py:221-239 | The bucket rolled in place and the candles emitted so far are the roll |
| CandleResample.BatchSummarizes | scripts/backtest_dchannel.py:61-78 | On any input, one candle per occurring bucket: open first, close last, high and low attained bounds, volume summed |
| CandleResample.BatchKeepsBarsOk | scripts/backtest_dchannel.py:61-78 | low <= open, close <= high is preserved |
| CandleResample.RollIsBatchIffNoBucketReturns | scripts/backtest_heikin_ashi.py:221-239 | For every input, streaming and batch agree if and only if the input's keys never come back to a bucket they have left |
| CandleResample.StreamEmitsBatch | scripts/backtest_heikin_ashi.py:221-239 | On every time-ordered stream they agree |
| CandleResample.BatchComposes | scripts/backtest_dchannel.py:61-78 | On time-ordered candles, resampling to b and then to a multiple t is resampling to t |
| CandleAggregator.CandleAggregator.Ingest | src/deltabot/core/candle_aggregator.py:42-69 | Every roll-over is emitted, so the dedupe guard never fires; the fields are a function of the message history |
| CandleAggregator.ClosedStartsIncrease | src/deltabot/core/candle_aggregator.py:42-75 | Emitted starts strictly increase and stay below the forming bar's |
| CandleAggregator.ClosedAreFinalSnapshots | src/deltabot/core/candle_aggregator.py:42-75 | A snapshot is emitted if and only if it is the last of its bar before the first newer bar |
| OptionPricing.PremiumAt | src/deltabot/backtest/option_pricing.py:92-99 | The back-search loop returns the specified premium |
| OptionPricing.PremiumTimeIs | src/deltabot/backtest/option_pricing.py:92-99 | The bar read is the first of twelve grid points back that traded, else the newest earlier bar |
| OptionPricing.AlignedPremiumIsLatest | src/deltabot/backtest/option_pricing.py:92-99 | On grid-aligned histories the back-search is "latest price at or before the time" |
| OptionPricing.PremiumNeverLooksAhead | src/deltabot/backtest/option_pricing.py:92-99 | A premium never depends on a later bar, and is absent exactly when every bar is later |
| OptionPricing.SideFeeBounds | src/deltabot/backtest/option_pricing.py:32-36 | Fees are between nothing and a tenth of the premium traded |
| OptionPricing.SideFeeIs | src/deltabot/backtest/option_pricing.py:23-36 | The fee is 0.012% of the underlying, or a tenth of the premium where that is less, on the size traded |
| StrikeSearch.PremiumCache.Evaluate | src/deltabot/backtest/option_pricing.py:217-225 | A cache consistent with the fetch prices every strike as a fresh fetch would |
| StrikeSearch.PremiumCache.ResolveByPremium | src/deltabot/backtest/option_pricing.py:183-252 | Returns the first closest of the strikes visited, and of the whole 50-strike window when nothing is hidden or premiums are monotone towards OTM; the cache never changes the answer |
| StrikeSearch.ScanIsFirstClosest | src/deltabot/backtest/option_pricing.py:229-235 | Keeping the best with a strict comparison is the first argmin of the distance |
| StrikeSearch.WindowIs | src/deltabot/backtest/option_pricing.py:236-250 | The window is the money and the next 29 strikes towards OTM, then 20 towards ITM |
| StrikeSearch.QuoteIsEntryPremium | src/deltabot/backtest/option_pricing.py:215-225 | A strike is quoted at its premium at the entry time, and only if it can be priced at both times |
| StrikeSearch.EarlyStopIsExhaustiveIff | src/deltabot/backtest/option_pricing.py:237-252 | For every quote function: the search returns its window's first closest strike for every target, tie-break included, if and only if no strike is hidden |
| StrikeSearch.EarlyStopIsExhaustive | src/deltabot/backtest/option_pricing.py:237-252 | On chains monotone towards OTM with arbitrary missing strikes nothing is hidden |
| StrikeSearch.NonMonotoneChainIsMissed | src/deltabot/backtest/option_pricing.py:189-206 | Histories around a money of 60000 on which the search misses the closest strike of its window |
| StrikeChain.SearchIsGlobalIff | src/deltabot/backtest/option_pricing.py:189-252 | On every chain whose premiums fall along the whole strike axis: the strike found is a closest of the whole chain if and only if at each end the window quotes the far side of the target or the next premium beyond it is no closer |
| StrikeChain.BracketedSearchIsGlobal | src/deltabot/backtest/option_pricing.py:189-252 | Quotes on both sides of the target within the window are enough |
| StrikeChain.MonotoneChainIsMissed | src/deltabot/backtest/option_pricing.py:189-206 | Histories with falling premiums on which the search stops 310 away from a target that is quoted exactly |
| EmaSignal.Ema | src/deltabot/core/ema_side_9pm_trader.py:51-62 | The list filled in place is the EMA series |
| EmaSignal.EmaPrefixStable | src/deltabot/core/ema_side_9pm_trader.py:51-62 | Later values never change an earlier EMA |
| EmaSignal.EmaBounded | src/deltabot/core/ema_side_9pm_trader.py:51-62 | An EMA stays between the least and greatest of its inputs |
| EmaSignal.EmaSeriesBounded | src/deltabot/core/ema_side_9pm_trader.py:51-62 | So does every entry of the series, which starts with the first full window |
| EmaSignal.EmaForgets | src/deltabot/core/ema_side_9pm_trader.py:51-62 | Histories sharing their last n closes have EMAs that differ by their earlier gap, shrunk by 1 - a at each close |
| EmaSignal.DecayIsPower | src/deltabot/core/ema_side_9pm_trader.py:51-62 | That shrinking is multiplication by (1 - a)^n |
| EmaSignal.FindSignal | scripts/backtest_9pm_ema_side_sell.py:59-79 | The first qualifying bar before the deadline, or none exists |
| EmaSignal.QualifiesIff | scripts/backtest_9pm_ema_side_sell.py:59-79 | On which side a bar qualifies, stacked and not |
| EmaSignal.PrefixSignalIsBacktestSignal | src/deltabot/core/ema_side_9pm_trader.py:65-76 | At every bar `stacked_signal` on the closes so far is the backtest's decision from the full history |
| EmaSignal.PrefixFirstFiresWhereBacktestDoes | scripts/backtest_9pm_ema_side_sell.py:59-79 | `stacked_signal` on growing prefixes first fires at exactly the bar and side the backtest accepts first |
| EmaWindow.WindowEmaDrifts | src/deltabot/core/ema_side_9pm_trader.py:192-209 | On the refetched window the EMA is the full history's plus the seed's decayed gap, exactly |
| EmaWindow.DriftIsBounded | src/deltabot/core/ema_side_9pm_trader.py:192-209 | That drift is at most the price range times (1 - a)^n |
| EmaWindow.WholeWindowIsClear | src/deltabot/core/ema_side_9pm_trader.py:192-209 | A window reaching back to the first bar does not drift, so only ties between close and EMAs are unclear |
| EmaWindow.LiveSignalAgreesIff | src/deltabot/core/ema_side_9pm_trader.py:192-237 | At every bar the live signal on the window is the full history's if and only if adding the drifts keeps the order of the close and the EMAs |
| EmaWindow.LiveSignalIsBacktestSignal | src/deltabot/core/ema_side_9pm_trader.py:192-237 | A margin that implies it: the close and the EMAs further apart than the drifts; the live signal is then the backtest's decision |
| EmaWindow.WindowAlwaysAgreesIffWhole | src/deltabot/core/ema_side_9pm_trader.py:192-237 | For 2 <= fast < slow and a window of at least slow bars: the signals agree on every positive history of a length if and only if the window is all of it |
| EmaWindow.FourDayWindowCanDisagree | src/deltabot/core/ema_side_9pm_trader.py:192-237 | At 50 and 200 five-minute closes: a history of any length beyond four days on which the live engine goes long and the full history says nothing |
| EmaWindow.LiveFirstFiresWhereBacktestDoes | src/deltabot/core/ema_side_9pm_trader.py:211-244 | While the drifts keep the order, the live engine, refetching a window at each bar, first fires at exactly the bar and side the backtest accepts first |
| EmaSession.StartDayMonotone | src/deltabot/core/ema_side_9pm_trader.py:79-90 | Session starts are monotone in time |
| EmaSession.WindowIsLatestSession | src/deltabot/core/ema_side_9pm_trader.py:79-90 | A window is found whenever some session contains the time, and it is the latest |
| EmaSession.SessionsDisjointIff | src/deltabot/core/ema_side_9pm_trader.py:79-90 | Sessions never overlap if and only if the exit time of day is not after the entry time |
| EmaSession.EmaSide9pmEngine.HuntOnce | src/deltabot/core/ema_side_9pm_trader.py:211-244 | One hunt, for every outcome of the opener and of saving the session file |
| EmaSession.EmaSide9pmEngine.EnterSession | src/deltabot/core/ema_side_9pm_trader.py:246-283 | Which outcomes place an order and which mark the session |
| EmaSession.OrderIsPlacedIff | src/deltabot/core/ema_side_9pm_trader.py:211-283 | Over every run: an event places an order if and only if it hunts with a signal, unblocked, with no leg open, the time and its bar boundary in the latest session, that session unmarked, and the exchange executes; the order is for that session |
| EmaSession.TryOutcome | src/deltabot/core/ema_side_9pm_trader.py:246-283 | What a try leaves open, marked and saved for each outcome; a hunt that does not try changes nothing |
| EmaSession.LegIsOpenIff | src/deltabot/core/ema_side_9pm_trader.py:211-283 | Over every run: a leg is open if and only if some try opened one and it has neither gone nor been missed by a restart since |
| EmaSession.OtherEvents | src/deltabot/core/ema_side_9pm_trader.py:170-177 | A restart remembers the saved mark alone; nothing but a hunt places or marks |
| EmaSession.NoOrderWithoutSignal | src/deltabot/core/ema_side_9pm_trader.py:211-244 | No order without a signal, none while blocked, none while a leg is open |
| EmaSession.OneOrderPerSession | src/deltabot/core/ema_side_9pm_trader.py:170-283 | Over every time-ordered run with restarts and legs closing at any moment, no two orders fall in one session if the mark of every executed order is written; hunts that place none need nothing |
| EmaSession.UnmarkedOrderRepeats | src/deltabot/core/ema_side_9pm_trader.py:182-283 | After a marked run hunting once per bar, an executed order without its mark can be followed by a second of the same session at the next bar boundary, if that falls in the session |
| EmaSession.SessionStaysSingleIff | src/deltabot/core/ema_side_9pm_trader.py:170-283 | For every executed order a marked run can reach, hunting once per bar: all marked continuations keep to one order a session if and only if that order's mark was written or no bar boundary is left in its session |
| StranglePayoff.SoldGainsIffInsideBreakevens | scripts/backtest_weekly_strangle_breakeven_hedge.py:170-172 | Settled at intrinsic, the sold strangle keeps its premium if and only if the price is inside the breakevens and the strikes are crossed by at most the premium |
| StranglePayoff.BreakevensAreExactIff | scripts/backtest_weekly_strangle_breakeven_hedge.py:170-172 | When the breakevens describe the profitable prices exactly |
| StranglePayoff.HedgedLossIsBounded | scripts/backtest_weekly_strangle_breakeven_hedge.py:74-79 | With both hedges held, the loss per unit is at most the distance from a breakeven to its hedge strike plus the hedges' cost, for every final price |
| StranglePayoff.WorstLossIsLeastAboveCost | scripts/backtest_weekly_strangle_breakeven_hedge.py:74-79 | Among limits at or above the hedges' cost, that bound is the least valid at all non-negative prices |
| StranglePayoff.FourPricesDecideLossLimit | scripts/backtest_weekly_strangle_breakeven_hedge.py:74-79 | For any strikes and any limit: it holds at every non-negative price if and only if it holds at the outermost and the hedge strikes |
| StranglePayoff.HedgedLossLimitIff | scripts/backtest_weekly_strangle_breakeven_hedge.py:74-79 | With each hedge at or beyond the strike it covers, the exact least limit, of either sign, in closed form |
| StranglePayoff.HedgedMoneyLossIsBounded | scripts/backtest_weekly_strangle_breakeven_hedge.py:74-79 | The same in money, for any lots and lot size |
| WeeklyHedge.HedgeKeepsOk | scripts/backtest_weekly_strangle_breakeven_hedge.py:117-141 | A candle keeps: `hedged[side]` is exactly the one un-exited hedge of that side, hedges are bought beyond their breakeven and exited only back inside, `ever` lists the sides ever hedged, no exit is rewritten, and without exit-inside each side is hedged at most once |
| WeeklyDecisions.HedgesAreBoughtBeyond | scripts/backtest_weekly_strangle_breakeven_hedge.py:118-132 | In every cycle in order: a call hedge was bought above call strike plus both entries, a put hedge below put strike less both, and each sold early only back inside by the buffer |
| WeeklyDecisions.ReportedHedgesAreBoughtBeyond | scripts/backtest_weekly_strangle_breakeven_hedge.py:101-178 | The same of every hedge of every reported week |
| WeeklyDecisions.CandleHedgesIff | scripts/backtest_weekly_strangle_breakeven_hedge.py:117-141 | An open candle adds a side's hedge if and only if none is held, none was bought unless renewable, BTC closed beyond that breakeven and the contract at breakeven plus offset resolves; and what is bought |
| WeeklyDecisions.CandleSellsHedgeIff | scripts/backtest_weekly_strangle_breakeven_hedge.py:123-127 | An open candle sells exactly the renewable hedges whose side is back inside, and touches no other leg |
| WeeklyDecisions.CandleClosesIff | scripts/backtest_weekly_strangle_breakeven_hedge.py:109-116 | A cycle closes if and only if its time is up or the sold legs are worth no more than the target or no less than the stop, in that order |
| WeeklyDecisions.ClosedAtCurrentPrices | scripts/backtest_weekly_strangle_breakeven_hedge.py:81-91 | Each leg still held leaves at its price on that candle |
| WeeklyDecisions.CandleOpensIff | scripts/backtest_weekly_strangle_breakeven_hedge.py:143-172 | A cycle opens if and only if the calendar starts one and both contracts resolve; the strikes asked for and the legs sold |
| WeeklyDecisions.PriceIs | scripts/backtest_weekly_strangle_breakeven_hedge.py:54-59 | A leg is worth its latest premium, floored at its intrinsic value, and that value without any premium |
| WeeklyHedge.SettleIsOk | scripts/backtest_weekly_strangle_breakeven_hedge.py:86-99 | At close every leg has exactly one exit, earlier exits are kept, and net is the sum of all leg profits, sold plus hedge |
| WeeklyHedge.After | scripts/backtest_weekly_strangle_breakeven_hedge.py:101-172 | Over every candle stream the open cycle and all closed weeks are in order |
| WeeklyHedge.Report | scripts/backtest_weekly_strangle_breakeven_hedge.py:101-178 | Every reported week is in order, the one closed at the end of data included |
| WeeklyHedge.WeeklyBacktest.Close | scripts/backtest_weekly_strangle_breakeven_hedge.py:86-99 | The closing loop appends exactly the settled week |
| WeeklyHedge.WeeklyBacktest.HedgeSide | scripts/backtest_weekly_strangle_breakeven_hedge.py:123-141 | One side's branch of the loop, field by field |
| WeeklyHedge.WeeklyBacktest.OnCandle | scripts/backtest_weekly_strangle_breakeven_hedge.py:103-172 | One candle: expiry, target, stop, hedges, entry, in the source's order |
| WeeklyHedge.WeeklyBacktest.Run | scripts/backtest_weekly_strangle_breakeven_hedge.py:101-178 | The whole run reports exactly those weeks and leaves nothing open |
| WeeklyHedge.HedgedWeekLossIsBounded | scripts/backtest_weekly_strangle_breakeven_hedge.py:74-99 | A reported week that hedged both sides and settled at intrinsic lost at most the hedged bound on its size plus its fees |
| SupertrendLedger.BookingKeepsOk | scripts/backtest_supertrend_15m_filter_fixed_sl.py:168-212 | Booking a partial or a full close keeps capital, lots per leg, the single partial and the time order of legs |
| SupertrendLedger.RunKeepsLedger | scripts/backtest_supertrend_15m_filter_fixed_sl.py:227-345 | On every time-ordered stream, whatever the strategy: capital is the start plus all booked nets, each closed leg's rows sum to its lots with at most one partial, legs do not overlap, and the lot size is the last checkpoint's |
| SupertrendLedger.FinishBalances | scripts/backtest_supertrend_15m_filter_fixed_sl.py:340-345 | A finished run has closed every leg and its ledger is in order |
| SupertrendLedger.ClosedLegIsWhole | scripts/backtest_supertrend_15m_filter_fixed_sl.py:168-212 | What an ordered ledger says of a closed leg: its rows add up, one full close, at most one partial, all before any later entry |
| SupertrendLedger.LotsMoveOnlyAtDayClose | scripts/backtest_supertrend_15m_filter_fixed_sl.py:236-254 | The lot size moves only on a day-close candle, to what the capital booked so far pays for; entries use the size in force |
| SupertrendLedger.EmptyLegStaysOpenIff | scripts/backtest_supertrend_15m_filter_fixed_sl.py:283-289 | An open leg holds no lots if and only if its partial covered it whole |
| SupertrendLedger.EmptyLegBlocksIff | scripts/backtest_supertrend_15m_filter_fixed_sl.py:256-338 | It blocks every entry exactly until a day close, the expiry, a strategy exit or the target |
| SupertrendLedger.EmptyLegBooksNothing | scripts/backtest_supertrend_15m_filter_fixed_sl.py:168-200 | Closing it adds a row of no lots and no money |
| SupertrendLedger.EmptyLegIsReachable | scripts/backtest_supertrend_15m_filter_fixed_sl.py:283-289 | Two candles reach it |
| SupertrendDecisions.RowIs | scripts/backtest_supertrend_15m_filter_fixed_sl.py:168-191 | What a booked row says: leg, time, price, lots, both fills with slippage and floor, and the net they make |
| SupertrendDecisions.NetBounds | scripts/backtest_supertrend_15m_filter_fixed_sl.py:171-178 | A net lies between the fills' difference on the size and that less a tenth of each fill |
| SupertrendDecisions.NetFallsWithPremium | scripts/backtest_supertrend_15m_filter_fixed_sl.py:171-178 | Above the floor, buying back dearer always nets less |
| SupertrendDecisions.RunMoney | scripts/backtest_supertrend_15m_filter_fixed_sl.py:227-345 | Over every run with non-negative prices, every row's net is bounded by its fills, and a row gains only by buying back below its leg's sale |
| SupertrendDecisions.LegLeavesIff | scripts/backtest_supertrend_15m_filter_fixed_sl.py:236-325 | An open leg leaves a candle if and only if the day ends, it has expired, the strategy exits or the premium is at the target |
| SupertrendDecisions.LegRows | scripts/backtest_supertrend_15m_filter_fixed_sl.py:236-325 | The rows a candle books for an open leg: the part, and the rest for the first of those reasons at its premium and price |
| SupertrendDecisions.LegEntersIff | scripts/backtest_supertrend_15m_filter_fixed_sl.py:133-165 | A candle enters if and only if it is flat after its exits, told to sell, in time, unblocked, has a lot and finds a contract; and the leg it opens |
| SupertrendDecisions.DayClosesIff | scripts/backtest_supertrend_15m_filter_fixed_sl.py:236-254 | Once per date from the square-off time; the capital recorded and the lots it buys |
| SupertrendDecisions.LotsForIs | scripts/backtest_supertrend_15m_filter_fixed_sl.py:130-130 | Lots are the most whole lots capital pays for, none if it is negative |
| SupertrendLedger.SupertrendBacktest.RecordTrade | scripts/backtest_supertrend_15m_filter_fixed_sl.py:168-191 | Appends exactly one row, with its fills and net, and compounds the net |
| SupertrendLedger.SupertrendBacktest.EndDay | scripts/backtest_supertrend_15m_filter_fixed_sl.py:236-254 | The day-close checkpoint fires once per date |
| SupertrendLedger.SupertrendBacktest.CloseAtPartialTarget | scripts/backtest_supertrend_15m_filter_fixed_sl.py:283-289 | The partial booking branch |
| SupertrendLedger.SupertrendBacktest.OnCandle | scripts/backtest_supertrend_15m_filter_fixed_sl.py:227-338 | One candle: day close, expiry, strategy exit, partial, target, entry, in the source's order |
| SupertrendLedger.SupertrendBacktest.RunAll | scripts/backtest_supertrend_15m_filter_fixed_sl.py:227-345 | The whole run is the specified ledger |
| LadderBacktest.NetScales | scripts/backtest_daily_strangle_9pm_laddered.py:89-105 | The accumulating loop is the size traded times a sum per unit, for any number of legs |
| LadderBacktest.UnitNetBounds | src/deltabot/backtest/option_pricing.py:32-36 | A close depends on the legs only through the two combined premiums, up to fees of at most a tenth of each side |
| LadderBacktest.TargetAlwaysGainsIff | scripts/backtest_daily_strangle_9pm_laddered.py:150-157 | Every target exit of every ladder of call and put pairs, at positive BTC prices, has positive net if and only if 1.1 (1 - target) (1 + exit slippage) < 0.9 (1 - entry slippage) |
| LadderBacktest.StopAlwaysLosesIff | scripts/backtest_daily_strangle_9pm_laddered.py:150-157 | Every stop exit at positive BTC prices has negative net if and only if exit slippage is above -1 and max(1 + stop, 1 - target) (1 + exit slippage) >= 1 - entry slippage |
| LadderBacktest.ReportedTradesAreOk | scripts/backtest_daily_strangle_9pm_laddered.py:135-169 | Over every run: targets that cover the fees gain, stops lose, and any gain bought back below what it sold |
| LadderBacktest.CandleClosesIff | scripts/backtest_daily_strangle_9pm_laddered.py:145-157 | An open ladder closes a candle if and only if it is priced and its exit is due or its combined premium is at the target or the stop, in that order; and the trade |
| LadderBacktest.CandleOpensIff | scripts/backtest_daily_strangle_9pm_laddered.py:107-133 | What is open after a candle, and the legs a due ladder sells |
| LadderBacktest.PremiumsAre | scripts/backtest_daily_strangle_9pm_laddered.py:78-87 | A ladder is priced if and only if every leg is, each at its latest premium or its worth at the entry price |
| LadderBacktest.LadderBacktester.CombinedPremiums | scripts/backtest_daily_strangle_9pm_laddered.py:78-87 | All premiums, or none when one leg has no price |
| LadderBacktest.LadderBacktester.CloseAll | scripts/backtest_daily_strangle_9pm_laddered.py:89-105 | The closing loop appends exactly the settled trade |
| LadderBacktest.LadderBacktester.Run | scripts/backtest_daily_strangle_9pm_laddered.py:135-169 | The whole run reports the specified trades |

## Left out

- REST and WebSocket transport, signing, Telegram, logging, settings, command lines, reports, pandas and file caching: I/O and library code. Notifications are assumed not to raise.
- The strategy modules are not part of this model: every decision they could make is an arbitrary input.
- The Heikin-Ashi engine is a state machine on values, not a class: its tasks interleave at awaits, which one method body cannot express. Shutdown closes are not among its steps.
- DCv2's `_square_off` closes without taking `_closing` (src/deltabot/core/dcv2_trader.py:799-818); no claim is made about it, nor about the Supertrend live engine, which awaits between its check and its flag.
- Partial fills, orders that execute after the 1.5 s recovery query or after the process that sent them has crashed, floating-point rounding, and time zones other than a fixed IST offset.
- EmaWindow.WindowAlwaysAgreesIffWhole: a fast length of 1 never gives a signal (`EmaWindow.OneCloseIsSilent`), and a slow length at or below the fast one is not a setting the engine is run with.
- HeikinAshiSafety.RestartKeepsInv: a request still on its way at the crash never reaches the exchange; one that executed before the crash does count.
- HeikinAshiRuns.WedgedUntilRestart: the reconcile made on reconnect is not an event of the model, because it runs beside the other tasks; what it does to a wedge, taken as one step, is `HeikinAshiRuns.ReconnectFreesIffNoFile`.
- OptionsExecutor.OptionsExecutor.OpenByPremium: starts once the contract is chosen; balance, leverage and contract selection raise or return before any order and appear as failures of the caller's choice.
- EmaWindow.LiveSignalAgreesIff: the window begins at an arbitrary earlier bar; which bar four days of candles begin at is left to the caller.
- LadderEntry.LadderEngine.MaybeEnter: each leg's open is one of six outcomes; how `open_option_by_otm_pct` picks the contract, and `_maybe_recompute_lots`, are not modelled.
- LadderReconcile.SyncToExchange: a position is identified by its index; the source looks the index up again with `shorts.index(match)`, which is the same when the exchange reports no two equal positions.
- StrikeSearch.PremiumCache.ResolveByPremium: one fetch window per search; the source shares its cache, keyed by symbol only, across trades whose windows differ.
- CandleAggregator.CandleAggregator.Ingest: takes a parsed candle; message parsing in `ingest` is I/O.
- WeeklyHedge.WeeklyBacktest.OnCandle: the entry calendar and closing times arrive with each candle, strike snapping is part of the contract look-up, and `hedged` holds positions in the leg list where the source shares the leg object.
- SupertrendLedger.SupertrendBacktest.OnCandle: strategy callbacks (`force_flat`, `notify_target_hit`) only affect later decisions, which are arbitrary; a zero `--capital-per-lot` raises in the source and is excluded.
- LadderBacktest.LadderBacktester.OnCandle: the legs of a due ladder arrive with the candle; entry and exit crossings are computed by the calendar. The source floors exit premiums at the intrinsic value of the entry price of BTC, and so does the model.
- `ema21` scale-out ledger, weekly live engine, the re-entry loop of the 9PM EMA backtest, and the other engines and backtests: the same protocols and accounts, adding only easy members.
