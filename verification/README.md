# Verified model of the research harness

This project models the parts of the harness whose correctness spans many steps: the two backtest
engines and the indicators they read, the evidence journal with its writers, readers and projections,
the job scheduler, the operations on strategy documents, the cross-validation splits, and the repair
loop of directed runs. Each part is a specification as functions, methods that follow the loops of the
source and are proved equal to it, and theorems about all runs, all inputs or all interleavings.

`dafny verify dfyconfig.toml` checks everything.

| files | what they cover |
|---|---|
| `Costs`, `Market`, `Ledger`, `Strategy`, `RuleMeaning` | costs, bars and trades, first-in-first-out profits, rules and their validator, and what crossings and comparisons mean over whole series |
| `SingleEngine`, `SingleConservation`, `SingleLimits`, `SingleTrades`, `SingleTwoRuns`, `StressSoundness` | the one-symbol engine: its loop, conservation, solvency, blocks and stops, every trade from rules and prices, look-ahead, and when the comparison with a stressed run is sound |
| `MultiEngine`, `MultiRun`, `MultiLimits`, `MultiTrades`, `MultiConservation`, `MultiTwoRuns` | the many-symbol engine over mutable symbol records, its limits, every trade from rules and prices, conservation and look-ahead |
| `MultiStress`, `LoneSymbol` | the comparison with a stressed run over many symbols |
| `TradeOrder`, `SortSoundness` | the final sort of the trades, and when first-in-first-out matching survives it |
| `Indicators`, `IndicatorLoops`, `IndicatorCausality`, `IndicatorFacts`, `AdaptiveAverage`, `RelativeStrength`, `AverageLaws`, `RangeLaws`, `Backtest`, `MultiBacktest` | the calculators, their causality, warm-up and bounds, the laws that fix their values, and whole backtests from bars to reports |
| `AsOf` | as-of alignment and resampling of external series |
| `EvidenceStore`, `EvidenceProtocol`, `EvidenceSession`, `EvidenceProgress`, `ResearchEvidence`, `EvidenceKnowledge`, `KnowledgeMeaning`, `SyncSoundness`, `FailureContext` | the journal, its writers as a transition system and as code, its readers and projections |
| `JobQueue`, `Scheduler` | the queue objects, and the worker threads around the counting semaphore |
| `Mutation`, `OperationMeaning`, `MutableDocument`, `CanonicalPaths` | path edits of documents, as values and in place, what each operation does and takes back, the reordering of operations, and when two edits may change places |
| `StrategyDocument`, `DocumentMeaning`, `ChildBacktest`, `IntentBridge`, `IntentMeaning` | the schema of strategy documents, what a document's names, conditions and omissions mean, the child of an edited strategy down to its backtest, and what an intent may ask for |
| `Cpcv` | combinatorial cross-validation splits |
| `RepairLoop` | proposal, repair, evaluation and fallback of directed generations |

Conventions. Money, prices and indicator values are reals; a missing value is `None`. An exception of
the source is an `Err`. The rules of a strategy reach the engines as cells: a bar together with what
evaluating the entry and the exit rule at it gives, an exception included, so that the engine theorems
hold for any rules, and `Backtest` computes the cells from the bars. A bar has an instant, the rank of
its time text (the final sort compares texts) and the calendar day its text shows, because the source
lets bars carry different time zones. A digest is the tuple of what it hashes. An append to the journal
is one step. The evaluator and the director are arbitrary outcomes.

Where the code is not what one might expect, the model follows the code and says so:

- The README of the repository (lines 219 to 222) describes up to three repair calls for a proposal.
  The code makes at most one a generation, whatever is allowed: a returned repair counts as attempted
  before it is tried (`RepairLoop.RunGeneration`).
- A repair that raises after a failed evaluation ends the run if nothing was assigned to the repaired
  intent earlier (`RepairLoop.UnboundIff`).
- A loss limit reached at an open blocks entries for the day but, unlike one reached at a close, does
  not stop the run or order an exit (`SingleLimits.BlockedMeansBreached`).
- The two engines size a position differently, by the current cash and by a fixed allotment, and
  neither reads regime filters or the trailing stop.
- DEMA, TEMA, the MACD signal line and the smoothed RSI never have a value
  (`IndicatorFacts.NeverDefined`), a volume breakout depends on whether the data go on behind its period
  (`IndicatorCausality.VolumeBreakoutPrefixIff`), and KAMA can leave the range of its prices
  (`AdaptiveAverage.KamaOvershoots`) and raises on fewer bars than its period
  (`AdaptiveAverage.KamaPrefixIff`).
- A comparison of a stressed with a plain run can favour the stressed one when a loss limit is set, when
  a position is larger than the exposure limit, or when only the stressed costs take a notional whole;
  the conditions are exact (`StressSoundness`). Over many symbols, where every entry stakes the same
  allotment, it can do so at every position size (`MultiStress.MultiStressIff`).
- The report of a many-symbol run sorts its trades by the text of their times. Where these texts go back
  after a symbol's first bar, as at a clock change, the matching behind it can lose a sale
  (`SortSoundness.SortSoundIff`).
- The reordering of an intent's operations can change the child (`IntentBridge.OrderCanChangeMeaning`) or
  leave none, also where the path vocabulary admits two spellings of one position
  (`IntentBridge.LeadingZeroChangesMeaning`); it preserves the child for operations of separate places.
- A change of a risk setting has a fixed place, and yet an intent that gives no path for it ends in a
  failed assertion (`IntentBridge.AssertionIff`).
- A failing first write of the progress file leaves a run registered and open
  (`EvidenceSession.RunRepeatedEvaluation`).
- The schema takes one prefix off a reference each time it reads one, so that an edit of something else
  can change a reference that starts with two (`StrategyDocument.RoundTripIff`).
- A queue claim does not look at the attempt limit: a job with a limit below one is still claimed once
  (`JobQueue.HistoryMoves`).

## Model

| member | source | states |
|---|---|---|
| `SingleEngine.Run` | core/backtest/engine.py:300-395 | the loop of the one-symbol engine, with its cost-model calls, returns exactly the fold of the step function, rule exceptions included; no cost call is ever refused |
| `SingleEngine.FillOrder` | core/backtest/engine.py:336-365 | the order at the open: the sale of the whole position, or the purchase of a share of the cash, or nothing |
| `SingleEngine.DecideOrder` | core/backtest/engine.py:368-379 | the order that the close places, and the exception of the rule that was asked; no rule is asked without need |
| `SingleEngine.History` | core/backtest/engine.py:325-386 | trades and equity points are only ever added: at most one trade and exactly one point a bar |
| `SingleEngine.AlwaysSolvent` | core/backtest/engine.py:336-365 | in every reachable state of any run cash and units are not negative, units are held only at a cost rate below one, and at such a rate the account never holds nothing at all |
| `SingleConservation.RunConserves` | core/backtest/engine.py:325-386 | at every bar of every run: marked equity is initial cash plus the FIFO profits of the trades so far plus the value of the open lots at the close less what was paid for them |
| `SingleConservation.ConservationIff` | core/backtest/engine.py:355-365 | a cost model and stress keep that identity in every run of every strategy if and only if their total rate is at most one |
| `SingleConservation.ExcessiveCostBreaks` | core/backtest/engine.py:355-365 | for each rate above one, a two-bar run that breaks it |
| `SingleLimits.RunSolvent` | core/backtest/engine.py:336-379 | with a cost rate below one every equity point of every run is positive, so no curve is refused by the metrics; cash is never negative at any rate |
| `SingleLimits.SolvencyIff` | core/backtest/engine.py:355-379 | all curves of all strategies are positive if and only if the rate is below one |
| `SingleLimits.WholeCostRuins` | core/backtest/engine.py:355-379 | for each rate of one or more, a run whose curve reaches zero |
| `SingleLimits.StopIsFinal` | core/backtest/engine.py:380-386 | once stopped: still stopped, no buy ever, exactly the one closing sale at the next open, and a constant equity from there |
| `SingleLimits.BlockedMeansBreached` | core/backtest/engine.py:327-334 | entries are blocked after a bar if and only if at this or an earlier bar of its day, at the open or the close, the account was worth less by the limit than at the first open of the day |
| `SingleLimits.DayStartsAtOpen` | core/backtest/engine.py:327-330 | in every run the baseline of the loss limit is the worth at the first open of the day, before that open's order |
| `SingleLimits.LossBreachedIff` | core/backtest/engine.py:627-634 | the limit is reached if and only if the worth is below the baseline by at least its percentage of it, up to the tolerance |
| `SingleLimits.StoppedIff` | core/backtest/engine.py:380-386 | a run is stopped if and only if the action says so and the loss limit was reached at the close of some bar |
| `SingleTrades.TradeOfBar` | core/backtest/engine.py:326-386 | the trade of each bar of any run, said from rules, prices and the trades before: the sale of all that is held if and only if the bar before asked to leave, by its exit rule, by the stop loss or take profit against the price of the purchase or by a loss limit reached at its close; the purchase if and only if nothing is held, the entry rule held at the bar before, the day is not blocked at either open, the run is not stopped and the exposure limit allows it; and no other |
| `SingleTrades.RiskExitIff` | core/backtest/engine.py:571-578 | a position is left when the price has fallen by the stop loss, or risen by the take profit, in percent of the entry price, each only if its setting is above zero |
| `SingleLimits.BlockLastsTheDay` | core/backtest/engine.py:327-334 | from the first open that finds entries blocked, all trades up to the end of the day are sales, orders already pending included |
| `SingleTwoRuns.NoLookAhead` | core/backtest/engine.py:325-386 | two runs whose data differ from one bar's high, low, close and volume on have the same trades up to that bar's open and the same equity before it |
| `SingleTwoRuns.TradesFillAtOpens` | core/backtest/engine.py:336-365 | every trade made after a bar carries the time, symbol and open price of a later bar |
| `SingleTwoRuns.DearerRunShadows` | core/backtest/engine.py:336-379 | under dearer costs, without a loss limit and with positions inside the exposure limit, the run fails at the same bar or has the same orders and never more cash, units or equity |
| `StressSoundness.StressSoundIff` | core/backtest/engine.py:326-386 | for any two cost rates below one and positions inside the exposure limit, dearer costs keep the trades and lower, weakly, every equity point in every run of every strategy if and only if the daily loss limit is off, has no action, or lies within the tolerance |
| `StressSoundness.ExposureIff` | core/backtest/engine.py:616-634 | without a loss limit and at such rates the same holds for all strategies of a position size and exposure limit if and only if the position fits the limit |
| `StressSoundness.RateIff` | core/backtest/engine.py:344-365 | without a loss limit and inside the exposure limit the same holds for all strategies if and only if both rates are below one or neither is |
| `StressSoundness.StressNeverHelps` | orchestration/pipeline.py:100-129 | under these conditions raising the stress multiplier keeps time, side and price of every trade and raises no equity point and not the total return |
| `StressSoundness.LossLimitCanRewardStress` | core/backtest/engine.py:327-386 | for every limit above the tolerance, every acting action and any two rates below one: a run in which the stressed account trades less and ends richer |
| `StressSoundness.ExposureLimitCanRefuseBase` | core/backtest/engine.py:607-634 | for every position size over the exposure limit: a run in which the cheaper account is refused an entry that the dearer one makes |
| `StressSoundness.TightLimitIdles` | core/backtest/engine.py:327-334 | under a loss limit within the tolerance every bar is blocked and nothing is ever traded |
| `MultiStress.MultiStressIff` | core/backtest/engine.py:130-285 | with two symbols or more and any position size, dearer costs keep the trades and raise no equity point in every run of every strategy without limits if and only if already the lower rate takes every notional whole |
| `MultiStress.AllotmentCanRefuseDear` | core/backtest/engine.py:215-233 | for any two rates below one, any position size and any number of symbols over one: a run in which the dearer account is refused an entry for lack of cash that the other one makes |
| `MultiStress.RuinSound` | core/backtest/engine.py:234-246 | where both rates take every notional whole, a higher stress changes no trade and no equity point, under any risk settings |
| `Costs.BasisPoints` | core/costs/model.py:28-41 | a notional of ten thousand costs its commission and, times the stress, its spread and slippage in basis points |
| `Costs.ChargeIsProportional` | core/costs/model.py:28-41 | the cost of a trade is refused exactly for a negative notional or multiplier, and is otherwise proportional to the notional on either side |
| `Costs.StressRaisesRate` | core/costs/model.py:28-41 | stress raises the rate if and only if spread and slippage together are not negative |
| `Market.UnitsBoughtSign` | core/backtest/engine.py:361 | a buy holds units if and only if the cost rate is below one, and is worth its notional less the cost |
| `Market.ChargeIsCostOf` | core/backtest/engine.py:580-590 | the cost call of the engine is never refused for what the engine asks, and charges the rate |
| `MultiRun.Run` | core/backtest/engine.py:130-298 | the engine over the mutable symbol records, from the merged timeline to the sorted report, returns exactly the fold of the step function |
| `MultiRun.RunTick` | core/backtest/engine.py:170-285 | one timestamp updates the records as the step function does |
| `MultiRun.SellLoop` | core/backtest/engine.py:192-208 | the exits of a timestamp, in symbol order |
| `MultiRun.BuyLoop` | core/backtest/engine.py:210-248 | the entries in symbol order, each against the cash, the count and the exposure that the earlier ones left |
| `MultiRun.DecideLoop` | core/backtest/engine.py:250-270 | the new orders of a timestamp; the first rule exception ends the run |
| `MultiRun.ExitLoop` | core/backtest/engine.py:277-284 | a breach at the close orders the exit of every position |
| `MultiRun.CloseTick` | core/backtest/engine.py:272-285 | the mark at the close and what a breach does |
| `MultiRun.TimelineMeaning` | core/backtest/engine.py:163-175 | the merged timeline increases strictly and holds an instant if and only if some symbol has a bar at it |
| `MultiRun.TapeTexts` | core/backtest/engine.py:163-175 | the time texts of each symbol are in order on the merged tape if and only if they are in its bars, from the second bar on |
| `MultiLimits.RunWithinLimits` | core/backtest/engine.py:210-248 | in every run cash never falls below minus the tolerance of the engine, no position is negative, and no more positions are held than allowed |
| `MultiLimits.EveryBuyRespectsLimits` | core/backtest/engine.py:210-248 | every buy of every run leaves enough cash, a free place, and an exposure at the opens within the limit on the equity before it, up to the tolerance and to what a negative cost adds to the position |
| `MultiLimits.StopIsFinal` | core/backtest/engine.py:277-285 | once stopped each symbol sells what it holds at its next bar, exactly once, and never trades again |
| `MultiLimits.BlockedMeansBreached` | core/backtest/engine.py:185-190 | entries of all symbols are blocked after a timestamp if and only if at this or an earlier one of its day, at the opens or the closes, the desk was worth less by the limit than at the first opens of the day |
| `MultiLimits.DayStartsAtOpen` | core/backtest/engine.py:179-190 | in every run the baseline of the loss limit is the worth of cash and positions at the first opens of the day |
| `MultiLimits.StoppedIff` | core/backtest/engine.py:272-285 | a run is stopped if and only if the action says so and the loss limit was reached at the closes of some timestamp |
| `MultiLimits.WorthSum` | core/backtest/engine.py:178-184 | what positions are worth at the opens or closes of a timestamp, one without a bar at its last close |
| `MultiTrades.TradesOfTick` | core/backtest/engine.py:170-285 | the trades of each symbol at each timestamp of any run, said from rules, prices and the trades before: the sale of its last purchase if and only if since its last bar it was asked to leave, by its exit rule, by stop loss or take profit against the price of that purchase or by a loss limit reached at some closes; the purchase of the allotment if and only if nothing is held, the entry rule held at its last bar on an open day of a run not stopped, and there is room now; and no other |
| `MultiTrades.RoomIff` | core/backtest/engine.py:215-233 | an entry is filled if and only if entries are open, fewer symbols hold units than may, the allotment is in the cash, and with it the positions stay inside their share of the equity |
| `MultiTrades.AlwaysKnown` | core/backtest/engine.py:250-285 | at every moment of every run the pending order, the last close and the entry price of each symbol are those of its last bar, of what was asked since and of its last purchase |
| `MultiLimits.BlockLastsTheDay` | core/backtest/engine.py:210-248 | with many symbols, from the first timestamp whose opens find entries blocked, all trades of all symbols up to the end of the day are sales, pending entries included |
| `MultiLimits.NoBuyAfterBreach` | core/backtest/engine.py:277-285 | after a breach at the opens or closes of any timestamp no symbol buys for the rest of its day, and after one at the opens none buys at that timestamp either |
| `MultiConservation.RunConserves` | core/backtest/engine.py:192-285 | the conservation identity for many symbols, at every timestamp |
| `MultiConservation.AlwaysBalanced` | core/backtest/engine.py:192-248 | cash is always initial cash plus profits less what was paid for the open lots, and each position is backed by its lots |
| `TradeOrder.SortSorts` | core/backtest/engine.py:287-289 | the final sort returns the same trades in the order of time text, symbol, side |
| `TradeOrder.SortKeepsBooks` | orchestration/pipeline.py:360-370 | if the time texts of each symbol's trades never go back and every sale has a lot to close, FIFO matching after the sort leaves the same open lots and the same total profit as before it; equal texts are harmless |
| `TradeOrder.RunInOrder` | core/backtest/engine.py:192-248 | in every run over bars whose texts never go back from each symbol's second bar on: the trades of each symbol carry texts that never go back, none was made at a first bar, and every sale has a lot to close |
| `SortSoundness.SortSoundIff` | core/backtest/engine.py:287-289 | at a cost rate below one, the sort leaves the books of every run of every strategy over given bars as they were if and only if, from each symbol's second bar on, the texts of its bars never go back |
| `SortSoundness.SortLosesProfit` | core/backtest/engine.py:287-289 | wherever the texts of a symbol go back after its first bar there is a run that buys at the later text and sells at the earlier: its report has no profit and one open lot, where its trades in order have the profit and no lot |
| `TradeOrder.ReportConserves` | core/backtest/engine.py:287-297 | over bars with such texts the conservation identity holds of the sorted trades that the engine reports |
| `MultiTwoRuns.NoLookAhead` | core/backtest/engine.py:170-285 | two runs over the same symbols that differ only from the highs, lows, closes and volumes of one timestamp on have the same trades up to its opens and the same equity before it |
| `MultiBacktest.NoLookAhead` | core/backtest/engine.py:130-298 | from the bars of each symbol, with all series computed from them: replacing the highs, lows, closes and volumes at an instant, all later bars of every symbol and the values supplied from then on changes no trade up to the opens of that instant and no equity point before it |
| `Ledger.ClosedTradePnls` | orchestration/pipeline.py:360-370 | the matching loop returns the profits of the replayed book |
| `Ledger.SellCloses` | orchestration/pipeline.py:360-370 | selling a whole position closes its lot and realises the cash received less what was paid |
| `Strategy.ValidateIff` | strategy_ir/validator.py:19-65 | the validator accepts a strategy if and only if entry and exit have a condition and every condition names existing series and has exactly one target, a series for crossings |
| `Strategy.ValidatedRulesAreTotal` | core/backtest/engine.py:524-568 | for a validated strategy an evaluation at any bar finds every series, stays in range and never trips the assertion; it raises if and only if an enabled condition meets a literal that is no number, and otherwise decides what AND and OR mean |
| `Strategy.OutcomesMeaning` | core/backtest/engine.py:524-530 | the list of outcomes of the enabled conditions, and when it raises |
| `Strategy.ValidatedRuleCanRaise` | strategy_ir/validator.py:40-65 | the validator does not look at literals: a strategy it accepts whose entry rule raises |
| `Strategy.MatchRulesAgree` | core/backtest/engine.py:524-568 | a rule reads nothing after the bar it is evaluated at |
| `RuleMeaning.CrossAboveIff` | core/backtest/engine.py:539-550 | between two bars with values at which the left series is first not above the right one, cross_above fires if and only if it is above at some bar |
| `RuleMeaning.CrossBelowIff` | core/backtest/engine.py:539-550 | the same for cross_below with the series in the other places |
| `RuleMeaning.CrossingsAlternate` | core/backtest/engine.py:539-550 | between two bars at which cross_above fires there is one at which the left series is not above |
| `RuleMeaning.ComparisonsDivide` | core/backtest/engine.py:551-568 | where a value or its target is missing no comparison holds; otherwise exactly one of less, equal and greater does and the other two are their unions |
| `RuleMeaning.RaisingTurns` | core/backtest/engine.py:551-568 | raising the left value never turns a greater condition off nor a less condition on, and which of them holds is decided by the side of the target it is on |
| `RuleMeaning.WordsKnown` | strategy_ir/schema.py:7-52 | the words that are operators, and the two that are crossings |
| `RuleMeaning.WordsDecide` | core/backtest/engine.py:551-568 | a comparison read from a word of the schema, aliases included, holds where both values are there and lie as the word says |
| `Backtest.NoLookAhead` | core/backtest/engine.py:300-395 | for any strategy over the indicator types of the schema and the MACD signal, run from the bars: replacing a bar's high, low, close and volume, all later bars and later supplied values changes no trade up to that open and no earlier equity point, if each volume breakout sees more bars than its period on both sides or on neither |
| `Backtest.CalculatePrefix` | core/backtest/engine.py:487-521 | every calculator but the volume breakout commutes with taking a prefix of the bars, the KAMA with one that is not shorter than its period |
| `Backtest.ValidatedBacktestErrs` | core/backtest/engine.py:300-395 | the run of a validated strategy over any bars completes, or ends with a literal that is no number |
| `Backtest.ValidatedBacktestCompletes` | core/backtest/engine.py:300-395 | a validated strategy with numeric literals completes its run over any bars |
| `Backtest.SilentSeriesNeverTrades` | core/backtest/engine.py:536-560 | an AND entry with an enabled condition that has, on either side, a series without any value trades nothing, and the equity stays the initial cash |
| `Backtest.SilentIndicatorNeverTrades` | core/backtest/engine.py:536-560 | the same holds of DEMA and TEMA of a period over one, the smoothed RSI and the MACD signal, as indicators or as features, with a feature lagged beyond the data, and with one supplied without values |
| `Backtest.NoSignalNoTrade` | core/backtest/engine.py:325-386 | without an entry signal nothing is traded and the equity stays the initial cash |
| `Backtest.SeriesCover` | core/backtest/engine.py:398-476 | the computed and supplied series cover what the rules may name |
| `Indicators.SingleRolling` | core/features/calculators.py:231-239 | the rolling loop fills in the index-wise definition: the reduction of the full window at each index where nothing is missing |
| `Indicators.SmoothLoop` | core/features/calculators.py:242-263 | the EMA and Wilder loops compute the recursive definition: seeded by the mean of the first values, lost at a missing one, restarted at the next |
| `Indicators.VolumeBreakoutLoop` | core/features/calculators.py:543-558 | the loop and the assignment behind it compute the index-wise definition |
| `IndicatorLoops.ConsecutiveLoop` | core/features/calculators.py:351-363 | the loop counts the moves in a row one way, with a row ended by a missing value |
| `IndicatorLoops.SmoothedRsi` | core/features/calculators.py:266-288 | the Wilder and EMA forms of the RSI compute the composition of gains, smoothing and strength, and never divide by zero |
| `IndicatorLoops.AtrLoop` | core/features/calculators.py:446-465 | the ATR loop computes the average of the true ranges |
| `IndicatorLoops.AdxLoop` | core/features/calculators.py:468-518 | the ADX loops compute the average of the directional indices of the averaged moves |
| `IndicatorLoops.RollingCorrelationLoop` | core/features/calculators.py:384-406 | the correlation loop computes the windowed correlation |
| `IndicatorLoops.RollingCorrelationWithin` | core/features/calculators.py:384-406 | a rolling correlation stays between minus one and one |
| `IndicatorLoops.RollingCorrelationPrefix` | core/features/calculators.py:384-406 | a rolling correlation reads nothing after its index |
| `IndicatorCausality.RollingPrefix` | core/features/calculators.py:231-239 | rolling calculators on a prefix give the prefix of the result |
| `IndicatorCausality.SmoothPrefix` | core/features/calculators.py:242-263 | recursive smoothing on a prefix gives the prefix of the result |
| `IndicatorCausality.VolumeBreakoutPrefixIff` | core/features/calculators.py:543-558 | the volume breakout is the exception, and its extent is exact: it is causal at a prefix unless the prefix is as long as the period, the series is longer, and the value there is defined |
| `IndicatorCausality.VolumeBreakoutAgrees` | core/features/calculators.py:543-558 | on data that end on the same side of the period it reads nothing after its index either |
| `IndicatorCausality.LagPrefix` | core/backtest/engine.py:479-484 | a delayed series is causal and shows each value the given number of bars later |
| `IndicatorFacts.AverageWarmUp` | core/features/calculators.py:599-631 | on complete input SMA, WMA, EMA and Wilder are defined exactly from the period less one |
| `IndicatorFacts.RollingWarmUp` | core/features/calculators.py:231-239 | a rolling calculator adds its period less one to the warm-up of its input |
| `IndicatorFacts.HmaWarmUp` | core/features/calculators.py:656-663 | HMA is defined exactly from the period less one plus the root of the period less one |
| `IndicatorFacts.NeverDefined` | core/features/calculators.py:641-655 | DEMA and TEMA of a period over one, the MACD signal, and the smoothed RSI never have a value, on any input |
| `IndicatorFacts.SmoothWithin` | core/features/calculators.py:242-263 | EMA and Wilder stay between the least and greatest value seen |
| `IndicatorFacts.SmaWithin` | core/features/calculators.py:231-239 | an average stays between the bounds of its input |
| `IndicatorFacts.RsiWithin` | core/features/calculators.py:266-303 | the RSI stays between 0 and 100 |
| `IndicatorFacts.AdxWithin` | core/features/calculators.py:468-518 | the ADX stays between 0 and 100 |
| `IndicatorFacts.CmoWithin` | core/features/calculators.py:1782-1794 | the CMO stays between minus 100 and 100 |
| `RelativeStrength.WindowIff` | core/features/calculators.py:291-303 | the RSI of a window is 100 if and only if nothing falls in it and 0 if and only if something falls and nothing rises |
| `RelativeStrength.RaisingPrice` | core/features/calculators.py:291-303 | raising the price at a bar never lowers the RSI there |
| `RelativeStrength.WindowShare` | core/features/calculators.py:291-303 | the RSI is the share of the rises in all movement of the window, in percent; rises less falls is the change over the window |
| `RelativeStrength.OscillatorIsIndex` | core/features/calculators.py:1782-1794 | the CMO is the RSI on a scale from -100 to 100, and 0 where nothing moves |
| `RelativeStrength.GainsSplit` | core/features/calculators.py:269-275 | the change into a bar is its gain less its loss, of which at most one is not zero |
| `AverageLaws.SmaLag` | core/features/calculators.py:231-239 | on a straight line the simple average is half its length behind and the weighted one a third |
| `AverageLaws.WeightedChange` | core/features/calculators.py:599-608 | changing one value of a window moves its weighted sum by the value's position: newer values weigh more |
| `AverageLaws.EmaLag` | core/features/calculators.py:242-263 | on a straight line the EMA is half its period behind from its first value on, which fixes its alpha |
| `AverageLaws.WilderLag` | core/features/calculators.py:611-631 | Wilder's average starts half its period behind a straight line and goes geometrically, by 1 - 1/period a bar, to a whole period less one |
| `AverageLaws.SmoothOfStep` | core/features/calculators.py:242-263 | after a step the difference that is left shrinks by 1 - alpha at every bar |
| `AverageLaws.MacdOfLine` | core/features/calculators.py:433-443 | on a straight line the MACD is half the difference of its periods times the slope, positive for rising values |
| `AverageLaws.HmaOfLine` | core/features/calculators.py:656-663 | how far the HMA is behind a straight line |
| `AverageLaws.PeriodOne` | core/features/calculators.py:641-655 | of period one the EMA, the DEMA and the TEMA are the values |
| `RangeLaws.ReturnsCompound` | core/features/calculators.py:306-317 | a return is the growth from the earlier to the later value, and returns over adjacent spans compound |
| `RangeLaws.NewHighIff` | core/features/calculators.py:320-327 | a value is above the previous maximum if and only if it is above each of the values before it that count |
| `RangeLaws.HighRatioIff` | core/features/calculators.py:561-570 | the ratio to the high is one exactly at the high of the window and otherwise below |
| `RangeLaws.TrueRangeCovers` | core/features/calculators.py:446-465 | the true range is the length of the shortest interval with high, low and previous close in it |
| `RangeLaws.RangesCover` | core/features/calculators.py:446-465 | the range into a bar reads the close before it; without one it is the bar's own |
| `RangeLaws.MovesIff` | core/features/calculators.py:468-518 | of the two directional moves into a bar at most one is positive, the greater of the rise of the high and the fall of the low |
| `RangeLaws.OneSidedShare` | core/features/calculators.py:468-518 | the directional index is the share of the difference of the two averages in their sum, whatever the range |
| `RangeLaws.AdxOfChannel` | core/features/calculators.py:468-518 | in a channel that rises or falls the ADX is 100 wherever it is defined |
| `RangeLaws.IbsIsPlace` | core/features/calculators.py:330-340 | the internal bar strength is how far up its range a bar closes |
| `RangeLaws.DisparityIs` | core/features/calculators.py:343-348 | the disparity is the value in percent of the simple average |
| `RangeLaws.BreakoutIs` | core/features/calculators.py:543-558 | the volume is its breakout times the mean of the values before it |
| `RangeLaws.EarlyBreakoutIs` | core/features/calculators.py:543-558 | the last value before that is measured against the first values, its own among them |
| `RangeLaws.RegimeOfLine` | core/features/calculators.py:578-587 | on a straight line the regime filter is positive exactly when the line rises, for periods above two |
| `RangeLaws.StreakIff` | core/features/calculators.py:351-363 | a streak counts the bars back to the last one that did not move that way |
| `RangeLaws.CorrelationEnds` | core/features/calculators.py:394-405 | values that move are correlated by one with themselves and by minus one with their negatives |
| `RangeLaws.VarianceIff` | core/features/calculators.py:394-405 | a variance is not negative, and zero exactly where all values of the window are the same |
| `IndicatorFacts.CauchySchwarz` | core/features/calculators.py:398-405 | the squared sum of products is at most the product of the sums of squares, over windows of any length |
| `IndicatorFacts.CorrelationWithin` | core/features/calculators.py:394-405 | squared covariance is at most the product of the variances, so a window's correlation lies between minus one and one |
| `AdaptiveAverage.KamaLoop` | core/features/calculators.py:669-693 | the KAMA loop computes the recursive definition, and fails exactly on a complete series shorter than its period |
| `AdaptiveAverage.KamaPrefixIff` | core/features/calculators.py:669-693 | a KAMA of a prefix is the prefix of the KAMA if and only if the prefix is as long as the period or misses a value; on a shorter complete one it raises |
| `AdaptiveAverage.StepStaysIff` | core/features/calculators.py:684-691 | a KAMA step stays between the average and the price if and only if the two are equal or the efficiency is at most 87/56 |
| `AdaptiveAverage.KamaOvershoots` | core/features/calculators.py:684-691 | the efficiency compares a move of the period with a path of one step less and so can exceed that: three prices whose KAMA leaves their range |
| `AdaptiveAverage.EfficiencyOfLine` | core/features/calculators.py:675-684 | on a straight line the efficiency is the period over one less, whatever the slope, and so always above one |
| `AdaptiveAverage.KamaDefinedIff` | core/features/calculators.py:669-693 | where the KAMA has a value |
| `AsOf.AlignAsOf` | core/features/alignment.py:11-35 | the sort, bisection and backward scan give each target the value of the latest usable observation, for observations in any order |
| `AsOf.BisectRight` | core/features/alignment.py:26 | the bisection splits the times into those up to the target and those after it |
| `AsOf.ScanBack` | core/features/alignment.py:28-34 | the backward scan returns the value of the last available observation before the bisection point |
| `AsOf.ScanSorted` | core/features/alignment.py:20-34 | scanning the sorted observations from the end finds what a single pass over the unsorted ones defines |
| `AsOf.SortedOrdered` | core/features/alignment.py:23 | the sort orders the observations by time and keeps them all |
| `AsOf.LatestIsLatest` | core/features/alignment.py:15-19 | the chosen observation is usable, nothing usable is later, and among equal times it is the last one given; none is chosen only if none is usable |
| `AsOf.LatestAdvances` | core/features/alignment.py:25-34 | as targets grow the time of the chosen observation never decreases |
| `AsOf.NoLookAhead` | core/features/alignment.py:28-32 | the aligned value depends only on the observations made and available by the target |
| `AsOf.ResampleCompleted` | core/features/series.py:52-84 | the collapsing loop refuses exactly several series ids and otherwise returns the sorted or collapsed observations |
| `AsOf.CollapsedKeeps` | core/features/series.py:67-84 | weekly and monthly series keep exactly the observations that end a run of their period |
| `AsOf.ResampleIdempotent` | core/features/series.py:52-84 | resampling twice is resampling once |
| `AsOf.AlignedEndsPeriod` | core/features/series.py:67-84 | what is aligned from a weekly or monthly series is always the last observation of its period |
| `AsOf.RunningPeriodHidden` | core/features/series.py:67-84 | while the last observation of a period is still ahead, nothing of that period is aligned |
| `AsOf.UnavailablePeriodHidden` | core/features/series.py:67-84 | while the last observation of a period has been made but is not available, nothing of that period is aligned either |
| `EvidenceStore.Store.Append` | memory/evidence_store.py:66-115 | an append adds the event, repeats it without effect, or refuses it for exactly one of the five reasons; a refusal changes nothing |
| `EvidenceStore.Store.History` | memory/evidence_store.py:97-103 | what the history of a run says of its end, its registration and events of a kind |
| `EvidenceStore.AppendIff` | memory/evidence_store.py:66-115 | which appends change the journal and how each refused one is refused: a new event needs an id, a run registered and not ended, a payload in its bounds, and to register a run or freeze a manifest that it is the first; a repeated event changes nothing |
| `EvidenceStore.AppendKeepsOrder` | memory/evidence_store.py:87-113 | whoever writes what: ids stay distinct, the registration of a run comes first and once, there is at most one manifest a run and nothing after its end, and the journal only grows at its end |
| `EvidenceSession.Session.Freeze` | orchestration/evaluation_runner.py:111-118 | the write of a manifest succeeds if and only if the run has none yet or the same one, which then is the one frozen |
| `EvidenceSession.Session.Commit` | orchestration/evaluation_runner.py:131-139 | the write of an attempt with its candidates always succeeds |
| `EvidenceSession.Session.Conclude` | runtime/evidence_session.py:50-75 | what the session makes of a runner: evaluated if it returned, failed if it raised before its attempt was committed, and broken otherwise |
| `EvidenceSession.Session.Evaluate` | runtime/evidence_session.py:35-75 | an evaluation is taken if and only if the evaluator returns and brings no manifest other than the run's; it counts as failed if and only if it raises without candidates, and is broken in all other cases; the journal left is one of the protocol |
| `EvidenceSession.Session.FinishGeneration` | runtime/evidence_session.py:77-89 | the record of an evaluated generation is always written, under the next number |
| `EvidenceSession.Session.FinishRun` | runtime/evidence_session.py:91-99 | the end of an open run is always written, and closes it |
| `EvidenceSession.Register` | runtime/evidence_session.py:22-33 | a run under a new name is always registered |
| `EvidenceSession.RunRepeatedEvaluation` | runtime/research_loop.py:65-129 | the repeated-evaluation loop reports completion if and only if there is a generation, all writes of the progress file succeed, every evaluator returns, and all manifests brought are the same; each generation is then recorded with the status its evaluator returned; unless the first write fails, the run is ended in the journal accordingly |
| `EvidenceProtocol.ReachableInv` | runtime/evidence_session.py:35-99 | the invariant of writers and journal holds after any interleaving of runs, stand-alone evaluations, failures, retries and lost writes |
| `EvidenceProtocol.CommittedAttemptStands` | orchestration/evaluation_runner.py:127-156 | a runner that fails after its attempt was committed meets an identity conflict; the attempt stays as it was and the run goes on to fail |
| `EvidenceProgress.RefusedIff` | memory/evidence_store.py:87-113 | a write of the protocol, registrations included, is refused if and only if it is a manifest other than the one frozen for the run, or the failure of a committed attempt |
| `EvidenceProgress.ManifestAcceptedIff` | orchestration/evaluation_runner.py:111-118 | a manifest is accepted if and only if the run has none yet or the same one |
| `EvidenceProgress.WrittenIsApplied` | runtime/evidence_session.py:35-99 | that write is what the step does to the journal, and the other steps leave it alone |
| `ResearchEvidence.RunSummary` | memory/research_evidence.py:28-75 | the summary of a run is refused if and only if the run is inconsistent, said without the loops, and otherwise reports what the events say: for each final generation in order the candidates of the attempt it names and nothing else, how many of these are rejected, and how many of those an earlier one has the hash and the failed gates of |
| `ResearchEvidence.ConsistentIff` | memory/research_evidence.py:28-75 | a run of distinct canonical ids is consistent, and so not refused, if and only if each attempt that a final generation names is a completed one of that generation, no more generations are final than requested, and all are if the run ended as completed |
| `ResearchEvidence.ReadAll` | memory/research_evidence.py:111-127 | the reader refuses a journal if and only if a run is registered twice, an event has no run, or a run is inconsistent; otherwise it summarises each run as its events say |
| `ResearchEvidence.CountFinals` | memory/research_evidence.py:41-54 | the loop over the final generations fails exactly at a bad reference, and otherwise counts each rejection once and as repeated if and only if its signature came before |
| `ResearchEvidence.DistinctBySize` | memory/research_evidence.py:34-35 | comparing the number of generations with the number of finals decides whether one occurs twice |
| `ResearchEvidence.RatesWithin` | memory/research_evidence.py:81-98 | the completion rate is at most one and the rate of repeated failures is below one |
| `ResearchEvidence.SortOrdersFinals` | memory/research_evidence.py:31-33 | the finals are read in the order of their generations |
| `ResearchEvidence.RunsConsistent` | memory/research_evidence.py:28-75 | in every reachable state every run is consistent |
| `ResearchEvidence.WritersSatisfyReader` | memory/research_evidence.py:28-127 | no check of the reader ever fails on a journal that the writers leave, in any interleaving, and the events of each run have distinct ids of their own, so that its summary is what they say |
| `EvidenceKnowledge.SyncKnowledge` | memory/evidence_knowledge.py:15-81 | the projection loops, with their running set of ids, compute the fold over the filings of the journal |
| `EvidenceKnowledge.FileCandidate` | memory/evidence_knowledge.py:45-76 | one candidate is filed, or skipped because its id is known or its status has no category |
| `EvidenceKnowledge.SyncConfluence` | memory/evidence_knowledge.py:26-81 | synchronising at any moments of a run of the protocol and then at the end leaves the same lists as once at the end; with one moment at the end this is idempotence |
| `EvidenceKnowledge.SyncResumes` | memory/evidence_knowledge.py:26-81 | a synchronisation can stop at any prefix and go on, if no manifest comes after a filed candidate of its run |
| `SyncSoundness.SyncIff` | memory/evidence_knowledge.py:26-81 | on any orderly journal, whoever writes it, a synchronisation at any earlier moment changes nothing of a later one, for any lists, if and only if no manifest comes after a filed candidate of its run |
| `EvidenceKnowledge.SyncAppends` | memory/evidence_knowledge.py:45-81 | each list keeps what it had and grows by exactly the new candidates of its category, in journal order, once each |
| `KnowledgeMeaning.ListsMean` | memory/evidence_knowledge.py:56-76 | after a synchronisation with any journal the writers leave, a list holds what it held and every candidate of the journal with one of its statuses (rejected; near miss; survivor or frontier) under the comparison key of its run, unless an item of that id was there; and nothing else |
| `KnowledgeMeaning.KeysMean` | memory/evidence_knowledge.py:40-44 | the key of a run is that of its manifest, and it has none without one |
| `EvidenceKnowledge.FiledOnce` | memory/evidence_knowledge.py:53-55 | an experiment new to the lists is in them once after any number of filings, and a known one as often as before |
| `EvidenceKnowledge.LateManifestDiverges` | memory/evidence_knowledge.py:40-44 | the order of the writers is needed: the store alone accepts candidates before the manifest, and then an early synchronisation files them for good without a comparison key |
| `FailureContext.Summarise` | memory/evidence_knowledge.py:104-133 | the summary loops, backwards over events and forwards over rows, compute the fold of grouping, cut to the limit; a limit below one is refused |
| `FailureContext.GroupsPartition` | memory/evidence_knowledge.py:113-132 | there is one group per signature met, in the order of first meeting, showing the first rejection met and counting all of them |
| `FailureContext.OccurrencesConserve` | memory/evidence_knowledge.py:113-132 | before the cut the counts of all groups sum to the rejected candidates of the journal |
| `FailureContext.TogetherIff` | memory/evidence_knowledge.py:118-122 | two rejections are counted together if and only if their runs have the same comparison key, and they have the same hash and failed the same gates in whatever order |
| `Scheduler.NewManager` | runtime/resource_manager.py:7-9 | a limit that is not positive is refused |
| `Scheduler.ResourceManager.TryAcquire` | runtime/resource_manager.py:19-23 | one look at the counter takes a slot or has to wait |
| `Scheduler.ResourceManager.Release` | runtime/resource_manager.py:25-30 | a release gives a slot back, and raises only without a reservation |
| `Scheduler.RunInv` | runtime/resource_manager.py:19-30 | under every interleaving the counter is between zero and the limit and equals the threads between acquire and release, no release raises, and while threads wait at least as many are on their way as slots are free |
| `Scheduler.NoDeadlock` | runtime/scheduler.py:37-69 | unless all threads are done one of them can take a step |
| `Scheduler.RunBounded` | runtime/scheduler.py:26-35 | no interleaving has more than seven steps a job |
| `Scheduler.NextDecreases` | runtime/resource_manager.py:19-30 | every step brings the pool nearer to its end, wake-ups included |
| `Scheduler.RunCompletes` | runtime/scheduler.py:26-69 | every run that cannot go on has all threads done, no slot taken, and every claimed job recorded as succeeded if and only if its handler returned and as failed if and only if it raised, or, if its lease was reconciled from outside, as that left it |
| `Scheduler.OutcomesRecorded` | runtime/scheduler.py:37-69 | the same at any moment for every job past its handler |
| `Scheduler.CanFinish` | runtime/scheduler.py:26-69 | from any moment of any run there is a way to its end with no lease expiring |
| `Scheduler.CanRun` | runtime/scheduler.py:26-69 | for any limit and number of jobs there is a run to the end |
| `JobQueue.JobQueue.Enqueue` | runtime/queue.py:37-40 | a new id is added at the end; a known one is refused and nothing changes |
| `JobQueue.JobQueue.Claim` | runtime/queue.py:42-51 | the first queued job, and no other, becomes running with one more attempt and a lease |
| `JobQueue.JobQueue.ReconcileStale` | runtime/queue.py:53-69 | exactly the running jobs whose lease is over are queued again or retired, and reported in order |
| `JobQueue.JobQueue.Settle` | runtime/queue.py:71-82 | only a known running job is settled; any other request is refused and changes nothing |
| `JobQueue.JobQueue.ClaimAll` | runtime/scheduler.py:27-29 | the claim loop takes every queued job once, in the order of arrival, and ends; each under a lease from the claim's own reading of the clock |
| `JobQueue.AllClaimedAt` | runtime/scheduler.py:27-29 | which of the readings of the clock the lease of a job counts from |
| `JobQueue.HistoryMoves` | runtime/queue.py:37-94 | over any history of new jobs: at most as many attempts as allowed, or one; a lease if and only if running; a result if and only if succeeded; and a succeeded, failed or retired job never changes again |
| `JobQueue.ClaimsAreAttempts` | runtime/queue.py:42-51 | the attempts of a job are the claims made of it |
| `JobQueue.EndIff` | runtime/queue.py:53-82 | over any history a job has ended as succeeded if and only if it was settled with a result while it ran, as failed if and only if with an error, and as retired if and only if its lease was over with as many claims made as it may have |
| `JobQueue.ReconcileClears` | runtime/queue.py:53-69 | a reconciliation leaves no lease that is over, requeues exactly the stale jobs that may be claimed again, and done again changes nothing |
| `Mutation.ApplyOperations` | mutation/engine.py:30-43 | the loop applies the operations in turn and stops at the first that fails |
| `Mutation.Container` | mutation/engine.py:112-119 | the walk reads the container that the front of a path leads to, or fails where the path does |
| `MutableDocument.KindAndValue` | mutation/engine.py:46-87 | the kind of an edit and the value it carries make up the edit |
| `MutableDocument.ApplyInPlace` | mutation/engine.py:30-43 | the loop over the operations on a mutable document succeeds if and only if the operations on values do, and leaves the document they give; the values of the operations become parts of it and may be changed there by later ones |
| `MutableDocument.ApplyOne` | mutation/engine.py:46-87 | one operation changes the mutable document as it changes the value, or fails and leaves it |
| `MutableDocument.Node.Edit` | mutation/engine.py:119-163 | an edit in place walks to the container and changes that container alone; the document becomes that of the edit on values, and an error leaves it as it was |
| `MutableDocument.Node.Finish` | mutation/engine.py:129-163 | setting, appending and deleting at the container, for dictionaries, lists and leaves |
| `Mutation.EditedInside` | mutation/engine.py:122-163 | an edit changes the container at the end of its path by the last part alone |
| `Mutation.EditedElsewhere` | mutation/engine.py:122-163 | an edit leaves every place as it was whose path parts from its own, unless it takes out an item before that place in the same list |
| `OperationMeaning.PlacesOfDigits` | mutation/engine.py:112-119 | which place of a list a part of a path means: digits count from its start, with a minus from its end, and nothing outside it is meant |
| `OperationMeaning.PutMeans` | mutation/engine.py:46-87 | a setting operation needs a place that is there, puts its value in it, and is taken back by setting the old value |
| `OperationMeaning.AppendOperationMeans` | mutation/engine.py:46-87 | an added rule or filter is the last of its list, which has to be there; a filter without a path goes into the list of all filters |
| `OperationMeaning.AddOperationMeans` | mutation/engine.py:46-87 | an indicator or a feature is put under its name |
| `OperationMeaning.RemoveMeans` | mutation/engine.py:152-163 | removing needs a place that is there; its container goes without it |
| `OperationMeaning.AddThenRemove` | mutation/engine.py:46-87 | what is added under a new name and removed again leaves no trace |
| `OperationMeaning.SwitchRestores` | mutation/engine.py:55-56 | switching a condition off and on again, or on and off, restores the document, and in between its flag is the other one |
| `OperationMeaning.RiskOperationMeans` | mutation/engine.py:22-27 | each risk operation sets its own field, whatever path it carries |
| `OperationMeaning.OtherNamesStay` | mutation/engine.py:122-163 | an edit below one name of an object leaves everything below its other names as it was |
| `Mutation.EditsCommute` | mutation/engine.py:122-163 | two edits of separate places give the same document, or fail, in either order |
| `CanonicalPaths.OneSpelling` | mutation/engine.py:112-119 | each position of a list has exactly one canonical spelling |
| `CanonicalPaths.CommuteIff` | mutation/engine.py:122-163 | two edits along canonical paths without leading zeros do so on every document if and only if they are of separate places: where the paths part neither takes out an earlier item of the same list; edits of one place are the same edit; and one further down goes with an append alone, and not to the item appended unless it fails on it |
| `CanonicalPaths.CanonicalSeparate` | mutation/engine.py:122-163 | for such paths of which neither is a prefix of the other, separate means that neither edit takes an item out of a list before the item the other path leads through |
| `CanonicalPaths.IndependentIff` | mutation/engine.py:46-87 | two operations along such paths may change places on every document if and only if their changes are of separate places |
| `Mutation.OrderedIsStable` | research/llm/intent_bridge.py:421-438 | the reordering is the stable sort by priority: declarations, parameters, rules, the rest |
| `Mutation.OrderedPermutes` | research/llm/intent_bridge.py:421-438 | no operation is lost or added |
| `Mutation.OrderPreservesMeaning` | research/llm/intent_bridge.py:421-438 | if each operation that moves ahead of an earlier one is of a separate place, the reordered list has the outcome of the given one on every document |
| `IntentMeaning.OrderedByKind` | research/llm/intent_bridge.py:421-438 | the operations of an intent are made in this order: indicator and feature declarations, parameters and swaps, added and replaced conditions, all others, each group as given |
| `IntentMeaning.AcceptedRuleIff` | research/llm/intent_bridge.py:190-298 | which operations on rules and filters the bridge accepts, kind by kind |
| `IntentMeaning.AcceptedIff` | research/llm/intent_bridge.py:235-354 | which other operations it accepts: features and indicators inside their section, parameters at or through an indicator's parameters or a risk setting |
| `IntentMeaning.PassedOn` | research/llm/intent_bridge.py:190-336 | an accepted operation is passed on with its kind and place and with the condition, indicator, feature, logic or value of the intent |
| `IntentMeaning.AcceptedStaysInside` | research/llm/intent_bridge.py:190-336 | whatever the intent says, an accepted operation of these kinds changes nothing of the document outside the sections it is for |
| `IntentBridge.OrderCanChangeMeaning` | research/llm/intent_bridge.py:421-438 | an intent that removes the first entry condition and then replaces the one in its place is accepted, and without the reordering makes the child it says; after the reordering the child of any parent with two entry conditions or more lacks the new condition and keeps the one it should replace, so the two are the same only if these conditions are |
| `IntentBridge.LeadingZeroChangesMeaning` | research/llm/intent_bridge.py:222-234 | an intent that disables the first entry condition at position 00 and then replaces it at position 0 is accepted, and without the reordering makes the child with the replacement; after the reordering there is no child, for any parent and any enabled replacement, although neither path is a prefix of the other |
| `IntentBridge.AssertionIff` | research/llm/intent_bridge.py:306-320 | the bridge fails on its assertion, and not with a refusal, if and only if the path is missing from a change of a risk setting, which needs none, or from a replacement without a condition |
| `IntentBridge.ParameterIff` | research/llm/intent_bridge.py:299-304 | a parameter is accepted if and only if its path is that of an indicator's period or parameter or of a risk setting; never in a rule |
| `IntentBridge.BridgeLoop` | research/llm/intent_bridge.py:73-78 | the loop over an intent's operations passes each through the guards, leaves out what is retained, and stops at the first refusal |
| `StrategyDocument.ReadFits` | strategy_ir/schema.py:61-163 | whatever the document, what the schema returns fits its bounds: positive periods, risk settings in range, references that are not empty |
| `StrategyDocument.RoundTripIff` | strategy_ir/schema.py:111-119 | validating the dump of a strategy gives the strategy back if and only if none of its references still starts with a prefix that the schema takes off |
| `DocumentMeaning.ComparisonDecides` | core/backtest/engine.py:524-568 | a comparison in a document holds at a bar if and only if the series its left side names and the series or literal on its right are there and lie as its word says |
| `DocumentMeaning.CrossingNames` | strategy_ir/schema.py:94-119 | a crossing in a document crosses the two series that it names, in that direction |
| `DocumentMeaning.EnabledIff` | strategy_ir/schema.py:94-119 | a condition counts if and only if its flag, or the lack of one, reads as true |
| `DocumentMeaning.RiskDefaults` | strategy_ir/schema.py:129-142 | a risk section that leaves fields out reads as one that has them at their defaults; without a stop loss or take profit there is none |
| `DocumentMeaning.RefusedIff` | core/backtest/engine.py:300-324 | a backtest is refused before it runs if and only if cash or stress is out of bounds, a calculator is refused, or supplied values are not as long as the data |
| `DocumentMeaning.RiskBoundsIff` | strategy_ir/schema.py:129-142 | the dump of risk settings is read back if and only if they are in their bounds |
| `DocumentMeaning.HeaderBoundsIff` | strategy_ir/schema.py:151-158 | the head of a strategy is read if and only if its version is positive, it has an id and a family and its generation is not negative |
| `DocumentMeaning.LiteralIff` | strategy_ir/schema.py:94-102 | the literal of a condition, if there is one, is a text, a number or a truth value |
| `DocumentMeaning.ParametersIff` | strategy_ir/schema.py:62-91 | so are the parameters of an indicator or feature, and none may be missing |
| `DocumentMeaning.UnknownIff` | core/backtest/engine.py:487-521 | which indicators of a document have no calculator: a MACD with parameters that are no positive numbers, a band of an unknown name, a streak that is neither up nor down |
| `DocumentMeaning.ParametersChoose` | core/backtest/engine.py:487-521 | what the parameters of an RSI, a streak, a MACD, a band and a volatility choose |
| `DocumentMeaning.PlanIff` | core/backtest/engine.py:398-476 | a document can be computed if and only if each indicator has a calculator and each feature is delivered; each is then there under its name, a feature with its own lag on top of the delivered one |
| `DocumentMeaning.SeriesMean` | core/backtest/engine.py:398-476 | a name stands for the feature of that name, else for a field of the bars, else for the indicator |
| `DocumentMeaning.LagMeans` | core/backtest/engine.py:479-484 | a lag delays a series by so many bars |
| `DocumentMeaning.CloseIndicators` | core/backtest/engine.py:487-521 | which average each indicator type of a document is, with a missing period as one |
| `DocumentMeaning.ChangeIndicators` | core/backtest/engine.py:487-521 | the same for the other types on the closes |
| `DocumentMeaning.DefaultIndicators` | core/backtest/engine.py:487-521 | an RSI without a method is the simple one, and a MACD without parameters has half its period as the fast one |
| `DocumentMeaning.BarIndicators` | core/backtest/engine.py:487-521 | the same for those on other columns |
| `ChildBacktest.ChildOfNothing` | mutation/engine.py:30-43 | without operations the child of a validated strategy is that strategy, under the same condition |
| `ChildBacktest.RiskOperationChild` | mutation/engine.py:22-43 | the child by a change of a risk setting is the parent with that setting changed and nothing else if the schema allows the value, and there is none if it does not |
| `ChildBacktest.ChildRuns` | mutation/engine.py:30-43 | whatever the operations and the document they leave, the backtest of a child whose series can be computed completes, or ends with a literal that is no number, and completes if there is no such literal |
| `Cpcv.CpcvSplits` | core/validation/cpcv.py:7-28 | the split loops return the split of each combination in order, and refuse exactly bad group numbers and too few values |
| `Cpcv.Partition` | core/validation/cpcv.py:31-42 | the partition loop cuts at the closed-form starts |
| `Cpcv.PartsCut` | core/validation/cpcv.py:31-42 | the groups joined are the values, none is empty, sizes differ by at most one, the longer first |
| `Cpcv.CombinationsComplete` | core/validation/cpcv.py:14 | the selections are exactly the increasing tuples of groups |
| `Cpcv.CombinationsDistinct` | core/validation/cpcv.py:14 | no selection occurs twice |
| `Cpcv.ChooseFactorial` | core/validation/cpcv.py:14 | the recursive binomial coefficient has its closed form in factorials |
| `Cpcv.SplitSifts` | core/validation/cpcv.py:15-27 | train and test hold the values of their positions in order, and together every value once |
| `Cpcv.SplitsBalanced` | core/validation/cpcv.py:7-28 | there are choose(groups, test groups) splits, and over all their test sides each value occurs choose(groups - 1, test groups - 1) times as often as among the values |
| `Cpcv.HoldingCount` | core/validation/cpcv.py:14 | each group is in the same number of selections |
| `RepairLoop.RunGeneration` | runtime/research_loop.py:162-640 | proposal, the two repair loops, evaluation and fallback do what one optional repair does; in a generation at most one repair call is made, whatever the number allowed |
| `RepairLoop.RepairProposal` | runtime/research_loop.py:233-371 | the first loop sends the failed proposal at most once, since whatever comes back counts as attempted before it is tried |
| `RepairLoop.RepairEvaluation` | runtime/research_loop.py:409-561 | the second loop calls only if the first did not, and at most once |
| `RepairLoop.RunGenerations` | runtime/research_loop.py:161-665 | a run keeps a record a generation until one ends it, with at most one repair call each |
| `RepairLoop.UnboundIff` | runtime/research_loop.py:529-537 | a generation reads the repaired intent before assignment, which ends the run, if and only if its repair raises after a failed evaluation and no earlier generation had a failed proposal or a returned repair |
| `RepairLoop.CompletedIff` | runtime/research_loop.py:888-894 | a run reports plain completion if and only if every generation was evaluated with its proposal or a repaired one, and errors if and only if in some generation every evaluation failed |
| `RepairLoop.GenerationIff` | runtime/research_loop.py:162-640 | unless an integrity error or the unbound name ends it, a generation is degraded if and only if all its evaluations fail, and otherwise has the status of what its first evaluation that does not fail is of |

## Left out

- Floating-point rounding, infinities and NaN in prices and indicators; NaN as the "lost" state of a smoothing is `None`.
- MultiRun.Run: takes the symbol listings already grouped and in symbol order; `MultiBacktest` computes their rule outcomes from each symbol's bars, and slicing a data set and its supplied values by symbol is not modelled.
- MultiStress.MultiStressIff: strategies without a loss limit, an exposure limit or a limit on positions; with such limits, and at rates below one, the comparison over many symbols is not characterised.
- Backtest.NoLookAhead: features are supplied series or calculators on the bars, delayed by a lag; feature specifications, external series and supplied inputs of features are not, and neither are calculators that only features can name, but for the MACD signal. A MACD with a fast period below one counts as refused, and so does a Bollinger band of an unknown name.
- Backtests without a strategy, and the metrics, gates, robustness and selection steps behind a backtest.
- The other calculators: logarithmic returns, cycle filters, candle patterns and the long list of one-line variants; they need logarithms or only the causal combinators already here. Bollinger bands and volatility take the population deviation of a window as a given function.
- IndicatorLoops.RollingCorrelationWithin: takes the population deviation as a function that is the root of the variance, since reals here have no square root.
- EvidenceStore.Store.Append: tampering with the database, checksums and SQLite errors; a failed write is the protocol step `WriteFails`.
- EvidenceSession.Session.Evaluate: an evaluator writes to the journal as the local evaluation does, the manifest before the attempt, or not at all; one that writes other events is outside the protocol.
- EvidenceSession.RunRepeatedEvaluation: fresh run and attempt ids are a precondition, where the source draws random ones.
- EvidenceProtocol.ReachableInv: directed runs take part as the same steps (a generation without a chosen attempt is `Degrade`); their progress files, intents and proposals are not part of the journal.
- ResearchEvidence.RunSummary: scores, best candidates, gate counters and the legacy and frontier counts of the report.
- EvidenceKnowledge.SyncKnowledge: the knowledge file as JSON, its atomic replacement, and its malformed forms; the other fields of the file are kept as they are by the source and absent here.
- Scheduler.RunCompletes: without a heartbeat store, whose writes may fail; exceptions that are not `Exception`; and spurious wake-ups, which the condition of the source does not have. Workers are not fenced from jobs whose lease was reconciled.
- MutableDocument.ApplyInPlace: the values that operations carry are apart from the document and from each other; one value object placed twice is not modelled. Nodes keep what they were made of as ghost state, and the walk to the container is a recursion where the source has a loop.
- Mutation.ApplyOperations: paths come split at their dots. `CROSSOVER` and `COMBINE_STRATEGY` are only their refusal, the one outcome an intent can reach.
- Mutation.Index: the forms of integer text beyond decimal digits with a sign.
- CanonicalPaths.CommuteIff: parts are names or decimal positions without leading zeros; for other spellings of a position `Mutation.EditsCommute` gives the one direction.
- StrategyDocument.RoundTripIff: what pydantic makes of a scalar of another type than the field's, and of other cases and blanks, is a parameter; infinite risk settings and model objects inside a document are not modelled.
- ChildBacktest.ChildRuns: how Python reads texts and indicator parameters as numbers is a parameter, and a request delivers each feature as supplied values or a calculator, or not at all.
- AsOf.RunningPeriodHidden: the calendar is any function of time that never decreases.
- RepairLoop.RunGeneration: failures of progress, record and knowledge files outside the calls, and an evaluation status that happens to spell one of the loop's own.
- IntentBridge.BridgeLoop: paths come normalised and split at their dots, and the reference of a feature as the registry resolves it; the older patch notation, registered feature specifications and input allow-lists are flat case analysis.
- IntentBridge.OrderCanChangeMeaning: the generation, parents and mutation names that are written into a child afterwards.
- Walk-forward windows and the symmetric variant of the splits, which repeat the cutting proved here.
- Dashboards, command lines, the broker interface, subprocess and container runners.
