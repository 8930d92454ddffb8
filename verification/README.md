# StockFixer verification

Dafny models of the parts of StockFixer whose correctness rests on state, on arithmetic or on two pieces of code
agreeing, with machine-checked proofs of what they promise.

* **Scheduler run ledger.** A shared log of events, cut to its newest 5000, from which several processes count runs,
  forgive interrupted ones, decide on recoveries and report missed periods. `SchedulerEvents`, `SchedulerTime` and
  `SchedulerVerdicts` give the decisions as functions of the log and the loops that compute them; `SchedulerManager`
  is the queue manager as a class over a shared state file; `RunLedger` and `SchedulerNotices` are protocols in which
  processes boot, crash, start, finish, are forced to run, poll, send and lose records in any order;
  `RunLedgerSafety` and `SchedulerNoticesSafety` prove what every sequence of steps keeps; `RunLedgerExactness`,
  `RecoveryGaps` and `NoticeRepeats` give exact conditions for the count, the gap and a repeated notice, with
  `RecoveryGapRuns` for whole runs; `RecoveryDays`, `RecoveryCauses` and `RecoveryWindow` say when a period may be
  recovered, what let each run start, and that a period is recovered or reported;
  `SchedulerManagerRefinement` and `NoticeRefinement` show that the class's methods are runs of the two protocols.
* **Backtest simulator.** A fold over bars of cash, gross cash, one long and one short position and a pending exit
  (`Backtester`, on the inputs of `BacktestInputs`), with execution costs, sizing, tick grids and limit fills
  (`Execution`, `Slippage`, `PositionSizing`, `TickSize`, `LimitOrderRules`). Proved over every input: no look-ahead
  (two runs compared), what a bar shows and when a limit fills (`BacktestViews`), the shape of the trade log, the cause
  and cash of each entry, no entry missing (`BacktestSignals`), the level of equity (`BacktestEquity`), an exact cost
  ledger, solvency on each run and from the inputs alone (`BacktestReach`), exit discipline.
* **Compact cores.** Gregorian Easter and the NYSE holidays (`Calendar`, `UsMarketHolidays`, `UsMarketClosings`),
  canonical rule specs and the sampler that avoids repeats (`RuleSpec`, `HypothesisSampling`), the portfolio average
  (`PortfolioEquity`), the sliding-window limiter (`RateLimiter`), and the latest feature row (`LagFeatures`).

Code that loops or updates objects is modelled as methods and classes proved against functions; the properties are
then proved of those functions. Prices, cash, rates and equity are exact reals, stamps and days are integers.
`dafny verify dfyconfig.toml` checks everything.

## What the proofs found

* A recovery waits for its gap exactly while some run of its period holds it back (`WithinGapIff`). The end of a failed
  run does so when it is recorded, still in the log and not exempt, and then to the whole second (`GapInSeconds`). It
  does not when its record could not be written (`TooSoonAfterLostEnd`) or was cut by 5000 later events
  (`TooSoonAfterCut`). In microseconds the gap is kept exactly after a run that ended on a full second
  (`MicrosecondGapIff`), because the recorded end is cut to seconds; otherwise a recovery can start up to that much too
  soon (`TooSoonWithinSecond`, on any Saturday `SaturdayRecoveredTooSoon`).
* A live run of another process is taken for interrupted exactly when its start record is retained and lies in a
  second before the looking process's boot second (`LiveRunInterruptedIff`). When nothing was running at the boot, a
  run taken for interrupted has died or could not record its end (`InterruptedReallyDied`).
* A saved notice can be sent again by a later boot: the checks of the current period do not ask whether the log still
  reaches back to the mark. They report exactly when the day or week is given up, this boot has not sent for it, and
  every success and mark of it was cut (`ReportsCurrentIff`); there are runs with two notices of one period
  (`ForgottenMarkIsSentAgain`, for the daily order job `AutoOrderReportedTwice`). On the other paths a saved mark is
  never ignored (`NoNoticeAfterSavedMark`).
* The scan caches are sound: once a day's scan of past days or ended weeks found nothing, no later scan of that day
  would find anything, whatever is appended and cut in between (`ScanOfDaysStaysEmpty`, `ScanOfWeeksStaysEmpty`).

## Model

| member | source | states |
|---|---|---|
| Execution.ExecutionModel.FillCosts | python/src/backtest/execution.py:115-133 | a purchase costs its gross value plus quantity times price times the rate at that fill, and a sale yields it less the same |
| Execution.ExecutionModel.PremiumIsImpact | python/src/backtest/execution.py:88-125 | a purchase costs beyond the flat rate exactly the impact of its quantity, price and average volume on the traded amount, and nothing without an impact or a volume |
| Execution.ExecutionModel.RoundTripLoss | python/src/backtest/execution.py:115-133 | buying and selling again at one price loses twice the fee and slippage of the amount |
| Execution.ExecutionModel.BuyCostMonotone | python/src/backtest/execution.py:103-125 | with an impact that does not fall in the quantity, a larger purchase never costs less |
| Execution.ExecutionModel.FlatCostIsLeast | python/src/backtest/execution.py:103-125 | the flat rate is a lower bound of the cost of any quantity |
| Execution.ExecutionModel.RoundToLot | python/src/backtest/execution.py:158-167 | the largest lot multiple not above the quantity, never negative |
| Execution.ExecutionModel.RoundedIsWholeLots | python/src/backtest/execution.py:158-167 | it leaves whole lots of the configured size and drops less than one, and without a size it changes nothing |
| Execution.ExecutionModel.MaxAffordableIsLargest | python/src/backtest/execution.py:135-155 | the affordable quantity is a lot multiple that the cash pays at its full size-dependent cost, and no larger lot multiple is paid |
| Execution.ExecutionModel.FlatFloorBounds | python/src/backtest/execution.py:140-150 | a quantity whose flat cost the cash pays is at most the whole part the search starts from, so the start bounds every affordable quantity |
| Execution.ExecutionModel.ComputeMaxAffordableQty | python/src/backtest/execution.py:135-155 | the decrementing loop ends and returns that quantity |
| Slippage.SquareRootImpactIsAdmissible | python/src/backtest/slippage.py:32-58 | the square-root impact, zero for arguments that are not positive, is never negative and does not fall in the quantity, so it is an admissible impact |
| TickSize.RoundedOnGrid | python/src/domain/tick_size.py:7-52 | every rounded limit price is positive and a whole multiple of the tick of its own band, even across a band edge |
| TickSize.RoundingIdempotent | python/src/domain/tick_size.py:37-52 | rounding a rounded price changes nothing |
| TickSize.RoundingIsNearestGridPrice | python/src/domain/tick_size.py:37-52 | a buy limit is the highest grid price not above the request, save the one-tick floor, and a sell limit the lowest not below it, among all grid prices of all bands |
| LimitOrderRules.LimitWithinBuffer | python/src/domain/limit_order_rules.py:27-57 | an order is limited exactly for a thin or wide-ranging symbol; a buy limit then lies between the current price and the price plus buffer, a sell limit between the price less buffer and the price, on the grid, whatever bands the prices lie in |
| LimitOrderRules.LimitIsFarthest | python/src/domain/limit_order_rules.py:42-57 | within the larger of the buffer's share of the price and one tick, no grid price lies above a buy limit or below a sell limit; a sell whose buffer covers the price has limit zero |
| PositionSizing.AtrRequestWithinRisk | python/src/backtest/position_sizing.py:70-90 | the ATR quantity is exactly the largest one that spends at most the larger share of the cash and risks at most the budget over the stop distance, the smaller share always being allowed |
| PositionSizing.CapToCashPays | python/src/backtest/position_sizing.py:119-129 | capping leaves the largest lot multiple, at most the request, that the cash pays at its full cost |
| PositionSizing.PositionQtyIff | python/src/backtest/position_sizing.py:47-116 | in every mode a positive number of lots is within the quantity exactly when its flat cost is within the mode's share of the cash (for ATR within its risk bounds) and the cash pays its full cost |
| PositionSizing.FullBuysMost | python/src/backtest/position_sizing.py:101-117 | in the full mode, and where another mode falls back to it, no payable lot multiple is larger than the quantity taken |
| PositionSizing.PositionQtyPayable | python/src/backtest/position_sizing.py:47-116 | in every sizing mode the quantity is a lot multiple that the cash pays |
| PositionSizing.EntryPayable | python/src/backtest/volatility_overlay.py:54-63 | so is the quantity after volatility scaling, which may raise it |
| PositionSizing.ScaleQtyIff | python/src/backtest/volatility_overlay.py:54-63 | a positive number of lots is within the scaled quantity exactly when it is at most quantity times scale and the cash pays its full cost |
| PositionSizing.ScaleWithinRange | python/src/domain/volatility_sizing.py:117-129 | the scale is the target over the forecast, kept in its range, and does not grow with the forecast |
| PositionSizing.StopFollowsForecast | python/src/backtest/volatility_overlay.py:65-72 | the stop is the multiple of the forecast, at most the largest stop, does not shrink as the forecast grows, and is the fixed one without a forecast |
| BacktestViews.BarSees | python/src/backtest/execution_inputs.py:29-71 | with a lag bar i is executed at its opening, or its close in a table without openings, on the signal and prediction of lag bars before, with the mean volume of the twenty bars before and the ATR of the bar before |
| BacktestViews.BarSeesItself | python/src/backtest/execution_inputs.py:29-71 | without a lag it is executed at its own close on its own signal, prediction, ATR and twenty-bar mean volume |
| BacktestViews.MeanBalances | python/src/backtest/execution_inputs.py:37-40 | the mean is the level around which the values present balance |
| BacktestViews.ForecastSees | python/src/backtest/volatility_overlay.py:26-30 | the forecast of a bar is that of the last window of returns ending with the close before it |
| BacktestViews.FillsIff | python/src/backtest/limit_fill.py:35-77 | a signal of a thin or wide-ranging symbol fills at its limit exactly when the bar's low, or high for a sell, reaches it, the close for a thin one, and else not at all; any other signal fills at the execution price |
| BacktestNoLookAhead.RollingCausal | python/src/backtest/execution_inputs.py:37-52 | a rolling mean moved one bar later depends only on earlier bars |
| BacktestNoLookAhead.InputsCausal | python/src/backtest/execution_inputs.py:29-71 | with a lag, the execution price, volume, signal, prediction and ATR of a bar are those of any other input with the same past and the same opening |
| BacktestNoLookAhead.ForecastCausal | python/src/backtest/volatility_overlay.py:26-30 | of the whole forecast series, windows of returns over earlier and current closes moved by one, the value at a bar depends only on closes before it |
| BacktestNoLookAhead.LimitFillCausal | python/src/backtest/limit_fill.py:35-77 | a limit fill depends only on earlier bars and on the bar's own range and close |
| BacktestNoLookAhead.NoLookAhead | python/src/backtest/backtester.py:203-458 | two inputs that agree before a bar, on its opening and on the signals let through by the lag give the same trade log through that bar |
| BacktestNoLookAhead.TruncatedRunIsPrefix | python/src/backtest/backtester.py:203-479 | the log of a truncated run, without its forced close, is a prefix of the log of the longer run |
| BacktestExitDiscipline.ExitDueIsLine | python/src/backtest/backtester.py:437-442 | in prices: a close calls for the stop exactly at or below entry times one less the stop of a held long, else for the target exactly at or above entry times one plus the target |
| BacktestLedger.SignalTradesOnce | python/src/backtest/backtester.py:318-432 | a signal does nothing or adds one entry of its bar at the fill price: an entry opens its whole quantity from nothing, an exit closes the whole position, the other side stays; a filled opposite signal always closes |
| BacktestSignals.SignalsAreFollowed | python/src/backtest/backtester.py:318-432 | on every run, a filled signal on a bar without an exit covers, opens, sells or shorts as it should: an entry is logged whenever the sizing gives a positive quantity, an exit is of the whole position, and nothing else is logged |
| BacktestSignals.EntryOfAtLeast | python/src/backtest/backtester.py:347-416 | where a signal opens a position, an entry of at least q shares is logged if and only if the sizing mode asks for q and the cash pays its full cost |
| BacktestSignals.FullEntryIsMade | python/src/backtest/backtester.py:347-416 | in full mode every signal to open is acted on as soon as the cash pays one lot, with the most lots it pays |
| BacktestSignals.ExitsAreMade | python/src/backtest/backtester.py:211-245 | an exit that waits or, without a lag, that this close calls for is the bar's only entry, for the whole position at the execution price or the close |
| Backtester.SimulateBar | python/src/backtest/backtester.py:203-458 | the loop body, with pending and same-bar exits, as the specification's Step |
| BacktestLedger.SettledOnce | python/src/backtest/backtester.py:460-510 | nothing stays open, and what was open is closed by one entry of its whole quantity at the last close; otherwise nothing changes |
| Backtester.SimulateTrading | python/src/backtest/backtester.py:203-513 | the loop computes the specification's log and equity for every input |
| BacktestLedger.RunKeeps | python/src/backtest/backtester.py:203-458 | after every bar: quantities are lot multiples, the log alternates entry and exit of equal quantity, the open position is the log's last entry, one record per bar |
| BacktestLedger.NeverLongAndShort | python/src/backtest/backtester.py:323-432 | a long and a short position are never open together and neither is negative |
| BacktestLedger.SimulationEndsFlat | python/src/backtest/backtester.py:460-510 | the whole simulation ends without a position, with entries and exits in pairs and one equity record per bar |
| BacktestCosts.RunLedger | python/src/backtest/backtester.py:212-458 | after every bar gross cash less cash is the sum, over the closed-out fills, of quantity times price times the rate at that fill |
| BacktestCosts.SimulationLedger | python/src/backtest/backtester.py:203-510 | the same exact ledger for the finished simulation |
| BacktestEquity.EquityLevel | python/src/backtest/mark_to_market.py:32-43 | every gross record is the initial cash plus the flows of the log so far plus what it leaves open: a long its quantity times the close, a short its quantity times the fall since its sale |
| BacktestEquity.LastRecordIsRealised | python/src/backtest/mark_to_market.py:32-43 | the last gross record is the gross cash that the forced close leaves |
| BacktestCosts.EquityNetAtMostGross | python/src/backtest/mark_to_market.py:32-43 | each bar's record differs between gross and net by exactly the costs so far and those of covering a short now, so net is at most gross |
| BacktestCosts.LongOnlyNeverOverdrawn | python/src/backtest/backtester.py:324-479 | without shorts and with sales that bring money, cash is never negative on any run |
| BacktestReach.LongOnlySolventOnInputs | python/src/backtest/backtester.py:324-479 | the same from the inputs alone: prices of the table that are not negative, and sales that keep money for every quantity up to the shares that the best trades in hindsight could buy |
| BacktestReach.SquareRootKeepsMoney | python/src/backtest/slippage.py:32-58 | the square-root impact meets that condition when fee, slippage and the coefficient times the root of the largest participation within that reach are together at most one |
| BacktestCosts.TapePricesNonNegative | python/src/backtest/limit_fill.py:53-77 | no execution price, limit fills included, is negative when the table's are not |
| BacktestBooks.RunBooks | python/src/backtest/backtester.py:211-458 | after every bar each log entry has its cause in its bar (a filled signal of its direction at the fill price, or a stop or target at the execution price), and the cash written in it is the initial cash plus the flows of the entries up to it, net of their settled costs |
| BacktestBooks.SimulationBooks | python/src/backtest/backtester.py:203-510 | the finished log is a complete account: final gross cash is initial cash plus all flows, final cash is that less the cost of every fill |
| BacktestExitDiscipline.ExitDiscipline | python/src/backtest/backtester.py:211-245 | in every finished log a stop or target exit has its cause in the close before, the stop wins, no earlier close of the trade called for an exit, and the exit is at the bar's execution price |
| BacktestExitDiscipline.BreachExitsNextBar | python/src/backtest/backtester.py:434-442 | a close that breaches the stop or target of an open long makes the next bar's only log entry the full exit at that bar's opening |
| Calendar.YearUnique | python/src/domain/us_market_holidays.py:80-82 | a day lies in exactly one year of the Gregorian calendar |
| UsMarketHolidays.MoonTablesAgree | python/src/domain/us_market_holidays.py:46-58 | the corrected full moon read off Meeus's h and a is the one of the Clavius epact tables, for every year |
| UsMarketHolidays.EasterIsFirstSundayAfterFullMoon | python/src/domain/us_market_holidays.py:46-58 | the computed date is the first Sunday strictly after the paschal full moon, for every year |
| UsMarketHolidays.EasterRange | python/src/domain/us_market_holidays.py:46-58 | it lies between March 22 and April 25 and is a valid date |
| UsMarketHolidays.HolidaysInOrder | python/src/domain/us_market_holidays.py:61-77 | the ten holidays of a year come in strictly ascending order, so they are pairwise distinct |
| UsMarketHolidays.HolidaysOfYear | python/src/domain/us_market_holidays.py:61-77 | all holidays of a year are Monday to Friday and inside the year; there are ten, or nine exactly when January 1 is a Saturday |
| UsMarketHolidays.LookupMissesNone | python/src/domain/us_market_holidays.py:80-87 | looking a day up under its own year misses no holiday of any year |
| UsMarketClosings.HolidaysAreClosings | python/src/domain/us_market_holidays.py:61-77 | a day is a holiday of a year exactly when it is one of the named days: the third Monday of January or February, the first of September, the last of May, the fourth Thursday of November by the number of such days before it in the month, the Friday before the first Sunday after the full moon, or the weekday that stands for June 19, July 4, December 25 or a January 1 that is no Saturday |
| UsMarketClosings.BusinessDayIff | python/src/domain/us_market_holidays.py:80-87 | a business day is a day from Monday to Friday that is no closing day of any year and not the special one |
| RuleSpec.EqualCanonicalIffReordered | python/src/backtest/factory_sampling.py:93-107 | two specs have equal canonical forms if and only if they differ by the order of children at any depth |
| RuleSpec.CanonicalIdempotent | python/src/backtest/factory_sampling.py:93-107 | the canonical form is its own canonical form |
| HypothesisSampling.EvaluatedHashes | python/src/backtest/factory.py:206-225 | the loop collects exactly the hashes of the canonical forms of the market's ledger rows |
| HypothesisSampling.PickChildren | python/src/backtest/factory_sampling.py:177-187 | the children are the first draw of each rule in the order of the draws, each rule once |
| HypothesisSampling.ChildIsFirst | python/src/backtest/factory_sampling.py:177-187 | every child is the first draw of its rule |
| HypothesisSampling.FirstIsChild | python/src/backtest/factory_sampling.py:177-187 | the first draw of every rule is a child |
| HypothesisSampling.DrawnIs | python/src/backtest/factory_sampling.py:170-190 | an attempt is a single rule below the share of those, else an "and" below the threshold and an "or" above, of the children in some order |
| HypothesisSampling.SharesOfKinds | python/src/backtest/factory_sampling.py:149-168 | two fifths of the attempts are single rules until all are seen, and composites are always "and" twice as often as "or" |
| HypothesisSampling.DrawSpec | python/src/backtest/factory_sampling.py:160-195 | one attempt gives what was drawn: a single rule, or the canonical form of a composite of the first draw of each rule, or nothing when fewer than two are left |
| HypothesisSampling.SampleHypotheses | python/src/backtest/factory_sampling.py:141-204 | at most the budget is returned, each drawn, canonical, not known before, no two alike up to order; fewer than the budget only when everything drawn is already known or sampled |
| HypothesisSampling.DistinctUpToOrder | python/src/backtest/factory_sampling.py:160-204 | no two sampled specs are equal up to reordering |
| HypothesisSampling.NewToLedger | python/src/backtest/factory.py:206-225 | no sampled spec equals a ledger spec of its market up to reordering |
| HypothesisSampling.SampleNight | python/src/backtest/factory_sampling.py:141-204 | the ledger and the sampler together: nothing sampled repeats a ledger spec of the market or another sampled one, up to order |
| PortfolioEquity.LevelIsLatest | python/src/backtest/factory_portfolio.py:38-67 | the level of a curve on a date is its last value at or before the date over the initial cash |
| PortfolioEquity.LastOfDateCounts | python/src/backtest/factory_portfolio.py:48-52 | of repeated dates the last value counts |
| PortfolioEquity.MeanBalances | python/src/backtest/factory_portfolio.py:64-67 | the mean level is the one around which the levels of all curves balance |
| PortfolioEquity.FillColumn | python/src/backtest/factory_portfolio.py:52-64 | the in-place running maximum leaves in each row the value of the last written row at or before it, else one |
| PortfolioEquity.RowIsLevel | python/src/backtest/factory_portfolio.py:48-64 | that value is the curve's level on the row's date |
| PortfolioEquity.SharedMeans | python/src/backtest/factory_portfolio.py:38-46 | the shared-index path gives the same means of levels whenever its guard holds |
| PortfolioEquity.SharedDates | python/src/backtest/factory_portfolio.py:38-48 | and over the same dates as the general path |
| PortfolioEquity.BuildPortfolioEquity | python/src/backtest/factory_portfolio.py:27-67 | by either path: for every date of any curve, in order, the mean over the usable curves of their levels |
| RateLimiter.AnyWindowWithinLimit | python/src/api/external_v1.py:91-103 | for any monotone sequence of calls no half-open minute, open at either end, holds more than the limit of accepted ones |
| RateLimiter.Limiter.IsRateLimited | python/src/api/external_v1.py:91-103 | on the pruned per-key lists a call is rejected if and only if the last 60 seconds hold the limit of accepted calls of that key; other keys are untouched |
| LagFeatures.LagNameParses | python/src/market_data/latest_feature_row.py:36-41 | a lag column name splits back into its column and lag for every column name, even one with the mark in it |
| LagFeatures.TargetIsGrowth | python/src/market_data/technical.py:62-63 | a target is the growth of the close over the horizon, and there is none exactly when one of the closes is missing or both are zero |
| LagFeatures.CreateBasicLagFeatures | python/src/market_data/technical.py:44-74 | the nested loops add exactly the shifted columns of each named feature, or of every column but the flag, at each lag, and keep in order exactly the rows that stay with their targets; for training the rows without a target go, the last ones of the horizon among them |
| LagFeatures.BuildLatestFeatureRow | python/src/market_data/latest_feature_row.py:28-45 | a row comes back exactly when the last row is usable and every asked value is known, and holds those values |
| LagFeatures.LatestRowAgrees | python/src/market_data/latest_feature_row.py:28-45 | given the builder's list of lag columns the shortcut returns a row exactly when the list is not empty and the builder keeps the last row, and then the builder's values |
| SchedulerEvents.Appended | python/src/orchestration/scheduler_queue.py:589-594 | the log keeps its newest 5000 events, the appended one last |
| SchedulerEvents.CollectRuns | python/src/orchestration/scheduler_interrupted.py:53-66 | the first loop finds the ends, the ended runs and the first start record of each run |
| SchedulerEvents.CountExecutions | python/src/orchestration/scheduler_interrupted.py:39-78 | the count is all recorded ends and all open runs less the forgiven interrupted ones, and the interrupted runs are those open of an earlier boot |
| SchedulerEvents.CountCoversStarts | python/src/orchestration/scheduler_interrupted.py:39-78 | the count is at least the number of started runs less the forgiven quota |
| SchedulerEvents.LastAttemptAt | python/src/orchestration/scheduler_recovery_gap.py:19-52 | the loop returns the latest failed end, or start where starts count, that is not exempt |
| SchedulerEvents.MarksChangeNoVerdict | python/src/orchestration/scheduler_cap_notice.py:46 | notice marks change no count, interruption, success or latest attempt |
| SchedulerTime.StampKeepsDay | python/src/orchestration/scheduler_queue.py:75-76 | cutting an instant to seconds keeps its day |
| SchedulerTime.SamePeriodIff | python/src/orchestration/scheduler_queue.py:473-480 | two days have one period key exactly when they are the same day, or of the same week or month |
| SchedulerTime.WeekNumberIsOfThursday | python/src/orchestration/scheduler_queue.py:475-477 | a week key holds the year of its Thursday and which Thursday of that year it is |
| SchedulerTime.IsoWeekIsMonday | python/src/orchestration/scheduler_queue.py:473-480 | two days have the same week key exactly when they share a Monday (section 4.1.4 of ISO 8601:2004) |
| SchedulerTime.BasisInSamePeriod | python/src/orchestration/scheduler_cutoff.py:32-59 | the scheduled time a recovery is based on lies in the period the run would be recorded under, and on no later day |
| RecoveryDays.RecoveryDayIs | python/src/orchestration/scheduler_cutoff.py:40-57 | the day a recovery is based on is the scheduled day it belongs to: the first scheduled weekday of the week for the rest of the week, the day of the month for a monthly job, else today, on scheduled weekdays |
| RecoveryDays.BasisIsScheduledTime | python/src/orchestration/scheduler_cutoff.py:32-59 | the basis is exactly the configured hour and minute into that day, and there is one exactly when there is such a day |
| RecoveryDays.RestOfWeekFromFirstDay | python/src/orchestration/scheduler_cutoff.py:44-49 | a job recovered for the rest of the week has a recovery day exactly from the first scheduled day of the week on, and is based on that day |
| RecoveryDays.MonthFromScheduledDay | python/src/orchestration/scheduler_cutoff.py:53-57 | a monthly job is recovered from its day of the month on, based on that day of the same month |
| RecoveryDays.EndedIffNoRecoveryLeft | python/src/orchestration/scheduler_cap_notice.py:104-116 | the recovery of a week counts as ended exactly when no day of it from today on is one on which a recovery is considered |
| RecoveryDays.EndedWeekIs | python/src/orchestration/scheduler_cap_notice.py:119-151 | the week found is last week if that has no success or notice and begins after the oldest retained day, else this week if the same holds of it and no scheduled day is left |
| RecoveryDays.EndedWeekIsFound | python/src/orchestration/scheduler_cap_notice.py:119-151 | a week without success or notice is found on each of the seven days after it |
| RecoveryWindow.RecoveredReportedOrHeld | python/src/orchestration/scheduler_cap_notice.py:159-174 | on a business day past its recovery delay without success or notice, a job is recovered, reported, or held back by a run of the day, and never recovered together with either of the others |
| RecoveryWindow.NotCappedWhileRecovered | python/src/orchestration/scheduler_cap_notice.py:85-151 | the current week is not reported as given up or ended while it would be recovered |
| SchedulerVerdicts.PastPeriodsAreMissed | python/src/orchestration/scheduler_queue.py:335-374 | the days run again are exactly the days of the range on a configured weekday of which the log has no success record and fewer executions than the limit, latest first |
| SchedulerVerdicts.OldestDayIs | python/src/orchestration/scheduler_cap_notice.py:188-197 | the oldest retained day is that of the first event with a stamp |
| SchedulerVerdicts.NoFalseAlarmForDay | python/src/orchestration/scheduler_cap_notice.py:188-237 | a day that ever had a success or a notice is not reported, however much was cut from the head of the log |
| SchedulerVerdicts.NoFalseAlarmForWeek | python/src/orchestration/scheduler_cap_notice.py:119-151 | the same for an ended week |
| SchedulerVerdicts.ScanOfDaysStaysEmpty | python/src/orchestration/scheduler_cap_notice.py:200-228 | a scan that found no day missing would find none later that day, on any longer and further cut log |
| SchedulerVerdicts.ScanOfWeeksStaysEmpty | python/src/orchestration/scheduler_cap_notice.py:119-151 | the same for the scan of ended weeks |
| SchedulerManager.SchedulerQueueManager.constructor | python/src/orchestration/scheduler_queue.py:60-90 | a new manager has read the file and holds no mark |
| SchedulerManager.SchedulerQueueManager.AppendEvent | python/src/orchestration/scheduler_queue.py:583-594 | the file gains the event, keeps its newest 5000 and loses none that another process appended |
| SchedulerManager.SchedulerQueueManager.GetExecutionCount | python/src/orchestration/scheduler_queue.py:440-471 | the count on the local copy, and the interrupted runs are remembered as warned of |
| SchedulerManager.BeginVerdictIs | python/src/orchestration/scheduler_queue.py:121-175 | a start of a known job comes to nothing exactly when it is scheduled, not forced and at or after the deadline of the day, or the job is in progress; else it is of the asked or current period |
| SchedulerManager.SchedulerQueueManager.BeginRun | python/src/orchestration/scheduler_queue.py:121-197 | unknown, past the deadline, busy, limited or begun, the first three under exactly these conditions and without a record; a job is in progress only when its start was saved |
| SchedulerManager.SchedulerQueueManager.EndRun | python/src/orchestration/scheduler_queue.py:220-272 | the end record is appended if it can be saved, and the job is free either way |
| SchedulerManager.SchedulerQueueManager.DecideRecovery | python/src/orchestration/scheduler_queue.py:376-428 | the early returns and the reloaded file decide as the one condition on the file does |
| SchedulerManager.SchedulerQueueManager.GetMissedPastPeriods | python/src/orchestration/scheduler_queue.py:335-374 | the loop returns the missed days of the reloaded file |
| SchedulerManager.SchedulerQueueManager.OldestEventDay | python/src/orchestration/scheduler_cap_notice.py:188-197 | the day of the oldest retained event with a stamp |
| SchedulerManager.SchedulerQueueManager.IsStillUnreported | python/src/orchestration/scheduler_cap_notice.py:231-237 | no success, no mark in the log and none in memory |
| SchedulerManager.SchedulerQueueManager.ScanPastDays | python/src/orchestration/scheduler_cap_notice.py:200-228 | a job that is idle and not scanned today finds exactly the days after the oldest retained one without success or notice; the scan is remembered only when nothing is missing and the log is not empty |
| SchedulerManager.SchedulerQueueManager.ScanEndedWeeks | python/src/orchestration/scheduler_cap_notice.py:119-151 | a job that is idle and not scanned today finds last week whenever it is unsettled; the older of two ended weeks comes first, with the same memory of the scan |
| SchedulerManager.SchedulerQueueManager.FindPeriodWithoutSuccess | python/src/orchestration/scheduler_cap_notice.py:56-76 | the current period once its delay is over, if unreported and not running |
| SchedulerManager.SchedulerQueueManager.FindCappedPeriod | python/src/orchestration/scheduler_cap_notice.py:85-97 | a week given up at its limit of runs |
| SchedulerManager.SchedulerQueueManager.FindMissedDay | python/src/orchestration/scheduler_cap_notice.py:159-174 | a business day given up at its limit or at the deadline |
| SchedulerManager.SchedulerQueueManager.RecordSent | python/src/orchestration/scheduler_cap_notice.py:422-437 | the notice is remembered in memory even if its mark cannot be saved |
| SchedulerManager.SchedulerQueueManager.NotifyWeek | python/src/orchestration/scheduler_cap_notice.py:440-457 | the week to report, and that an undelivered message leaves no trace |
| SchedulerManager.SchedulerQueueManager.NotifyMissedDay | python/src/orchestration/scheduler_cap_notice.py:440-457 | the same for a missed business day |
| SchedulerManager.SchedulerQueueManager.NotifyPastDays | python/src/orchestration/scheduler_cap_notice.py:460-475 | one message for all missed days, all remembered at once, their marks saved in turn until one fails |
| SchedulerManagerRefinement.BegunIsStart | python/src/orchestration/scheduler_queue.py:135-197 | a begun run is an enabled start of the protocol and leaves the manager mirroring its process, with the clock read once before the locks and once under them |
| SchedulerManagerRefinement.BegunIff | python/src/orchestration/scheduler_queue.py:121-197 | a run begins exactly when its job is known and not being executed by the process, a scheduled start is before the deadline, and unless forced fewer runs of the period than the limit are visible and not forgiven |
| SchedulerManagerRefinement.LimitedIsSkip | python/src/orchestration/scheduler_queue.py:149-175 | a limited one, decided and stamped with the clock read before the locks, is the protocol's skip, recorded under them |
| SchedulerManagerRefinement.RecoveryIsStart | python/src/orchestration/scheduler_queue.py:376-428 | a positive recovery decision is an enabled recovering start |
| SchedulerManagerRefinement.BackfillIsStart | python/run_scheduler.py:769-773 | every missed earlier day may be started |
| SchedulerManagerRefinement.EndIsFinish | python/src/orchestration/scheduler_queue.py:220-272 | the end of a run is the protocol's finish, or its lost record |
| SchedulerManagerRefinement.BootMirrors | python/src/orchestration/scheduler_queue.py:60-90 | a new manager mirrors a process just booted |
| SchedulerManagerRefinement.OthersKeepMirror | python/src/orchestration/scheduler_queue.py:583-587 | no step of another process disturbs a manager's view of its own runs |
| RunLedger.StepRecorded | python/src/orchestration/scheduler_queue.py:177-262 | every step keeps the records of starts and ends in step with the runs |
| RunLedger.StepBootsKnown | python/src/orchestration/scheduler_queue.py:72-76 | every step keeps a run that began after a boot stamped no earlier than that boot |
| RunLedgerSafety.EveryRunIsSafe | python/src/orchestration/scheduler_queue.py:108-272 | over every sequence of boots, crashes, starts, forced starts, skips, finishes and lost records all the invariants hold |
| RunLedgerSafety.NonForcedRunsBounded | python/src/orchestration/scheduler_queue.py:149-197 | the non-forced runs of a job and period never exceed the limit plus the forgiven quota while none of the period's events was cut |
| RunLedgerSafety.NoStartPastDeadline | python/src/orchestration/scheduler_queue.py:129-133 | on every sequence of steps, no scheduled start that is not forced was asked for at or after the deadline of its day |
| RunLedgerSafety.EveryRecoveryIsDue | python/src/orchestration/scheduler_queue.py:397-418 | on every sequence of steps, each recovery is of the period of its time, after its scheduled time and delay and before the deadline, and of no period of which the log held the end of a run that succeeded |
| RunLedgerExactness.CountIsVisibleRuns | python/src/orchestration/scheduler_interrupted.py:39-78 | in every state of the ledger the count is the number of runs of which the log still holds a record, less the forgiven of those begun by other processes before this boot of which it holds no end |
| RunLedgerExactness.CountIsAllRuns | python/src/orchestration/scheduler_interrupted.py:39-78 | while none of the period's events was cut, every run counts exactly once |
| RunLedgerExactness.BackfillIffRuns | python/src/orchestration/scheduler_queue.py:335-374 | in terms of runs, an earlier day is run again exactly if it is a configured day of the range, no run of it is known to have succeeded, and fewer than the limit are visible and not forgiven |
| RunLedgerSafety.OwnRunNeverInterrupted | python/src/orchestration/scheduler_interrupted.py:29-36 | a process never takes its own run for interrupted |
| RunLedgerSafety.InterruptedReallyDied | python/src/orchestration/scheduler_interrupted.py:66-78 | with no run live at the boot, a run taken for interrupted has died or could not record its end |
| RunLedgerSafety.LiveRunInterruptedIff | python/src/orchestration/scheduler_interrupted.py:29-36 | exactly when a live run is taken for interrupted |
| RecoveryGaps.RecoveryKeepsGap | python/src/orchestration/scheduler_recovery_gap.py:33-74 | a recovery starts no sooner than the gap after the end of every failed run of its period whose end is recorded, still in the log and not exempt |
| RecoveryGaps.WithinGapIff | python/src/orchestration/scheduler_recovery_gap.py:19-74 | a recovery waits exactly when some run of the period holds it back: by a failed end in the log that is not exempt, or, unless the job reruns interrupted runs, by a start in the log; an end that was cut or never recorded does not hold |
| RecoveryGapRuns.EveryRecoveryKeepsGap | python/src/orchestration/scheduler_recovery_gap.py:33-74 | over every sequence of steps, each recovery keeps its gap from each earlier failed run of its period, unless that end had been cut by then or is exempt |
| RecoveryGapRuns.RecoveryStartsIff | python/src/orchestration/scheduler_queue.py:397-428 | a recovery may start if and only if its scheduled time and delay are over and the deadline is not, no visible run of the period succeeded or holds it back, and fewer than the limit are visible and not forgiven |
| RecoveryGaps.GapInSeconds | python/src/orchestration/scheduler_recovery_gap.py:55-74 | the gap holds to the whole second, and falls short of microseconds by less than one |
| RecoveryGaps.MicrosecondGapIff | python/src/orchestration/scheduler_recovery_gap.py:55-74 | the gap is kept in microseconds after a run, whenever its recovery starts, exactly when the run ended on a full second |
| RecoveryGapRuns.TooSoonWithinSecond | python/src/orchestration/scheduler_recovery_gap.py:55-74 | for every job and times that allow it, a run of the ledger in which a recovery starts sooner than the gap after the exact end of a failed run, by less than its second |
| RecoveryGapRuns.SaturdayRecoveredTooSoon | python/run_scheduler.py:612-632 | for the weekly regime job such a run on every Saturday |
| RecoveryGapRuns.TooSoonAfterLostEnd | python/src/orchestration/scheduler_queue.py:247-272 | a run of the ledger in which the end of a failed run could not be recorded and its recovery starts at once, or where starts count once the gap after the start is over |
| RecoveryGapRuns.TooSoonAfterCut | python/src/orchestration/scheduler_queue.py:589-594 | a run of the ledger in which the records of a failed run were cut and its recovery starts at once |
| RunLedgerSafety.NoFalseAlarm | python/src/orchestration/scheduler_cap_notice.py:119-151 | in every reachable state no cut makes a day or week with a success or a mark look missed |
| SchedulerNotices.PollOrder | python/run_scheduler.py:723-753 | a poll visits the selected jobs, those with a deadline first, each group in its configured order |
| SchedulerNotices.PickedAre | python/run_scheduler.py:723-753 | a job is visited in a group exactly when the poll selects it there |
| SchedulerNotices.PickedInOrder | python/run_scheduler.py:723-753 | the jobs of a group keep their configured order |
| SchedulerNotices.SourceDecisions | python/src/orchestration/scheduler_cap_notice.py:85-174 | what the current-period checks report is unreported, has begun and is not running, so it is a decision of the protocol |
| SchedulerNoticesSafety.EveryRunKept | python/src/orchestration/scheduler_cap_notice.py:422-485 | over every interleaving of decisions, sends, failures, crashes, boots and foreign events the notice invariants hold |
| SchedulerNoticesSafety.NoticesAtMostOnce | python/src/orchestration/scheduler_cap_notice.py:422-485 | each job and period is sent at most once per boot, by whichever of the two paths |
| SchedulerNoticesSafety.NoNoticeAfterSavedMark | python/src/orchestration/scheduler_cap_notice.py:231-237 | a boot sends no notice whose mark an earlier boot saved, unless the mark was cut and the check was the unguarded one of the current period; ReportsCurrentIff says exactly when that check reports |
| NoticeRepeats.UnreportedIffCut | python/src/orchestration/scheduler_cap_notice.py:231-237 | a period counts as unreported exactly when this boot does not remember it and every success and mark of it was cut from the log |
| NoticeRepeats.ReportsCurrentIff | python/src/orchestration/scheduler_cap_notice.py:85-174 | in every reachable state a boot reports the current day or week if and only if it is given up, this boot has not sent for it, and every success and mark of it was cut, whatever earlier boots saved |
| NoticeRepeats.ForgottenMarkIsSentAgain | python/src/orchestration/scheduler_cap_notice.py:422-457 | for every polled job and begun period, a run of the protocol in which a first boot sends and saves its mark, 5000 events follow, and the next boot sends again |
| NoticeRepeats.AutoOrderReportedTwice | python/src/orchestration/scheduler_cap_notice.py:159-174 | for the daily order job such a run on every weekday past the deadline, in which both boots decide to report the day on the logs they read |
| NoticeRefinement.NotifyWeekIsRun | python/src/orchestration/scheduler_cap_notice.py:440-457 | finding, sending and marking a week is a run of the notice protocol from the state the manager mirrors to the one it leaves |
| NoticeRefinement.NotifyMissedDayIsRun | python/src/orchestration/scheduler_cap_notice.py:440-457 | the same for a missed business day |
| NoticeRefinement.NotifyPastDaysIsRun | python/src/orchestration/scheduler_cap_notice.py:460-475 | the same for the past days: one decision, one message, the marks in turn until one cannot be saved |

## Left out

- Floating point: prices, cash and rates are exact reals, so rounding error and the rounding of reported figures are not modelled.
- NaN closes and predictions: a missing prediction is absent, where the source fails on a NaN; closes are always numbers.
- The reporting fields of log entries (position fraction and value, sizing mode, ATR details), the separate short log and the metrics computed from the log.
- The volatility forecast takes its logarithm and its square root as given functions; the closes known before the table are a parameter.
- The square root of the slippage model: any value whose square is the participation.
- ExecutionModel: one plus fee and slippage is taken to be positive and the ATR multiplier nonzero; the source divides by both.
- LatestRowAgrees: tables whose column names collide with the added ones are excluded; a table holds one column of a name.
- Columns of a feature table that do not hold numbers.
- Dates of curves and bars are distinct integers in ascending order.
- The random generator of the sampler: a sequence of draws given from outside. The hash is any function, the sort key of specs any injective one.
- JP holidays: whether a day is a business day, and the list of past business days, are parameters.
- A corrupted, missing or unreadable state file, with its quarantine and the stop of recoveries after it.
- Clock differences between processes: events are stamped in the order they are appended.
- RunLedger.Enabled: a decision to recover and the start that follows are one step of the ledger protocol; in the source another run may come in between, and is then counted before the start.
- Manual processes that outlive a boot: their live runs can be taken for interrupted, which is stated exactly; the claim that such a run died supposes nothing was running at the boot.
- Retries with backoff inside a run (their records are events of the protocol), heartbeat, error notices, the texts of messages, logging.
- The string forms of period keys and of the day-of-week expressions.
- LimitedIsSkip: the clock read before the locks, which stamps the record, is taken to be no earlier than the stamp of the newest record.
- I/O: sending a message and saving a file succeed or fail as parameters say.
- Threads of one process: the locks make each method one step.
- Model training, statistics, indicators, rules, brokers, HTTP, Discord, databases and the rest of the repository.
