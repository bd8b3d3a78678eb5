# Verification of the trading platform's accounting, calendar and allocation core

This project models, in Dafny, the parts of the trading platform that keep money, time and limits
straight, and proves what they promise for all inputs, all runs and all reachable states:

* **The replay ledger** (`Book`, `Orders`, `Trading`, `TradingRules`, `StrategyBooks`, `ReplayRunner`). A
  replay moves cash, positions, average costs, per-strategy cash flows, peaks and an equity history through
  a list of runtime cycles, tick after tick. `ReplayRunner` holds the mutable execution state and its handlers, each proved
  against the state machine of `Trading`; the laws are proved about that state machine: equity is
  conserved by orders, each strategy's equity is that of a portfolio of its own symbols' fills and together
  they decompose the whole, cash has a floor, costs are explained by the fills, order sizes are exactly
  what the limits allow, switches and drawdowns stop every order, and sales come on every seventh tick only.
* **The drawdown gate** (`DrawdownGate`, `DrawdownConflict`, `RiskAlerts`, `DrawdownMetrics`). The
  replay's running peak and the risk service's recomputed peak agree over whole runs for exactly the
  cycle lists that do not mark fresh prices beside stale ones, and a run raises its one alert on the tick
  that first blocks. The charts' one-pass drawdown is the worst loss over all pairs of points.
* **Corporate actions** (`CorporateActions`, `SplitAdjustment`). No profit or loss is invented, shares
  are conserved, and the price history is re-expressed by factors that telescope, ignore the order of
  the splits and never look ahead.
* **The calendar** (`Gregorian`, `MarketCalendar`, `SessionSafety`, `EndOfDay`, `TickSchedule`,
  `RebalanceSchedule`, `PeriodReplay`). Bounded searches find the least session boundary, week and month
  anchors are unique, waiting never passes an open, the polls alone decide when the end of day runs, the
  replay's dispatcher produces exactly the calendar's schedule, and weekly and monthly rebalances fall on
  each week's and month's first tick.
* **Allocation and exposure** (`Allocation`, `AllocationArtifact`, `Grouping`, `Exposure`, `ExposureSums`,
  `Rebalancing`). A what-if aggregate equals the stored result, a frozen snapshot refines the live
  engine under an exact condition, its hashed payload decides every answer, and exposures are the sums over
  the raw positions, partition the portfolio and have bounded concentration.

`Common` and `Sorting` hold what the modules share. Decimals and floats are exact reals; the deliberate
roundings (whole shares, half-up volume, four places half to even) are in `Rounding`. Dictionaries that
the source iterates are visited in an arbitrary order, so results about sums hold for every order. Instants
are microseconds, dates are day numbers, and the time zone is an arbitrary non-decreasing map from instants
to Eastern dates on which each session's open and close fall on their own date (`MarketCalendar.Zoned`).

## Where the code and its promises differ

* The aggregate allocation promises the sum of the resolved percentages, leaving out entries that fail
  policy or state lookup. Against what the engine hands out it counts three things more: overrides of
  entries without a policy, percentages that a cycle budget replaces, and entries refused for lack of
  capital. The two sums are equal if and only if these add up to nothing
  (`Allocation.AggregateIsHandedOutIff`); each of the three has an input that shows it.
* "Market hours" and "the next close precedes the next open" are the same only while no session closes
  before it opens, which an early-close table can break: `MarketCalendar.PhaseAgreesIffSessionsOrdered`.
* The frozen snapshot has no approval gate, ignores tiers and cycle budgets, and keeps an override past
  its expiry. `Allocation.SnapshotRefinesEngineIff` states the exact condition, `Interchangeable`, and
  `Allocation.ExpiredOverrideParts` a way to fail it.
* A weekly rebalance compares ISO week numbers without the year. On the weekday calendar that is enough,
  because a replay checks at every session: it rebalances at exactly the first tick of each week
  (`PeriodReplay.WeeklyReplayFollowsWeeks`). It would not be enough for checks a year apart: a new week is
  missed if and only if it begins a whole number of ISO years after the last rebalance's week
  (`RebalanceSchedule.MissesWholeIsoYears`), which is never less than 52 weeks.
* End of day remembers one date only, that of the last job's start. Whatever the order of the polls and
  whenever their jobs start, the due polls alone decide which of them run (`EndOfDay.RunsAtCarryingPolls`).
  When jobs start on their polls' dates, no date runs twice if and only if each date's due polls come one
  after the other (`EndOfDay.NoDateTwiceIff`), as they do in time order. A job that starts past midnight
  makes the next date be skipped, as `EndOfDay.SkippedWeekday` shows; in time order a due date is skipped if
  and only if a due poll of an earlier date that carries records it (`EndOfDay.PastMidnightSkipsIff`).
* The drawdown gate and the risk service's check need no distinct symbols to agree, but they do not agree
  for every cycle list. They agree in every run if and only if the list does not both trade and take a
  portfolio snapshot after a backfill and before the tick's first trading cycle
  (`DrawdownConflict.GateAgreesIff`): such a snapshot marks fresh closes beside stale prices, and the peak
  it leaves behind is in no equity history. Each such list fails at prices of the source's own formula, for
  every jitter (`DrawdownConflict.MixedPricesPart`).

## Model

| member | source | states |
|---|---|---|
| Rounding.HalfUpIsNearest | src/autonomous_trading_platform/accounting/corporate_actions.py:346-365 | volume is rounded to the nearest whole number, ties away from zero |
| Rounding.HalfEvenIsNearest | src/autonomous_trading_platform/runtime/replay_debug.py:985-985 | quantising goes to the nearest tick, ties to the even one |
| Rounding.Quantize4Bounds | src/autonomous_trading_platform/runtime/replay_debug.py:985-985 | an order quantity is within half a share tick of the exact one, and never positive when that is not |
| Book.FillKeepsEquity | src/autonomous_trading_platform/runtime/replay_debug.py:988-1024 | a fill at the price the position is marked at leaves equity unchanged, for buys, partial sales and full sales |
| Book.FillRealizes | src/autonomous_trading_platform/runtime/replay_debug.py:988-1024 | one fill changes cash plus cost basis by sold quantity times (price less average cost), and by nothing on a buy |
| Book.CostIdentity | src/autonomous_trading_platform/runtime/replay_debug.py:988-1024 | over any fill sequence cash plus cost basis moves only by what the sales realised |
| Book.CashIsStrategyFlows | src/autonomous_trading_platform/runtime/replay_debug.py:988-1024 | when every fill names its strategy, cash less the strategies' flows never changes |
| Book.AverageCostBetweenBuys | src/autonomous_trading_platform/runtime/replay_debug.py:988-1024 | a symbol is held exactly when it was bought since it last closed, and its average cost lies between the lowest and highest of those buy prices |
| Book.Replay | src/autonomous_trading_platform/runtime/replay_debug.py:988-1024 | after any fills, positions and average costs have the same keys and every held quantity is positive |
| Orders.OrderLoopKeepsEquity | src/autonomous_trading_platform/runtime/replay_debug.py:738-815 | whatever mix of buys, sales, blocks and skips the order loop makes, the mark after it equals the mark before it |
| Orders.BlockedGatePlacesNoOrders | src/autonomous_trading_platform/runtime/replay_debug.py:762-764 | a blocked portfolio gate stops every order and leaves strategy peaks and breaches alone |
| Orders.OrderFollowsDecision | src/autonomous_trading_platform/runtime/replay_debug.py:738-813 | a recorded order is of the pass's symbol at its price, credited to the strategy the symbol is assigned to round robin; it is a sale exactly on every seventh tick for a held symbol, and then of the whole position; and a buy is of the notional up to half a share tick |
| Orders.StrategyGate | src/autonomous_trading_platform/runtime/replay_debug.py:766-811 | a strategy's peak becomes the larger of peak and equity, it breaches exactly when equity has fallen from a positive peak by the limit's share (always, for a limit that is not positive), and an order is placed exactly when it has not and a positive quantity is wanted |
| Orders.SizedIsLargestAllowed | src/autonomous_trading_platform/runtime/replay_debug.py:971-982 | the sized amount is the largest one within the strategy cap at the risk tolerance (half, whole or one and a half), the whole share, the override's percentage and the override's amount, each of the larger of mark and starting cash |
| Orders.NotionalWithinLimits | src/autonomous_trading_platform/runtime/replay_debug.py:971-985 | an amount is at most the notional if and only if it is within the cash and, divided by the volatility scalar, within every limit; a scalar of at most one keeps a positive notional within the limits |
| Orders.OverrideIsFirstActive | src/autonomous_trading_platform/runtime/replay_debug.py:1263-1267 | the override in force is the first active row of the strategy, and there is none exactly when no row of it is active |
| Orders.StrategiesTraded | src/autonomous_trading_platform/runtime/replay_debug.py:1257-1260 | the strategies traded are those of the enabled controls in their order, and the baseline alone when none is enabled |
| Orders.TickSpendIsBounded | src/autonomous_trading_platform/runtime/replay_debug.py:738-813 | the buys of one tick together spend at most the larger of mark and starting cash, plus the rounding allowance |
| Orders.AuditedReplays | src/autonomous_trading_platform/runtime/replay_debug.py:802-813 | a book that its fill record accounts for is the replay of that record, every fill being of one of the configuration's symbols and credited to the strategy that symbol is assigned to |
| Orders.OrderLoopAccounted | src/autonomous_trading_platform/runtime/replay_debug.py:738-813 | the order loop records every fill it makes, and the record explains the book, each buy having been affordable when made and each sale of all that was held |
| Orders.CashFloor | src/autonomous_trading_platform/runtime/replay_debug.py:971-985 | cash never falls below minus half a share tick at the highest fill price so far |
| Orders.BuysNeedCash | src/autonomous_trading_platform/runtime/replay_debug.py:983-985 | every recorded buy was made out of positive cash |
| Orders.StrategiesDecomposePortfolio | src/autonomous_trading_platform/runtime/replay_debug.py:735-781 | for distinct symbols and strategies, the strategies' equities (share of starting cash, flows, assigned positions) add up to the portfolio's mark |
| Trading.PricesForTick | src/autonomous_trading_platform/runtime/replay_debug.py:905-913 | exactly the run's symbols are priced, every price is positive, and a usable persisted close is the price |
| Trading.ExpansionOfOne | src/autonomous_trading_platform/runtime/replay_debug.py:436-448 | the full day stands for its five cycles in order, ingestion for a backfill, a blank for nothing, and any other name for itself |
| Trading.ExpansionsJoin | src/autonomous_trading_platform/runtime/replay_debug.py:436-448 | cycle names are expanded one after the other, in order |
| Trading.CyclesRebalanceOnce | src/autonomous_trading_platform/runtime/replay_debug.py:846-874 | however often a tick checks, it rebalances at most once, and no other cycle touches the remembered date |
| Trading.RunRebalances | src/autonomous_trading_platform/runtime/replay_debug.py:846-874 | over a run the remembered date is the one that a check per tick would remember, whatever trading does |
| Trading.RunAccounted | src/autonomous_trading_platform/runtime/replay_debug.py:358-385 | in every reachable state, for any cycles in any order, the book is what the recorded fills make of the starting cash |
| Trading.RunKeepsTheBooks | src/autonomous_trading_platform/runtime/replay_debug.py:677-843 | in every reachable state cash is starting cash plus strategy flows, cash has its floor, and strategy equities add up to the mark |
| Trading.RunExplainsCosts | src/autonomous_trading_platform/runtime/replay_debug.py:988-1024 | in every reachable state cash plus cost basis is starting cash plus realised sales, and average costs lie between the open buys' prices |
| StrategyBooks.RunCreditsStrategies | src/autonomous_trading_platform/runtime/replay_debug.py:766-813 | in every reachable state, for distinct symbols, a strategy is credited with exactly the signed cash of the fills of the symbols assigned to it by index modulo the number of strategies, and its equity is the mark of the book those fills make of its share of the starting cash |
| TradingRules.SwitchesStopTrading | src/autonomous_trading_platform/runtime/replay_debug.py:677-688 | a kill switch, a pause or trading not enabled changes nothing but one blocked risk row, whose reason is the first of the three |
| TradingRules.SwitchedOffRunNeverTrades | src/autonomous_trading_platform/runtime/replay_debug.py:677-688 | a run that is switched off keeps its starting cash and records no fill, whatever its cycles |
| TradingRules.TradingIsTheOrderLoop | src/autonomous_trading_platform/runtime/replay_debug.py:689-830 | a trading cycle is the order loop at the tick's prices, the tick's number, the mark before the orders and the volatility scalar of the history that mark ends, blocked exactly when that mark has fallen by the limit; its risk row is blocked exactly when it has a reason, and names the portfolio's fall, a strategy's, or both |
| TradingRules.BreachIffFallen | src/autonomous_trading_platform/runtime/replay_debug.py:766-800 | the strategies in breach after the loop are exactly those that had fallen, at one of its passes, by the strategy limit from the larger of kept peak and equity |
| TradingRules.DrawdownStopsOrders | src/autonomous_trading_platform/runtime/replay_debug.py:700-764 | when the opening mark has fallen by the drawdown limit from the peak that includes it, a trading cycle leaves book, fills and strategy peaks as they are |
| TradingRules.RunStopsOnDrawdown | src/autonomous_trading_platform/runtime/replay_debug.py:692-764 | over every run of a cycle list that does not snapshot mixed prices, once the mark has fallen by the limit from the highest mark of the history, a trading cycle places no order |
| TradingRules.TradingSpendIsBounded | src/autonomous_trading_platform/runtime/replay_debug.py:738-813 | the buys of a trading cycle spend at most the larger of its opening mark and the starting cash, plus the rounding allowance |
| TradingRules.RunFillsAreRight | src/autonomous_trading_platform/runtime/replay_debug.py:738-813 | over every run, ticks are numbered from one, the record only grows, and every fill of a tick is of a symbol at the close or else the synthetic price, credited round robin, and a sale exactly when the tick's number is a multiple of seven and the earlier fills left the symbol held, then of all of it |
| DrawdownGate.FullRuntimeDayDoesNotMixPrices | src/autonomous_trading_platform/runtime/replay_debug.py:132-138 | the default day takes no portfolio snapshot between a backfill and the tick's first trading cycle |
| DrawdownGate.TradingClosesAtItsOpeningMark | src/autonomous_trading_platform/runtime/replay_debug.py:692-816 | a trading cycle's closing mark is its opening mark, so its second peak update never raises the peak |
| DrawdownGate.GateIsBreach | src/autonomous_trading_platform/runtime/replay_debug.py:700-705 | at a positive peak the replay's test and the risk service's test on the history are the same |
| DrawdownGate.DrawdownComputationsAgree | src/autonomous_trading_platform/runtime/replay_debug.py:692-714 | over every run of a cycle list that does not snapshot mixed prices, the kept peak is the maximum of the equity history, gate and risk service agree at every trading tick, and only the first blocked tick raises an alert |
| DrawdownConflict.RunIsPossible | src/autonomous_trading_platform/runtime/replay_debug.py:940-947 | for every seed's jitter, the conflicting run's synthetic prices are those of the source's formula at its two ticks, and the ticks are traded at them |
| DrawdownConflict.MixedPricesPart | src/autonomous_trading_platform/runtime/replay_debug.py:1135-1152 | every other cycle list has, for every seed's jitter, such a run of two ticks in which the gate blocks on a peak that no trading tick saw, while the risk service's history shows no fall |
| DrawdownConflict.GateAgreesIff | src/autonomous_trading_platform/runtime/replay_debug.py:692-714 | for any cycle list, gate and risk service agree in every run of every configuration if and only if the list does not snapshot mixed prices; if it does, every seed has a run at the source's own prices in which they part |
| DrawdownGate.AlertsCount | src/autonomous_trading_platform/runtime/replay_debug.py:709-714 | up to any trading tick there has been one alert if some tick blocked, and none otherwise |
| DrawdownGate.OneAlertPerRun | src/autonomous_trading_platform/runtime/replay_debug.py:1206-1232 | with the default day and alerts enabled a run raises one drawdown alert if the gate ever blocks, and none otherwise |
| RiskAlerts.CheckSectors | src/autonomous_trading_platform/risk/risk_alert_service.py:224-256 | the sector alerts are exactly the graded breaches of the sectors' weights, one a sector, in any order of the sectors |
| RiskAlerts.Evaluate | src/autonomous_trading_platform/risk/risk_alert_service.py:110-351 | an alert is raised if and only if its measured quantity (gross over capital, largest strategy weight, a sector's weight, fall from the curve's maximum over that maximum, volatility, correlation) reaches its limit, critical when that is the critical limit and a warning when it is the warning limit only; no two alerts are of one kind or one sector; and the checks' alerts come in order |
| RiskAlerts.EvaluateDrawdownBreach | src/autonomous_trading_platform/runtime/replay_debug.py:1206-1232 | with an empty snapshot and both thresholds at the limit, the whole evaluation asks the drawdown question only |
| ReplayRunner.ReplayExecutionState.constructor | src/autonomous_trading_platform/runtime/replay_debug.py:218-233 | a fresh state holds the starting cash only |
| ReplayRunner.ReplayExecutionState.FillOrder | src/autonomous_trading_platform/runtime/replay_debug.py:988-1024 | the update in place makes of the book what the fill rule says, and touches no other field |
| ReplayRunner.ReplayExecutionState.MarkToMarket | src/autonomous_trading_platform/runtime/replay_debug.py:1244-1248 | the loop over the positions, in any order, gives cash plus every position at this tick's price, else the last known one |
| ReplayRunner.ReplayCycleContext.RunMarketDataCheck | src/autonomous_trading_platform/runtime/replay_debug.py:657-666 | the persisted closes enter the known prices and nothing else changes |
| ReplayRunner.ReplayCycleContext.OpenTick | src/autonomous_trading_platform/runtime/replay_debug.py:692-714 | the opening mark enters peak and history before the gate is asked, and the alert flag is set exactly when alerts were raised |
| ReplayRunner.ReplayCycleContext.RaiseDrawdownAlerts | src/autonomous_trading_platform/runtime/replay_debug.py:706-714 | the risk service is asked at most until it first answers |
| ReplayRunner.ReplayCycleContext.RunOrder | src/autonomous_trading_platform/runtime/replay_debug.py:738-813 | one pass of the loop body is one step of the desk: gate, strategy gate, size, fill and record; what a step does is stated by Orders.StrategyGate, Orders.OrderFollowsDecision and Orders.NotionalWithinLimits |
| ReplayRunner.ReplayCycleContext.RunOrders | src/autonomous_trading_platform/runtime/replay_debug.py:738-813 | the loop over the symbols is the fold of those steps |
| ReplayRunner.ReplayCycleContext.RunTrading | src/autonomous_trading_platform/runtime/replay_debug.py:677-843 | the whole trading handler, switched-off branches included, takes the ledger where the state machine does; when it stops, sells and buys, and for whom, is stated by TradingRules |
| ReplayRunner.ReplayCycleContext.RunRebalanceCheck | src/autonomous_trading_platform/runtime/replay_debug.py:846-874 | the handler remembers today's date exactly when a rebalance is due |
| ReplayRunner.ReplayCycleContext.WriteCashSnapshot | src/autonomous_trading_platform/runtime/replay_debug.py:1135-1152 | the snapshot marks the book at the last known prices into latest equity and peak |
| ReplayRunner.ReplayCycleContext.RunAllCycles | src/autonomous_trading_platform/runtime/replay_debug.py:383-384 | one tick applies the planned cycles in order |
| ReplayRunner.ReplayCycleContext.Dispatch | src/autonomous_trading_platform/runtime/replay_debug.py:377-384 | one dispatched tick is remembered and counted, and keeps the ledger equal to the state machine's run over all ticks dispatched so far |
| ReplayRunner.ReplayCycleContext.RunDay | src/autonomous_trading_platform/runtime/replay_debug.py:368-385 | one session dispatches the calendar's ticks of that day up to the cap, each one new |
| ReplayRunner.ReplayCycleContext.RunReplay | src/autonomous_trading_platform/runtime/replay_debug.py:358-366 | the dispatched ticks are the calendar's schedule up to the cap, and the ledger is the state machine's run over them |
| ReplayRunner.NextOfDay | src/autonomous_trading_platform/runtime/replay_debug.py:368-385 | a session's next tick has never been dispatched before, so the guard on seen ticks never fires |
| ReplayRunner.OpeningSnapshotChangesNothing | src/autonomous_trading_platform/runtime/replay_debug.py:338-339 | the snapshot before the first tick leaves the opening state as it is |
| ReplayRunner.Replay | src/autonomous_trading_platform/runtime/replay_debug.py:296-339 | a whole replay terminates, dispatches exactly the scheduled ticks and leaves the state machine's ledger |
| ReplayRunner.RebalancesAtFirstTickOfPeriod | src/autonomous_trading_platform/runtime/replay_debug.py:846-874 | over dispatched ticks whose dates do not run backwards, the remembered rebalance date changes exactly at the first tick of each period |
| ReplayRunner.ReplayRebalances | src/autonomous_trading_platform/runtime/replay_debug.py:358-385 | a replay rebalances exactly at the first of its scheduled ticks in each period |
| PeriodReplay.WeeklyReplayFollowsWeeks | src/autonomous_trading_platform/runtime/replay_debug.py:857-858 | a replay of the weekday calendar, no session closing before it opens, that rebalances weekly does so at exactly the first of its ticks in each Monday-to-Sunday week, for any dates, positive cadence and cap |
| PeriodReplay.MonthlyReplayFollowsMonths | src/autonomous_trading_platform/runtime/replay_debug.py:859-863 | on any calendar a replay that rebalances monthly does so at exactly the first of its ticks in each month of each year |
| PeriodReplay.TicksAreClose | src/autonomous_trading_platform/runtime/replay_debug.py:368-385 | consecutive ticks of a weekday schedule are at most a weekend apart |
| PeriodReplay.WeeklyReplayIff | src/autonomous_trading_platform/runtime/replay_debug.py:857-858 | on any calendar, a weekly replay rebalances at a tick exactly when a new week has begun since the tick before, if and only if that week is not one the ISO numbers miss |
| DrawdownMetrics.RunningMaxIsMax | visualization/metrics.py:75-78 | the running peak bounds every earlier point and is one of them |
| DrawdownMetrics.OnePassIsWorstPair | visualization/metrics.py:86-136 | on a curve that never goes below zero and is not zero throughout, the reported drawdown is the worst relative loss over all pairs of points in time order that start above zero, and the reported peak and trough are such a pair |
| DrawdownMetrics.PeakAndRecoveryBracketTheTrough | visualization/metrics.py:86-136 | whenever there is a trough at all, the peak is the last point at the running maximum before it, recovery the first return to that level, reported exactly when there is one |
| DrawdownMetrics.ShortCurvesHaveNoDrawdown | visualization/metrics.py:100-109 | a trough is missing exactly for curves of fewer than two points, which have no drawdown and count as recovered, or where no drawdown is a number |
| DrawdownMetrics.FirstMin | visualization/metrics.py:86-136 | the trough is the earliest of the deepest drawdowns, skipping those that are not a number, and missing only when all are |
| DrawdownMetrics.MaxDrawdownDuration | visualization/synthetic.py:338-347 | the loop returns the length of the longest contiguous stretch of negative values |
| DrawdownMetrics.NegativeIsUnderWater | visualization/synthetic.py:201-205 | a drawdown is negative exactly at points below an earlier one, lies between minus one and zero, is minus one exactly at a total loss, and is not a number exactly before the curve first leaves zero |
| CorporateActions.SplitBalances | src/autonomous_trading_platform/accounting/corporate_actions.py:132-175 | one split: whole and fractional shares together are the old ones times the ratio, the fraction less than a share, cost per share divided by the ratio, the fraction paid at the given price or else at its cost, and what is realised is that pay less its cost |
| CorporateActions.ActionReportsItsFraction | src/autonomous_trading_platform/accounting/corporate_actions.py:185-237 | an applied split reports the fraction it could not hold, and a dividend pays its amount on every share and changes neither quantity nor cost |
| CorporateActions.NoInventedPnl | src/autonomous_trading_platform/accounting/corporate_actions.py:185-237 | over any applicable actions cash less realised profit plus cost of the holding is constant; splits without an in-lieu price realise nothing |
| CorporateActions.SequenceAppliesIff | src/autonomous_trading_platform/accounting/corporate_actions.py:92-237 | a sequence of actions goes through on a long position if and only if every one of them is applicable |
| CorporateActions.FairActionsKeepMarketValue | src/autonomous_trading_platform/accounting/corporate_actions.py:132-253 | over any applicable actions, each split's remainder paid at the starting price times the cumulative factor so far, cash plus quantity at the cumulative price grows by the dividends alone, and is constant over splits |
| CorporateActions.FairSplitKeepsMarketValue | src/autonomous_trading_platform/accounting/corporate_actions.py:132-175 | for one split: paying the remainder at the pre-split price times the split's factor leaves market value unchanged |
| CorporateActions.SharesConserved | src/autonomous_trading_platform/accounting/corporate_actions.py:132-175 | starting shares at all ratios are the final shares plus each remainder at the later ratios, every remainder less than a share |
| CorporateActions.SplitsLeaveWholeShares | src/autonomous_trading_platform/accounting/corporate_actions.py:154-175 | once a split is among the applied actions only whole shares are held |
| CorporateActions.ComputeSplitFactorBefore | src/autonomous_trading_platform/accounting/corporate_actions.py:240-253 | the loop's cumulative price factor over a list of actions |
| CorporateActions.FactorIsReciprocal | src/autonomous_trading_platform/accounting/corporate_actions.py:240-253 | the cumulative price factor is the reciprocal of the cumulative share ratio |
| CorporateActions.CostFollowsPriceFactor | src/autonomous_trading_platform/accounting/corporate_actions.py:240-253 | after any applicable actions the average cost is the starting one times the cumulative price factor, so books and adjusted prices agree |
| SplitAdjustment.ComputeSplitFactorFor | src/autonomous_trading_platform/accounting/corporate_actions.py:330-343 | the loop's factor from a bar's date to another date |
| SplitAdjustment.FactorsTelescope | src/autonomous_trading_platform/accounting/corporate_actions.py:330-343 | the factor from a to c is the factor from a to b times the factor from b to c |
| SplitAdjustment.FactorIgnoresOrder | src/autonomous_trading_platform/accounting/corporate_actions.py:330-343 | any permutation of the splits gives the same factor |
| SplitAdjustment.AdjustBarsForSplits | src/autonomous_trading_platform/accounting/corporate_actions.py:368-384 | despite its filter and early return, each bar comes out as every split considered would make it, which SplitAdjustment.ReexpressedIsScaled spells out |
| SplitAdjustment.ReexpressedIsScaled | src/autonomous_trading_platform/accounting/corporate_actions.py:346-365 | each price, the volume-weighted one included, and the adjustment factor are the raw ones times the split factor, volume is within one half of the raw volume over it, the basis is adjusted exactly when the factor is not one, and all else stays |
| SplitAdjustment.OneSplitDividesPrices | src/autonomous_trading_platform/accounting/corporate_actions.py:330-365 | with one split in the window the raw prices and factor are the adjusted ones times its ratio, and volume is multiplied by it, up to one half |
| SplitAdjustment.NoLookahead | src/autonomous_trading_platform/accounting/corporate_actions.py:368-384 | histories that agree up to the as-of date re-express every bar alike |
| SplitAdjustment.FutureSplitsDoNotMatter | src/autonomous_trading_platform/accounting/corporate_actions.py:368-384 | adding or removing a split dated after the as-of date anywhere in the list changes no bar |
| SplitAdjustment.AdjustedBarStaysOrdered | src/autonomous_trading_platform/accounting/corporate_actions.py:346-365 | low stays at or below open and close, and high at or above them |
| SplitAdjustment.DollarVolumeMovesByHalfAPrice | src/autonomous_trading_platform/accounting/corporate_actions.py:346-365 | for open, high, low, close and the volume-weighted price alike, price times volume moves by at most half the adjusted price |
| SplitAdjustment.FactorTracksPrices | src/autonomous_trading_platform/accounting/corporate_actions.py:346-365 | every price, volume-weighted price included, keeps its ratio to the bar's adjustment factor |
| SplitAdjustment.TwoStepsGiveTheSamePrices | src/autonomous_trading_platform/accounting/corporate_actions.py:346-365 | re-expressing prices through an intermediate date equals one step |
| SplitAdjustment.StaticSplitSource.constructor | src/autonomous_trading_platform/accounting/corporate_actions.py:272-283 | from a list or a dictionary of lists, grouping by upper-cased symbol keeps each symbol's actions, complete and in order, whatever upper-casing does |
| SplitAdjustment.FlattenedJoins | src/autonomous_trading_platform/accounting/corporate_actions.py:272-283 | a dictionary's lists are taken one after the other, in its order |
| SplitAdjustment.SelectedActions | src/autonomous_trading_platform/accounting/corporate_actions.py:272-290 | the actions of a symbol are all those with its upper-case form, as often as given, and a window's splits all the usable ones dated in it, both ends included |
| SplitAdjustment.SourceSuffices | src/autonomous_trading_platform/accounting/corporate_actions.py:285-290 | adjusting a bar with the splits the source returns for its symbol, from the oldest bar's date to the as-of date, is re-expressing it over every action the source was given for that symbol |
| Gregorian.DaysBeforeYearClosedForm | src/autonomous_trading_platform/runtime/clock.py:122-131 | counting leap years one by one gives the usual closed form of day numbers |
| Gregorian.FromOrdinalOfOrdinal | src/autonomous_trading_platform/runtime/clock.py:122-131 | dates and day numbers correspond one to one: a date's number leads back to it |
| Gregorian.OrdinalOfFromOrdinal | src/autonomous_trading_platform/runtime/clock.py:122-131 | a day number's date leads back to it |
| Gregorian.MonthEndIsLastDay | src/autonomous_trading_platform/runtime/clock.py:127-127 | going to the 28th, four days on, back to the first and one day back is the month's last day, for every month of every year |
| MarketCalendar.NextSessionOpen | src/autonomous_trading_platform/runtime/clock.py:152-161 | the loop of fourteen candidates returns the first later open among them, or nothing |
| MarketCalendar.NextSessionClose | src/autonomous_trading_platform/runtime/clock.py:163-172 | the same for closes |
| MarketCalendar.SearchFindsLeast | src/autonomous_trading_platform/runtime/clock.py:152-172 | for any trading days, what a search finds is the least boundary after now over all days, and it fails only if all the days tried are past |
| MarketCalendar.WeekdayNextSessions | src/autonomous_trading_platform/runtime/clock.py:152-172 | on the weekday calendar both searches always succeed with the least open and close strictly after now |
| MarketCalendar.PhaseAgreesIffSessionsOrdered | src/autonomous_trading_platform/runtime/clock.py:271-281 | on the weekday calendar, market hours means that the next close precedes the next open at every instant if and only if no session closes before it opens |
| MarketCalendar.WeekHasOneFirstTradingDay | src/autonomous_trading_platform/runtime/clock.py:114-120 | for any trading days, a week with a session has exactly one first trading day, its earliest |
| MarketCalendar.MonthHasOneLastTradingDay | src/autonomous_trading_platform/runtime/clock.py:122-131 | for any trading days, a month with a session has exactly one last trading day, its latest |
| SessionSafety.DelayReachesNextOpen | src/autonomous_trading_platform/runtime/clock.py:283-294 | the advised wait never passes the next open and stops short of it by less than a second |
| SessionSafety.NoOpenIsSleptThrough | src/autonomous_trading_platform/scheduler/session_safety.py:24-67 | no session opens strictly between now and the advised wake-up |
| SessionSafety.WaitOnAnyCalendar | src/autonomous_trading_platform/runtime/clock.py:283-294 | on any calendar the wait is the whole seconds to the next open if there is one within fourteen days, else nothing if there is a session in them, else a day |
| SessionSafety.ReasonNamesTheOpen | src/autonomous_trading_platform/scheduler/session_safety.py:24-67 | on the weekday calendar the pre-market wait ends at today's open, the wait after the close and the weekend skip at a later date's, no weekday is called a holiday, and the catch-all reason is exactly a disallowed session in progress |
| EndOfDay.Runner.PollOnce | src/autonomous_trading_platform/cli/commands/runtime_soak_loop.py:155-185 | an eligible poll whose job finishes is a run and records the date of the job's own start; a taken lock, an interruption or a failure records nothing |
| EndOfDay.Runner.PollAll | src/autonomous_trading_platform/cli/commands/runtime_soak_loop.py:315-317 | a list of polls is the fold of single polls |
| EndOfDay.RunsAtCarryingPolls | src/autonomous_trading_platform/cli/commands/runtime_soak_loop.py:155-185 | for polls in any order and jobs starting at any time, which due polls run and what is recorded follows from the due polls alone: one runs exactly when its date is not what its predecessor recorded if that ran, and not its predecessor's date if not |
| EndOfDay.RunsAtDateChanges | src/autonomous_trading_platform/runtime/clock.py:299-315 | when jobs start on their polls' dates, the recorded date is that of the last due poll and the job runs at exactly the due polls whose predecessor among the due polls has another date |
| EndOfDay.NoDateTwiceIff | src/autonomous_trading_platform/runtime/clock.py:299-315 | for any polls and starts, a date runs if and only if one of its due polls carries, and no date runs twice if and only if no two of a date do; when jobs start on their polls' dates that is, if and only if it is due at some poll, and if and only if each date's due polls come one after the other |
| EndOfDay.EndOfDayRunsExactlyOnce | src/autonomous_trading_platform/runtime/clock.py:299-315 | in time order, late starts included, no date runs twice, a date runs if and only if it is due at some poll and no late job has recorded it, and always after both close and window |
| EndOfDay.PastMidnightSkipsIff | src/autonomous_trading_platform/cli/commands/runtime_soak_loop.py:155-185 | whenever the dates of polls and starts are in turn, no date runs twice, and a date runs if and only if it is due and no carrying due poll of an earlier date records it |
| EndOfDay.LateJobSkipsNextDate | src/autonomous_trading_platform/cli/commands/runtime_soak_loop.py:164-185 | two due polls on two dates, the first one's job recording the second date: that date is due and never runs |
| EndOfDay.SkippedWeekday | src/autonomous_trading_platform/cli/commands/runtime_soak_loop.py:164-185 | such polls exist on the weekday calendar: a poll just before midnight makes the next weekday be skipped although it is due at six |
| EndOfDay.ClockGoingBackRunsTwice | src/autonomous_trading_platform/runtime/clock.py:315-315 | with a clock that goes back to a date recorded before another one, that date runs again |
| TickSchedule.ScheduledTimes | src/autonomous_trading_platform/runtime/clock.py:249-269 | the generator terminates and yields the sessions' ticks up to the cap |
| TickSchedule.CappedAreFirst | src/autonomous_trading_platform/runtime/clock.py:249-269 | a cap keeps the earliest ticks, as many as it allows, and none when it is not positive |
| TickSchedule.TicksAreExactly | src/autonomous_trading_platform/runtime/clock.py:249-269 | the ticks are exactly the instants open + k * interval up to the close of the sessions in range, each once, in time order |
| TickSchedule.EveryTickIsScheduled | src/autonomous_trading_platform/runtime/clock.py:249-269 | no such instant is missed |
| TickSchedule.TicksInOrder | src/autonomous_trading_platform/runtime/clock.py:249-269 | ticks strictly increase across sessions and stay within the asked dates |
| RebalanceSchedule.RebalancesAtPeriodChanges | src/autonomous_trading_platform/runtime/replay_debug.py:846-874 | although a check compares with the last rebalance, for days in order it rebalances exactly when the period differs from the previous check's |
| Gregorian.IsoYearsAddUp | src/autonomous_trading_platform/runtime/replay_debug.py:857-858 | the first weeks of two ISO years are as many weeks apart as the years between have, 53 for those that start on a Thursday or are leap and start on a Wednesday, else 52 |
| RebalanceSchedule.MissesWholeIsoYears | src/autonomous_trading_platform/runtime/replay_debug.py:857-858 | for checks any time apart, a new calendar week has the number of the last rebalance's week if and only if it begins as many weeks later as the ISO years between the two have |
| RebalanceSchedule.WeeklyFollowsCalendarWeeksIff | src/autonomous_trading_platform/runtime/replay_debug.py:857-858 | for checks on any days in order, a weekly check rebalances exactly when a new calendar week has begun since the previous one, if and only if that week is not so numbered; below 52 weeks none is |
| RebalanceSchedule.WeeklyMissesSameNumberedWeek | src/autonomous_trading_platform/runtime/replay_debug.py:857-858 | the bound is sharp: checks exactly 52 weeks apart with none between, which only a calendar without sessions between makes, are taken for one week (Mondays 2024-01-08 and 2025-01-06) |
| Allocation.AllocationPrecedence | src/autonomous_trading_platform/portfolio/portfolio_engine.py:71-155 | a strategy is refused for its state, for want of a policy (its tier's own, else the untiered one), or when its percentage exceeds the capital; otherwise the percentage is the cycle budget's before the override's before the policy's, and dollar and drawdown limits are the override's where it sets them and the policy's where not, an override counting until it expires |
| Allocation.PortfolioEngine.GetAllocationsForMany | src/autonomous_trading_platform/portfolio/portfolio_engine.py:157-172 | the loop's batch result, its early failure included |
| Allocation.BatchFailsIff | src/autonomous_trading_platform/portfolio/portfolio_engine.py:157-172 | a batch fails exactly when some request exceeds the capital |
| Allocation.BatchHoldsLastGranted | src/autonomous_trading_platform/portfolio/portfolio_engine.py:157-172 | otherwise it holds for each strategy the answer to its last granted request, and nothing for a strategy with none |
| Allocation.PortfolioEngine.GetAggregateAllocationPct | src/autonomous_trading_platform/portfolio/portfolio_engine.py:325-364 | the loop's sum over the entries, with proposed percentages in place |
| Allocation.WhatIfEqualsActual | src/autonomous_trading_platform/portfolio/portfolio_engine.py:340-364 | the aggregate with proposed percentages equals the aggregate after they are stored as overrides |
| Allocation.AggregateIsHandedOutAndCorrected | src/autonomous_trading_platform/portfolio/portfolio_engine.py:325-364 | for every engine and batch the aggregate is what the engine hands out plus overrides without a policy, what budgets take away, and entries refused for lack of capital |
| Allocation.AggregateIsHandedOutIff | src/autonomous_trading_platform/portfolio/portfolio_engine.py:325-364 | the aggregate is what the engine hands out if and only if those three kinds add up to nothing |
| Allocation.AggregateCountsPhantoms | src/autonomous_trading_platform/portfolio/portfolio_engine.py:349-364 | an override without any policy is counted although nothing is handed out |
| Allocation.AggregateIgnoresBudgets | src/autonomous_trading_platform/portfolio/portfolio_engine.py:349-364 | a policy's percentage is counted in full under a smaller budget |
| Allocation.AggregateCountsRefusals | src/autonomous_trading_platform/portfolio/portfolio_engine.py:349-364 | a policy of more than the capital is counted although it is refused |
| Allocation.SnapshotAllocationConfig | src/autonomous_trading_platform/portfolio/simulation_allocation_provider.py:276-390 | exactly the given strategies are captured, each under the first allocatable status with an untiered policy, else the defaults |
| Allocation.CapturePrecedence | src/autonomous_trading_platform/portfolio/simulation_allocation_provider.py:276-390 | a captured figure is the override's where it sets it, else that of the untiered policy of the first of candidates, paper and live that has one, else the default |
| Allocation.UncapturedGetDefaults | src/autonomous_trading_platform/portfolio/simulation_allocation_provider.py:219-273 | a strategy that was not captured gets the defaults, and one without a status counts as a candidate |
| Allocation.SnapshotRefinesEngineIff | src/autonomous_trading_platform/portfolio/simulation_allocation_provider.py:219-273 | after any equal capital updates, provider and engine give the same percentage, limits, policy, override and dollars if and only if they are interchangeable |
| Allocation.ExpiredOverrideParts | src/autonomous_trading_platform/portfolio/simulation_allocation_provider.py:219-273 | an override that expires between capture and question always parts them: the snapshot still applies it, the engine does not |
| Allocation.SnapshotOutlivesOverride | src/autonomous_trading_platform/portfolio/simulation_allocation_provider.py:219-273 | such a capture: a tenth from the snapshot, a half from the engine |
| AllocationArtifact.BeforeIsLexicographic | src/autonomous_trading_platform/portfolio/simulation_allocation_provider.py:139-169 | the order of the hashed entries is the lexicographic one of their ids: a proper beginning first, else the smaller character at the first difference |
| AllocationArtifact.PayloadIffSameBehaviour | src/autonomous_trading_platform/portfolio/simulation_allocation_provider.py:139-169 | two snapshots have one hashed payload exactly when entries, defaults and schema agree, in any capture order and whatever the capital or author |
| AllocationArtifact.PayloadDecidesAllocations | src/autonomous_trading_platform/portfolio/simulation_allocation_provider.py:139-169 | equal payloads give every strategy the same answer at the same capital |
| AllocationArtifact.RestoringKeepsTheSnapshot | src/autonomous_trading_platform/portfolio/simulation_allocation_provider.py:99-136 | saving and restoring keeps hash, payload and answers, and an artifact that lost its hash gets it back |
| AllocationArtifact.MissingKeysTakeDefaults | src/autonomous_trading_platform/portfolio/simulation_allocation_provider.py:116-136 | an artifact without its optional keys is read as an empty snapshot by the default author and schema, with the hash of its payload |
| Grouping.GroupsPartition | src/autonomous_trading_platform/risk/risk_engine.py:118-141 | group totals add up to the whole for any labelling and any order |
| Grouping.ConcentrationBounds | src/autonomous_trading_platform/risk/risk_engine.py:143-149 | n weights summing to one have squares summing to between 1/n and their largest (Cauchy-Schwarz) |
| Exposure.TallyPositions | src/autonomous_trading_platform/risk/risk_engine.py:84-113 | the one pass over the positions, in any order, keeps the totals and every group's sum and count |
| Exposure.Concentration | src/autonomous_trading_platform/risk/risk_engine.py:143-149 | the loop finds the largest weight and the sum of squared weights |
| Exposure.ComputeExposures | src/autonomous_trading_platform/risk/risk_engine.py:68-174 | the snapshot is the order-free one defined by sums over the counted positions; ExposureSums states it over the raw positions |
| Exposure.ExposuresPartition | src/autonomous_trading_platform/risk/risk_engine.py:68-174 | strategies and sectors each add up to the portfolio totals, and sector weights to one when gross is positive |
| Exposure.ConcentrationIsBounded | src/autonomous_trading_platform/risk/risk_engine.py:143-149 | for non-negative prices and positive gross, weights sum to one and 1/n <= HHI <= largest weight <= 1 |
| ExposureSums.ExposuresAreSums | src/autonomous_trading_platform/risk/risk_engine.py:84-116 | net exposure is the sum of quantity times price over everything priced, and gross exposure, for prices that are not negative, the sum of its absolute values |
| ExposureSums.StrategyExposureIsSum | src/autonomous_trading_platform/risk/risk_engine.py:104-132 | a strategy is in the snapshot exactly when one of its symbols is held and priced, and its net, gross and count are the sums over its own symbols |
| ExposureSums.SectorExposureIsSum | src/autonomous_trading_platform/risk/risk_engine.py:112-141 | the same for a sector's gross, and its weight times the total is its gross |
| ExposureSums.ConcentrationIsOfGross | src/autonomous_trading_platform/risk/risk_engine.py:143-149 | the largest weight times the total is the largest gross of any strategy, and the index times the squared total the sum of the squared grosses; both are nothing without gross or strategies |
| Rebalancing.ConfiguredIff | src/autonomous_trading_platform/risk/rebalancing_service.py:55-72 | a service is accepted exactly for some targets, none negative, of at most the whole up to the tolerance, and a threshold strictly between nothing and one |
| Rebalancing.ComputeRebalance | src/autonomous_trading_platform/risk/rebalancing_service.py:75-144 | the loop's report: drifted targets sorted, largest drift over all targets |
| Rebalancing.ReportListsExactlyTheDrifted | src/autonomous_trading_platform/risk/rebalancing_service.py:88-144 | the report is a drift-descending permutation of exactly the strategies at or over the threshold, and trading each one's drift in its action's direction brings it to its target |
| Rebalancing.ReportSaysWhereStrategiesStand | src/autonomous_trading_platform/risk/rebalancing_service.py:88-127 | a target is listed exactly when its strategy's gross exposure is away from the target's part of the total by the threshold's part of it or more, and each line gives the strategy's share, its distance from the target, the direction, and the target's part of the capital |
| Rebalancing.EqualDriftsKeepTheirOrder | src/autonomous_trading_platform/risk/rebalancing_service.py:128-144 | strategies of equal drift keep the targets' order |
| Rebalancing.DriftedIdsDistinct | src/autonomous_trading_platform/risk/rebalancing_service.py:88-127 | no strategy is listed twice |
| Rebalancing.HeadIsMaxDrift | src/autonomous_trading_platform/risk/rebalancing_service.py:88-144 | the report is empty exactly when the largest drift is below the threshold, and otherwise headed by it |
| Rebalancing.SuggestedCapitalIsBounded | src/autonomous_trading_platform/risk/rebalancing_service.py:55-144 | for accepted targets and non-negative capital the suggestions total at most capital times (1 + 1e-9) |

## Left out

- Sessions, repositories, job records, snapshot rows' other columns, counters, warnings and the run summary: input and output around the ledger. Repositories are dictionaries of their active rows (policies by status and tier, at most one override a strategy that has not been deactivated).
- Decimal precision and floating-point error: arithmetic is exact apart from the named roundings.
- Time-zone data, the real exchange calendar and its fallbacks: the zone is an arbitrary non-decreasing map, trading days an arbitrary predicate wherever holidays matter. Dates have no upper end, so month ends in year 9999, where the source overflows, are not special, and ISO weeks start at the first full week of year 1.
- Volatility targeting: the scalar is an arbitrary function of the equity history; where its range matters it is between nothing and one.
- Synthetic prices and persisted bars: a tick finds arbitrary non-negative closes and synthetic prices of at least one; the random generator behind the jitter is any jitter in its range.
- Cycle names' trimming, lower-casing and the rejection of unknown ones, and the two environment refusals before a replay: each is one branch.
- TickSchedule.ScheduledTimes: assumes a positive interval, with which the source's loop ends; with any other it repeats a session's first tick for ever or until the cap.
- ReplayRunner.Replay: the same, for the cadence.
- Replaced cycle handlers and a handler that raises: the default handlers are modelled, and they do not.
- What the end-of-day chain does inside, and the loop's sleeping and heartbeat.
- Order identifiers, signals and notifications; alert messages and their context beyond peak and current value.
- Curves with negative points, and the error of looking a trough up in a curve that is zero throughout.
- Rounding of the reported drawdown to a percentage, and its calendar-day counts: positions in the curve stand for dates.
- Promotion eligibility and the approval assertion outside allocation: settled by reading one branch.
- SHA-256 and JSON text: the digest is an arbitrary function of the payload.
- Dividend events built for the backtester, and the position-change helpers of adjustments.
