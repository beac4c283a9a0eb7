# APEX trading kernel: verified model

This project models the deterministic kernel of the APEX trading system and proves what it
keeps over whole runs. It has four parts, which share their types and meet in cross-file results.

- **Backtest kernel** (`BacktestTypes`, `SlippageSimulator`, `BacktestEngine`, `Metrics`): the
  bar-by-bar engine with at most one open trade, the cost it charges, and the one-pass statistics
  over its output. A declarative ledger characterises every run; from it follow first-touch exits,
  conservation of capital, absence of look-ahead and the meaning of the reported figures.
- **Decision kernel** (`SignalSchema`, `SignalBus`, `ConflictDetector`, `MasterDecision`,
  `PositionMonitor`, `KillSwitch`): the bus, the weighted vote with its conflict penalty, the
  reversal monitor over successive calls, and the latching kill switch.
- **Risk kernel** (`RiskManager`, `PortfolioManager`): loss breakers, position sizing, and the
  portfolio's concentration limit, over arbitrary histories.
- **Algorithmic loops** (`Supertrend`, `WalkForward`, `SmartRouter`): the ratcheting line, the
  anchored windows with the grid search, and order slicing.

`BacktestBreakers` connects the breakers of the risk kernel with the figures reported for a
backtest. `Common` and `Folds` hold values, sums and counts that several parts use.

Prices, confidences and money are real numbers instead of floats; a pandas frame is a sequence of
bars; a Python dictionary with its insertion order is a sequence of entries with distinct keys. An
exception leaving a call is the value `Raised`. The current date, the lot size and Kelly fraction
from the store, the available funds and the daily-reset setting are parameters. Objects that the
program updates in place are classes whose methods are tied to functions on their state, and the
results about whole runs are about those functions. The bar loop takes its sizing and settlement
rules as a parameter (`Rules`), so that its results hold for any such rules; `RulesOf` gives the
program's own.

## What the proofs show about the code

- `conflict_score` is documented as lying between 0 and 1. The code exceeds 1 exactly when no
  reporting group is neutral and at least two stand on each side; it never exceeds 1.5.
- The engine tests an exit price for truth, so a level of exactly zero never closes a trade: a run
  is given in which a SHORT with stop 0 stays open at its target. The first-touch rule holds for a
  trade exactly when the first bar that touches it has a price other than zero.
- `_supertrend_signal` lets a frame of `period + 1` bars pass its guard and then raises.
- The risk manager's `weekly_pnl` is never reset: it is always the whole change of capital.
- The kill switch's "hourly" loss is never cleared by the clock: it adds up losses, without gains,
  since the last reset.
- The three loss breakers latch exactly for drawdown limits up to 100 percent; for every limit above
  that a history of two losses trips and then lifts them.
- The vote is mirror symmetric except when both sides are strong at once, which happens for
  confidences beyond the schema's range and which signals in range exclude. For such signals the
  strong test never changes the chosen side.
- The concentration test divides by the book without the new position. A book held in one sector
  therefore accepts nothing more of that sector.
- `pnl_pct` ignores the direction of a position: for a SHORT its sign is the opposite of the result's.
- `BacktestConfig.commission_per_lot` and `max_positions` are not read by the engine.

## Model

| member | source | states |
|---|---|---|
| BacktestEngine.Run | trading_system/backtesting/engine.py:54-139 | raises exactly when the bar machine does or trades were made on no capital, and otherwise returns a report on the machine's trades and curve |
| BacktestEngine.RunInNumbers | trading_system/backtesting/engine.py:95-136 | in every completed run the curve is initial capital plus the results realised, each quantity is the largest number of lots the equity at entry covers or one lot, and gross, net and percentage are those of prices and quantity with brokerage of 20 a side, 18% GST, the charges and the configured slippage |
| BacktestEngine.Replay | trading_system/backtesting/engine.py:63-136 | the loop computes the bar machine's final capital, curve, trades and open trade, for any sizing and settlement rules |
| BacktestEngine.RunIffLedger | trading_system/backtesting/engine.py:69-136 | a state is the run's result iff it is a ledger: curve equal to initial capital plus realised results, trades opened by signals at the close, closed at the first ending bar, not overlapping, and no signal skipped while flat |
| BacktestEngine.RunIsLedger | trading_system/backtesting/engine.py:69-136 | every completed run, on any number of bars, is a ledger |
| BacktestEngine.LedgerIsRun | trading_system/backtesting/engine.py:69-136 | whatever satisfies the ledger is the run, so the ledger has one solution and a raising run has none |
| BacktestEngine.StepKeepsLedger | trading_system/backtesting/engine.py:75-136 | one bar, with exit and re-entry, keeps the ledger |
| BacktestEngine.NoLookAhead | trading_system/backtesting/engine.py:69-136 | for a strategy reading only bars 0..i at bar i, the run on the first k bars has exactly the first k equity points and exactly the trades closed before bar k |
| BacktestEngine.RunExtends | trading_system/backtesting/engine.py:113-136 | later bars only append equity points and trades that close at those bars |
| BacktestEngine.ExitsAtFirstTouch | trading_system/backtesting/engine.py:76-114 | in every run a trade closes at the first bar after entry touching stop or target, at the stop when both are touched, and an open trade was never touched, iff the first touch, if any, has a price other than zero |
| BacktestEngine.FirstTouchClosesIff | trading_system/backtesting/engine.py:80-95 | at the first bar touching a trade, closed or open, the trade closes iff that bar's price is not zero |
| BacktestEngine.NonzeroLevelsObeyFirstTouch | trading_system/backtesting/engine.py:76-114 | with a nonzero stop and target the first-touch rule holds |
| BacktestEngine.BarsStayBetweenLevels | trading_system/backtesting/engine.py:76-114 | in prices: with nonzero levels every bar before the exit stays strictly between stop and target, and the exit bar reaches the stop, or else the target |
| BacktestEngine.ZeroStopNeverCloses | trading_system/backtesting/engine.py:87-95 | a run of three bars on which a SHORT with stop 0 reaches its target and stays open |
| BacktestEngine.QuantityIsWholeLots | trading_system/backtesting/engine.py:120-125 | the quantity is a whole number of lots, the largest the budget covers, or exactly one lot when it covers none, for every nonzero close |
| BacktestEngine.WinsBeyondBreakeven | trading_system/backtesting/engine.py:96-111 | a trade's net result is positive iff the price moved its way by more than the breakeven move, and its return has the same sign |
| BacktestEngine.SettlementBalances | trading_system/backtesting/engine.py:96-111 | the return is the net result relative to the entry notional, and opposite trades at the same prices together lose exactly both costs |
| BacktestEngine.SlippageTakesItsShare | trading_system/backtesting/engine.py:98-100 | every extra basis point of configured slippage takes that part of the notional off the net result |
| BacktestEngine.TradesAreSettled | trading_system/backtesting/engine.py:95-113 | every trade of a run carries the figures of the settlement at its exit level and wins exactly beyond breakeven |
| BacktestEngine.GainIsSum | trading_system/backtesting/engine.py:103-136 | final capital is initial capital plus the sum of all net results |
| BacktestEngine.ProfitsExplainReturn | trading_system/backtesting/metrics.py:22-47 | gross profit minus gross loss is the change of capital, and with a loss the profit factor exceeds 1 iff the total return is positive |
| SlippageSimulator.CostIsAffine | trading_system/risk/slippage_simulator.py:37-47 | the total cost is a fixed part plus one rate times the notional |
| SlippageSimulator.CostPartsRecoverTotal | trading_system/risk/slippage_simulator.py:47-63 | each component is its rate of the notional, on both legs where the program doubles it; the components add up to the total and every derived ratio recovers it |
| SlippageSimulator.BreakevenIsExact | trading_system/risk/slippage_simulator.py:60-62 | a favourable move earns more than the cost iff it exceeds the breakeven move |
| Metrics.Calculate | trading_system/backtesting/metrics.py:14-94 | returns the report: each figure meets its definition, and the empty report without trades or curve; raises for trades on no capital |
| Metrics.MaxDrawdown | trading_system/backtesting/metrics.py:29-36 | the one-pass loop returns the largest drop from a running peak |
| Metrics.PeakIsMaximum | trading_system/backtesting/metrics.py:29-33 | the running peak is the maximum of the initial capital and all points so far |
| Metrics.DrawdownIsWorstPair | trading_system/backtesting/metrics.py:29-36 | on a nonnegative curve that is the maximum over all pairs i <= j of the percentage loss from i to j, the initial capital counting as the first point, and lies in [0, 100] |
| Metrics.DrawdownWithinWholeIff | trading_system/backtesting/metrics.py:29-36 | the drawdown lies in [0, 100] iff the curve never falls below zero |
| BacktestEngine.ReportedDrawdownIsWorstPair | trading_system/backtesting/engine.py:63-136 | the drawdown reported for a run with a nonnegative curve is the worst loss between two points of its equity curve |
| Metrics.Streaks | trading_system/backtesting/metrics.py:65-75 | the streak loop returns the longest run of wins and of losses |
| Metrics.ProfitMinusLoss | trading_system/backtesting/metrics.py:45-46 | gross profit and gross loss are the sums of the results above and below zero, and their difference is the sum of all results |
| Metrics.NoLossNoGrossLoss | trading_system/backtesting/metrics.py:46-47 | the gross loss is zero, and the profit factor infinite, iff no result is negative |
| Metrics.WinsAndLossesPartition | trading_system/backtesting/metrics.py:40-44 | wins and losses split the returns in number and in sum |
| Metrics.WinsAndLossesAreReturns | trading_system/backtesting/metrics.py:40-41 | wins and losses together are the returns as a multiset, all wins above zero and no loss |
| SignalSchema.FindIgnoresOrder | trading_system/signals/conflict_detector.py:51-53 | lookups by agent name do not depend on insertion order |
| SignalBus.InterAgentSignalBus.constructor | trading_system/signals/signal_bus.py:19-25 | a new bus is empty |
| SignalBus.InterAgentSignalBus.Publish | trading_system/signals/signal_bus.py:27-40 | stores the signal under its agent's name and appends to the bounded history |
| SignalBus.InterAgentSignalBus.GetSignalSummary | trading_system/signals/signal_bus.py:55-98 | returns counts that add up to the total and, unless the bus is empty, weighted sums |
| SignalBus.InterAgentSignalBus.Clear | trading_system/signals/signal_bus.py:100-101 | empties the map and keeps the history |
| SignalBus.StoreFinds | trading_system/signals/signal_bus.py:30 | after a store the agent's name finds the new signal and every other name what it found before |
| SignalBus.StoreKeepsPlaces | trading_system/signals/signal_bus.py:30 | a store keeps every agent's place in the dictionary and puts a new agent last |
| SignalBus.BusHoldsLatest | trading_system/signals/signal_bus.py:27-53 | after any publications and clears the bus holds for an agent exactly the last signal it published since the last clear |
| SignalBus.HistoryIsRecentTail | trading_system/signals/signal_bus.py:31-40 | the history is always the most recent publications in order, and its length follows a closed form with period 501 beyond 1000 |
| ConflictDetector.GetGroupDirections | trading_system/signals/conflict_detector.py:47-66 | the loops compute each reporting group's direction in group order |
| ConflictDetector.DirectionsAreMajorities | trading_system/signals/conflict_detector.py:50-65 | a group has a direction iff some agent of it has reported, and it is that of the more numerous set of agents with a plain direction |
| ConflictDetector.FindConflicts | trading_system/signals/conflict_detector.py:68-78 | the nested loop lists every opposing pair |
| ConflictDetector.ConflictsAreOpposingPairs | trading_system/signals/conflict_detector.py:72-77 | a pair is listed iff its two groups oppose each other, the earlier named first |
| ConflictDetector.PairCountIsProduct | trading_system/signals/conflict_detector.py:68-78 | the number of pairs is bullish groups times bearish groups |
| ConflictDetector.AnalyzeConflicts | trading_system/signals/conflict_detector.py:24-45 | returns the analysis of the signals |
| ConflictDetector.ScoreInGroups | trading_system/signals/conflict_detector.py:24-45 | the score is bullish groups times bearish groups over the other groups, the penalty 30 percent of it, and the conflict high beyond one half |
| ConflictDetector.ScoreBounds | trading_system/signals/conflict_detector.py:34-37 | the score lies in [0, 1.5], the penalty in [0, 0.45], and the score is zero iff no two groups oppose |
| ConflictDetector.DocumentedRangeHoldsIff | trading_system/signals/conflict_detector.py:31-36 | the documented bound of 1 fails exactly when no reporting group is neutral and at least two stand on each side |
| ConflictDetector.FourGroupsExceedDocumentedRange | trading_system/signals/conflict_detector.py:31-36 | a dictionary of four signals, two bullish and two bearish groups, scores 4/3 |
| ConflictDetector.DirectionsIgnoreOrder | trading_system/signals/conflict_detector.py:47-66 | group directions do not depend on the order of the signals |
| ConflictDetector.AnalysisMirrors | trading_system/signals/conflict_detector.py:34-78 | swapping bullish and bearish directions flips the groups and keeps conflicts, score and penalty |
| PositionMonitor.MasterDecisionMakerAgent.WeighVotes | trading_system/signals/master_decision_maker.py:141-160 | the voting loop accumulates the bull, bear and total weights |
| PositionMonitor.MasterDecisionMakerAgent.DecideNow | trading_system/signals/master_decision_maker.py:126-279 | returns the decision of the kill switch and the vote, checks the switch once, and records exactly the decisions that are not holds |
| MasterDecision.OneMoreVote | trading_system/signals/master_decision_maker.py:146-160 | one more signal adds weight times confidence to the sum of its side, its weight to the total, and one to the count of its side, with the directions written out |
| MasterDecision.VerdictIgnoresOrder | trading_system/signals/master_decision_maker.py:141-251 | direction, score, counts, shares and analysis do not depend on the order of the signals; only the symbol may differ |
| MasterDecision.CountsAddUp | trading_system/signals/master_decision_maker.py:198-248 | the three counts add up to the total, and the symbol is that of the first whitelisted signal |
| MasterDecision.SharesMatchBusSummary | trading_system/signals/master_decision_maker.py:141-167 | the decision's shares are the bus summary's weighted scores over the total weight, with the same counts |
| MasterDecision.SharesAtMostOne | trading_system/signals/master_decision_maker.py:163-188 | for weights >= 0 and confidences in [0, 1] the shares sum to at most 1, so both sides cannot be strong |
| MasterDecision.MirrorSymmetryIff | trading_system/signals/master_decision_maker.py:146-205 | for any numbers, mirroring the signals mirrors the decision iff not both sides are strong on a tradable symbol |
| MasterDecision.BothStrongIsPossible | trading_system/signals/master_decision_maker.py:170-182 | two signals with confidences beyond the range leave both sides strong, and the verdict bullish either way round |
| MasterDecision.MirrorSymmetry | trading_system/signals/master_decision_maker.py:146-205 | for signals in range mirroring flips the direction, keeps the score and keeps a hold |
| MasterDecision.TakesSideIff | trading_system/signals/master_decision_maker.py:146-205 | for signals in range a side is taken iff some signal is tradable, the side's strength reaches 0.35 plus the penalty of the total weight, and it exceeds the other side's |
| MasterDecision.DecisionIff | trading_system/signals/master_decision_maker.py:126-205 | the same for the decision with the kill switch: a side is taken iff no market check fires, something is tradable and the side wins |
| MasterDecision.ScoreIsNetShare | trading_system/signals/master_decision_maker.py:163-205 | the score of a side taken is its share less the conflict penalty and at least 0.35; everything else is a hold |
| MasterDecision.NetScoreAgrees | trading_system/signals/signal_bus.py:55-98 | for signals in range a side is taken only if the bus's net score points its way |
| MasterDecision.RaisingBullKeepsBullish | trading_system/signals/master_decision_maker.py:146-182 | raising a bullish signal's confidence never undoes a bullish decision, and raises its score by exactly the signal's part of the total weight times the change |
| MasterDecision.UnanimousVote | trading_system/signals/master_decision_maker.py:146-205 | when every signal is bullish there is no penalty: the decision is bullish iff something is tradable and the mean confidence by weight reaches 0.35, and that mean is the score |
| MasterDecision.LoneSignal | trading_system/signals/master_decision_maker.py:146-205 | a single tradable bullish signal decides iff its confidence is at least 0.35, with its confidence as the score, and otherwise holds |
| PositionMonitor.ReversalIffStrongMajority | trading_system/signals/master_decision_maker.py:72-94 | for signals in range a decision counts as a reversal of a position iff the market is not halted, some signal is tradable, and the opposite side holds more than 55 percent plus the conflict penalty of the total weight |
| PositionMonitor.MasterDecisionMakerAgent.ScanPositions | trading_system/signals/master_decision_maker.py:68-124 | the loop updates every counter and lists every exit |
| PositionMonitor.MasterDecisionMakerAgent.MonitorOpenPositions | trading_system/signals/master_decision_maker.py:53-124 | returns the exits of one call and leaves everything as it was when nothing is reported or open |
| PositionMonitor.CounterIsTrailingRun | trading_system/signals/master_decision_maker.py:96-111 | over any sequence of calls a position's counter is the length of its latest unbroken run of observed reversals |
| PositionMonitor.SustainedIffTwoInARow | trading_system/signals/master_decision_maker.py:96-108 | a position is flagged as sustained iff this call processes it and the last two calls that did both saw a strong opposite consensus |
| PositionMonitor.ExitsByPosition | trading_system/signals/master_decision_maker.py:68-124 | a call's exits are those of each position taken on its own |
| PositionMonitor.NoPositionTwice | trading_system/signals/master_decision_maker.py:65-124 | one call never lists a position twice, because a halt makes the verdict a hold |
| PositionMonitor.EachCallExitsOnce | trading_system/signals/master_decision_maker.py:65-124 | in every run a halted call exits every position exactly once, in order, and leaves its counter at 0 |
| PositionMonitor.ReadingsAreConsistent | trading_system/signals/master_decision_maker.py:114-130 | the monitor's second check of the same market data agrees with the one inside the decision |
| KillSwitch.VolatilityKillSwitch.Check | trading_system/risk/volatility_kill_switch.py:43-56 | returns the first firing check and latches it |
| KillSwitch.VolatilityKillSwitch.RecordTradeLoss | trading_system/risk/volatility_kill_switch.py:58-70 | moves the counters and the latch, and raises on a loss against zero capital after the counters have moved |
| KillSwitch.VolatilityKillSwitch.Reset | trading_system/risk/volatility_kill_switch.py:72-77 | returns to the fresh state |
| KillSwitch.VolatilityKillSwitch.ActivateSwitch | trading_system/risk/volatility_kill_switch.py:79-83 | keeps the first reason |
| KillSwitch.HaltIsFirstFired | trading_system/risk/volatility_kill_switch.py:45-56 | the reason is that of the earliest firing check, and there is none iff no check fires |
| KillSwitch.HaltsIff | trading_system/risk/volatility_kill_switch.py:85-118 | the market is halted iff volatility, the gap either way, the range against the reference price, an enabled circuit breaker or the US fall is beyond its limit |
| KillSwitch.ReasonNamesFirstLimit | trading_system/risk/volatility_kill_switch.py:43-56 | the reason names the first exceeded limit in the program's order, with the figure that exceeded it |
| KillSwitch.MissingDataNeverHalts | trading_system/risk/volatility_kill_switch.py:85-118 | missing market data fires no check |
| KillSwitch.LossTripsIff | trading_system/risk/volatility_kill_switch.py:58-70 | a recorded loss trips the losing-run limit first, then the loss limit, as amounts against the capital |
| KillSwitch.CountersFollowResults | trading_system/risk/volatility_kill_switch.py:58-77 | the counters are the trailing losing run and the accumulated losses since the last reset |
| KillSwitch.TrailingLossesIsLongest | trading_system/risk/volatility_kill_switch.py:59-70 | the counted run is the longest run of losses the results end with |
| KillSwitch.ActiveIffTripped | trading_system/risk/volatility_kill_switch.py:43-83 | the latch is set iff since the last reset a check fired, a losing run reached N, or losses reached the limit |
| KillSwitch.LatchFollowsHistory | trading_system/risk/volatility_kill_switch.py:43-83 | the stored reason of an active latch is that of the first such event |
| KillSwitch.StreakTripsIffLongestLosingRun | trading_system/risk/volatility_kill_switch.py:58-65 | on nonzero results the streak condition is met at some point iff the metrics' longest losing streak is at least N |
| KillSwitch.LongStreakActivates | trading_system/risk/volatility_kill_switch.py:58-65 | such a streak leaves the switch active |
| RiskManager.RiskManagementAgent.ValidateSignal | trading_system/risk/risk_manager.py:57-80 | resets the daily figures on a new day and returns the screened and sized verdict |
| RiskManager.RiskManagementAgent.ResetDailyIfNeeded | trading_system/risk/risk_manager.py:219-225 | clears only the daily figures, only on a new day |
| RiskManager.RiskManagementAgent.AddRealisedPnl | trading_system/risk/risk_manager.py:227-232 | adds the result everywhere and raises the peak when exceeded |
| RiskManager.PassesIff | trading_system/risk/risk_manager.py:66-132 | a signal passes iff no loss or fall reaches its limit, a slot is free, a stop is set and the reward covers the required multiple of the risk |
| RiskManager.AnswerIs | trading_system/risk/risk_manager.py:57-80 | a proposal is approved iff no loss or fall reaches its limit, a slot is free, a stop is set and the reward suffices; a rejection names the first objection in the program's order |
| RiskManager.ApprovedQuantity | trading_system/risk/risk_manager.py:76-217 | every approved quantity is a whole number of lots: all of the risk quantity when affordable or without an executor, otherwise one lot if affordable, otherwise none |
| RiskManager.RiskQuantityIsUnique | trading_system/risk/risk_manager.py:175-204 | the description of the risk quantity, largest lots within both caps or the three BANK sizes, leaves a single quantity |
| RiskManager.BankSymbolIff | trading_system/risk/risk_manager.py:192 | a BANK symbol holds the four letters in either case |
| RiskManager.BreakersLatchUnderLosses | trading_system/risk/risk_manager.py:57-111 | once a loss breaker rejects, further losses on the same day keep every signal unapproved, past negative capital too, and the check raises only at capital zero |
| RiskManager.LatchesIff | trading_system/risk/risk_manager.py:82-111 | for positive limits the loss breakers latch over every history iff the drawdown limit is at most 100 percent, as the defaults are |
| RiskManager.LatchNeedsReachableDrawdown | trading_system/risk/risk_manager.py:82-111 | for every drawdown limit above 100 percent a history from the starting account and one more loss lift all breakers |
| RiskManager.NewDayLiftsDailyBreaker | trading_system/risk/risk_manager.py:219-225 | a day change lifts the daily breaker and leaves the other two as they were |
| RiskManager.WeeklyIsLifetime | trading_system/risk/risk_manager.py:219-232 | over every history the peak bounds the capital and the weekly figure is the whole change of capital |
| RiskManager.DailyIsSinceDayChange | trading_system/risk/risk_manager.py:219-232 | over every history the daily figure is the sum of the results since the date last changed |
| RiskManager.WeeklyAndDrawdownSurviveDays | trading_system/risk/risk_manager.py:91-111 | the weekly and drawdown breakers stay hit under losses across day changes |
| RiskManager.PeakIsRunningPeak | trading_system/risk/risk_manager.py:227-232 | the account's peak is the metrics' running peak over the capital path |
| RiskManager.DrawdownCheckBoundsMetrics | trading_system/risk/risk_manager.py:100-111 | the drawdown check passes after every result iff the metrics' maximum drawdown of the capital path is below the limit |
| RiskManager.RiskQuantityBounds | trading_system/risk/risk_manager.py:155-204 | other symbols get the largest whole lots within the risk budget; BANK symbols get 0, 1 or 2 lots, none iff the budget is below one unit's risk, and less than the calculated quantity plus one lot |
| RiskManager.FundsCheckBounds | trading_system/risk/risk_manager.py:206-215 | the funds check never increases the quantity, and leaves it zero or affordable |
| RiskManager.SizedTradeIsSafe | trading_system/risk/risk_manager.py:155-217 | the final quantity is a nonnegative multiple of the lot within the risk budget, and affordable with an executor |
| RiskManager.BudgetIsLargestWithinCaps | trading_system/risk/risk_manager.py:175-189 | the risk budget is the largest amount within the Kelly-scaled cap of one trade and the portfolio cap split over the open positions |
| RiskManager.StoppedOutWithinCaps | trading_system/risk/risk_manager.py:175-217 | a trade in a symbol without BANK that is stopped out loses no more than either cap allows, at one point a unit or more |
| PortfolioManager.PortfolioManagementAgent.AddPosition | trading_system/risk/portfolio_manager.py:81-89 | resets if due, then accepts or rejects as the limits say |
| PortfolioManager.PortfolioManagementAgent.CheckSectorConcentration | trading_system/risk/portfolio_manager.py:145-155 | the test against the total, or the capital for an empty total; raises when both are zero |
| PortfolioManager.PortfolioManagementAgent.ClosePosition | trading_system/risk/portfolio_manager.py:91-113 | removes the position, books its result, and returns nothing for an unknown id |
| PortfolioManager.PortfolioManagementAgent.UpdatePrices | trading_system/risk/portfolio_manager.py:115-118 | reprices exactly the positions with an updated symbol |
| PortfolioManager.PortfolioManagementAgent.ResetIfConfigured | trading_system/risk/portfolio_manager.py:61-79 | clears book and realised figure on a new day, and neither capital nor closed trades |
| PortfolioManager.CapitalIsConserved | trading_system/risk/portfolio_manager.py:61-113 | over every history at most six positions are open, capital is the initial capital plus all closed results, and the realised figure is the sum of exactly the trades closed since the last reset that took effect |
| PortfolioManager.BookHoldsOpened | trading_system/risk/portfolio_manager.py:61-118 | over every history the book holds exactly the positions that some event accepted and no later reset, closing or replacement removed, each at its latest price |
| PortfolioManager.ResetEmptiesBook | trading_system/risk/portfolio_manager.py:71-84 | an addition that brings a reset is never one too many, and leaves the added position at most |
| PortfolioManager.ClosingInPrices | trading_system/risk/portfolio_manager.py:91-113 | closing removes the position, books the favourable move on its quantity to capital and realised figure, and appends the record |
| PortfolioManager.PricesReachSymbols | trading_system/risk/portfolio_manager.py:115-118 | new prices reach exactly the positions whose symbol they name |
| PortfolioManager.ClosingAtMarketKeepsTotal | trading_system/risk/portfolio_manager.py:91-129 | closing at the current price keeps realised plus unrealised result |
| PortfolioManager.AddThenCloseAtEntry | trading_system/risk/portfolio_manager.py:81-113 | adding a position and closing it at its entry price restores book, capital and realised figure |
| PortfolioManager.PctSignMatchesOnlyLongs | trading_system/risk/portfolio_manager.py:30-39 | the percentage has the result's sign for LONG positions and the opposite sign for all others |
| PortfolioManager.PctIsRelativeMove | trading_system/risk/portfolio_manager.py:35-39 | the percentage is the move relative to the entry, and 0 for an entry at 0 |
| PortfolioManager.ResultIsNotionalGain | trading_system/risk/portfolio_manager.py:30-43 | the open result is the change of the notional since entry, with the sign of the side |
| PortfolioManager.AcceptedIff | trading_system/risk/portfolio_manager.py:83-89 | the answer to an addition in amounts: too many at six positions, a raise without a base, and otherwise acceptance iff the sector with it stays within 40% of the base |
| PortfolioManager.AcceptedSectorShare | trading_system/risk/portfolio_manager.py:145-155 | an accepted new position on a nonzero book leaves its sector with at most 40% of the new total |
| PortfolioManager.SingleSectorIsClosed | trading_system/risk/portfolio_manager.py:145-155 | a book held in one sector accepts nothing more of it |
| PortfolioManager.AddsAreBounded | trading_system/risk/portfolio_manager.py:81-89 | in a run of adds the total notional after k accepted positions is at most 0.4 * capital * 1.4^(k-1) |
| PortfolioManager.FullBookNotional | trading_system/risk/portfolio_manager.py:81-89 | with distinct ids the total notional stays below 2.16 times the capital |
| Supertrend.FillSupertrend | trading_system/agents/technical_analysis.py:172-187 | the loop fills line and direction with the recurrence and leaves the warm-up entries alone |
| Supertrend.SupertrendSignal | trading_system/agents/technical_analysis.py:156-197 | returns 0 on short frames, raises on period + 1 bars, and otherwise scores the last two directions |
| Supertrend.FrameTrend | trading_system/agents/technical_analysis.py:164-187 | on bars: the trend starts upward on the lower band, and from bar to bar follows the bands at the midpoint plus and minus the multiple of the mean true range |
| Supertrend.FrameLineIsRunningExtreme | trading_system/agents/technical_analysis.py:164-187 | the running-extreme law for a data frame and its own bands |
| Supertrend.FrameFlipsAtFirstBreach | trading_system/agents/technical_analysis.py:164-187 | the first-breach law for a data frame and its own bands |
| Supertrend.FrameScore | trading_system/agents/technical_analysis.py:188-197 | a full point on a flip at the last bar, half a point otherwise, with the sign of the trend |
| Supertrend.LineIsRunningExtreme | trading_system/agents/technical_analysis.py:182-187 | while up the line is the maximum of its start and all lower bands since; while down the minimum of its start and all upper bands since |
| Supertrend.FlipsAtFirstBreach | trading_system/agents/technical_analysis.py:182-187 | an up-run goes on iff the close exceeds every support since its start, a down-run iff it stays below every resistance |
| Supertrend.CloseOnItsSide | trading_system/agents/technical_analysis.py:182-187 | after the first bar the close is never on the wrong side of the line, and strictly on its side unless just flipped |
| Supertrend.LineRatchets | trading_system/agents/technical_analysis.py:182-187 | within a run the line never moves away from the price |
| Supertrend.FullScoreIffBreach | trading_system/agents/technical_analysis.py:188-197 | the score is +1 or -1 iff the last close breached the previous line tightened by its band, otherwise half a point, and positive iff the direction is up |
| Supertrend.BandsEncloseMidpoint | trading_system/agents/technical_analysis.py:164-171 | the bands are centred on the midpoint, apart by twice the multiple of the average range, and enclose it for proper bars and a nonnegative multiplier |
| Supertrend.AverageWithinWindow | trading_system/agents/technical_analysis.py:165-169 | the average range lies between the extremes of the last `period` true ranges |
| Supertrend.AverageIsMean | trading_system/agents/technical_analysis.py:169 | the average range is the mean of the last `period` true ranges |
| Supertrend.AverageSlides | trading_system/agents/technical_analysis.py:169 | from bar to bar the average gains the new true range and drops the oldest |
| Supertrend.TrueRangeIsHull | trading_system/agents/technical_analysis.py:165-168 | the true range is the height of the bar stretched to the previous close |
| Supertrend.TrueRangeIsWidest | trading_system/agents/technical_analysis.py:165-168 | for any bar the true range is the largest of the three distances |
| WalkForward.CreateWindows | trading_system/backtesting/walk_forward.py:62-75 | raises for zero splits, gives nothing for a negative number, and otherwise the kept windows of all folds in order, for any ratio |
| WalkForward.KeptFoldsAreSuffix | trading_system/backtesting/walk_forward.py:66-74 | for every ratio in [0, 1] the kept windows are exactly the folds from some index on |
| WalkForward.TrainIsShare | trading_system/backtesting/walk_forward.py:67-70 | the training part is the whole number of rows in the ratio's share of the window |
| WalkForward.RowsAreSlice | trading_system/backtesting/walk_forward.py:71-72 | slice bounds select as in Python: negative ones count from the end, and all are cut to the frame |
| WalkForward.WholeRatioKeepsNothing | trading_system/backtesting/walk_forward.py:70-74 | from a ratio of 1 on no window is kept |
| WalkForward.WindowsAreAnchored | trading_system/backtesting/walk_forward.py:67-72 | train and test tile the rows up to the fold's end, and training parts are nested prefixes |
| WalkForward.TestRowsGrow | trading_system/backtesting/walk_forward.py:67-72 | test parts never shrink from one fold to a later one, for any ratio in [0, 1] |
| WalkForward.DefaultWindowsExist | trading_system/backtesting/walk_forward.py:55-75 | with the defaults some fold is kept iff there are at least 35 rows, which the averages need |
| WalkForward.DefaultTestRangesOverlap | trading_system/backtesting/walk_forward.py:66-72 | with the defaults successive test ranges share rows exactly from the third fold on |
| WalkForward.EveryCombinationVisitedOnce | trading_system/backtesting/walk_forward.py:82-87 | the search order visits every choice of the Cartesian product exactly once, at its mixed-radix rank |
| WalkForward.Optimise | trading_system/backtesting/walk_forward.py:77-98 | returns the first combination in product order whose score is the maximum over all that scored, nothing and minus infinity if none did, and 0 for an empty grid |
| WalkForward.FirstMaximumInNumbers | trading_system/backtesting/walk_forward.py:92-95 | a finite best score bounds every score that is a number and exceeds every earlier one |
| SmartRouter.CalculateSlices | trading_system/execution/smart_router.py:52-59 | n parts that sum to the quantity, non-increasing and differing by at most one; raises for zero slices |
| SmartRouter.SlicesAreDetermined | trading_system/execution/smart_router.py:52-59 | that description leaves a single answer |
| SmartRouter.BalancedMinimisesSquares | trading_system/execution/smart_router.py:52-59 | no integer split has a smaller sum of squares, and exactly the balanced ones reach it |
| SmartRouter.BalancedMinimisesLargestPart | trading_system/execution/smart_router.py:52-59 | no integer split has a smaller largest part or a larger smallest part |
| BacktestBreakers.CurveMatchesPath | trading_system/backtesting/engine.py:69-136 | the per-bar equity curve and the per-trade capital path have the same drawdowns |
| BacktestBreakers.DrawdownBreakerMatchesReport | trading_system/risk/risk_manager.py:100-111 | the drawdown check passes after every trade of a backtest iff the reported maximum drawdown is below the limit |
| BacktestBreakers.StreakBreakerMatchesReport | trading_system/risk/volatility_kill_switch.py:58-65 | the kill switch's streak condition is met on a backtest's results iff the reported longest losing streak is at least N |

## Left out

- Rounding of floats: sums and comparisons are exact, so order independence is that of real numbers.
- BacktestEngine.Run: a negative initial capital is not modelled; its drawdowns divide by a negative peak.
- BacktestEngine.QuantityIsWholeLots: the lot size is a positive integer.
- Metrics.Calculate: a negative initial capital is not modelled, nor are CAGR, Sharpe, Sortino and Calmar: square roots, fractional powers and library statistics.
- SlippageSimulator.CostIsAffine: futures only; the options cost is the same arithmetic with another rate and a floor on slippage.
- WalkForward.Optimise: a combination's score is a parameter, and parameters are lists of values in key order instead of dictionaries.
- Supertrend.SupertrendSignal: missing high, low or close columns are not modelled, and the other indicators of that agent are library rolling windows.
- SignalBus.InterAgentSignalBus.Publish: does not call subscribers, whose exceptions the program swallows, and keeps no timestamps.
- PositionMonitor.MasterDecisionMakerAgent.DecideNow: reason texts and the expiry-day filter are not modelled; that filter needs an options asset class, and the decision is always built with the index class.
- KillSwitch.VolatilityKillSwitch.Check: the trigger time and the reason texts are not modelled; a reason carries its numbers.
- RiskManager.BreakersLatchUnderLosses: for positive limits, a drawdown limit up to 100 percent and a peak that is positive and not below the capital, which every history keeps.
- RiskManager.SizedTradeIsSafe: for nonnegative capital, limits and Kelly fraction and a positive lot size; upper-casing of symbols is that of ASCII letters.
- The correlation check of the risk manager always passes and is not modelled.
- PortfolioManager.PortfolioManagementAgent.ClosePosition: the duration and time stamps of the trade record are not modelled.
- PortfolioManager.AcceptedSectorShare: for an id that is not yet in the book; storing under an existing id replaces a position.
- Data feeds, executors, order management, the message bus, language models, dashboards and the API: input and output over libraries not shown here.
- Scoring agents other than Supertrend, the learning engine, the experience memory and the weekend sweep: clamps and counters that would only add easy bounds.
