# Atlas in Dafny

A model of the deterministic half of Atlas, a spot-trading system: signal generation, the two backtest engines that
check each other, position sizing, the trading tick, and the execution protocol that keeps a local ledger in step with
an exchange. What is proved holds for every strategy specification, every price history and every run.

`dafny verify dfyconfig.toml` checks everything. One module per component, in the file of the same name.

Conventions. A money amount is a `real`: Python's `Decimal` read as exact arithmetic. A loop of the program is a
method with a loop, and an object that updates tables is a class; each is proved equal to a function on values, and
the theorems are about those functions. Exceptions and error returns are values of `Option` or `Result`. Identities,
timestamps and everything an outside party answers are parameters.

## What the proofs say

**Two engines, one semantics** (`Backtest`, `Verifier`, `Equivalence`, `Compare`, `Incubation`). The primary engine
walks bars holding a position; the verifier jumps a cursor from each entry to the exit that a forward scan finds.
`Equivalence.Simulates` relates the two loop shapes from any point between trades. Outside two cases the books are
equal, and both cases are given exactly: when two rules fire on one bar the primary keeps the first signal and the
verifier the last (`KeptSignalsAgreeIff`, and `TwoSignalsOnABarDisagree` where one ends with a profit and the other
with a loss), and the books differ exactly when sizing accepts one of two such signals on a bar reached between trades
(`Contested.BooksAgreeIff`); when the data ends with a position open, the primary alone pays slippage, and the
difference is the closed form of `FinalGap`. The two final equities agree if and only if slippage is zero, nothing was
forced out, or the fee offsets the slippage (a long at fee 1, a short at fee -1), so only then does the comparison
pass at zero tolerance. At any tolerance it passes exactly when that difference is within the tolerance of the larger
of the two equity moves, so a run that barely moved is reported as an engine defect at the default five percent
although both engines are right (`NearFlatRun`). The paper-trading tracker's resolver is a third implementation of the
exit rule and agrees with both.

**No look-ahead.** The engine's bar guard polices only the engine's own reads; the evaluator is handed the raw bars.
The guarantee is therefore proved of the indicator loops, carried through the evaluator and then through the whole
backtest: running on a prefix of the history gives the prefix of the results.

**Sizing.** Acceptance is characterised in lots: a request past the guards is accepted exactly when some positive
multiple of the step satisfies every cap and minimum, and the largest such multiple is returned. The bounds on loss
per trade, on long-only equity and on the tick's caps all rest on it. The equity floor needs a fee rate between -1 and
1 beside the position cap, and that range is exact (`FeeBounds`): above it a sale costs more than it brings, and a
backtest at a fee of 3 ends below zero; below it a trade smaller than the cap forgoes a rebate the floor counts on.

**In figures.** A method proved equal to a function is only as right as the function, so the results of each
operation are also stated without it, in the figures a reader would check (the modules named `...Figures`). A signal is
raised exactly when the bars meet a rule's conditions, at distances computed from the close (`SignalsInFigures`); a
trade's prices, fees and result are products of quotes and costs; an indicator satisfies its recurrence multiplied out;
sizing at a promotion multiplier is sizing at a scaled risk fraction; a tick halts exactly when equity is the limit's
fraction below its base; a bracket records the price that was paid; a summary's averages times its counts are its sums.

**The tick.** Cash, deployment and open symbols carried from entry to entry keep every cap, whatever number of
strategies compete and however they spell their symbols. Two facts the code's comments do not mention. A symbol gets
one decision for each strategy deployed on it, not exactly one as src/atlas/runtime/decisions.py:9 says. And candles
and the tick's own entries are looked up under a specification's spelling while held positions are known by upper
case, so a tick can enter a symbol twice if and only if its candle map holds usable candles under two spellings of it
(`TickSpelling`); the service keys that map by upper-cased settings, which rules it out.

**Execution.** A bracket is a list of individually committed steps against arbitrary answers, with a crash possible
between any two. Every ATLAS order that may rest at the exchange stays tracked by a local row that reconciliation
matches, over every run of brackets, exchange movements, deliveries of fills, crashes and reconciliations, with
brackets that begin over open rows and whose answers deny no order of theirs still resting. A client order id is meant
to make a second attempt collide with the first (src/atlas/execution/idempotency.py:3-6), and that collision is where
track can be lost: the refusal of a duplicate carries a status, so the row of the resting order is closed
(`RefusedResendIsLost`). What a caller can check is exact (`Reattempts.KeepsTrackIff`): track is kept whatever the
answers and wherever a crash falls if and only if none of the decision's four orders has a row that says it is over
and none is among the open orders. A crash followed by a reconciliation breaks the first half, an unanswered order the
second. Where else the guarantees end is proved too: a crash between recording a fill and closing its position leaves
the position open for good, exactly when the fill would have closed one (`CrashBeforeCloseHarmlessIff`); a crash after
a position is opened and before its exit pair is sent leaves it without protection, at exactly six points of a
bracket, and reconciliation does not repair it (`Unprotected`), against the module's own rule
(src/atlas/execution/brackets.py:3-5); a trade that could not be recorded is lost once a later one of its page has
been (`UnrecordedAskedAgainIff`), and a ledger without a cursor never asks for any but the most recent thousand; and a
reconciliation with twelve or more unknown orders, whose ids fill the exchange's 36 characters, composes a halt reason
too long to be stored, so the halt it asks for is never written (`ReasonFitsIff`, src/atlas/models.py:145).

**Kill switch and audit log.** The account is released only while both stores say so and the last commit was a
confirmed disarm or an initialisation; an arm survives every crash and the loss of either store, but is refused when
its record cannot be built. The exception is an initialisation while neither store can be read: it releases an account
whose armed record is merely out of reach (`InitialiseReleasesIff`). The hash of the last event determines the whole
log up to the layout of payload text, which the chain does not pin down.

**Market data.** A fetch from a given start returns exactly the first closed candles asked for. The service and the
command line give no start (src/atlas/runtime/service.py:187, src/atlas/cli.py:329). If the exchange then serves its
latest page, a fetch for fewer candles than a page holds keeps the oldest of that page: at the default of 500
(src/atlas/config.py:105) the last candle returned opens at least 499 intervals before the newest closed one
(`FetchWithoutStartLags`), while data counts as stale after two (src/atlas/data/validate.py:103-112).

Facts of the code that the model keeps: a trade's recorded entry time is the open time of its exit bar
(src/atlas/backtest/engine.py:229), unlike its entry index, which is the entry's own.

## Model

| member | source | states |
|---|---|---|
| `Equivalence.Simulates` | src/atlas/verify/vector_engine.py:62-106 | Refinement across loop shapes: from any cursor at which the primary is flat with the verifier's equity, the trades the primary still makes are the trips the verifier still books, and the equities end apart by exactly the forced-close gap. |
| `Equivalence.EnginesAgreeOnMap` | src/atlas/backtest/engine.py:97-158 | For every signal map, bars and setup: same number of trades with the same entries, sides, quantities and exit bars; prices and money equal except for a trade closed by the end of the data, where the verifier is higher by the closed-form gap. The verifier records no exit reasons to compare. |
| `Equivalence.EnginesAgree` | src/atlas/verify/vector_engine.py:1-35 | The same from a valid spec and its bars alone, when no bar raises two signals. |
| `Contested.ReplaysAgreeIff` | src/atlas/verify/vector_engine.py:60-106 | Replays over two maps that differ only in the sides taken make the same entries if and only if sizing accepts neither signal wherever they differ on a bar reached between trades; then they are one replay. |
| `Contested.BooksAgreeIff` | src/atlas/backtest/engine.py:84-158 | The exact condition for a valid spec: the two engines' books agree trade by trade if and only if no bar reached between trades raised two signals of which sizing accepts one. |
| `Contested.OneSignalIsUncontested` | src/atlas/verify/vector_engine.py:60 | A spec that never signals twice on a bar contests no entry. |
| `Equivalence.FinalEquitiesEqualIff` | src/atlas/backtest/engine.py:151-154 | Final equities are equal if and only if slippage is zero, no trade was forced out at the end, or the forced trade is a long at fee 1 or a short at fee -1. |
| `Equivalence.KeptSignalsAgreeIff` | src/atlas/backtest/engine.py:84-88 | The first-wins and last-wins signal maps coincide if and only if no bar raised two signals. |
| `Equivalence.ForcedCloseArithmetic` | src/atlas/backtest/engine.py:217-243 | A close at the last price costs the primary close·slippage·quantity·(1 − fee) more for a long and ·(1 + fee) for a short than the verifier's. |
| `EngineCounterexample.TwoSignalsOnABarDisagree` | src/atlas/verify/vector_engine.py:60 | A concrete valid spec and two bars on which the primary ends at 100.1 and the verifier at 99.9. |
| `Backtest.RunBacktest` | src/atlas/backtest/engine.py:70-172 | The per-bar loop over equity, position, pending signal, trades and curve computes the final state and result about which everything below is proved; what each of its trades is in figures is `TradeFigures.EveryTradeInFigures`. |
| `TradeFigures.EveryTradeInFigures` | src/atlas/backtest/engine.py:97-158 | Every trade of every run, from the bars, the signals and the costs: a long enters at the open after its signal times (1 + slippage) and a short at it times (1 − slippage), with the signal's levels; it leaves at a level its exit bar reaches, or by time or at the end of the data at that close slipped the other way, and no bar between forced it out; fees are the rate on both notionals, and the net is quantity times the signed move less fees. |
| `TradeFigures.NeverBetterThanQuoted` | src/atlas/backtest/costs.py:31-38 | When slippage is not negative, no trade of any run crosses better than its quote, entering or leaving. |
| `TradeFigures.BenchmarkInFigures` | src/atlas/backtest/engine.py:59-67 | Buy and hold plus the four costs of a round trip, times the first close, is the last close less the first. |
| `Backtest.CollectFirst` | src/atlas/backtest/engine.py:84-88 | Of several signals on a bar the first raised is kept. |
| `Verifier.CollectLast` | src/atlas/verify/vector_engine.py:60 | Of several signals on a bar the last raised is kept. |
| `Verifier.RunVerifier` | src/atlas/verify/vector_engine.py:44-106 | The cursor loop books exactly the replay from bar 0 and its trade count, final equity and return. |
| `Verifier.ScanForExit` | src/atlas/verify/vector_engine.py:109-136 | The early-return scan returns the index and price of the first-touch scan. |
| `Verifier.ScanIsFirst` | src/atlas/verify/vector_engine.py:109-136 | The scan stops at a bar exactly when that bar is the first to leave on, and runs off the end exactly when there is none. |
| `Compare.RelativeDeltaMeaning` | src/atlas/verify/compare.py:34-39 | A relative difference is non-negative, symmetric, and zero only of equal values. |
| `Compare.CompareRuns` | src/atlas/verify/compare.py:42-82 | Both differences, the reasons for exactly the exceeded tolerances (2% and 5% unless given), passing iff there is none, and when a defect is suspected. |
| `Compare.ReturnsPassIff` | src/atlas/verify/compare.py:34-39 | Two final equities pass the return check at a tolerance if and only if their gap is at most that tolerance times the larger equity move. |
| `Compare.VerifyStrategy` | src/atlas/research/loop.py:143-161 | Running both engines at any tolerances on a spec no entry of which is contested: trade counts never differ, the comparison passes if and only if the forced-close gap is within the tolerance of the larger move, a failure is reported as a suspected defect, and at zero tolerance passing means no slippage, no forced close, or a fee that offsets it. |
| `NearFlatRun.NearFlatRunIsFlagged` | src/atlas/verify/compare.py:11-12 | A concrete valid run with equal trips and equities 999.485 and 1000.5 that exceeds the default return tolerance. |
| `Incubation.Resolve` | src/atlas/incubation/tracker.py:209-232 | The paper-trading scan returns what the verifier's scan finds, at raw prices. |
| `Incubation.ResolversAgree` | src/atlas/incubation/tracker.py:209-232 | The tracker, the verifier's scan and per-bar dispatch choose the same bar and raw price, or all find none. |
| `BacktestProperties.EquityConserved` | src/atlas/backtest/engine.py:90-145 | At every bar: equity is the start plus the net of closed trades less the entry fee of an open position, and the curve has one point per bar, the current equity. |
| `BacktestProperties.RunConserves` | src/atlas/backtest/engine.py:147-172 | Gross profit less gross loss, the sum of net results and final equity less start are one number; wins and losses add up to the trades; one curve point per bar. |
| `BacktestProperties.DispatchIsFirstTouch` | src/atlas/backtest/engine.py:175-205 | Per-bar dispatch never leaves on the entry bar and afterwards leaves exactly on a bar that touches a level or reaches the limit, the stop winning ties. |
| `BacktestProperties.RunSound` | src/atlas/backtest/engine.py:90-145 | After every bar: closed trades are first-touch and disjoint, the open position was granted by sizing at the open after its signal and has met no exit. |
| `BacktestProperties.TradesAreFirstTouchAndDisjoint` | src/atlas/backtest/engine.py:97-158 | Every trade of a run enters on the bar after its signal, beyond the previous exit, and leaves on the first bar that forces it; only the last can end with the data. |
| `BacktestCausality.RunCausal` | src/atlas/backtest/engine.py:90-145 | The engine's state after m bars depends on nothing from bar k ≥ m on. |
| `BacktestCausality.BacktestIsCausal` | src/atlas/backtest/engine.py:70-172 | For every k, the backtest of the first k bars has exactly the full run's trades that left before bar k, and its curve up to bar k−2. |
| `BacktestRisk.LossBoundedByBudget` | src/atlas/backtest/engine.py:190-243 | A stop or target exit loses at most the risk fraction of the equity just before entry, and a stop exit exactly the sizing's risk amount, wherever the open gapped to. |
| `BacktestRisk.EveryLossBounded` | src/atlas/backtest/engine.py:102-127 | For every stop and target exit of every backtest of a valid spec: the loss is within the risk fraction of the equity before entry, and a stop loses exactly the risk amount. |
| `BacktestRisk.LongOnlyStaysSolvent` | src/atlas/backtest/engine.py:101-145 | After n long-only trades equity is at least start·(1 − max position·(1 + fee))^n, and every curve point is positive. |
| `BacktestRisk.LongOnlyBacktestStaysSolvent` | src/atlas/backtest/engine.py:70-172 | The same of every backtest of a spec whose rules are all long. |
| `FeeBounds.TradeKeepsFloorIff` | src/atlas/backtest/engine.py:208-243 | A long trade the engine closes leaves the floor's share of the equity before it if and only if the sale less its fee covers what was paid beyond the cap with its fee. |
| `FeeBounds.AtTheCapIff` | src/atlas/backtest/engine.py:208-243 | A long trade of the engine sized at the cap and sold at a positive price keeps the floor if and only if the fee rate is at most one. |
| `FeeBounds.EveryTradeKeepsFloorIff` | src/atlas/backtest/costs.py:20-38 | Every long trade of the engine within the cap, wherever it leaves, keeps the floor if and only if the fee rate lies in [-1, 1], the range the long-only theorems ask for. |
| `FeeBounds.HighFeeBreaksFloor` | src/atlas/backtest/engine.py:208-243 | A concrete long-only backtest at fee 3 and cap 0.2 that ends at -20 where the floor is 20. |
| `Stats.ComputeMaxDrawdown` | src/atlas/backtest/stats.py:74-85 | The one-pass loop with a running peak, against its value on every prefix. |
| `Stats.MaxDrawdownIsLargestDecline` | src/atlas/backtest/stats.py:74-85 | On a non-negative curve that starts above zero, one pass finds the maximum of (c[i] − c[j]) / c[i] over i ≤ j with c[i] > 0, and it lies in [0, 1]. |
| `Stats.WinnersAndLosers` | src/atlas/backtest/stats.py:88-132 | Winners and losers partition the trades, and their nets add up. |
| `Stats.StatsConserve` | src/atlas/backtest/stats.py:88-132 | Reported profit less loss is the net of all trades and the counts add up, for any trades and curve. |
| `StatsFigures.AveragesInFigures` | src/atlas/backtest/stats.py:88-132 | Wins are the trades with a positive net, and win rate, expectancy and bars held times the number of trades are the wins, the sum of the nets and the sum of the bars held; capped trades are counted; without trades all are zero. |
| `StatsFigures.MoneyInFigures` | src/atlas/backtest/stats.py:88-132 | Gross profit and loss add the positive and the negative nets; profit factor times gross loss is gross profit, else 999 or 0; fees add up; final equity is the last curve point, the return times the start is its change, and the benchmark is beaten when exceeded. |
| `Indicators.ComputeSma` | src/atlas/strategy/indicators.py:27-39 | The running sum gives the mean of the window at every index, nothing before the first full window, and an error below period one. |
| `Indicators.ComputeEma` | src/atlas/strategy/indicators.py:42-56 | The seeded loop gives the recursive average at every index. |
| `Indicators.ComputeRsi` | src/atlas/strategy/indicators.py:59-91 | The two running averages give the ratio of Wilder averages of rises and falls at every index. |
| `Indicators.ComputeTrueRange` | src/atlas/strategy/indicators.py:94-107 | True range at every index, from the bar and the previous close. |
| `Indicators.ComputeAtr` | src/atlas/strategy/indicators.py:110-127 | The seeded loop over true ranges gives Wilder's average of them. |
| `Indicators.ComputeRollingHigh` | src/atlas/strategy/indicators.py:130-138 | The highest high of each full window. |
| `Indicators.ComputeRollingLow` | src/atlas/strategy/indicators.py:141-148 | The lowest low of each full window. |
| `Indicators.Compute` | src/atlas/strategy/indicators.py:151-181 | The registry dispatches to the series of the named indicator, with the same errors. |
| `Indicators.EmaWithinInputs` | src/atlas/strategy/indicators.py:42-56 | The average never leaves the range of the values consumed so far. |
| `Indicators.WilderWithinInputs` | src/atlas/strategy/indicators.py:110-127 | Wilder's recursion never leaves the range of its inputs. |
| `Indicators.RsiInRange` | src/atlas/strategy/indicators.py:59-91 | RSI lies in [0, 100], including an average loss of zero. |
| `Indicators.AtrWithinInputs` | src/atlas/strategy/indicators.py:110-127 | ATR stays within the true ranges consumed so far and is never negative. |
| `Indicators.IndicatorCausal` | src/atlas/strategy/indicators.py:27-181 | Every indicator computed on the first k bars is the first k values of the full series, for every k, including histories too short for a value. |
| `IndicatorFigures.SmaInFigures` | src/atlas/strategy/indicators.py:27-39 | The average of closes times the period is the sum of the window, and it exists exactly once the window is full. |
| `IndicatorFigures.VolumeSmaInFigures` | src/atlas/strategy/indicators.py:151-154 | The same of volumes. |
| `IndicatorFigures.EmaInFigures` | src/atlas/strategy/indicators.py:42-56 | The first value is the plain mean of the first closes; from then on (period + 1) times its change is twice the close's distance from the previous value. |
| `IndicatorFigures.WilderInFigures` | src/atlas/strategy/indicators.py:72-127 | Wilder's average starts as a plain mean; then period times the new value is (period − 1) times the old one plus the input. |
| `IndicatorFigures.ChangesInFigures` | src/atlas/strategy/indicators.py:73-76 | A rise and a fall are not negative, one of them is zero, and their difference is the change of the close. |
| `IndicatorFigures.RsiInFigures` | src/atlas/strategy/indicators.py:59-91 | RSI times the sum of the averaged rises and falls of the closes is a hundred times the rises; without falls it is a hundred; it exists from index period on. |
| `IndicatorFigures.TrueRangeInFigures` | src/atlas/strategy/indicators.py:94-107 | The true range is at least the bar's range and each gap to the previous close, and is one of them. |
| `IndicatorFigures.AtrInFigures` | src/atlas/strategy/indicators.py:110-127 | ATR is Wilder's average of the true ranges, from the first full window on. |
| `IndicatorFigures.ExtremesInFigures` | src/atlas/strategy/indicators.py:130-148 | Rolling extremes bound the highs and lows of the window and are attained in it. |
| `Evaluator.ComputeIndicators` | src/atlas/strategy/evaluator.py:64-67 | Each named series of a spec, computed once. |
| `Evaluator.Evaluate` | src/atlas/strategy/evaluator.py:269-313 | The nested loop over bars and rules returns the signal list of the spec, of which `SignalFigures.SignalsInFigures` says exactly what is in it. |
| `SignalFigures.SignalsInFigures` | src/atlas/strategy/evaluator.py:126-313 | For every valid spec, bars and signal: it is raised if and only if some rule of its side has every condition met on its bar, its reference is that bar's close, its stop is against it by value·close or value·ATR, its target for it by value·risk, value·close or value·ATR, and distances and prices are positive: all read from the spec and the bars, naming no function of the evaluator. |
| `SignalFigures.HoldsIffMet` | src/atlas/strategy/evaluator.py:70-123 | A condition holds exactly when its operands, read off the bar's own figures or the indicator's series, both have values in the order it asks for; a crossing also asks that on the previous bar they were not. |
| `SignalFigures.LevelsIffInFigures` | src/atlas/strategy/evaluator.py:126-172 | The levels one rule would use are exactly those in figures. |
| `Explanations.Explain` | src/atlas/strategy/evaluator.py:233-266 | The report of every rule at any index, the last bar by default, or the error of the first lookup outside the history. |
| `Explanations.ExplainedInRange` | src/atlas/strategy/evaluator.py:70-123 | Every index strictly within the history, either way, is answered with the report of the bar it names. |
| `Explanations.FirstBarFromTheEnd` | src/atlas/strategy/evaluator.py:112-123 | The index of the first bar counted from the end is answered like bar 0 unless a crossing with both values present looks before it, which raises except between constants. |
| `Evaluator.SignalsCausal` | src/atlas/strategy/evaluator.py:269-313 | For every valid spec, bars and k: evaluating the first k bars gives exactly the signals before bar k. |
| `Evaluator.SignalsChronological` | src/atlas/strategy/evaluator.py:269-313 | Signals come in bar order, inside the history, with stop and target on the right sides of the reference, at most one per rule and bar. |
| `Evaluator.EvaluateAgreesWithExplain` | src/atlas/strategy/evaluator.py:233-313 | A side is signalled on a bar exactly when its rule's explanation reports every condition passed and its levels straddle the close. |
| `Sizing.FloorQuantityIsLargest` | src/atlas/risk/sizing.py:44-48 | Flooring keeps the largest grid point not above a quantity, less than one step below it. |
| `Sizing.RoundPriceTowardMeaning` | src/atlas/risk/sizing.py:55-68 | A level lands on the tick grid, less than a tick away, moved toward the reference. |
| `Sizing.SizingIsExact` | src/atlas/risk/sizing.py:134-176 | Past the guards, accepted if and only if some positive multiple of the step meets both minima, the position, cash and deployment caps, and the risk cap equity·riskPct·riskMultiplier; then the quantity is the largest such multiple and the risk amount is within that product. |
| `Sizing.AcceptedIffTradable` | src/atlas/risk/sizing.py:134-176 | Acceptance and quantity in terms of the number of whole lots that fit the tightest cap. |
| `Sizing.AffordableLotsFit` | src/atlas/risk/sizing.py:145-160 | A number of lots satisfies all four caps in money exactly when it fits the capped notional. |
| `Sizing.AcceptedRespectsCaps` | src/atlas/risk/sizing.py:116-176 | Whatever the step size, an accepted trade respects every cap and both minima, risks at most equity·riskPct·riskMultiplier, and passed the guards. |
| `SizingFigures.AcceptedInFigures` | src/atlas/risk/sizing.py:145-176 | An accepted trade risks quantity times the distance to its stop, at most equity·riskPct·riskMultiplier, and its cost is within each cap, all in plain products. |
| `SizingFigures.MultiplierScalesRisk` | src/atlas/risk/sizing.py:129-148 | Sizing at multiplier m is sizing at multiplier 1 under the risk fraction m·riskPct, refusals and the capped mark included. |
| `SizingFigures.GuardMeaning` | src/atlas/risk/sizing.py:134-155 | Which guard refuses first, and when none does. |
| `SizingFigures.RefusalMeaning` | src/atlas/risk/sizing.py:157-168 | Past the guards: zero quantity when no lots are affordable, below the least quantity when some are but none that reaches it, below the least notional when some reach it but none is tradable. |
| `SizingFigures.CappedIff` | src/atlas/risk/sizing.py:157-158 | A trade is marked capped if and only if the position cap, the free cash or the deployment room, lost at the stop, costs less than the risk budget. |
| `SizingFigures.BandInFigures` | src/atlas/risk/sizing.py:80-89 | The lower end times the position cap is the risk fraction; the upper end times the least notional is equity times the risk fraction, or one when there is none. |
| `Sizing.AcceptedWithinUpperBound` | src/atlas/risk/sizing.py:85-89 | At any step size, acceptance implies a stop distance at most the upper end of the feasible band. |
| `Sizing.PositionCapSlackAboveLowerBound` | src/atlas/risk/sizing.py:81-82 | At or above the lower end of the band the position cap does not bind: raising it changes nothing. |
| `TradingTick.Tick` | src/atlas/runtime/trading_service.py:141-556 | The tick: limits, halting and suspension in the code's order, then the entry loop, then decisions for symbols never reached. |
| `TradingTick.EnterPositions` | src/atlas/runtime/trading_service.py:235-545 | The nested loop with its early breaks, carrying cash, deployment and open symbols. |
| `TradingTick.TryStrategy` | src/atlas/runtime/trading_service.py:266-543 | One strategy's turn, with every refusal in the code's order. |
| `TradingTick.LiveStrategiesBySymbol` | src/atlas/runtime/trading_service.py:559-571 | Grouping keeps every live strategy, in order, including those whose spec does not load. |
| `TradingTick.FillRemaining` | src/atlas/runtime/trading_service.py:574-588 | One decision for each listed symbol not seen before the call. |
| `TickProperties.TickKeepsCaps` | src/atlas/runtime/trading_service.py:201-556 | Every tick that returns, with any strategies and spellings: deployed plus all accepted notionals is at most max(start, cap); free cash never goes negative by entries; held symbols plus entries stay within max(start, limit); no held symbol is entered again; counters equal the decisions counted; nothing is entered after a halt; every configured symbol has a decision; and no symbol is entered twice while the candle map holds it under one usable spelling. |
| `TickProperties.UniverseKeeps` | src/atlas/runtime/trading_service.py:244-545 | The invariant behind it, at every point of the entry loop. |
| `TickProperties.NoEntriesUnlessReleased` | src/atlas/runtime/trading_service.py:160-222 | Equity down the drawdown limit from its peak or the daily limit from its start of day, an armed switch, or an unvalued account enters nothing; it halts for the first three and not for the last. |
| `TickFigures.HaltedAtLimitsIff` | src/atlas/risk/limits.py:59-101 | A released, fully valued account is halted at the limit check with nothing entered if and only if equity ≤ peak·(1 − maxAccountDrawdown) or equity ≤ dayStart·(1 − dailyLossLimit) for positive bases, or a limit is not positive; the drawdown is what is reported when both hold. |
| `TickProperties.LossReachesIff` | src/atlas/risk/limits.py:59-71 | A loss fraction reaches a limit exactly when equity is that fraction below a positive base, or the limit is not positive. |
| `TickFigures.UnvaluedIsSuspended` | src/atlas/runtime/trading_service.py:172-222 | An account that cannot be valued is suspended, reported halted only for an armed switch, and breaches no limit. |
| `TickFigures.EntersIff` | src/atlas/runtime/trading_service.py:266-545 | A strategy enters if and only if its candles pass, its symbol is not open, its first signal is on the last bar, its filters are known, sizing accepts the request made of the carried account and its own multiplier, and the bracket is placed. |
| `TickFigures.EndsEntriesIff` | src/atlas/runtime/trading_service.py:305-545 | A turn ends the tick's entries exactly on stale candles or when a sized bracket met an armed switch or was left unprotected. |
| `TickFigures.TurnInFigures` | src/atlas/runtime/trading_service.py:266-545 | A turn that stays in the tick adds one decision of its own symbol and strategy; which outcome each obstacle gets; refusals are counted; only an entry moves cash, deployment and open symbols, by the notional it records. |
| `TickFigures.FirstOnMeaning` | src/atlas/runtime/trading_service.py:361-368 | The signal acted on is the first raised on the last bar, and none when there is none. |
| `TickProperties.UniverseCovers` | src/atlas/runtime/trading_service.py:239-242 | The universe is every configured symbol and every symbol a live strategy trades, each once. |
| `TickFigures.ConfiguredComeFirst` | src/atlas/runtime/trading_service.py:239-242 | The universe begins with the configured symbols in their order, and the others are sorted. |
| `TickFigures.UpperMeaning` | src/atlas/runtime/trading_service.py:166 | Upper case turns small letters into their capitals, leaves every other character alone, and changes nothing a second time. |
| `TickFigures.SortedInOrder` | src/atlas/runtime/trading_service.py:242 | Sorting leaves each symbol before the next in the order of strings, which is total (`TickFigures.PrecedesIsTotal`). |
| `TickSpelling.NeverEntersTwiceIff` | src/atlas/runtime/trading_service.py:285-345 | For every candle map: no tick over it, whatever else it is given, enters a symbol twice if and only if no two spellings with usable candles are one symbol in upper case. |
| `TickSpelling.TwoSpellingsEnterTwice` | src/atlas/runtime/trading_service.py:522 | For every candle map with two such spellings, a tick whose decisions are two entries on that symbol. |
| `TickSpelling.TwoEntriesOnA` | src/atlas/runtime/trading_service.py:285 | The concrete tick: one bar under "A" and under "a", two entries on A. |
| `TickSpelling.UpperCaseKeysAreDistinct` | src/atlas/runtime/service.py:183-215 | Candles keyed in upper case, as the service keys them (src/atlas/config.py:147), rule out a second entry. |
| `TickProperties.DecisionsPerSymbol` | src/atlas/runtime/decisions.py:9 | A tick that runs to the end decides once per deployed strategy: exactly once per symbol if and only if no two live strategies share it. |
| `Brackets.RecordFailure` | src/atlas/execution/brackets.py:66-82 | What a failed placement writes: a refusal by the switch was not sent, a refusal with a status is final, one without is left as submitted. |
| `Brackets.PlaceEntry` | src/atlas/execution/brackets.py:134-169 | The entry is recorded before it is sent, and its row then says what the answer means. |
| `Brackets.OpenAndProtect` | src/atlas/execution/brackets.py:171-232 | Position, links and both exit rows are committed before the pair is sent. |
| `Brackets.ReverseEntry` | src/atlas/execution/brackets.py:233-297 | The reversal, recorded and linked before sending, closes the position at the price paid when it is acknowledged. |
| `Brackets.OpenBracketedPosition` | src/atlas/execution/brackets.py:113-297 | The whole call leaves the ledger as its committed steps leave it, and ends in the outcome the answers dictate; an opened outcome names the price paid: times the quantity it is the value the exchange reported when that is positive, else it is the reference price. |
| `BracketProperties.BracketLeavesItsOutcome` | src/atlas/execution/brackets.py:113-297 | Outcomes are exhaustive, and each determines the resulting ledger exactly; an opened position is recorded at the price paid. |
| `BracketFigures.PositionInFigures` | src/atlas/execution/brackets.py:85-297 | A bracket opens its position if and only if the entry filled something: entry price times quantity is the positive value reported for it, else the price is the reference; both levels are snapped toward that price. It closes it if and only if it was reversed, at the price the reversal got, else at the entry price, with quantity times the signed distance as its result. |
| `BracketFigures.OrdersInFigures` | src/atlas/execution/brackets.py:105-232 | Which orders a bracket adds and every field of them: a long buys to enter and sells to leave, the entry is for the asked quantity and the others for what filled, the exits at the position's own levels; each status is what its own answer, or its own leg of the pair, said. Every other order is left as it was. |
| `BracketProperties.OpenPositionsByOutcome` | src/atlas/execution/brackets.py:145-297 | A normal return leaves exactly one more open position with a linked stop and target of the filled quantity; an entry that failed or did not fill none; a reversal leaves it closed; a refused reversal, by the exchange or by the switch, leaves it open with both linked exits refused, marked rejected when the refusal carried a status and submitted otherwise. |
| `BracketProperties.ExitsOnGridTowardEntry` | src/atlas/execution/brackets.py:171-177 | Both exits of an opened bracket are on the tick grid, less than one tick from the asked level, toward the entry price. |
| `Protocol.EveryRunKeepsInvariant` | src/atlas/execution/brackets.py:1-30 | Over every run of brackets that begin over open rows, with truthful answers that deny no order of theirs still resting, crashes between any two steps, exchange movements, deliveries and reconciliations: every ATLAS order resting at the exchange has a local row under an open status, and the tables stay consistent. |
| `Protocol.BracketIsSafe` | src/atlas/execution/brackets.py:145-297 | At every step of such a bracket no order that may rest is untracked. |
| `Protocol.ReconciliationAlwaysClean` | src/atlas/execution/reconcile.py:55-116 | At any point of any run, reconciling against the true snapshot finds nothing unreconcilable, and a second reconciliation repairs nothing. |
| `Protocol.OpenPositionsAreHeld` | src/atlas/execution/ingest.py:139-180 | Over every run, an open position has no exit that filled its quantity. |
| `Reattempts.KeepsTrackIff` | src/atlas/execution/idempotency.py:3-6 | A bracket keeps every resting order tracked, whatever truthful answers it gets and wherever it is cut short, if and only if none of its entry, stop, target and reversal orders has a row under a closed status and none of them still rests at the exchange. |
| `Reattempts.RestingOrderIsLost` | src/atlas/execution/brackets.py:66-82 | For each such order that still rests, a truthful refusal of its resend that closes its row. |
| `Reattempts.RefusedResendIsLost` | src/atlas/execution/brackets.py:145-150 | The colliding entry: open row, resting order, duplicate refused with a status, and the resting order is unreconcilable. |
| `Reattempts.TakenOrderIsLost` | src/atlas/execution/ledger.py:82-86 | For each such row, truthful answers and a crash that leave that order resting without an open row. |
| `Reattempts.SilentEntryLostIff` | src/atlas/execution/brackets.py:145-150 | After an entry of which nothing was heard, the resting entry is unreconcilable if and only if its row existed under a closed status. |
| `Reattempts.CrashAndReconciliationTake` | src/atlas/execution/reconcile.py:64-76 | A crash before sending and a reconciliation produce a closed row. |
| `Reattempts.HeldOnceProtectedIff` | src/atlas/execution/ingest.py:139-180 | A position opened by a second attempt is held, once its exits are linked, if and only if neither had filled its quantity before. |
| `Reattempts.FreshIsAttemptable` | src/atlas/execution/brackets.py:113-145 | Decisions never attempted meet every condition. |
| `Protocol.ReplayCanLoseTrack` | src/atlas/execution/ledger.py:69-109 | The end-to-end instance: recorded, crashed, reconciled, attempted again, unreconcilable. |
| `Unprotected.UnprotectedIff` | src/atlas/execution/brackets.py:3-5 | Cut short after n steps, a bracket leaves its position open with the exits never sent if and only if the entry filled and 4 ≤ n ≤ 9: from the opening to just before the pair is sent. |
| `Unprotected.ReconciliationLeavesItUnprotected` | src/atlas/execution/reconcile.py:64-76 | Reconciling then leaves the position open and closes the row of any exit that was recorded. |
| `Reconcile.Reconciler.RepairOpenOrders` | src/atlas/execution/reconcile.py:55-92 | Every locally open order is settled from the snapshot, and the report names exactly those that changed. |
| `Reconcile.Reconciler.CollectUnrecorded` | src/atlas/execution/reconcile.py:90-94 | Ids of the snapshot with the ATLAS prefix and no open local row, each once. |
| `Reconcile.Reconciler.Reconcile` | src/atlas/execution/reconcile.py:55-116 | The settled ledger, the exact report, and the halt: with any unknown order the switch ends armed, unless the composed reason exceeds 500 characters, which for full-length ids is more than eleven orders; then arming fails. |
| `LedgerFigures.SnapshotInFigures` | src/atlas/execution/reconcile.py:55-70 | An id is in the snapshot exactly when an entry carries it, and its last entry says its status. |
| `LedgerFigures.SettledInFigures` | src/atlas/execution/reconcile.py:41-95 | Only a submitted, new or partly filled order moves: to the snapshot's status, or closed when the snapshot does not list it; nothing else of any table changes. |
| `Reconcile.ReasonFitsIff` | src/atlas/models.py:140-147 | The composed halt reason fits its record if and only if there are at most eleven unknown orders, ids being 36 characters long. |
| `Reconcile.SecondReconcileCleanIff` | src/atlas/execution/reconcile.py:64-94 | After a reconciliation that found nothing unknown, the same snapshot repairs nothing if and only if it reports every locally open order under an open status. |
| `Ledgers.Ledger.RecordOrder` | src/atlas/execution/ledger.py:69-109 | Idempotent on the client order id: an existing row is kept. |
| `Ledgers.Ledger.RecordFill` | src/atlas/execution/ledger.py:145-188 | A fill of an unknown order is an error, a seen trade id changes nothing, another is appended. |
| `Ledgers.Ledger.Filled` | src/atlas/execution/ledger.py:190-198 | The sum of an order's recorded fills. |
| `Ledgers.Ledger.ClosePosition` | src/atlas/execution/ledger.py:232-254 | Unknown and already closed positions are errors; otherwise the close price and its signed result are recorded. |
| `LedgerFigures.CloseInFigures` | src/atlas/execution/ledger.py:232-254 | Closing records quantity times the distance as a gain for a long above its entry and a short below it; an unknown position and a second close are refused and change nothing; no other field or position moves. |
| `Ledgers.Ledger.LinkOrderToPosition` | src/atlas/execution/ledger.py:111-121 | Links an existing order and changes nothing else. |
| `Ledgers.Ledger.UpdateOrderStatus` | src/atlas/execution/ledger.py:136-143 | Restates an existing order's status and changes nothing else. |
| `Ledgers.Ledger.OpenPosition` | src/atlas/execution/ledger.py:202-230 | Adds one open position. |
| `Ingest.FillIngestor.CloseIfExitFilled` | src/atlas/execution/ingest.py:139-180 | Closes the linked open position of an exit that has filled its quantity, and only then; the already-closed error is unreachable. |
| `Ingest.FillIngestor.Ingest` | src/atlas/execution/ingest.py:73-137 | One batch: the ledger after delivering each trade, and the report's counts. |
| `LedgerFigures.DeliveryInFigures` | src/atlas/execution/ingest.py:98-180 | A delivery changes something if and only if it parses, names a recorded order and was not seen; it is then kept as reported, and closes at its own price exactly the open position whose linked stop or target has now filled its quantity. |
| `LedgerFigures.FilledInFigures` | src/atlas/execution/ledger.py:190-200 | What an order has filled is the sum of the quantities of its own fills. |
| `LedgerFigures.SummaryInFigures` | src/atlas/execution/ingest.py:73-137 | Every delivery is counted once, recorded ones are what the ledger gained, and the positions listed are exactly those the batch closed. |
| `IngestProperties.IngestedExactlyOnce` | src/atlas/execution/ingest.py:90-114 | However deliveries repeat and overlap, the ledger is that of delivering each trade once. |
| `IngestProperties.RedeliveryIsNoOp` | src/atlas/execution/ledger.py:145-188 | Delivering a batch again changes nothing. |
| `IngestProperties.OpenIffNotFilledAway` | src/atlas/execution/ingest.py:139-180 | After any deliveries, a position that was held is open if and only if none of its exits has filled its quantity. |
| `IngestProperties.DeliveryKeepsOpenMeansHeld` | src/atlas/execution/ingest.py:98-114 | One delivery keeps: an open position has no exit that filled it. |
| `IngestProperties.IngestKeepsOpenMeansHeld` | src/atlas/execution/ingest.py:73-137 | Any batch keeps it. |
| `IngestProperties.CrashBeforeCloseSticks` | src/atlas/execution/ingest.py:104-108 | A crash between recording a fill and closing its position leaves it open through every re-delivery, where the uninterrupted delivery closes it. |
| `IngestProperties.CrashBeforeCloseHarmlessIff` | src/atlas/execution/ingest.py:104-108 | Such a crash keeps every open position held if and only if the fill closes none, and then it is as if it had not happened. |
| `Polling.Cursor` | src/atlas/execution/ingest.py:56-69 | The highest numeric trade id recorded for the symbol. |
| `Polling.CursorIsHighest` | src/atlas/execution/ingest.py:56-69 | The cursor is attained by a fill of the symbol with a numeric id, none of which exceeds it, and is absent exactly when there is none. |
| `Polling.ParseOfDecimal` | src/atlas/execution/ingest.py:56-69 | Reading the decimal digits of a number gives the number. |
| `Polling.Poll` | src/atlas/execution/ingest.py:73-137 | One poll delivers the page after the cursor. |
| `Polling.CursorAfterPage` | src/atlas/execution/ingest.py:56-69 | After a page, the cursor is at its last trade that could be recorded. |
| `Polling.PollsDeliverInOrder` | src/atlas/execution/ingest.py:73-92 | From a recorded trade on, while every later trade can be recorded, n polls deliver exactly the next 1000·n trades, in order, none twice and none left out. |
| `Polling.UnrecordedAskedAgainIff` | src/atlas/execution/ingest.py:87-114 | A trade that could not be recorded is asked for again if and only if no later trade of its page was recorded. |
| `Polling.PollsStallIff` | src/atlas/execution/ingest.py:87-92 | Polling changes nothing, ever, if and only if nothing of the next page can be recorded. |
| `Polling.OlderTradesNeverAskedFor` | src/atlas/execution/ingest.py:87-92 | A ledger that starts without a trade of the symbol never asks for a trade before the most recent thousand, after any number of polls. |
| `KillSwitch.KillSwitch.Initialise` | src/atlas/killswitch.py:156-177 | Writes only when neither store can be read to hold state; the new stores are the commit step followed by the file step. |
| `KillSwitch.KillSwitch.Arm` | src/atlas/killswitch.py:179-202 | Both stores hold the armed record as asked, unless reason or actor is out of bounds, when nothing changes; the new stores are the commit step followed by the file step. |
| `KillSwitch.KillSwitch.Disarm` | src/atlas/killswitch.py:204-239 | Accepted exactly when confirmed, with a reason that is not blank and both texts within bounds, else nothing changes; then both stores hold the release as asked, which takes effect while both can be read; the new stores are the commit step followed by the file step. |
| `KillSwitch.KillSwitch.CheckCanEnter` | src/atlas/killswitch.py:241-248 | Entries are allowed exactly while both stores can be read and say so. |
| `KillSwitch.DisarmedOnlyWhenBothSaySo` | src/atlas/killswitch.py:103-149 | The effective state is released if and only if both stores are readable and both say so; while they agree the database's record stands, and otherwise the system's arm names the trouble. |
| `KillSwitch.ReleasedOnlyDeliberately` | src/atlas/killswitch.py:80-99 | Over every run with crashes between the writes and stores lost, unreadable, or readable again as they were: released implies both stores read so and the last commit was a confirmed disarm or an initialisation. |
| `KillSwitch.ArmHoldsUntilReleased` | src/atlas/killswitch.py:103-149 | From its database commit on, an arm holds through crashes and lost or unreadable stores until an accepted disarm or an initialisation that can read neither store. |
| `KillSwitch.InitialiseReleasesIff` | src/atlas/killswitch.py:156-177 | An initialisation releases an armed account if and only if neither store can be read at that moment. |
| `KillSwitch.ArmSticks` | src/atlas/killswitch.py:179-202 | While the database can be read, not even an initialisation undoes an arm, nor does any crash, file loss or refused disarm. |
| `KillSwitch.ArmSurvivesLostDatabase` | src/atlas/killswitch.py:103-149 | Even losing the database right after an arm leaves the account halted. |
| `KillSwitch.ArmTakesEffectIff` | src/atlas/models.py:140-147 | A released account is halted by an arm if and only if reason and actor fit their length bounds. |
| `AuditLog.AuditLog.Append` | src/atlas/audit.py:53-99 | One row with the number after the last stored one, linked to the head. |
| `AuditLog.AuditLog.VerifyChain` | src/atlas/audit.py:101-136 | Succeeds exactly for a chained log, with its length, and the first row then links to sixty-four zeros; otherwise names the first row out of place. |
| `AuditLog.AppendVerifiesIff` | src/atlas/audit.py:62-99 | A log verifies after an append if and only if it did before: appending heals no damage. |
| `AuditLog.EveryRunVerifies` | src/atlas/audit.py:53-99 | Every run of appends verifies. |
| `AuditLog.PrefixVerifies` | src/atlas/audit.py:101-136 | Every prefix of a verifying log verifies. |
| `AuditLog.HeadDeterminesLog` | src/atlas/audit.py:22-44 | Under an injective digest, verifying logs with the same head hash have the same length and events, and are identical when payloads are stored canonically: any edit, reorder or non-tail deletion fails or changes the head. |
| `AuditLog.RelaidPayloadStillVerifies` | src/atlas/audit.py:101-136 | The one exception: payload text that parses to the same value verifies unchanged. |
| `Klines.Fetch` | src/atlas/data/klines.py:123-177 | Terminates and returns exactly the first maxBars candles that have closed by now and by the end, from the start given or from the latest page. |
| `Klines.NewestFetchedIff` | src/atlas/data/klines.py:172-177 | The newest eligible candle is fetched if and only if no more are eligible than were asked for. |
| `Klines.FetchWithoutStartLags` | src/atlas/runtime/service.py:187 | Without a start, over a long history, the last candle of a fetch for m < 999 opens at least 999 − m intervals before the newest closed one. |
| `Klines.WantedIsExactlyEligible` | src/atlas/data/klines.py:149-163 | The candles kept are the eligible ones, each once, in opening order. |
| `Klines.FetchedIff` | src/atlas/data/klines.py:123-177 | Which candles a fetch returns, and that they ascend. |
| `Klines.FetchResumes` | src/atlas/data/klines.py:165-170 | A fetch resumed one interval after a full one continues it: together they are one larger fetch. |
| `Correlation.CauchySchwarz` | src/atlas/promotion/gate.py:59-65 | The squared covariation is at most the product of the variations, with equality exactly when the projection residual vanishes. |
| `Correlation.CorrelationBounded` | src/atlas/promotion/gate.py:52-65 | For all series the correlation lies in [-1, 1] and is symmetric. |
| `Correlation.PerfectIffOnALine` | src/atlas/promotion/gate.py:52-65 | Two series that vary have correlation ±1 if and only if their pairs lie on one line. |
| `Correlation.SelfCorrelation` | src/atlas/promotion/gate.py:52-65 | A series that varies correlates 1 with itself, a flat or short one 0. |
| `Correlation.CorrelationIgnoresScale` | src/atlas/promotion/gate.py:52-65 | Rescaling a series by a positive factor, or shifting it, changes no correlation. |
| `CorrelationFigures.CovariationInFigures` | src/atlas/promotion/gate.py:56-62 | The number of pairs times the covariation is that number times the sum of products less the product of the sums. |
| `CorrelationFigures.PearsonInFigures` | src/atlas/promotion/gate.py:52-65 | A correlation has the covariation's sign, and its square times both variations is the covariation's square; below two pairs, or for a flat series, it is zero. |
| `Correlation.EvaluatePromotion` | src/atlas/promotion/gate.py:72-93 | Eligible if and only if incubation diverged in no way and every live strategy is within the limit; one reason per breach, in order; the worst correlation is the maximum and lies in [0, 1]. |
| `Correlation.CopiesAreTooClose` | src/atlas/promotion/gate.py:80-91 | A rescaled copy of a live strategy whose returns vary is never eligible at a limit below one. |

## Left out

- Decimal context rounding: arithmetic is exact; `sqrt` is any positive root function.
- SQLite, JSON and SHA-256: tables are maps and sequences, a transaction is one step, digest and codec are parameters assumed injective and canonical where a theorem says so.
- Client order ids are an injective datatype of the decision, its side and a tag; clocks, UUIDs and audit timestamps are parameters.
- HTTP transports, signing, retries, unparseable exchange replies in mid-bracket, and the Telegram, dashboard, CLI and research planes.
- The bar guard object of the engine: the causality theorems cover every read, not only the engine's own.
- Audit events written by brackets, ingestion, reconciliation and the tick: only the log itself and the switch's use of it are modelled.
- A switch armed while a bracket runs is an answer of its two gates; nothing else runs concurrently with a bracket, as in the single execution process.
- Exchange holdings after a partially filled reversal, and an average price over several exit fills: the code tracks neither.
- The tick takes data validity, staleness, regime, filters, promotion multiplier and the reply of the bracket as observations; supervision and retirement after the entries are not part of this model.
- Upper-casing and stripping cover ASCII; the ledger's upper-casing of symbols is the caller's.
- `Klines.Fetch`: without a start the exchange is taken to serve its latest page; the repository does not say what it serves.
- `Protocol.EveryRunKeepsInvariant`: a bracket whose answer denies an order of it still resting does not begin in its runs, because there the property is false (`Reattempts.RestingOrderIsLost`).
- `Polling.Poll`: trade ids are unique across symbols, as the ledger's own duplicate check presumes; without a cursor the most recent page is served.
- Incubation's and promotion's table writes, selection gates, monitor rules, thresholds and calibration: single-branch checks that would add only easy members.
- `Sizing.PositionCapSlackAboveLowerBound` and `Sizing.AcceptedWithinUpperBound` assume a risk multiplier of at most one, as promotion produces; the band is computed for full risk.
