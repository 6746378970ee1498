/** The primary engine: a bar-by-bar state machine over signals that fill at the next bar's open. */
module Backtest {
  import opened Common
  import opened Market
  import opened Sizing
  import opened Trades
  import Ev = Evaluator
  import Stats

  datatype Position = Position(
    entryIndex: nat,
    side: Side,
    quantity: real,
    entryPrice: real,
    stopPrice: real,
    targetPrice: real,
    entryFee: real,
    wasCapped: bool)

  /** What a run is configured with, besides the strategy and the bars. */
  datatype Setup = Setup(
    policy: Policy,
    filters: Filters,
    costs: CostModel,
    startingEquity: real,
    maxBars: int)

  type SignalMap = map<nat, Signal>

  datatype EngineState = EngineState(
    equity: real,
    curve: seq<real>,
    trades: seq<Trade>,
    rejected: nat,
    position: Option<Position>,
    pending: Option<Signal>)

  datatype BacktestResult = BacktestResult(
    startingEquity: real,
    trades: seq<Trade>,
    curve: seq<real>,
    stats: Stats.BacktestStats,
    rejected: nat)

  function Lookup(sig: SignalMap, i: nat): Option<Signal> {
    if i in sig then Some(sig[i]) else None
  }

  /** One signal per bar; the first one raised wins. */
  function FirstSignals(signals: seq<Signal>): SignalMap {
    if signals == [] then map[]
    else
      var rest := FirstSignals(signals[..|signals| - 1]);
      var last := signals[|signals| - 1];
      if last.barIndex in rest then rest else rest[last.barIndex := last]
  }

  // ---------------------------------------------------------------- leaving a position

  predicate StopTouched(side: Side, stop: real, bar: Kline) {
    if side == Long then bar.low <= stop else bar.high >= stop
  }

  predicate TargetTouched(side: Side, target: real, bar: Kline) {
    if side == Long then bar.high >= target else bar.low <= target
  }

  datatype Exit = Exit(price: real, reason: ExitReason)

  /** Whether this bar closes the position and at what raw price. Never on the entry bar; a bar that
      touches both levels resolves to the stop. */
  function ResolveExit(p: Position, bar: Kline, index: nat, maxBars: int): Option<Exit> {
    if index == p.entryIndex then None
    else if StopTouched(p.side, p.stopPrice, bar) then Some(Exit(p.stopPrice, StopHit))
    else if TargetTouched(p.side, p.targetPrice, bar) then Some(Exit(p.targetPrice, TargetHit))
    else if index - p.entryIndex >= maxBars then Some(Exit(bar.close, TimeUp))
    else None
  }

  /** Stops and targets fill at their level; any other exit crosses the spread. The entry time that
      is recorded is the open time of the bar the position leaves on, not of the bar it entered on. */
  function Close(p: Position, index: nat, bar: Kline, exit: Exit, costs: CostModel): Trade {
    var exitPrice := if exit.reason == StopHit || exit.reason == TargetHit then exit.price
                     else FillPrice(costs, exit.price, p.side, false);
    var gross := Times(Gain(p.side, p.entryPrice, exitPrice), p.quantity);
    var exitFee := FeeOn(costs, Times(exitPrice, p.quantity));
    Trade(p.entryIndex, index, bar.openTime, bar.closeTime, p.side, p.quantity, p.entryPrice, exitPrice,
          p.stopPrice, p.targetPrice, gross, p.entryFee + exitFee, gross - p.entryFee - exitFee,
          exit.reason, p.wasCapped)
  }

  /** What the close adds to equity: the entry fee was charged when the position opened. */
  function CloseCredit(p: Position, t: Trade): real {
    t.netPnl + p.entryFee
  }

  // ---------------------------------------------------------------- one bar

  function EntryRequest(s: Signal, equity: real, bar: Kline, costs: CostModel): Request {
    Request(equity, equity, FillPrice(costs, bar.open, s.side, true), s.stopPrice, s.side, 0, 0.0, 1.0)
  }

  function EntrySizing(setup: Setup, s: Signal, equity: real, bar: Kline): SizingResult {
    SizePosition(EntryRequest(s, equity, bar, setup.costs), setup.policy, setup.filters)
  }

  function Opened(setup: Setup, s: Signal, index: nat, bar: Kline, sizing: SizingResult): Position
    requires sizing.Accepted?
  {
    Position(index, s.side, sizing.quantity, FillPrice(setup.costs, bar.open, s.side, true), s.stopPrice,
             s.targetPrice, FeeOn(setup.costs, sizing.notional), sizing.capped)
  }

  function FillStep(setup: Setup, bar: Kline, index: nat, st: EngineState): EngineState {
    if st.position.None? && st.pending.Some? then
      var s := st.pending.value;
      var sizing := EntrySizing(setup, s, st.equity, bar);
      if sizing.Accepted? then
        var p := Opened(setup, s, index, bar, sizing);
        st.(equity := st.equity - p.entryFee, position := Some(p), pending := None)
      else st.(rejected := st.rejected + 1, pending := None)
    else st
  }

  function ExitStep(setup: Setup, bar: Kline, index: nat, st: EngineState): EngineState {
    if st.position.None? then st
    else
      var exit := ResolveExit(st.position.value, bar, index, setup.maxBars);
      if exit.None? then st
      else
        var t := Close(st.position.value, index, bar, exit.value, setup.costs);
        st.(trades := st.trades + [t], equity := st.equity + CloseCredit(st.position.value, t), position := None)
  }

  function ArmStep(sig: SignalMap, index: nat, st: EngineState): EngineState {
    if st.position.None? && st.pending.None? && index in sig then st.(pending := Some(sig[index])) else st
  }

  function BarStep(setup: Setup, sig: SignalMap, bar: Kline, index: nat, st: EngineState): EngineState {
    var after := ArmStep(sig, index, ExitStep(setup, bar, index, FillStep(setup, bar, index, st)));
    after.(curve := after.curve + [after.equity])
  }

  // ---------------------------------------------------------------- a run

  /** The engine's state after the first `k` bars. */
  function Run(setup: Setup, sig: SignalMap, bars: seq<Kline>, k: nat): EngineState
    requires k <= |bars|
  {
    if k == 0 then EngineState(setup.startingEquity, [], [], 0, None, None)
    else BarStep(setup, sig, bars[k - 1], k - 1, Run(setup, sig, bars, k - 1))
  }

  /** Closes anything still open at the final close, with slippage. */
  function Finish(setup: Setup, bars: seq<Kline>, st: EngineState): EngineState
    requires st.position.Some? ==> bars != []
  {
    if st.position.None? then st
    else
      var last := |bars| - 1;
      var t := Close(st.position.value, last, bars[last], Exit(bars[last].close, EndOfData), setup.costs);
      var equity := st.equity + CloseCredit(st.position.value, t);
      st.(trades := st.trades + [t],
          equity := equity,
          curve := if st.curve == [] then [] else st.curve[|st.curve| - 1 := equity],
          position := None)
  }

  /** Nothing is open before the first bar. */
  lemma NothingOpenWithoutBars(setup: Setup, sig: SignalMap, bars: seq<Kline>)
    ensures Run(setup, sig, bars, |bars|).position.Some? ==> bars != []
  {
  }

  function FinalState(setup: Setup, sig: SignalMap, bars: seq<Kline>): EngineState {
    NothingOpenWithoutBars(setup, sig, bars);
    Finish(setup, bars, Run(setup, sig, bars, |bars|))
  }

  function BuyAndHoldReturn(bars: seq<Kline>, costs: CostModel): real {
    if |bars| < 2 then 0.0
    else
      var first, last := bars[0].close, bars[|bars| - 1].close;
      (last - first) / first - RoundTripRate(costs)
  }

  function ResultOf(setup: Setup, bars: seq<Kline>, st: EngineState): BacktestResult {
    BacktestResult(setup.startingEquity, st.trades, st.curve,
                   Stats.ComputeStats(st.trades, st.curve, setup.startingEquity, BuyAndHoldReturn(bars, setup.costs)),
                   st.rejected)
  }

  method CollectFirst(signals: seq<Signal>) returns (byBar: SignalMap)
    ensures byBar == FirstSignals(signals)
  {
    byBar := map[];
    for i := 0 to |signals|
      invariant byBar == FirstSignals(signals[..i])
    {
      if signals[i].barIndex !in byBar {
        byBar := byBar[signals[i].barIndex := signals[i]];
      }
      assert signals[..i + 1][..i] == signals[..i];
    }
    assert signals[..|signals|] == signals;
  }

  method RunBacktest(spec: Ev.StrategySpec, bars: seq<Kline>, setup: Setup) returns (r: BacktestResult)
    requires Ev.ValidSpec(spec) && setup.maxBars == spec.maxBarsInTrade
    ensures r == ResultOf(setup, bars, FinalState(setup, FirstSignals(Ev.Signals(spec, bars)), bars))
  {
    hide SizePosition, FillPrice, FeeOn, Gain, Times, Stats.ComputeStats, Ev.ValidSpec;
    var signals := Ev.Evaluate(spec, bars);
    var signalsByBar := CollectFirst(signals);

    var equity := setup.startingEquity;
    var curve: seq<real>, trades: seq<Trade>, rejected: nat := [], [], 0;
    var position: Option<Position>, pending: Option<Signal> := None, None;

    for index := 0 to |bars|
      invariant EngineState(equity, curve, trades, rejected, position, pending)
             == Run(setup, signalsByBar, bars, index)
    {
      var bar := bars[index];
      if position.None? && pending.Some? {
        var fillPrice := FillPrice(setup.costs, bar.open, pending.value.side, true);
        var sizing := SizePosition(
          Request(equity, equity, fillPrice, pending.value.stopPrice, pending.value.side, 0, 0.0, 1.0),
          setup.policy, setup.filters);
        if sizing.Accepted? {
          var entryFee := FeeOn(setup.costs, sizing.notional);
          equity := equity - entryFee;
          position := Some(Position(index, pending.value.side, sizing.quantity, fillPrice,
                                    pending.value.stopPrice, pending.value.targetPrice, entryFee, sizing.capped));
        } else {
          rejected := rejected + 1;
        }
        pending := None;
      }
      if position.Some? {
        var exit := ResolveExit(position.value, bar, index, setup.maxBars);
        if exit.Some? {
          var t := Close(position.value, index, bar, exit.value, setup.costs);
          trades := trades + [t];
          equity := equity + (t.grossPnl - (t.fees - position.value.entryFee));
          position := None;
        }
      }
      if position.None? && pending.None? && index in signalsByBar {
        pending := Some(signalsByBar[index]);
      }
      curve := curve + [equity];
    }

    NothingOpenWithoutBars(setup, signalsByBar, bars);
    if position.Some? {
      var last := |bars| - 1;
      var t := Close(position.value, last, bars[last], Exit(bars[last].close, EndOfData), setup.costs);
      trades := trades + [t];
      equity := equity + (t.grossPnl - (t.fees - position.value.entryFee));
      if curve != [] {
        curve := curve[|curve| - 1 := equity];
      }
    }
    var stats := Stats.ComputeStats(trades, curve, setup.startingEquity, BuyAndHoldReturn(bars, setup.costs));
    r := BacktestResult(setup.startingEquity, trades, curve, stats, rejected);
  }
}
