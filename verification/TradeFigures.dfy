/** Every trade of every run in figures: prices, fees and results written out from the bars and the costs. */
module TradeFigures {
  import opened Common
  import opened Market
  import opened Sizing
  import opened Trades
  import opened Backtest
  import opened BacktestProperties
  import Ev = Evaluator

  /** Entered at the open after the signal, on its side, at its levels, with slippage against the trader. */
  predicate EntersInFigures(costs: CostModel, sig: SignalMap, bars: seq<Kline>, t: Trade) {
    && 1 <= t.entryIndex <= t.exitIndex < |bars| && t.entryIndex - 1 in sig
    && var s, quote := sig[t.entryIndex - 1], bars[t.entryIndex].open;
       && t.side == s.side && t.stopPrice == s.stopPrice && t.targetPrice == s.targetPrice
       && (t.side == Long ==> t.entryPrice == quote * (1.0 + costs.slippageRate))
       && (t.side == Short ==> t.entryPrice == quote * (1.0 - costs.slippageRate))
  }

  /** The bar's range reaches the stop, or the target, from the side the position is on. */
  predicate ReachesStop(t: Trade, bar: Kline) {
    (t.side == Long && bar.low <= t.stopPrice) || (t.side == Short && bar.high >= t.stopPrice)
  }

  predicate ReachesTarget(t: Trade, bar: Kline) {
    (t.side == Long && bar.high >= t.targetPrice) || (t.side == Short && bar.low <= t.targetPrice)
  }

  /** No bar between entry and exit gave a reason to leave. */
  predicate HeldThrough(maxBars: int, bars: seq<Kline>, t: Trade)
    requires t.exitIndex < |bars|
  {
    forall j :: t.entryIndex < j < t.exitIndex ==>
      !ReachesStop(t, bars[j]) && !ReachesTarget(t, bars[j]) && j - t.entryIndex < maxBars
  }

  /** Left for the reason recorded, on the first bar that gives one; levels fill exactly, and any other exit crosses
      the spread the other way. */
  predicate LeavesInFigures(costs: CostModel, maxBars: int, bars: seq<Kline>, t: Trade)
    requires t.entryIndex <= t.exitIndex < |bars|
  {
    var bar, held := bars[t.exitIndex], t.exitIndex - t.entryIndex;
    && HeldThrough(maxBars, bars, t)
    && (t.exitReason == StopHit ==> 0 < held && ReachesStop(t, bar) && t.exitPrice == t.stopPrice)
    && (t.exitReason == TargetHit ==>
          0 < held && ReachesTarget(t, bar) && !ReachesStop(t, bar) && t.exitPrice == t.targetPrice)
    && (t.exitReason == TimeUp ==>
          0 < held && maxBars <= held && !ReachesStop(t, bar) && !ReachesTarget(t, bar))
    && (t.exitReason == EndOfData ==> t.exitIndex == |bars| - 1)
    && (t.exitReason == TimeUp || t.exitReason == EndOfData ==>
          && (t.side == Long ==> t.exitPrice == bar.close * (1.0 - costs.slippageRate))
          && (t.side == Short ==> t.exitPrice == bar.close * (1.0 + costs.slippageRate)))
    && t.entryTime == bar.openTime && t.exitTime == bar.closeTime
  }

  /** The result per unit times the quantity, less a fee on the money that changed hands at either end. */
  predicate MoneyInFigures(costs: CostModel, t: Trade) {
    && (t.side == Long ==> t.grossPnl == (t.exitPrice - t.entryPrice) * t.quantity)
    && (t.side == Short ==> t.grossPnl == (t.entryPrice - t.exitPrice) * t.quantity)
    && t.fees == t.quantity * t.entryPrice * costs.feeRate + t.exitPrice * t.quantity * costs.feeRate
    && t.netPnl == t.grossPnl - t.fees
  }

  predicate InFigures(setup: Setup, sig: SignalMap, bars: seq<Kline>, t: Trade) {
    && EntersInFigures(setup.costs, sig, bars, t)
    && LeavesInFigures(setup.costs, setup.maxBars, bars, t)
    && MoneyInFigures(setup.costs, t)
  }

  lemma ExitOf(setup: Setup, sig: SignalMap, bars: seq<Kline>, t: Trade) returns (p: Position, exit: Exit)
    requires ProperTrade(setup, sig, bars, t)
    ensures Signalled(sig, bars, t.entryIndex) && PositionOf(setup, sig, bars, t) == Some(p)
    ensures t == Close(p, t.exitIndex, bars[t.exitIndex], exit, setup.costs)
    ensures exit == if t.exitReason == EndOfData then Exit(bars[t.exitIndex].close, EndOfData)
                    else FirstTouchExit(sig[t.entryIndex - 1], bars[t.exitIndex])
  {
    hide Close, EntrySizing, Opened, MustExit, FirstTouchExit;
    p := PositionOf(setup, sig, bars, t).value;
    exit := if t.exitReason == EndOfData then Exit(bars[t.exitIndex].close, EndOfData)
            else FirstTouchExit(sig[t.entryIndex - 1], bars[t.exitIndex]);
  }

  /** What opening fixes of a position. */
  lemma OpenedInFigures(setup: Setup, sig: SignalMap, bars: seq<Kline>, t: Trade, p: Position)
    requires Signalled(sig, bars, t.entryIndex) && PositionOf(setup, sig, bars, t) == Some(p)
    ensures var s, quote, slip := sig[t.entryIndex - 1], bars[t.entryIndex].open, setup.costs.slippageRate;
      && p.entryIndex == t.entryIndex && p.side == s.side
      && p.stopPrice == s.stopPrice && p.targetPrice == s.targetPrice
      && p.entryPrice == (if s.side == Long then quote * (1.0 + slip) else quote * (1.0 - slip))
      && p.entryFee == p.quantity * p.entryPrice * setup.costs.feeRate
  {
    hide SizePosition, AbsOf, RiskBudget;
    var s := sig[t.entryIndex - 1];
    var r := EntryRequest(s, EquityBefore(setup, sig, bars, t.entryIndex), bars[t.entryIndex], setup.costs);
    AcceptedRespectsCaps(r, setup.policy, setup.filters);
  }

  lemma CloseInFigures(p: Position, index: nat, bar: Kline, exit: Exit, costs: CostModel)
    ensures var t := Close(p, index, bar, exit, costs);
      && t.entryIndex == p.entryIndex && t.exitIndex == index && t.exitReason == exit.reason
      && t.entryTime == bar.openTime && t.exitTime == bar.closeTime
      && t.side == p.side && t.quantity == p.quantity && t.entryPrice == p.entryPrice
      && t.stopPrice == p.stopPrice && t.targetPrice == p.targetPrice
      && t.exitPrice == (if exit.reason == StopHit || exit.reason == TargetHit then exit.price
                         else if p.side == Long then exit.price * (1.0 - costs.slippageRate)
                         else exit.price * (1.0 + costs.slippageRate))
      && t.grossPnl == (if p.side == Long then (t.exitPrice - t.entryPrice) * t.quantity
                        else (t.entryPrice - t.exitPrice) * t.quantity)
      && t.fees == p.entryFee + t.exitPrice * t.quantity * costs.feeRate
      && t.netPnl == t.grossPnl - t.fees
  {
  }

  /** Which level the bar of an exit reached. */
  lemma ExitTouch(bar: Kline, t: Trade, s: Signal)
    requires t.side == s.side && t.stopPrice == s.stopPrice && t.targetPrice == s.targetPrice
    requires t.exitReason == FirstTouchExit(s, bar).reason
    ensures t.exitReason == StopHit ==> ReachesStop(t, bar) && FirstTouchExit(s, bar).price == t.stopPrice
    ensures t.exitReason == TargetHit ==>
              ReachesTarget(t, bar) && !ReachesStop(t, bar) && FirstTouchExit(s, bar).price == t.targetPrice
    ensures t.exitReason == TimeUp ==>
              !ReachesStop(t, bar) && !ReachesTarget(t, bar) && FirstTouchExit(s, bar).price == bar.close
  {
  }

  lemma MoneyOf(setup: Setup, sig: SignalMap, bars: seq<Kline>, t: Trade, p: Position, exit: Exit)
    requires Signalled(sig, bars, t.entryIndex) && PositionOf(setup, sig, bars, t) == Some(p)
    requires t.exitIndex < |bars| && t == Close(p, t.exitIndex, bars[t.exitIndex], exit, setup.costs)
    ensures MoneyInFigures(setup.costs, t)
  {
    hide PositionOf, Close;
    OpenedInFigures(setup, sig, bars, t, p);
    CloseInFigures(p, t.exitIndex, bars[t.exitIndex], exit, setup.costs);
  }

  lemma EntryOf(setup: Setup, sig: SignalMap, bars: seq<Kline>, t: Trade, p: Position, exit: Exit)
    requires Signalled(sig, bars, t.entryIndex) && PositionOf(setup, sig, bars, t) == Some(p)
    requires t.entryIndex <= t.exitIndex < |bars| && t == Close(p, t.exitIndex, bars[t.exitIndex], exit, setup.costs)
    ensures EntersInFigures(setup.costs, sig, bars, t)
  {
    hide PositionOf, Close;
    OpenedInFigures(setup, sig, bars, t, p);
    CloseInFigures(p, t.exitIndex, bars[t.exitIndex], exit, setup.costs);
  }

  /** The price and the times of an exit. */
  predicate ExitFilled(costs: CostModel, bar: Kline, exit: Exit, t: Trade) {
    && t.exitReason == exit.reason && t.entryTime == bar.openTime && t.exitTime == bar.closeTime
    && (exit.reason == StopHit || exit.reason == TargetHit ==> t.exitPrice == exit.price)
    && (exit.reason == TimeUp || exit.reason == EndOfData ==>
          && (t.side == Long ==> t.exitPrice == exit.price * (1.0 - costs.slippageRate))
          && (t.side == Short ==> t.exitPrice == exit.price * (1.0 + costs.slippageRate)))
  }

  lemma CloseFills(p: Position, index: nat, bar: Kline, exit: Exit, costs: CostModel)
    ensures ExitFilled(costs, bar, exit, Close(p, index, bar, exit, costs))
  {
    hide Close;
    CloseInFigures(p, index, bar, exit, costs);
  }

  lemma LeavesOf(costs: CostModel, maxBars: int, bars: seq<Kline>, t: Trade, exit: Exit, s: Signal)
    requires t.entryIndex <= t.exitIndex < |bars| && HeldThrough(maxBars, bars, t)
    requires t.side == s.side && t.stopPrice == s.stopPrice && t.targetPrice == s.targetPrice
    requires ExitFilled(costs, bars[t.exitIndex], exit, t)
    requires exit == if t.exitReason == EndOfData then Exit(bars[t.exitIndex].close, EndOfData)
                     else FirstTouchExit(s, bars[t.exitIndex])
    requires t.exitReason != EndOfData ==> t.entryIndex < t.exitIndex
    requires t.exitReason == EndOfData ==> t.exitIndex == |bars| - 1
    requires t.exitReason == TimeUp ==> maxBars <= t.exitIndex - t.entryIndex
    ensures LeavesInFigures(costs, maxBars, bars, t)
  {
    hide ReachesStop, ReachesTarget, FirstTouchExit;
    if t.exitReason != EndOfData {
      ExitTouch(bars[t.exitIndex], t, s);
    }
  }

  lemma TradeInFigures(setup: Setup, sig: SignalMap, bars: seq<Kline>, t: Trade)
    requires ProperTrade(setup, sig, bars, t)
    ensures InFigures(setup, sig, bars, t)
  {
    var p, exit := ExitOf(setup, sig, bars, t);
    assert t.entryIndex <= t.exitIndex < |bars|;
    hide ProperTrade, PositionOf, Close, MoneyInFigures, LeavesInFigures, ExitFilled, FirstTouchExit, HeldThrough;
    EntryOf(setup, sig, bars, t, p, exit);
    MoneyOf(setup, sig, bars, t, p, exit);
    CloseFills(p, t.exitIndex, bars[t.exitIndex], exit, setup.costs);
    TouchesInFigures(setup, sig, bars, t);
    LeavesOf(setup.costs, setup.maxBars, bars, t, exit, sig[t.entryIndex - 1]);
  }

  /** The bars a trade was held through, and the one it left on. */
  lemma TouchesInFigures(setup: Setup, sig: SignalMap, bars: seq<Kline>, t: Trade)
    requires ProperTrade(setup, sig, bars, t)
    requires var s := sig[t.entryIndex - 1];
      t.side == s.side && t.stopPrice == s.stopPrice && t.targetPrice == s.targetPrice
    ensures HeldThrough(setup.maxBars, bars, t)
    ensures t.exitReason != EndOfData ==> t.entryIndex < t.exitIndex
    ensures t.exitReason == EndOfData ==> t.exitIndex == |bars| - 1
    ensures t.exitReason == TimeUp ==> setup.maxBars <= t.exitIndex - t.entryIndex
  {
    hide EntrySizing, Opened, FillPrice, FeeOn, Times;
    forall j | t.entryIndex < j < t.exitIndex
      ensures !ReachesStop(t, bars[j]) && !ReachesTarget(t, bars[j]) && j - t.entryIndex < setup.maxBars
    {
      assert !MustExit(setup, bars, t.entryIndex, sig[t.entryIndex - 1], j);
    }
  }

  /** Every trade of every run, from the bars, the signals and the costs alone. */
  lemma EveryTradeInFigures(setup: Setup, sig: SignalMap, bars: seq<Kline>, i: nat)
    requires i < |FinalState(setup, sig, bars).trades|
    ensures InFigures(setup, sig, bars, FinalState(setup, sig, bars).trades[i])
  {
    hide InFigures, ProperTrade, FinalState;
    TradesAreFirstTouchAndDisjoint(setup, sig, bars);
    TradeInFigures(setup, sig, bars, FinalState(setup, sig, bars).trades[i]);
  }

  /** Crossing the spread is never better than the quote: a long pays at least the open and a short gets at most it,
      and an exit that no level filled is no better than the close. */
  lemma NeverBetterThanQuoted(setup: Setup, sig: SignalMap, bars: seq<Kline>, i: nat)
    requires i < |FinalState(setup, sig, bars).trades| && setup.costs.slippageRate >= 0.0
    ensures var t := FinalState(setup, sig, bars).trades[i];
      && t.entryIndex <= t.exitIndex < |bars|
      && var open, close := bars[t.entryIndex].open, bars[t.exitIndex].close;
         && (t.side == Long ==> t.entryPrice >= open) && (t.side == Short ==> t.entryPrice <= open)
         && (t.exitReason == TimeUp || t.exitReason == EndOfData ==>
               (t.side == Long ==> t.exitPrice <= close) && (t.side == Short ==> t.exitPrice >= close))
  {
    EveryTradeInFigures(setup, sig, bars, i);
    hide FinalState;
    var t := FinalState(setup, sig, bars).trades[i];
    Slipped(bars[t.entryIndex].open, setup.costs.slippageRate);
    Slipped(bars[t.exitIndex].close, setup.costs.slippageRate);
  }

  lemma Slipped(quote: real, slip: real)
    requires quote > 0.0 && slip >= 0.0
    ensures quote * (1.0 - slip) <= quote <= quote * (1.0 + slip)
  {
    MulOrder(0.0, slip, quote);
    assert quote * (1.0 + slip) == quote + slip * quote;
    assert quote * (1.0 - slip) == quote - slip * quote;
  }

  /** The benchmark in figures: the change over the first close, less both costs of a round trip. */
  lemma BenchmarkInFigures(bars: seq<Kline>, costs: CostModel)
    ensures |bars| < 2 ==> BuyAndHoldReturn(bars, costs) == 0.0
    ensures |bars| >= 2 ==>
              var first, last := bars[0].close, bars[|bars| - 1].close;
              (BuyAndHoldReturn(bars, costs) + 2.0 * costs.feeRate + 2.0 * costs.slippageRate) * first == last - first
  {
    if |bars| >= 2 {
      var first, last := bars[0].close, bars[|bars| - 1].close;
      var gross := (last - first) / first;
      assert gross * first == last - first;
      assert BuyAndHoldReturn(bars, costs) + 2.0 * costs.feeRate + 2.0 * costs.slippageRate == gross;
    }
  }
}
