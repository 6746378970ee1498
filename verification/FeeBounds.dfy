/** Exactly which fee rates the floor under long-only equity tolerates. */
module FeeBounds {
  import opened Common
  import opened Market
  import opened Sizing
  import opened Trades
  import opened Backtest
  import opened BacktestRisk
  import opened Verifier
  import opened Equivalence
  import opened EagerStrategy
  import Ev = Evaluator

  // ---------------------------------------------------------------- one trade

  /** Equity after a long round trip that cost `paid` and brought `got`, both fees charged. */
  function AfterLong(costs: CostModel, before: real, paid: real, got: real): real {
    before - FeeOn(costs, paid) + (got - paid) - FeeOn(costs, got)
  }

  /** One trade leaves at least the fraction of equity the floor counts on. */
  predicate KeepsFloor(setup: Setup, before: real, paid: real, got: real) {
    AfterLong(setup.costs, before, paid, got) >= Times(before, 1.0 - WorstFraction(setup))
  }

  /** In money: what the sale brings after its fee covers what was paid beyond the cap, fee included. */
  lemma KeepsFloorIff(setup: Setup, before: real, paid: real, got: real)
    ensures var fee, cap := setup.costs.feeRate, Times(before, setup.policy.maxPositionPct);
      KeepsFloor(setup, before, paid, got) <==> Times(got, 1.0 - fee) >= Times(paid - cap, 1.0 + fee)
  {
    var fee, pct := setup.costs.feeRate, setup.policy.maxPositionPct;
    var cap := before * pct;
    Spread(got, fee);
    Spread(paid - cap, fee);
    assert (paid - cap) * fee == paid * fee - cap * fee;
    assert before * (1.0 - pct * (1.0 + fee)) == before - before * (pct * (1.0 + fee));
    assert before * (pct * (1.0 + fee)) == cap * (1.0 + fee);
    Spread(cap, fee);
  }

  lemma Spread(x: real, fee: real)
    ensures x * (1.0 - fee) == x - x * fee && x * (1.0 + fee) == x + x * fee
  {
  }

  // ---------------------------------------------------------------- a trade of the engine

  /** A long position as the engine opens it, its entry fee already charged. */
  predicate LongPosition(costs: CostModel, p: Position) {
    p.side == Long && p.quantity > 0.0 && p.entryFee == FeeOn(costs, Times(p.quantity, p.entryPrice))
  }

  /** Equity once the engine has closed the position, from the equity before it was opened. */
  function AfterClose(before: real, p: Position, t: Trade): real {
    before - p.entryFee + CloseCredit(p, t)
  }

  /** The closed trade leaves at least the fraction of equity the floor counts on. */
  predicate TradeKeepsFloor(setup: Setup, before: real, p: Position, t: Trade) {
    AfterClose(before, p, t) >= Times(before, 1.0 - WorstFraction(setup))
  }

  lemma CloseIsAfterLong(setup: Setup, before: real, p: Position, index: nat, bar: Kline, exit: Exit)
    requires LongPosition(setup.costs, p)
    ensures var t := Close(p, index, bar, exit, setup.costs);
      AfterClose(before, p, t)
      == AfterLong(setup.costs, before, Times(p.quantity, p.entryPrice), Times(t.exitPrice, p.quantity))
  {
    hide FeeOn, FillPrice;
    var t := Close(p, index, bar, exit, setup.costs);
    GainInMoney(p.entryPrice, t.exitPrice, p.quantity);
  }

  lemma GainInMoney(entry: real, exit: real, quantity: real)
    ensures Times(Gain(Long, entry, exit), quantity) == Times(exit, quantity) - Times(quantity, entry)
  {
    assert (exit - entry) * quantity == exit * quantity - quantity * entry;
  }

  /** A long trade of the engine keeps the floor exactly when the sale less its fee covers what was paid beyond
      the cap with its fee. */
  lemma TradeKeepsFloorIff(setup: Setup, before: real, p: Position, index: nat, bar: Kline, exit: Exit)
    requires LongPosition(setup.costs, p)
    ensures var t := Close(p, index, bar, exit, setup.costs);
      var fee, cap := setup.costs.feeRate, Times(before, setup.policy.maxPositionPct);
      var paid, got := Times(p.quantity, p.entryPrice), Times(t.exitPrice, p.quantity);
      && (TradeKeepsFloor(setup, before, p, t) <==> KeepsFloor(setup, before, paid, got))
      && (TradeKeepsFloor(setup, before, p, t) <==> Times(got, 1.0 - fee) >= Times(paid - cap, 1.0 + fee))
  {
    hide Times, Close, AfterLong, AfterClose, WorstFraction;
    var t := Close(p, index, bar, exit, setup.costs);
    CloseIsAfterLong(setup, before, p, index, bar, exit);
    KeepsFloorIff(setup, before, Times(p.quantity, p.entryPrice), Times(t.exitPrice, p.quantity));
  }

  /** A long trade sized at the cap and sold at a positive price keeps the floor exactly when the fee does not
      exceed the money it is charged on. */
  lemma AtTheCapIff(setup: Setup, before: real, p: Position, index: nat, bar: Kline, exit: Exit)
    requires LongPosition(setup.costs, p)
             && Times(p.quantity, p.entryPrice) == Times(before, setup.policy.maxPositionPct)
    requires Close(p, index, bar, exit, setup.costs).exitPrice > 0.0
    ensures TradeKeepsFloor(setup, before, p, Close(p, index, bar, exit, setup.costs)) <==> setup.costs.feeRate <= 1.0
  {
    hide Close, TradeKeepsFloor, KeepsFloor, Times;
    var fee, got := setup.costs.feeRate, Times(Close(p, index, bar, exit, setup.costs).exitPrice, p.quantity);
    TradeKeepsFloorIff(setup, before, p, index, bar, exit);
    TimesPositive(Close(p, index, bar, exit, setup.costs).exitPrice, p.quantity);
    SaleAtTheCap(got, fee);
  }

  lemma SaleAtTheCap(got: real, fee: real)
    requires got > 0.0
    ensures Times(got, 1.0 - fee) >= Times(0.0, 1.0 + fee) <==> fee <= 1.0
  {
    if fee <= 1.0 {
      MulOrder(0.0, 1.0 - fee, got);
    } else {
      MulStrict(1.0 - fee, 0.0, got);
    }
  }

  /** Every long trade of the engine sized within the cap and sold at a positive price, wherever it leaves. */
  ghost predicate EveryTradeKeepsFloor(setup: Setup, before: real) {
    forall p: Position, index: nat, bar: Kline, exit: Exit ::
      && LongPosition(setup.costs, p)
      && 0.0 < Times(p.quantity, p.entryPrice) <= Times(before, setup.policy.maxPositionPct)
      && Close(p, index, bar, exit, setup.costs).exitPrice > 0.0
      ==> TradeKeepsFloor(setup, before, p, Close(p, index, bar, exit, setup.costs))
  }

  /** One unit, bought and sold at the given prices. */
  function Unit(costs: CostModel, paid: real): Position {
    Position(0, Long, 1.0, paid, 1.0, 1.0, FeeOn(costs, Times(1.0, paid)), false)
  }

  const ANY_BAR: Kline := Candle(0, 1, 1.0, 1.0, 1.0, 1.0, 0.0)

  lemma UnitTrade(setup: Setup, paid: real, got: real)
    ensures LongPosition(setup.costs, Unit(setup.costs, paid))
    ensures Times(1.0, paid) == paid && Times(got, 1.0) == got
    ensures Close(Unit(setup.costs, paid), 1, ANY_BAR, Exit(got, StopHit), setup.costs).exitPrice == got
  {
  }

  /** Every long trade within the cap keeps the floor if and only if the fee rate lies between -1 and 1: above, a
      sale costs more than it brings; below, a trade smaller than the cap forgoes a rebate the floor counts on. */
  lemma EveryTradeKeepsFloorIff(setup: Setup, before: real)
    requires before > 0.0 && setup.policy.maxPositionPct > 0.0
    ensures EveryTradeKeepsFloor(setup, before) <==> -1.0 <= setup.costs.feeRate <= 1.0
  {
    hide TradeKeepsFloor, KeepsFloor, Times, Close, LongPosition, Unit;
    var fee, cap := setup.costs.feeRate, Times(before, setup.policy.maxPositionPct);
    TimesPositive(before, setup.policy.maxPositionPct);
    if -1.0 <= fee <= 1.0 {
      forall p: Position, index: nat, bar: Kline, exit: Exit
        | && LongPosition(setup.costs, p)
          && 0.0 < Times(p.quantity, p.entryPrice) <= cap
          && Close(p, index, bar, exit, setup.costs).exitPrice > 0.0
        ensures TradeKeepsFloor(setup, before, p, Close(p, index, bar, exit, setup.costs))
      {
        InRangeTrade(setup, before, p, index, bar, exit);
      }
    } else {
      var paid, got := FailingTrade(cap, fee);
      UnitTrade(setup, paid, got);
      UnitFails(setup, before, paid, got);
    }
  }

  lemma InRangeTrade(setup: Setup, before: real, p: Position, index: nat, bar: Kline, exit: Exit)
    requires LongPosition(setup.costs, p) && -1.0 <= setup.costs.feeRate <= 1.0
    requires Times(p.quantity, p.entryPrice) <= Times(before, setup.policy.maxPositionPct)
    requires Close(p, index, bar, exit, setup.costs).exitPrice > 0.0
    ensures TradeKeepsFloor(setup, before, p, Close(p, index, bar, exit, setup.costs))
  {
    hide TradeKeepsFloor, KeepsFloor, Times, Close;
    var sold := Close(p, index, bar, exit, setup.costs).exitPrice;
    TradeKeepsFloorIff(setup, before, p, index, bar, exit);
    TimesPositive(sold, p.quantity);
    InRangeKeeps(Times(before, setup.policy.maxPositionPct), setup.costs.feeRate, Times(p.quantity, p.entryPrice),
                 Times(sold, p.quantity));
  }

  /** A purchase within the cap and a sale that break the floor at a fee rate out of range. */
  lemma FailingTrade(cap: real, fee: real) returns (paid: real, got: real)
    requires cap > 0.0 && !(-1.0 <= fee <= 1.0)
    ensures 0.0 < paid <= cap && 0.0 < got && Times(got, 1.0 - fee) < Times(paid - cap, 1.0 + fee)
  {
    if fee > 1.0 {
      paid, got := cap, 1.0;
    } else {
      paid := cap / 2.0;
      got := SmallSale(cap, fee);
    }
  }

  lemma UnitFails(setup: Setup, before: real, paid: real, got: real)
    requires before > 0.0 && 0.0 < paid <= Times(before, setup.policy.maxPositionPct) && 0.0 < got
    requires Times(got, 1.0 - setup.costs.feeRate)
             < Times(paid - Times(before, setup.policy.maxPositionPct), 1.0 + setup.costs.feeRate)
    ensures !EveryTradeKeepsFloor(setup, before)
  {
    hide TradeKeepsFloor, KeepsFloor, Times, Close, LongPosition;
    var p, exit := Unit(setup.costs, paid), Exit(got, StopHit);
    UnitTrade(setup, paid, got);
    TradeKeepsFloorIff(setup, before, p, 1, ANY_BAR, exit);
    assert !TradeKeepsFloor(setup, before, p, Close(p, 1, ANY_BAR, exit, setup.costs));
  }

  lemma InRangeKeeps(cap: real, fee: real, paid: real, got: real)
    requires -1.0 <= fee <= 1.0 && paid <= cap && 0.0 < got
    ensures Times(got, 1.0 - fee) >= Times(paid - cap, 1.0 + fee)
  {
    TimesMonotone(0.0, got, 1.0 - fee);
    TimesMonotone(paid - cap, 0.0, 1.0 + fee);
  }

  /** A sale too small to make up for half a cap's missing rebate. */
  lemma SmallSale(cap: real, fee: real) returns (got: real)
    requires cap > 0.0 && fee < -1.0
    ensures got > 0.0 && Times(got, 1.0 - fee) < Times(cap / 2.0 - cap, 1.0 + fee)
  {
    var missing := (cap / 2.0) * (-1.0 - fee);
    TimesPositive(cap / 2.0, -1.0 - fee);
    got := missing / 2.0 / (1.0 - fee);
    assert got * (1.0 - fee) == missing / 2.0;
    assert (cap / 2.0 - cap) * (1.0 + fee) == missing;
  }

  // ---------------------------------------------------------------- one run

  /** A fee of three times the notional; the cap still leaves a fifth of the equity after a total loss. */
  const COSTLY := Setup(Policy(0.02, 0.2, 1.0, 1), Filters(0.0, 0.0, 0.0, 0.0), CostModel(3.0, 0.0), 100.0, 10)

  const LEVEL_BARS: seq<Kline> := [
    Candle(0, 1, 100.0, 100.0, 100.0, 100.0, 0.0),
    Candle(1, 2, 100.0, 100.0, 100.0, 100.0, 0.0)]

  lemma FirstOfTwo(p: Signal, q: Signal)
    requires p.barIndex == 0 && q.barIndex == 1
    ensures FirstSignals([p, q]) == map[0 := p, 1 := q]
  {
    assert [p, q][..1] == [p] && [p][..0] == [];
    assert FirstSignals([p]) == map[0 := p];
  }

  lemma CostlySizing(s: Signal)
    requires s == Signal(0, Long, 100.0, 90.0, 110.0)
    ensures EntrySizing(COSTLY, s, 100.0, LEVEL_BARS[1]) == Accepted(0.2, 20.0, 2.0, false)
  {
    var r := EntryRequest(s, 100.0, LEVEL_BARS[1], COSTLY.costs);
    assert r.entryPrice == 100.0;
    assert Guard(r, COSTLY.policy) == None;
    assert StopDistance(r) == 0.1;
    assert NotionalByRisk(r, COSTLY.policy) == 20.0;
  }

  lemma CostlyTrip(s: Signal)
    requires s == Signal(0, Long, 100.0, 90.0, 110.0)
    ensures TripOf(COSTLY, LEVEL_BARS, 0, s, Accepted(0.2, 20.0, 2.0, false))
            == RoundTrip(1, 1, Long, 0.2, 100.0, 100.0)
    ensures TripResult(COSTLY.costs, RoundTrip(1, 1, Long, 0.2, 100.0, 100.0), 20.0) == -120.0
  {
    assert ScanFrom(LEVEL_BARS, 1, s, 10, 2) == StillOpen;
  }

  lemma NoSlipNoGap(costs: CostModel, bars: seq<Kline>, trades: seq<Trade>)
    requires costs.slippageRate == 0.0
    ensures FinalGap(costs, bars, trades) == 0.0
  {
  }

  /** A long-only backtest whose fee exceeds the money changing hands falls through the floor and below zero,
      although slippage and the position cap are what the floor asks for. */
  lemma HighFeeBreaksFloor()
    ensures Ev.ValidSpec(EagerSpec("BTCUSDT"))
    ensures COSTLY.costs.slippageRate < 1.0 && WorstFraction(COSTLY) < 1.0
    ensures var end := FinalState(COSTLY, FirstSignals(Ev.Signals(EagerSpec("BTCUSDT"), LEVEL_BARS)), LEVEL_BARS);
      |end.trades| == 1 && end.equity == -20.0 && Floor(COSTLY, 1) == 20.0
  {
    hide FinalState, EntrySizing, TripOf, TripResult, Ev.Signals, FinalGap;
    EagerOverTwoBars("BTCUSDT", LEVEL_BARS);
    var s := EagerSignal(LEVEL_BARS, 0);
    FirstOfTwo(s, EagerSignal(LEVEL_BARS, 1));
    var sig := FirstSignals(Ev.Signals(EagerSpec("BTCUSDT"), LEVEL_BARS));
    CostlySizing(s);
    CostlyTrip(s);
    ReplayTakes(COSTLY, sig, LEVEL_BARS, 0, 100.0);
    EnginesAgreeOnMap(COSTLY, sig, LEVEL_BARS);
    NoSlipNoGap(COSTLY.costs, LEVEL_BARS, FinalState(COSTLY, sig, LEVEL_BARS).trades);
    assert Power(1.0 - WorstFraction(COSTLY), 0) == 1.0;
  }
}
