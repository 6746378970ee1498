/** A run that barely moved: both engines are right, and the default tolerance calls one of them defective. */
module NearFlatRun {
  import opened Common
  import opened Market
  import opened Sizing
  import opened Trades
  import opened Backtest
  import opened BacktestProperties
  import opened Verifier
  import opened Equivalence
  import opened EagerStrategy
  import opened FeeBounds
  import Compare
  import Ev = Evaluator
  import Stats

  /** One percent slippage and no fee; the stop distance makes one unit the risk-sized quantity. */
  const SLIPPING := Setup(Policy(0.011, 1.0, 1.0, 1), Filters(0.0, 0.0, 0.0, 0.0), CostModel(0.0, 0.01), 1000.0, 10)

  const RISING_BARS: seq<Kline> := [
    Candle(0, 1, 100.0, 100.0, 100.0, 100.0, 0.0),
    Candle(1, 2, 100.0, 101.5, 100.0, 101.5, 0.0)]

  const FIRST_SIGNAL := Signal(0, Long, 100.0, 90.0, 110.0)

  lemma EagerOverRisingBars()
    ensures Ev.ValidSpec(EagerSpec("BTCUSDT"))
    ensures var signals := Ev.Signals(EagerSpec("BTCUSDT"), RISING_BARS);
      FirstSignals(signals) == map[0 := FIRST_SIGNAL, 1 := EagerSignal(RISING_BARS, 1)] && OneSignalPerBar(signals)
  {
    EagerOverTwoBars("BTCUSDT", RISING_BARS);
    FirstOfTwo(EagerSignal(RISING_BARS, 0), EagerSignal(RISING_BARS, 1));
    hide EagerSpec, Ev.Signals;
    assert EagerSignal(RISING_BARS, 0) == FIRST_SIGNAL;
  }

  lemma OneUnit()
    ensures EntrySizing(SLIPPING, FIRST_SIGNAL, 1000.0, RISING_BARS[1]) == Accepted(1.0, 101.0, 11.0, false)
  {
    var r := EntryRequest(FIRST_SIGNAL, 1000.0, RISING_BARS[1], SLIPPING.costs);
    assert r.entryPrice == 101.0;
    assert Guard(r, SLIPPING.policy) == None;
    assert StopDistance(r) == 11.0 / 101.0;
    assert NotionalByRisk(r, SLIPPING.policy) == 101.0;
  }

  lemma UnitTrip()
    ensures TripOf(SLIPPING, RISING_BARS, 0, FIRST_SIGNAL, Accepted(1.0, 101.0, 11.0, false))
         == RoundTrip(1, 1, Long, 1.0, 101.0, 101.5)
    ensures TripResult(SLIPPING.costs, RoundTrip(1, 1, Long, 1.0, 101.0, 101.5), 101.0) == 0.5
  {
    assert ScanFrom(RISING_BARS, 1, FIRST_SIGNAL, 10, 2) == StillOpen;
  }

  lemma GapOfUnit(t: Trade)
    requires t.side == Long && t.quantity == 1.0 && t.exitReason == EndOfData
    ensures FinalGap(SLIPPING.costs, RISING_BARS, [t]) == 1.015
  {
  }

  /** Nothing leaves on its entry bar but a position the end of the data closes. */
  lemma SameBarIsForced(sig: SignalMap, t: Trade)
    requires ProperTrade(SLIPPING, sig, RISING_BARS, t) && t.exitIndex == t.entryIndex
    ensures t.exitReason == EndOfData
  {
  }

  /** The engines make the same trade and differ by exactly the slippage of its forced close, 1.015, and yet the
      comparison at the default tolerance fails. */
  lemma NearFlatRunIsFlagged()
    ensures Ev.ValidSpec(EagerSpec("BTCUSDT")) && OneSignalPerBar(Ev.Signals(EagerSpec("BTCUSDT"), RISING_BARS))
    ensures var sig := FirstSignals(Ev.Signals(EagerSpec("BTCUSDT"), RISING_BARS));
      var primary := FinalState(SLIPPING, sig, RISING_BARS);
      var verifier := Replay(SLIPPING, sig, RISING_BARS, 0, 1000.0);
      && SameTrips(SLIPPING.costs, primary.trades, verifier.trips)
      && primary.equity == 999.485 && verifier.equity == 1000.5
      && Compare.RelativeDelta(Stats.NetReturn(primary.equity, 1000.0), Stats.NetReturn(verifier.equity, 1000.0))
         > Compare.NET_RETURN_TOLERANCE
  {
    EagerOverRisingBars();
    var sig := FirstSignals(Ev.Signals(EagerSpec("BTCUSDT"), RISING_BARS));
    hide FinalState, EntrySizing, TripOf, TripResult, Ev.Signals, FinalGap, Compare.RelativeDelta, Stats.NetReturn;
    OneUnit();
    UnitTrip();
    ReplayTakes(SLIPPING, sig, RISING_BARS, 0, 1000.0);
    EnginesAgreeOnMap(SLIPPING, sig, RISING_BARS);
    var primary := FinalState(SLIPPING, sig, RISING_BARS);
    var t := primary.trades[0];
    assert primary.trades == [t];
    TradesAreFirstTouchAndDisjoint(SLIPPING, sig, RISING_BARS);
    SameBarIsForced(sig, t);
    GapOfUnit(t);
    Compare.ReturnsPassIff(999.485, 1000.5, 1000.0, Compare.NET_RETURN_TOLERANCE);
  }
}
