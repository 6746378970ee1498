/** A concrete history on which the two engines disagree: two rules fire on the same bar. */
module EngineCounterexample {
  import opened Common
  import opened Market
  import opened Sizing
  import opened Trades
  import opened Backtest
  import opened Verifier
  import opened Equivalence
  import Ev = Evaluator

  const ALWAYS := Ev.Condition(Ev.Price(Ev.ClosePrice), Ev.Gt, Ev.Constant(0.0))

  /** Goes long and short on every bar, a tenth away either way. */
  const BOTH_WAYS := Ev.StrategySpec(
    "BTCUSDT", [], [Ev.EntryRule(Long, [ALWAYS]), Ev.EntryRule(Short, [ALWAYS])],
    Ev.PercentStop(0.1), Ev.PercentTarget(0.1), 10)

  const TWO_BARS: seq<Kline> := [
    Candle(0, 1, 100.0, 100.0, 100.0, 100.0, 0.0),
    Candle(1, 2, 100.0, 101.0, 100.0, 101.0, 0.0)]

  /** No costs, no step grid, no minimum: nothing but the choice of signal separates the engines. */
  const FREE := Setup(Policy(0.01, 1.0, 1.0, 1), Filters(0.0, 0.0, 0.0, 0.0), CostModel(0.0, 0.0), 100.0, 10)

  lemma SpecIsValid()
    ensures Ev.ValidSpec(BOTH_WAYS)
  {
    assert Ev.RuleKnown([], BOTH_WAYS.entries[0]) && Ev.RuleKnown([], BOTH_WAYS.entries[1]);
  }

  const LONG_SIGNAL := Signal(0, Long, 100.0, 90.0, 110.0)
  const SHORT_SIGNAL := Signal(0, Short, 100.0, 110.0, 90.0)

  lemma BarFires(i: nat)
    requires i < 2
    ensures Ev.SpecKnown(BOTH_WAYS, map[])
    ensures var c := TWO_BARS[i].close;
      Ev.BarSignals(BOTH_WAYS, 2, i, TWO_BARS, map[])
      == [Signal(i, Long, c, c - c * 0.1, c + c * 0.1), Signal(i, Short, c, c + c * 0.1, c - c * 0.1)]
  {
    var c := TWO_BARS[i].close;
    assert forall e :: 0 <= e < 2 ==> Ev.RuleComputed(BOTH_WAYS.entries[e], map[]);
    var long, short := BOTH_WAYS.entries[0], BOTH_WAYS.entries[1];
    assert Ev.Holds(ALWAYS, i, TWO_BARS, map[]);
    assert Ev.RuleSignal(BOTH_WAYS, long, i, TWO_BARS, map[]) == Some(Signal(i, Long, c, c - c * 0.1, c + c * 0.1));
    assert Ev.RuleSignal(BOTH_WAYS, short, i, TWO_BARS, map[]) == Some(Signal(i, Short, c, c + c * 0.1, c - c * 0.1));
    assert Ev.BarSignals(BOTH_WAYS, 0, i, TWO_BARS, map[]) == [];
    assert Ev.BarSignals(BOTH_WAYS, 1, i, TWO_BARS, map[]) == [Signal(i, Long, c, c - c * 0.1, c + c * 0.1)];
  }

  /** Each engine keeps a different signal of bar 0. */
  lemma KeptSignals()
    ensures Ev.ValidSpec(BOTH_WAYS)
    ensures 0 in FirstSignals(Ev.Signals(BOTH_WAYS, TWO_BARS))
         && FirstSignals(Ev.Signals(BOTH_WAYS, TWO_BARS))[0] == LONG_SIGNAL
    ensures 0 in LastSignals(Ev.Signals(BOTH_WAYS, TWO_BARS))
         && LastSignals(Ev.Signals(BOTH_WAYS, TWO_BARS))[0] == SHORT_SIGNAL
  {
    SpecIsValid();
    BarFires(0);
    BarFires(1);
    var a, b := Ev.BarSignals(BOTH_WAYS, 2, 0, TWO_BARS, map[]), Ev.BarSignals(BOTH_WAYS, 2, 1, TWO_BARS, map[]);
    assert Ev.SignalsOf(BOTH_WAYS, 0, TWO_BARS, map[]) == [];
    assert Ev.SignalsOf(BOTH_WAYS, 1, TWO_BARS, map[]) == a;
    assert Ev.Signals(BOTH_WAYS, TWO_BARS) == a + b == [a[0], a[1], b[0], b[1]];
    KeptOfFour(a[0], a[1], b[0], b[1]);
  }

  /** What each engine keeps of two signals on each of two bars. */
  lemma KeptOfFour(p: Signal, q: Signal, u: Signal, v: Signal)
    requires p.barIndex == q.barIndex == 0 && u.barIndex == v.barIndex == 1
    ensures FirstSignals([p, q, u, v]) == map[0 := p, 1 := u]
    ensures LastSignals([p, q, u, v]) == map[0 := q, 1 := v]
  {
    assert FirstSignals([]) == LastSignals([]) == map[];
    KeptNext([], p);
    KeptNext([p], q);
    KeptNext([p, q], u);
    KeptNext([p, q, u], v);
    assert [] + [p] == [p] && [p] + [q] == [p, q] && [p, q] + [u] == [p, q, u] && [p, q, u] + [v] == [p, q, u, v];
  }

  lemma KeptNext(earlier: seq<Signal>, s: Signal)
    ensures FirstSignals(earlier + [s])
         == if s.barIndex in FirstSignals(earlier) then FirstSignals(earlier)
           else FirstSignals(earlier)[s.barIndex := s]
    ensures LastSignals(earlier + [s]) == LastSignals(earlier)[s.barIndex := s]
  {
    assert (earlier + [s])[..|earlier|] == earlier;
  }

  lemma TenthAtRisk(s: Signal)
    requires s == LONG_SIGNAL || s == SHORT_SIGNAL
    ensures EntrySizing(FREE, s, 100.0, TWO_BARS[1]) == Accepted(0.1, 10.0, 1.0, false)
  {
    var r := EntryRequest(s, 100.0, TWO_BARS[1], FREE.costs);
    assert r.entryPrice == 100.0;
    assert Guard(r, FREE.policy) == None;
    assert StopDistance(r) == 0.1;
    assert NotionalByRisk(r, FREE.policy) == 10.0;
  }

  /** The primary ends with a profit and the verifier with a loss, on the same spec, bars and costs. */
  lemma TwoSignalsOnABarDisagree()
    ensures Ev.ValidSpec(BOTH_WAYS) && !OneSignalPerBar(Ev.Signals(BOTH_WAYS, TWO_BARS))
    ensures FinalState(FREE, FirstSignals(Ev.Signals(BOTH_WAYS, TWO_BARS)), TWO_BARS).equity == 100.1
    ensures Replay(FREE, LastSignals(Ev.Signals(BOTH_WAYS, TWO_BARS)), TWO_BARS, 0, 100.0).equity == 99.9
  {
    hide FinalState, FinalGap, SameTrips, EntrySizing, DistinctOnABar, Ev.Signals;
    KeptSignals();
    var signals := Ev.Signals(BOTH_WAYS, TWO_BARS);
    Ev.SignalsChronological(BOTH_WAYS, TWO_BARS);
    KeptSignalsAgreeIff(signals);
    BookedEquity(FirstSignals(signals), LONG_SIGNAL);
    BookedEquity(LastSignals(signals), SHORT_SIGNAL);
    EnginesAgreeOnMap(FREE, FirstSignals(signals), TWO_BARS);
    NoGap(FREE.costs, TWO_BARS, FinalState(FREE, FirstSignals(signals), TWO_BARS).trades);
  }

  lemma NoGap(costs: CostModel, bars: seq<Kline>, trades: seq<Trade>)
    requires costs == CostModel(0.0, 0.0)
    ensures FinalGap(costs, bars, trades) == 0.0
  {
  }

  lemma TripBooked(s: Signal)
    requires s == LONG_SIGNAL || s == SHORT_SIGNAL
    ensures TripOf(FREE, TWO_BARS, 0, s, Accepted(0.1, 10.0, 1.0, false)) == RoundTrip(1, 1, s.side, 0.1, 100.0, 101.0)
    ensures TripResult(FREE.costs, RoundTrip(1, 1, s.side, 0.1, 100.0, 101.0), 10.0)
         == if s == LONG_SIGNAL then 0.1 else -0.1
  {
    assert ScanFrom(TWO_BARS, 1, s, 10, 2) == StillOpen;
  }

  lemma BookedEquity(sig: SignalMap, s: Signal)
    requires s == LONG_SIGNAL || s == SHORT_SIGNAL
    requires 0 in sig && sig[0] == s
    ensures Replay(FREE, sig, TWO_BARS, 0, 100.0).equity == if s == LONG_SIGNAL then 100.1 else 99.9
  {
    hide TripOf, TripResult, EntrySizing;
    TenthAtRisk(s);
    TripBooked(s);
    ReplayTakes(FREE, sig, TWO_BARS, 0, 100.0);
  }
}
