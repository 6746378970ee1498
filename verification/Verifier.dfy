/** The independent engine: a cursor over signals that jumps from each entry to its exit by scanning ahead. */
module Verifier {
  import opened Common
  import opened Market
  import opened Sizing
  import opened Trades
  import opened Backtest
  import Ev = Evaluator
  import Stats

  datatype VerifierResult = VerifierResult(tradeCount: nat, netReturn: real, finalEquity: real)

  /** One signal per bar; a later one replaces an earlier one. */
  function LastSignals(signals: seq<Signal>): SignalMap {
    if signals == [] then map[]
    else LastSignals(signals[..|signals| - 1])[signals[|signals| - 1].barIndex := signals[|signals| - 1]]
  }

  method CollectLast(signals: seq<Signal>) returns (byBar: SignalMap)
    ensures byBar == LastSignals(signals)
  {
    byBar := map[];
    for i := 0 to |signals|
      invariant byBar == LastSignals(signals[..i])
    {
      byBar := byBar[signals[i].barIndex := signals[i]];
      assert signals[..i + 1][..i] == signals[..i];
    }
    assert signals[..|signals|] == signals;
  }

  // ---------------------------------------------------------------- scanning for the exit

  /** A scan finds a bar that forces the exit, or runs off the end. */
  datatype Scan = Left(index: nat, exit: Exit) | StillOpen

  /** Whether and how a position entered at `entry` would leave on bar `i`. */
  function LeavesAt(bars: seq<Kline>, entry: nat, s: Signal, maxBars: int, i: nat): Option<Exit>
    requires i < |bars|
  {
    if StopTouched(s.side, s.stopPrice, bars[i]) then Some(Exit(s.stopPrice, StopHit))
    else if TargetTouched(s.side, s.targetPrice, bars[i]) then Some(Exit(s.targetPrice, TargetHit))
    else if i - entry >= maxBars then Some(Exit(bars[i].close, TimeUp))
    else None
  }

  /** The first bar from `i` on that forces the exit. */
  function ScanFrom(bars: seq<Kline>, entry: nat, s: Signal, maxBars: int, i: nat): (r: Scan)
    ensures r.Left? ==> i <= r.index < |bars|
    decreases |bars| - i
  {
    if i >= |bars| then StillOpen
    else
      var exit := LeavesAt(bars, entry, s, maxBars, i);
      if exit.Some? then Left(i, exit.value) else ScanFrom(bars, entry, s, maxBars, i + 1)
  }

  /** The scan is the first-touch rule: it stops at `x` exactly when `x` is the first bar to leave on. */
  lemma {:induction false} ScanIsFirst(bars: seq<Kline>, entry: nat, s: Signal, maxBars: int, i: nat)
    ensures var r := ScanFrom(bars, entry, s, maxBars, i);
      && (r.Left? ==>
            && LeavesAt(bars, entry, s, maxBars, r.index) == Some(r.exit)
            && forall j :: i <= j < r.index ==> LeavesAt(bars, entry, s, maxBars, j) == None)
      && (r.StillOpen? ==> forall j :: i <= j < |bars| ==> LeavesAt(bars, entry, s, maxBars, j) == None)
    decreases |bars| - i
  {
    if i < |bars| && LeavesAt(bars, entry, s, maxBars, i).None? {
      ScanIsFirst(bars, entry, s, maxBars, i + 1);
    }
  }

  /** Where the verifier books a scan: time exits cross the spread, data running out does not. */
  function ScanIndex(bars: seq<Kline>, r: Scan): nat
    requires bars != []
  {
    if r.Left? then r.index else |bars| - 1
  }

  function ScanPrice(bars: seq<Kline>, side: Side, r: Scan, costs: CostModel): real
    requires bars != []
  {
    if r.StillOpen? then bars[|bars| - 1].close
    else if r.exit.reason == TimeUp then FillPrice(costs, r.exit.price, side, false)
    else r.exit.price
  }

  method ScanForExit(bars: seq<Kline>, entry: nat, s: Signal, maxBars: int, costs: CostModel)
    returns (index: nat, price: real)
    requires entry < |bars|
    ensures var r := ScanFrom(bars, entry, s, maxBars, entry + 1);
      index == ScanIndex(bars, r) && price == ScanPrice(bars, s.side, r, costs)
  {
    hide FillPrice;
    for i := entry + 1 to |bars|
      invariant ScanFrom(bars, entry, s, maxBars, entry + 1) == ScanFrom(bars, entry, s, maxBars, i)
    {
      var bar := bars[i];
      var stopped, targeted;
      if s.side == Long {
        stopped, targeted := bar.low <= s.stopPrice, bar.high >= s.targetPrice;
      } else {
        stopped, targeted := bar.high >= s.stopPrice, bar.low <= s.targetPrice;
      }
      if stopped {
        return i, s.stopPrice;
      }
      if targeted {
        return i, s.targetPrice;
      }
      if i - entry >= maxBars {
        return i, FillPrice(costs, bar.close, s.side, false);
      }
    }
    return |bars| - 1, bars[|bars| - 1].close;
  }

  // ---------------------------------------------------------------- the replay

  /** One round trip as the verifier books it. */
  datatype RoundTrip = RoundTrip(
    entryIndex: nat,
    exitIndex: nat,
    side: Side,
    quantity: real,
    entryPrice: real,
    exitPrice: real)

  datatype Replayed = Replayed(trips: seq<RoundTrip>, equity: real)

  function TripResult(costs: CostModel, t: RoundTrip, notional: real): real {
    Times(Gain(t.side, t.entryPrice, t.exitPrice), t.quantity)
    - (FeeOn(costs, notional) + FeeOn(costs, Times(t.exitPrice, t.quantity)))
  }

  function TripOf(setup: Setup, bars: seq<Kline>, cursor: nat, s: Signal, sizing: SizingResult): RoundTrip
    requires cursor + 1 < |bars| && sizing.Accepted?
  {
    var r := ScanFrom(bars, cursor + 1, s, setup.maxBars, cursor + 2);
    RoundTrip(cursor + 1, ScanIndex(bars, r), s.side, sizing.quantity,
              FillPrice(setup.costs, bars[cursor + 1].open, s.side, true),
              ScanPrice(bars, s.side, r, setup.costs))
  }

  /** Everything the verifier does from `cursor` on, holding `equity`. */
  function Replay(setup: Setup, sig: SignalMap, bars: seq<Kline>, cursor: nat, equity: real): Replayed
    decreases |bars| - cursor
  {
    if cursor + 1 >= |bars| then Replayed([], equity)
    else if cursor !in sig then Replay(setup, sig, bars, cursor + 1, equity)
    else
      var s := sig[cursor];
      var sizing := EntrySizing(setup, s, equity, bars[cursor + 1]);
      if sizing.Rejected? then Replay(setup, sig, bars, cursor + 1, equity)
      else
        var t := TripOf(setup, bars, cursor, s, sizing);
        var rest := Replay(setup, sig, bars, t.exitIndex, equity + TripResult(setup.costs, t, sizing.notional));
        Replayed([t] + rest.trips, rest.equity)
  }

  method RunVerifier(spec: Ev.StrategySpec, bars: seq<Kline>, setup: Setup) returns (r: VerifierResult)
    requires Ev.ValidSpec(spec) && setup.maxBars == spec.maxBarsInTrade
    ensures var replayed := Replay(setup, LastSignals(Ev.Signals(spec, bars)), bars, 0, setup.startingEquity);
      r == VerifierResult(|replayed.trips|, Stats.NetReturn(replayed.equity, setup.startingEquity), replayed.equity)
  {
    hide FillPrice, FeeOn, Times, Gain, SizePosition, Ev.ValidSpec;
    var n := |bars|;
    if n < 2 {
      NoReturnWithoutChange(setup.startingEquity);
      return VerifierResult(0, 0.0, setup.startingEquity);
    }
    var signals := Ev.Evaluate(spec, bars);
    var signalAt := CollectLast(signals);
    var equity, trades: nat, cursor: nat := setup.startingEquity, 0, 0;
    ghost var whole := Replay(setup, signalAt, bars, 0, equity);
    while cursor < n - 1
      invariant cursor <= n - 1
      invariant whole.equity == Replay(setup, signalAt, bars, cursor, equity).equity
      invariant |whole.trips| == trades + |Replay(setup, signalAt, bars, cursor, equity).trips|
      decreases n - cursor
    {
      if cursor !in signalAt {
        cursor := cursor + 1;
        continue;
      }
      var signal := signalAt[cursor];
      var entryIndex := cursor + 1;
      var entryPrice := FillPrice(setup.costs, bars[entryIndex].open, signal.side, true);
      var sizing := SizePosition(
        Request(equity, equity, entryPrice, signal.stopPrice, signal.side, 0, 0.0, 1.0), setup.policy, setup.filters);
      if sizing.Rejected? {
        cursor := cursor + 1;
        continue;
      }
      var exitIndex, exitPrice := ScanForExit(bars, entryIndex, signal, setup.maxBars, setup.costs);
      var gross := Times(Gain(signal.side, entryPrice, exitPrice), sizing.quantity);
      var fees := FeeOn(setup.costs, sizing.notional) + FeeOn(setup.costs, Times(exitPrice, sizing.quantity));
      assert TripOf(setup, bars, cursor, signal, sizing)
          == RoundTrip(entryIndex, exitIndex, signal.side, sizing.quantity, entryPrice, exitPrice);
      equity := equity + (gross - fees);
      trades := trades + 1;
      cursor := exitIndex;
    }
    r := VerifierResult(trades, Stats.NetReturn(equity, setup.startingEquity), equity);
  }

  lemma NoReturnWithoutChange(equity: real)
    ensures Stats.NetReturn(equity, equity) == 0.0
  {
  }
}
