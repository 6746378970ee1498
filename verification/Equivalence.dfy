/** The two engines implement one semantics, and exactly where they do not. */
module Equivalence {
  import opened Common
  import opened Market
  import opened Sizing
  import opened Trades
  import opened Backtest
  import opened BacktestProperties
  import opened Verifier
  import Ev = Evaluator

  // ---------------------------------------------------------------- how the two books correspond

  /** The same round trip in both books. Only an exit forced by the end of the data is priced differently: the
      primary applies slippage to the close, the verifier does not. */
  predicate SameTrip(costs: CostModel, t: Trade, v: RoundTrip) {
    && t.entryIndex == v.entryIndex && t.exitIndex == v.exitIndex
    && t.side == v.side && t.quantity == v.quantity && t.entryPrice == v.entryPrice
    && t.exitPrice == if t.exitReason == EndOfData then FillPrice(costs, v.exitPrice, v.side, false) else v.exitPrice
  }

  predicate SameTrips(costs: CostModel, ts: seq<Trade>, vs: seq<RoundTrip>) {
    && |ts| == |vs|
    && forall i :: 0 <= i < |ts| ==> SameTrip(costs, ts[i], vs[i])
  }

  /** What the forced close at `close` costs the primary and not the verifier: the slippage on the quantity,
      less the fee not paid on a lower sale or plus the fee paid on a higher purchase. */
  function ForcedCloseGap(costs: CostModel, side: Side, close: real, quantity: real): real {
    if side == Long then close * costs.slippageRate * quantity * (1.0 - costs.feeRate)
    else close * costs.slippageRate * quantity * (1.0 + costs.feeRate)
  }

  /** The gap between the two final equities, read off the primary's trades. */
  function FinalGap(costs: CostModel, bars: seq<Kline>, trades: seq<Trade>): real {
    if bars != [] && trades != [] && trades[|trades| - 1].exitReason == EndOfData then
      ForcedCloseGap(costs, trades[|trades| - 1].side, bars[|bars| - 1].close, trades[|trades| - 1].quantity)
    else 0.0
  }

  lemma ForcedCloseArithmetic(costs: CostModel, side: Side, close: real, quantity: real, entry: real)
    ensures var p := FillPrice(costs, close, side, false);
      Times(Gain(side, entry, close), quantity) - FeeOn(costs, Times(close, quantity))
      == Times(Gain(side, entry, p), quantity) - FeeOn(costs, Times(p, quantity))
         + ForcedCloseGap(costs, side, close, quantity)
  {
    var slip, fee := costs.slippageRate, costs.feeRate;
    var worth, lost := close * quantity, close * slip * quantity;
    if side == Long {
      var p := close * (1.0 - slip);
      assert p == close - close * slip;
      assert p * quantity == worth - lost;
      assert (p - entry) * quantity == (close - entry) * quantity - lost;
      assert (worth - lost) * fee == worth * fee - lost * fee;
      assert lost * (1.0 - fee) == lost - lost * fee;
    } else {
      var p := close * (1.0 + slip);
      assert p == close + close * slip;
      assert p * quantity == worth + lost;
      assert (entry - p) * quantity == (entry - close) * quantity - lost;
      assert (worth + lost) * fee == worth * fee + lost * fee;
      assert lost * (1.0 + fee) == lost + lost * fee;
    }
  }

  // ---------------------------------------------------------------- the simulation

  /** Between trades: the primary is flat with the verifier's equity and has armed the signal at the cursor. */
  predicate FlatAt(setup: Setup, sig: SignalMap, bars: seq<Kline>, cursor: nat, equity: real)
    requires cursor < |bars|
  {
    var st := Run(setup, sig, bars, cursor + 1);
    st.position.None? && st.equity == equity && st.pending == Lookup(sig, cursor)
  }

  /** The primary holds `p`, entered at bar `p.entryIndex`, after `k` bars. */
  predicate HoldingAt(setup: Setup, sig: SignalMap, bars: seq<Kline>, k: nat, p: Position, equity: real,
                      trades: seq<Trade>)
    requires k <= |bars|
  {
    var st := Run(setup, sig, bars, k);
    st.position == Some(p) && st.pending.None? && st.equity == equity && st.trades == trades
  }

  lemma StepWithoutSignal(setup: Setup, sig: SignalMap, bars: seq<Kline>, cursor: nat, equity: real)
    requires cursor + 1 < |bars| && FlatAt(setup, sig, bars, cursor, equity)
    requires cursor !in sig || EntrySizing(setup, sig[cursor], equity, bars[cursor + 1]).Rejected?
    ensures FlatAt(setup, sig, bars, cursor + 1, equity)
    ensures Run(setup, sig, bars, cursor + 2).trades == Run(setup, sig, bars, cursor + 1).trades
  {
    hide EntrySizing, Opened, Close, ResolveExit;
  }

  /** The bar after an acceptable signal opens the position and never closes it. */
  lemma StepOpens(setup: Setup, sig: SignalMap, bars: seq<Kline>, cursor: nat, equity: real)
    requires cursor + 1 < |bars| && FlatAt(setup, sig, bars, cursor, equity)
    requires cursor in sig && EntrySizing(setup, sig[cursor], equity, bars[cursor + 1]).Accepted?
    ensures var p := Opened(setup, sig[cursor], cursor + 1, bars[cursor + 1],
                            EntrySizing(setup, sig[cursor], equity, bars[cursor + 1]));
      HoldingAt(setup, sig, bars, cursor + 2, p, equity - p.entryFee, Run(setup, sig, bars, cursor + 1).trades)
  {
    hide EntrySizing, Close;
  }

  /** Bars before the first one to leave on change nothing. */
  lemma {:induction false} HoldsUntil(setup: Setup, sig: SignalMap, bars: seq<Kline>, k: nat, m: nat,
                                      p: Position, s: Signal, equity: real, trades: seq<Trade>)
    requires p.entryIndex < k <= m <= |bars|
    requires p.side == s.side && p.stopPrice == s.stopPrice && p.targetPrice == s.targetPrice
    requires HoldingAt(setup, sig, bars, k, p, equity, trades)
    requires forall j :: k <= j < m ==> LeavesAt(bars, p.entryIndex, s, setup.maxBars, j) == None
    ensures HoldingAt(setup, sig, bars, m, p, equity, trades)
    decreases m - k
  {
    hide StopTouched, TargetTouched, Close, EntrySizing;
    if k < m {
      HoldsUntil(setup, sig, bars, k, m - 1, p, s, equity, trades);
      assert LeavesAt(bars, p.entryIndex, s, setup.maxBars, m - 1) == None;
    }
  }

  /** The first bar to leave on closes the position and may arm its own signal. */
  lemma StepCloses(setup: Setup, sig: SignalMap, bars: seq<Kline>, k: nat, p: Position, s: Signal, equity: real,
                   trades: seq<Trade>, exit: Exit)
    requires p.entryIndex < k < |bars|
    requires p.side == s.side && p.stopPrice == s.stopPrice && p.targetPrice == s.targetPrice
    requires HoldingAt(setup, sig, bars, k, p, equity, trades)
    requires LeavesAt(bars, p.entryIndex, s, setup.maxBars, k) == Some(exit)
    ensures var t := Close(p, k, bars[k], exit, setup.costs);
      && FlatAt(setup, sig, bars, k, equity + CloseCredit(p, t))
      && Run(setup, sig, bars, k + 1).trades == trades + [t]
  {
    hide StopTouched, TargetTouched, Close, EntrySizing, CloseCredit;
  }

  /** A trip the verifier books and the trade the primary closes agree, in levels and in money. */
  lemma TripMatches(setup: Setup, bars: seq<Kline>, cursor: nat, s: Signal, sizing: SizingResult, r: Scan)
    requires cursor + 1 < |bars| && sizing.Accepted?
    requires r == ScanFrom(bars, cursor + 1, s, setup.maxBars, cursor + 2) && r.Left?
    ensures var v := TripOf(setup, bars, cursor, s, sizing);
      var p := Opened(setup, s, cursor + 1, bars[cursor + 1], sizing);
      var t := Close(p, r.index, bars[r.index], r.exit, setup.costs);
      && SameTrip(setup.costs, t, v) && v.exitIndex == r.index
      && t.exitReason != EndOfData
      && CloseCredit(p, t) - p.entryFee == TripResult(setup.costs, v, sizing.notional)
  {
    hide FillPrice, FeeOn, Times, Gain;
    ScanIsFirst(bars, cursor + 1, s, setup.maxBars, cursor + 2);
  }

  lemma ForcedTripMatches(setup: Setup, bars: seq<Kline>, cursor: nat, s: Signal, sizing: SizingResult)
    requires cursor + 1 < |bars| && sizing.Accepted?
    requires ScanFrom(bars, cursor + 1, s, setup.maxBars, cursor + 2).StillOpen?
    ensures var v := TripOf(setup, bars, cursor, s, sizing);
      var p := Opened(setup, s, cursor + 1, bars[cursor + 1], sizing);
      var last := |bars| - 1;
      var t := Close(p, last, bars[last], Exit(bars[last].close, EndOfData), setup.costs);
      && SameTrip(setup.costs, t, v) && v.exitIndex == last && t.exitReason == EndOfData
      && t.side == s.side && t.quantity == sizing.quantity
      && TripResult(setup.costs, v, sizing.notional)
         == CloseCredit(p, t) - p.entryFee
            + ForcedCloseGap(setup.costs, s.side, bars[last].close, sizing.quantity)
  {
    hide FillPrice, FeeOn, Times, Gain, ForcedCloseGap;
    var last := |bars| - 1;
    ForcedCloseArithmetic(setup.costs, s.side, bars[last].close, sizing.quantity,
                          FillPrice(setup.costs, bars[cursor + 1].open, s.side, true));
  }

  /** From any point between trades, what the primary still does is what the verifier still does. */
  lemma {:induction false} Simulates(setup: Setup, sig: SignalMap, bars: seq<Kline>, cursor: nat, equity: real)
    requires cursor < |bars| && FlatAt(setup, sig, bars, cursor, equity)
    ensures var done := Run(setup, sig, bars, cursor + 1).trades;
      var end := FinalState(setup, sig, bars);
      var replayed := Replay(setup, sig, bars, cursor, equity);
      && |done| <= |end.trades| && end.trades[..|done|] == done
      && SameTrips(setup.costs, end.trades[|done|..], replayed.trips)
      && replayed.equity == end.equity + FinalGap(setup.costs, bars, end.trades[|done|..])
    decreases |bars| - cursor
  {
    hide EntrySizing, Close, Opened, TripResult, CloseCredit, SameTrip, ForcedCloseGap, TripOf;
    var done := Run(setup, sig, bars, cursor + 1).trades;
    if cursor + 1 < |bars| {
      if cursor !in sig || EntrySizing(setup, sig[cursor], equity, bars[cursor + 1]).Rejected? {
        StepWithoutSignal(setup, sig, bars, cursor, equity);
        Simulates(setup, sig, bars, cursor + 1, equity);
      } else {
        SimulatesTrade(setup, sig, bars, cursor, equity);
      }
    }
  }

  lemma ReplayTakes(setup: Setup, sig: SignalMap, bars: seq<Kline>, cursor: nat, equity: real)
    requires cursor + 1 < |bars| && cursor in sig
    requires EntrySizing(setup, sig[cursor], equity, bars[cursor + 1]).Accepted?
    ensures var sizing := EntrySizing(setup, sig[cursor], equity, bars[cursor + 1]);
      var v := TripOf(setup, bars, cursor, sig[cursor], sizing);
      var rest := Replay(setup, sig, bars, v.exitIndex, equity + TripResult(setup.costs, v, sizing.notional));
      Replay(setup, sig, bars, cursor, equity) == Replayed([v] + rest.trips, rest.equity)
  {
    hide EntrySizing, TripResult;
  }

  /** An accepted signal whose scan finds an exit: both engines are between trades again at that bar. */
  lemma TradeLeaves(setup: Setup, sig: SignalMap, bars: seq<Kline>, cursor: nat, equity: real)
    requires cursor + 1 < |bars| && FlatAt(setup, sig, bars, cursor, equity) && cursor in sig
    requires EntrySizing(setup, sig[cursor], equity, bars[cursor + 1]).Accepted?
    requires ScanFrom(bars, cursor + 1, sig[cursor], setup.maxBars, cursor + 2).Left?
    ensures var s := sig[cursor];
      var sizing := EntrySizing(setup, s, equity, bars[cursor + 1]);
      var p := Opened(setup, s, cursor + 1, bars[cursor + 1], sizing);
      var r := ScanFrom(bars, cursor + 1, s, setup.maxBars, cursor + 2);
      var t := Close(p, r.index, bars[r.index], r.exit, setup.costs);
      && FlatAt(setup, sig, bars, r.index,
                equity + TripResult(setup.costs, TripOf(setup, bars, cursor, s, sizing), sizing.notional))
      && Run(setup, sig, bars, r.index + 1).trades == Run(setup, sig, bars, cursor + 1).trades + [t]
  {
    hide EntrySizing, Close, Opened, TripResult, CloseCredit, TripOf, LeavesAt;
    var s := sig[cursor];
    var done := Run(setup, sig, bars, cursor + 1).trades;
    var sizing := EntrySizing(setup, s, equity, bars[cursor + 1]);
    var p := Opened(setup, s, cursor + 1, bars[cursor + 1], sizing);
    var r := ScanFrom(bars, cursor + 1, s, setup.maxBars, cursor + 2);
    StepOpens(setup, sig, bars, cursor, equity);
    OpenedShape(setup, s, cursor + 1, bars[cursor + 1], sizing);
    ScanIsFirst(bars, cursor + 1, s, setup.maxBars, cursor + 2);
    HoldsUntil(setup, sig, bars, cursor + 2, r.index, p, s, equity - p.entryFee, done);
    StepCloses(setup, sig, bars, r.index, p, s, equity - p.entryFee, done, r.exit);
    TripMatches(setup, bars, cursor, s, sizing, r);
  }

  /** An accepted signal whose scan runs off the end: the primary closes at the end and nothing follows. */
  lemma TradeIsForced(setup: Setup, sig: SignalMap, bars: seq<Kline>, cursor: nat, equity: real)
    requires cursor + 1 < |bars| && FlatAt(setup, sig, bars, cursor, equity) && cursor in sig
    requires EntrySizing(setup, sig[cursor], equity, bars[cursor + 1]).Accepted?
    requires ScanFrom(bars, cursor + 1, sig[cursor], setup.maxBars, cursor + 2).StillOpen?
    ensures var s := sig[cursor];
      var sizing := EntrySizing(setup, s, equity, bars[cursor + 1]);
      var p := Opened(setup, s, cursor + 1, bars[cursor + 1], sizing);
      var last := |bars| - 1;
      var t := Close(p, last, bars[last], Exit(bars[last].close, EndOfData), setup.costs);
      var end := FinalState(setup, sig, bars);
      && end.trades == Run(setup, sig, bars, cursor + 1).trades + [t]
      && end.equity == equity - p.entryFee + CloseCredit(p, t)
  {
    hide EntrySizing, Close, Opened, CloseCredit, LeavesAt;
    var s := sig[cursor];
    var sizing := EntrySizing(setup, s, equity, bars[cursor + 1]);
    var p := Opened(setup, s, cursor + 1, bars[cursor + 1], sizing);
    StepOpens(setup, sig, bars, cursor, equity);
    OpenedShape(setup, s, cursor + 1, bars[cursor + 1], sizing);
    ScanIsFirst(bars, cursor + 1, s, setup.maxBars, cursor + 2);
    HoldsUntil(setup, sig, bars, cursor + 2, |bars|, p, s, equity - p.entryFee,
               Run(setup, sig, bars, cursor + 1).trades);
  }

  lemma {:induction false} SimulatesTrade(setup: Setup, sig: SignalMap, bars: seq<Kline>, cursor: nat, equity: real)
    requires cursor + 1 < |bars| && FlatAt(setup, sig, bars, cursor, equity)
    requires cursor in sig && EntrySizing(setup, sig[cursor], equity, bars[cursor + 1]).Accepted?
    ensures var done := Run(setup, sig, bars, cursor + 1).trades;
      var end := FinalState(setup, sig, bars);
      var replayed := Replay(setup, sig, bars, cursor, equity);
      && |done| <= |end.trades| && end.trades[..|done|] == done
      && SameTrips(setup.costs, end.trades[|done|..], replayed.trips)
      && replayed.equity == end.equity + FinalGap(setup.costs, bars, end.trades[|done|..])
    decreases |bars| - cursor, 0
  {
    hide EntrySizing, Close, Opened, TripResult, CloseCredit, SameTrip, ForcedCloseGap, TripOf, LeavesAt, FlatAt,
         FinalState, BarStep, FinalGap, SameTrips;
    var done := Run(setup, sig, bars, cursor + 1).trades;
    var s := sig[cursor];
    var sizing := EntrySizing(setup, s, equity, bars[cursor + 1]);
    var p := Opened(setup, s, cursor + 1, bars[cursor + 1], sizing);
    var v := TripOf(setup, bars, cursor, s, sizing);
    var r := ScanFrom(bars, cursor + 1, s, setup.maxBars, cursor + 2);
    var after := equity + TripResult(setup.costs, v, sizing.notional);
    ReplayTakes(setup, sig, bars, cursor, equity);
    if r.Left? {
      TradeLeaves(setup, sig, bars, cursor, equity);
      TripMatches(setup, bars, cursor, s, sizing, r);
      Simulates(setup, sig, bars, r.index, after);
      PrependTrip(setup, bars, done, Close(p, r.index, bars[r.index], r.exit, setup.costs), v,
                  FinalState(setup, sig, bars), Replay(setup, sig, bars, r.index, after));
    } else {
      TradeIsForced(setup, sig, bars, cursor, equity);
      ForcedTripMatches(setup, bars, cursor, s, sizing);
      var last := |bars| - 1;
      LoneTrip(setup, bars, done, Close(p, last, bars[last], Exit(bars[last].close, EndOfData), setup.costs), v,
               FinalState(setup, sig, bars));
      assert Replay(setup, sig, bars, last, after) == Replayed([], after);
    }
  }

  lemma LoneTrip(setup: Setup, bars: seq<Kline>, done: seq<Trade>, t: Trade, v: RoundTrip, end: EngineState)
    requires bars != [] && end.trades == done + [t]
    requires SameTrip(setup.costs, t, v) && t.exitReason == EndOfData
    ensures end.trades[..|done|] == done
    ensures SameTrips(setup.costs, end.trades[|done|..], [v] + [])
    ensures FinalGap(setup.costs, bars, end.trades[|done|..])
         == ForcedCloseGap(setup.costs, t.side, bars[|bars| - 1].close, t.quantity)
  {
    hide SameTrip, ForcedCloseGap;
    assert end.trades[|done|..] == [t];
  }

  /** Puts one matched trip in front of an already matched remainder. */
  lemma PrependTrip(setup: Setup, bars: seq<Kline>, done: seq<Trade>, t: Trade, v: RoundTrip, end: EngineState,
                    rest: Replayed)
    requires |done| < |end.trades| && end.trades[..|done| + 1] == done + [t]
    requires SameTrip(setup.costs, t, v) && t.exitReason != EndOfData
    requires SameTrips(setup.costs, end.trades[|done| + 1..], rest.trips)
    requires rest.equity == end.equity + FinalGap(setup.costs, bars, end.trades[|done| + 1..])
    ensures end.trades[..|done|] == done
    ensures SameTrips(setup.costs, end.trades[|done|..], [v] + rest.trips)
    ensures rest.equity == end.equity + FinalGap(setup.costs, bars, end.trades[|done|..])
  {
    hide SameTrip, ForcedCloseGap;
    var tail := end.trades[|done| + 1..];
    assert end.trades[..|done|] == end.trades[..|done| + 1][..|done|];
    assert end.trades[|done|] == end.trades[..|done| + 1][|done|] == t;
    assert end.trades[|done|..] == [t] + tail;
  }

  // ---------------------------------------------------------------- which signal of a bar is kept

  predicate OneSignalPerBar(signals: seq<Signal>) {
    forall i, j :: 0 <= i < j < |signals| ==> signals[i].barIndex != signals[j].barIndex
  }

  predicate DistinctOnABar(signals: seq<Signal>) {
    forall i, j :: 0 <= i < j < |signals| && signals[i].barIndex == signals[j].barIndex ==>
      signals[i].side != signals[j].side
  }

  lemma {:induction false} KeptAreRaised(signals: seq<Signal>, bar: nat)
    ensures bar in FirstSignals(signals) <==> bar in LastSignals(signals)
    ensures bar in FirstSignals(signals) <==> exists i :: 0 <= i < |signals| && signals[i].barIndex == bar
    ensures bar in FirstSignals(signals) ==>
              && FirstSignals(signals)[bar] in signals && FirstSignals(signals)[bar].barIndex == bar
              && LastSignals(signals)[bar] in signals && LastSignals(signals)[bar].barIndex == bar
  {
    if signals != [] {
      var rest := signals[..|signals| - 1];
      KeptAreRaised(rest, bar);
      assert signals[|signals| - 1] in signals;
      assert forall s :: s in rest ==> s in signals;
      assert forall i :: 0 <= i < |rest| ==> rest[i] == signals[i];
    }
  }

  /** The engines keep the same signals exactly when no bar raised two: the primary keeps the first of a bar,
      the verifier the last. */
  lemma {:induction false} KeptSignalsAgreeIff(signals: seq<Signal>)
    requires DistinctOnABar(signals)
    ensures FirstSignals(signals) == LastSignals(signals) <==> OneSignalPerBar(signals)
  {
    if !OneSignalPerBar(signals) {
      TwoOnABarStayApart(signals);
    } else if signals != [] {
      var rest, last := signals[..|signals| - 1], signals[|signals| - 1];
      KeptSignalsAgreeIff(rest);
      KeptAreRaised(rest, last.barIndex);
    }
  }

  /** The first and the last signal of a bar that raised two are different signals. */
  lemma {:induction false} TwoOnABarStayApart(signals: seq<Signal>)
    requires DistinctOnABar(signals) && !OneSignalPerBar(signals)
    ensures FirstSignals(signals) != LastSignals(signals)
  {
    var i, j :| 0 <= i < j < |signals| && signals[i].barIndex == signals[j].barIndex;
    var bar := signals[i].barIndex;
    FirstIsFirst(signals, bar);
    LastIsLast(signals, bar);
    var f :| 0 <= f < |signals| && signals[f] == FirstSignals(signals)[bar]
             && forall k :: 0 <= k < f ==> signals[k].barIndex != bar;
    var l :| 0 <= l < |signals| && signals[l] == LastSignals(signals)[bar]
             && forall k :: l < k < |signals| ==> signals[k].barIndex != bar;
    KeptAreRaised(signals, bar);
    assert f <= i < j <= l;
  }

  lemma {:induction false} FirstIsFirst(signals: seq<Signal>, bar: nat)
    requires exists i :: 0 <= i < |signals| && signals[i].barIndex == bar
    ensures bar in FirstSignals(signals)
    ensures exists f :: 0 <= f < |signals| && signals[f] == FirstSignals(signals)[bar]
              && forall k :: 0 <= k < f ==> signals[k].barIndex != bar
  {
    var rest := signals[..|signals| - 1];
    KeptAreRaised(rest, bar);
    if bar in FirstSignals(rest) {
      FirstIsFirst(rest, bar);
      var f :| 0 <= f < |rest| && rest[f] == FirstSignals(rest)[bar]
               && forall k :: 0 <= k < f ==> rest[k].barIndex != bar;
      assert signals[f] == rest[f];
      assert forall k :: 0 <= k < f ==> signals[k] == rest[k];
    } else {
      assert forall k :: 0 <= k < |rest| ==> signals[k] == rest[k];
      assert signals[|rest|].barIndex == bar;
    }
  }

  lemma {:induction false} LastIsLast(signals: seq<Signal>, bar: nat)
    requires exists i :: 0 <= i < |signals| && signals[i].barIndex == bar
    ensures bar in LastSignals(signals)
    ensures exists l :: 0 <= l < |signals| && signals[l] == LastSignals(signals)[bar]
              && forall k :: l < k < |signals| ==> signals[k].barIndex != bar
  {
    var rest := signals[..|signals| - 1];
    if signals[|rest|].barIndex != bar {
      var i :| 0 <= i < |signals| && signals[i].barIndex == bar;
      assert rest[i].barIndex == bar;
      LastIsLast(rest, bar);
      var l :| 0 <= l < |rest| && rest[l] == LastSignals(rest)[bar]
               && forall k :: l < k < |rest| ==> rest[k].barIndex != bar;
      assert signals[l] == rest[l];
      assert forall k :: 0 <= k < |rest| ==> signals[k] == rest[k];
    }
  }

  // ---------------------------------------------------------------- the theorem

  /** Over any signal map the two engines make the same trades: entries, exits, sides, quantities and prices
      agree one by one, and the final equities differ by exactly the cost of a forced final close. */
  lemma EnginesAgreeOnMap(setup: Setup, sig: SignalMap, bars: seq<Kline>)
    ensures var end := FinalState(setup, sig, bars);
      var replayed := Replay(setup, sig, bars, 0, setup.startingEquity);
      && SameTrips(setup.costs, end.trades, replayed.trips)
      && replayed.equity == end.equity + FinalGap(setup.costs, bars, end.trades)
  {
    if bars == [] {
      EmptyRun(setup, sig);
    } else {
      assert Run(setup, sig, bars, 0) == EngineState(setup.startingEquity, [], [], 0, None, None);
      assert FlatAt(setup, sig, bars, 0, setup.startingEquity) && Run(setup, sig, bars, 1).trades == [];
      Simulates(setup, sig, bars, 0, setup.startingEquity);
      var end := FinalState(setup, sig, bars);
      assert end.trades[0..] == end.trades;
    }
  }

  /** The same of a spec that never signals twice on a bar, from the spec and the bars alone. */
  lemma EnginesAgree(spec: Ev.StrategySpec, bars: seq<Kline>, setup: Setup)
    requires Ev.ValidSpec(spec) && OneSignalPerBar(Ev.Signals(spec, bars))
    ensures var end := FinalState(setup, FirstSignals(Ev.Signals(spec, bars)), bars);
      var replayed := Replay(setup, LastSignals(Ev.Signals(spec, bars)), bars, 0, setup.startingEquity);
      && SameTrips(setup.costs, end.trades, replayed.trips)
      && replayed.equity == end.equity + FinalGap(setup.costs, bars, end.trades)
  {
    Ev.SignalsChronological(spec, bars);
    KeptSignalsAgreeIff(Ev.Signals(spec, bars));
    EnginesAgreeOnMap(setup, FirstSignals(Ev.Signals(spec, bars)), bars);
  }

  predicate ForcedOut(trades: seq<Trade>) {
    trades != [] && trades[|trades| - 1].exitReason == EndOfData
  }

  /** Slippage at the forced close is bought back by the fee: the whole sale of a long goes to the fee, or the
      whole purchase of a short comes back as a rebate. */
  predicate FeeOffsets(costs: CostModel, trades: seq<Trade>)
    requires ForcedOut(trades)
  {
    costs.feeRate == if trades[|trades| - 1].side == Long then 1.0 else -1.0
  }

  /** The final equities are equal exactly when nothing slips, the run was flat before the data ended, or the fee
      offsets the slippage of the forced close. */
  lemma FinalEquitiesEqualIff(setup: Setup, sig: SignalMap, bars: seq<Kline>)
    ensures var end := FinalState(setup, sig, bars);
      Replay(setup, sig, bars, 0, setup.startingEquity).equity == end.equity
      <==> setup.costs.slippageRate == 0.0 || !ForcedOut(end.trades) || FeeOffsets(setup.costs, end.trades)
  {
    EnginesAgreeOnMap(setup, sig, bars);
    var trades := FinalState(setup, sig, bars).trades;
    if ForcedOut(trades) {
      var t := trades[|trades| - 1];
      TradesAreFirstTouchAndDisjoint(setup, sig, bars);
      BoughtSomething(setup, sig, bars, t);
      GapIsZeroIff(setup.costs, t.side, bars[|bars| - 1].close, t.quantity);
    }
  }

  lemma BoughtSomething(setup: Setup, sig: SignalMap, bars: seq<Kline>, t: Trade)
    requires ProperTrade(setup, sig, bars, t)
    ensures t.quantity > 0.0
  {
    hide Times, FillPrice, FeeOn, AbsOf, MustExit, FirstTouchExit;
    var s := sig[t.entryIndex - 1];
    AcceptedRespectsCaps(EntryRequest(s, EquityBefore(setup, sig, bars, t.entryIndex), bars[t.entryIndex], setup.costs),
                         setup.policy, setup.filters);
  }

  lemma GapIsZeroIff(costs: CostModel, side: Side, close: real, quantity: real)
    requires close > 0.0 && quantity > 0.0
    ensures ForcedCloseGap(costs, side, close, quantity) == 0.0
            <==> costs.slippageRate == 0.0 || costs.feeRate == if side == Long then 1.0 else -1.0
  {
    var slip, keep := costs.slippageRate, if side == Long then 1.0 - costs.feeRate else 1.0 + costs.feeRate;
    var a := close * slip;
    var b := a * quantity;
    NonZeroProduct(close, slip);
    NonZeroProduct(quantity, a);
    ZeroProductIff(b, keep);
    assert ForcedCloseGap(costs, side, close, quantity) == b * keep;
  }

  lemma ZeroProductIff(a: real, b: real)
    ensures a * b == 0.0 <==> a == 0.0 || b == 0.0
  {
    if a > 0.0 {
      NonZeroProduct(a, b);
    } else if a < 0.0 {
      NonZeroProduct(-a, b);
      assert a * b == -(-a * b);
    }
  }

  lemma NonZeroProduct(a: real, b: real)
    requires a > 0.0
    ensures b * a == 0.0 <==> b == 0.0
    ensures a * b == 0.0 <==> b == 0.0
  {
  }
}
