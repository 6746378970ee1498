/** What every run of the primary engine keeps: accounting, first-touch exits, causality and risk bounds. */
module BacktestProperties {
  import opened Common
  import opened Market
  import opened Sizing
  import opened Trades
  import opened Backtest
  import Stats

  // ---------------------------------------------------------------- accounting

  function OpenFee(st: EngineState): real {
    if st.position.Some? then st.position.value.entryFee else 0.0
  }

  /** Money is neither made nor lost outside the recorded trades and the fee of an open position. */
  predicate Balanced(setup: Setup, st: EngineState) {
    st.equity == setup.startingEquity + SumNet(st.trades) - OpenFee(st)
  }

  lemma BarStepBalanced(setup: Setup, sig: SignalMap, bar: Kline, index: nat, st: EngineState)
    requires Balanced(setup, st)
    ensures Balanced(setup, BarStep(setup, sig, bar, index, st))
    ensures |BarStep(setup, sig, bar, index, st).curve| == |st.curve| + 1
    ensures BarStep(setup, sig, bar, index, st).curve[|st.curve|] == BarStep(setup, sig, bar, index, st).equity
  {
    hide Close, EntrySizing, Opened, ResolveExit, SumNet;
    var filled := FillStep(setup, bar, index, st);
    assert Balanced(setup, filled);
    if filled.position.Some? {
      var exit := ResolveExit(filled.position.value, bar, index, setup.maxBars);
      if exit.Some? {
        SumNetAppend(filled.trades, Close(filled.position.value, index, bar, exit.value, setup.costs));
      }
    }
  }

  lemma NothingTraded(setup: Setup, sig: SignalMap, bars: seq<Kline>)
    ensures Balanced(setup, Run(setup, sig, bars, 0)) && Run(setup, sig, bars, 0).curve == []
  {
    assert SumNet([]) == 0.0;
  }

  /** At every bar: equity is the start plus the net of closed trades less the open position's entry fee, and
      the curve has one point per bar, the last of them the current equity. */
  lemma {:induction false} EquityConserved(setup: Setup, sig: SignalMap, bars: seq<Kline>, k: nat)
    requires k <= |bars|
    ensures Balanced(setup, Run(setup, sig, bars, k))
    ensures |Run(setup, sig, bars, k).curve| == k
    ensures k > 0 ==> Run(setup, sig, bars, k).curve[k - 1] == Run(setup, sig, bars, k).equity
  {
    hide BarStep, Balanced;
    if k == 0 {
      NothingTraded(setup, sig, bars);
    } else {
      EquityConserved(setup, sig, bars, k - 1);
      BarStepBalanced(setup, sig, bars[k - 1], k - 1, Run(setup, sig, bars, k - 1));
    }
  }

  lemma FinishBalanced(setup: Setup, bars: seq<Kline>, st: EngineState)
    requires bars != [] && Balanced(setup, st) && |st.curve| == |bars| && st.curve[|bars| - 1] == st.equity
    ensures var end := Finish(setup, bars, st);
      && end.position.None? && Balanced(setup, end)
      && |end.curve| == |bars| && end.curve[|bars| - 1] == end.equity
      && end.curve[..|bars| - 1] == st.curve[..|bars| - 1]
  {
    hide Close, SumNet;
    if st.position.Some? {
      var last := |bars| - 1;
      SumNetAppend(st.trades,
                   Close(st.position.value, last, bars[last], Exit(bars[last].close, EndOfData), setup.costs));
    }
  }

  lemma EmptyRun(setup: Setup, sig: SignalMap)
    ensures FinalState(setup, sig, []) == EngineState(setup.startingEquity, [], [], 0, None, None)
  {
  }

  /** Over a whole run: the reported profit less loss, the sum of net trade results and the change in equity
      are one number; every trade is a win or a loss; the curve has a point per bar. */
  lemma RunConserves(setup: Setup, sig: SignalMap, bars: seq<Kline>)
    ensures var end := FinalState(setup, sig, bars);
      var r := ResultOf(setup, bars, end);
      && |r.curve| == |bars|
      && r.stats.finalEquity == end.equity
      && r.stats.grossProfit - r.stats.grossLoss == SumNet(r.trades) == r.stats.finalEquity - setup.startingEquity
      && r.stats.wins + r.stats.losses == r.stats.tradeCount == |r.trades|
  {
    var st := Run(setup, sig, bars, |bars|);
    NothingOpenWithoutBars(setup, sig, bars);
    var end := Finish(setup, bars, st);
    EquityConserved(setup, sig, bars, |bars|);
    if bars == [] {
      EmptyRun(setup, sig);
    } else {
      FinishBalanced(setup, bars, st);
    }
    Stats.StatsConserve(end.trades, end.curve, setup.startingEquity, BuyAndHoldReturn(bars, setup.costs));
  }

  // ---------------------------------------------------------------- first touch, disjoint trades

  /** The bar at `j` is one on which a position with these levels must leave. */
  predicate MustExit(setup: Setup, bars: seq<Kline>, entry: nat, s: Signal, j: nat)
    requires j < |bars|
  {
    || StopTouched(s.side, s.stopPrice, bars[j])
    || TargetTouched(s.side, s.targetPrice, bars[j])
    || j - entry >= setup.maxBars
  }

  /** No bar strictly after `entry` and before `end` is one to leave on. */
  predicate Untouched(setup: Setup, bars: seq<Kline>, entry: nat, s: Signal, end: nat)
    requires end <= |bars|
  {
    forall j :: entry < j < end ==> !MustExit(setup, bars, entry, s, j)
  }

  /** The signal behind an entry at `entry` is the one of the bar before. */
  predicate Signalled(sig: SignalMap, bars: seq<Kline>, entry: nat) {
    1 <= entry < |bars| && entry - 1 in sig
  }

  /** Equity just before the fill at `entry`. */
  function EquityBefore(setup: Setup, sig: SignalMap, bars: seq<Kline>, entry: nat): real
    requires entry <= |bars|
  {
    Run(setup, sig, bars, entry).equity
  }

  /** A position is what sizing granted its signal at the open of the bar after it. */
  predicate ProperPosition(setup: Setup, sig: SignalMap, bars: seq<Kline>, p: Position) {
    && Signalled(sig, bars, p.entryIndex)
    && var s := sig[p.entryIndex - 1];
       var sizing := EntrySizing(setup, s, EquityBefore(setup, sig, bars, p.entryIndex), bars[p.entryIndex]);
       sizing.Accepted? && p == Opened(setup, s, p.entryIndex, bars[p.entryIndex], sizing)
  }

  /** The position a trade closed. */
  function PositionOf(setup: Setup, sig: SignalMap, bars: seq<Kline>, t: Trade): Option<Position>
    requires Signalled(sig, bars, t.entryIndex)
  {
    var s := sig[t.entryIndex - 1];
    var sizing := EntrySizing(setup, s, EquityBefore(setup, sig, bars, t.entryIndex), bars[t.entryIndex]);
    if sizing.Accepted? then Some(Opened(setup, s, t.entryIndex, bars[t.entryIndex], sizing)) else None
  }

  /** The reason and raw price the first bar to leave on dictates: the stop wins ties. */
  function FirstTouchExit(s: Signal, bar: Kline): Exit {
    if StopTouched(s.side, s.stopPrice, bar) then Exit(s.stopPrice, StopHit)
    else if TargetTouched(s.side, s.targetPrice, bar) then Exit(s.targetPrice, TargetHit)
    else Exit(bar.close, TimeUp)
  }

  /** A trade that left before the data ended left on the first bar after entry that touched a level or ran
      out of time; one that did not was never touched at all. */
  predicate ProperTrade(setup: Setup, sig: SignalMap, bars: seq<Kline>, t: Trade) {
    && Signalled(sig, bars, t.entryIndex)
    && t.entryIndex <= t.exitIndex < |bars|
    && var s := sig[t.entryIndex - 1];
       var p := PositionOf(setup, sig, bars, t);
       && p.Some?
       && Untouched(setup, bars, t.entryIndex, s, t.exitIndex)
       && if t.exitReason == EndOfData then
            && t.exitIndex == |bars| - 1
            && (t.entryIndex < t.exitIndex ==> !MustExit(setup, bars, t.entryIndex, s, t.exitIndex))
            && t == Close(p.value, t.exitIndex, bars[t.exitIndex], Exit(bars[t.exitIndex].close, EndOfData),
                          setup.costs)
          else
            && t.entryIndex < t.exitIndex
            && MustExit(setup, bars, t.entryIndex, s, t.exitIndex)
            && t == Close(p.value, t.exitIndex, bars[t.exitIndex], FirstTouchExit(s, bars[t.exitIndex]), setup.costs)
  }

  predicate Disjoint(trades: seq<Trade>) {
    forall i, j :: 0 <= i < j < |trades| ==> trades[i].exitIndex < trades[j].entryIndex
  }

  /** What holds of the state after `k` bars. */
  predicate Sound(setup: Setup, sig: SignalMap, bars: seq<Kline>, k: nat, st: EngineState)
    requires k <= |bars|
  {
    && (forall i :: 0 <= i < |st.trades| ==>
          && ProperTrade(setup, sig, bars, st.trades[i])
          && st.trades[i].exitReason != EndOfData && st.trades[i].exitIndex < k)
    && Disjoint(st.trades)
    && (st.pending.Some? ==>
          && st.position.None? && 1 <= k && Lookup(sig, k - 1) == st.pending)
    && (st.position.Some? ==>
          && ProperPosition(setup, sig, bars, st.position.value) && st.position.value.entryIndex < k
          && Untouched(setup, bars, st.position.value.entryIndex, sig[st.position.value.entryIndex - 1], k)
          && forall i :: 0 <= i < |st.trades| ==> st.trades[i].exitIndex < st.position.value.entryIndex)
  }

  /** How per-bar dispatch and the first-touch rule line up on one bar. */
  lemma DispatchIsFirstTouch(setup: Setup, bars: seq<Kline>, p: Position, s: Signal, j: nat)
    requires j < |bars| && p.side == s.side && p.stopPrice == s.stopPrice && p.targetPrice == s.targetPrice
    ensures j == p.entryIndex ==> ResolveExit(p, bars[j], j, setup.maxBars) == None
    ensures j > p.entryIndex ==>
              ResolveExit(p, bars[j], j, setup.maxBars)
              == if MustExit(setup, bars, p.entryIndex, s, j) then Some(FirstTouchExit(s, bars[j])) else None
  {
  }

  /** A position held into bar `k` was properly opened, after every closed trade, and met no exit before. */
  predicate HeldInto(setup: Setup, sig: SignalMap, bars: seq<Kline>, k: nat, st: EngineState)
    requires k < |bars|
  {
    st.position.Some? ==>
      && ProperPosition(setup, sig, bars, st.position.value)
      && Untouched(setup, bars, st.position.value.entryIndex, sig[st.position.value.entryIndex - 1], k)
      && st.position.value.entryIndex <= k
      && forall i :: 0 <= i < |st.trades| ==> st.trades[i].exitIndex < st.position.value.entryIndex
  }

  lemma FillStepSound(setup: Setup, sig: SignalMap, bars: seq<Kline>, k: nat, st: EngineState)
    requires k < |bars| && st == Run(setup, sig, bars, k) && Sound(setup, sig, bars, k, st)
    ensures var filled := FillStep(setup, bars[k], k, st);
      && filled.pending.None? && filled.trades == st.trades
      && Sound(setup, sig, bars, k + 1, filled.(position := None))
      && HeldInto(setup, sig, bars, k, filled)
  {
    hide ProperTrade, Opened, EntrySizing, MustExit;
    if st.position.None? && st.pending.Some? {
      var s := st.pending.value;
      var sizing := EntrySizing(setup, s, st.equity, bars[k]);
      if sizing.Accepted? {
        OpenedShape(setup, s, k, bars[k], sizing);
      }
    }
  }

  lemma OpenedShape(setup: Setup, s: Signal, index: nat, bar: Kline, sizing: SizingResult)
    requires sizing.Accepted?
    ensures var p := Opened(setup, s, index, bar, sizing);
      && p.entryIndex == index && p.side == s.side && p.stopPrice == s.stopPrice && p.targetPrice == s.targetPrice
      && p.quantity == sizing.quantity
  {
  }

  lemma CloseShape(p: Position, index: nat, bar: Kline, exit: Exit, costs: CostModel)
    ensures var t := Close(p, index, bar, exit, costs);
      && t.entryIndex == p.entryIndex && t.exitIndex == index && t.exitReason == exit.reason && t.side == p.side
      && t.quantity == p.quantity && t.entryPrice == p.entryPrice
      && t.stopPrice == p.stopPrice && t.targetPrice == p.targetPrice
  {
  }

  lemma ExitSound(setup: Setup, sig: SignalMap, bars: seq<Kline>, k: nat, filled: EngineState)
    requires k < |bars| && filled.pending.None?
    requires Sound(setup, sig, bars, k + 1, filled.(position := None))
    requires HeldInto(setup, sig, bars, k, filled)
    ensures Sound(setup, sig, bars, k + 1, ExitStep(setup, bars[k], k, filled))
    ensures ExitStep(setup, bars[k], k, filled).pending.None?
  {
    hide Opened, EntrySizing, Close, MustExit, FirstTouchExit, ResolveExit;
    if filled.position.Some? {
      var p := filled.position.value;
      var s := sig[p.entryIndex - 1];
      OpenedShape(setup, s, p.entryIndex, bars[p.entryIndex],
                  EntrySizing(setup, s, EquityBefore(setup, sig, bars, p.entryIndex), bars[p.entryIndex]));
      DispatchIsFirstTouch(setup, bars, p, s, k);
      var exit := ResolveExit(p, bars[k], k, setup.maxBars);
      if exit.Some? {
        CloseShape(p, k, bars[k], exit.value, setup.costs);
        var t := Close(p, k, bars[k], exit.value, setup.costs);
        FirstTouchNeverEnds(s, bars[k]);
        assert ProperTrade(setup, sig, bars, t);
      }
    }
  }

  lemma FirstTouchNeverEnds(s: Signal, bar: Kline)
    ensures FirstTouchExit(s, bar).reason != EndOfData
  {
  }

  lemma {:induction false} RunSound(setup: Setup, sig: SignalMap, bars: seq<Kline>, k: nat)
    requires k <= |bars|
    ensures Sound(setup, sig, bars, k, Run(setup, sig, bars, k))
  {
    hide BarStep;
    if k == 0 {
      StartSound(setup, sig, bars);
    } else {
      hide Sound;
      RunSound(setup, sig, bars, k - 1);
      BarStepSound(setup, sig, bars, k - 1, Run(setup, sig, bars, k - 1));
    }
  }

  lemma StartSound(setup: Setup, sig: SignalMap, bars: seq<Kline>)
    ensures Sound(setup, sig, bars, 0, Run(setup, sig, bars, 0))
  {
  }

  lemma BarStepSound(setup: Setup, sig: SignalMap, bars: seq<Kline>, k: nat, st: EngineState)
    requires k < |bars| && st == Run(setup, sig, bars, k) && Sound(setup, sig, bars, k, st)
    ensures Sound(setup, sig, bars, k + 1, BarStep(setup, sig, bars[k], k, st))
  {
    hide Sound, HeldInto, FillStep, ExitStep, ArmStep;
    FillStepSound(setup, sig, bars, k, st);
    var filled := FillStep(setup, bars[k], k, st);
    ExitSound(setup, sig, bars, k, filled);
    ArmSound(setup, sig, bars, k, ExitStep(setup, bars[k], k, filled));
  }

  lemma ArmSound(setup: Setup, sig: SignalMap, bars: seq<Kline>, k: nat, st: EngineState)
    requires k < |bars| && st.pending.None? && Sound(setup, sig, bars, k + 1, st)
    ensures var armed := ArmStep(sig, k, st);
      Sound(setup, sig, bars, k + 1, armed.(curve := armed.curve + [armed.equity]))
  {
    hide ProperTrade, ProperPosition, Untouched;
  }

  /** Every trade of a run is entered at the open after its signal, leaves on the first bar that forces it
      out (the stop winning ties) or is never touched, and starts after the previous one ended. */
  lemma TradesAreFirstTouchAndDisjoint(setup: Setup, sig: SignalMap, bars: seq<Kline>)
    ensures var trades := FinalState(setup, sig, bars).trades;
      && Disjoint(trades)
      && (forall i :: 0 <= i < |trades| ==> ProperTrade(setup, sig, bars, trades[i]))
      && (forall i :: 0 <= i < |trades| && trades[i].exitReason == EndOfData ==> i == |trades| - 1)
  {
    var n := |bars|;
    RunSound(setup, sig, bars, n);
    NothingOpenWithoutBars(setup, sig, bars);
    var st := Run(setup, sig, bars, n);
    if st.position.Some? {
      FinishSound(setup, sig, bars, st);
    }
  }

  lemma FinishSound(setup: Setup, sig: SignalMap, bars: seq<Kline>, st: EngineState)
    requires bars != [] && st.position.Some? && Sound(setup, sig, bars, |bars|, st)
    ensures var trades := Finish(setup, bars, st).trades;
      && |trades| == |st.trades| + 1 && trades[..|st.trades|] == st.trades
      && Disjoint(trades)
      && ProperTrade(setup, sig, bars, trades[|st.trades|])
  {
    hide Opened, EntrySizing, Close, MustExit, FirstTouchExit;
    var p, last := st.position.value, |bars| - 1;
    var s := sig[p.entryIndex - 1];
    OpenedShape(setup, s, p.entryIndex, bars[p.entryIndex],
                EntrySizing(setup, s, EquityBefore(setup, sig, bars, p.entryIndex), bars[p.entryIndex]));
    CloseShape(p, last, bars[last], Exit(bars[last].close, EndOfData), setup.costs);
  }
}
