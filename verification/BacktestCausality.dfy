/** No look-ahead, end to end: a backtest on a prefix of the history is the prefix of the backtest. */
module BacktestCausality {
  import opened Market
  import opened Trades
  import opened Backtest
  import opened BacktestProperties
  import Ev = Evaluator

  // ---------------------------------------------------------------- the kept signals of a prefix

  ghost predicate SameBefore(early: SignalMap, full: SignalMap, k: nat) {
    forall i :: i in early <==> i in full && i < k
  }

  lemma {:induction false} FirstSignalsBefore(signals: seq<Signal>, k: nat)
    ensures var early, full := FirstSignals(Ev.Before(signals, k)), FirstSignals(signals);
      && SameBefore(early, full, k)
      && forall i :: i in early ==> early[i] == full[i]
  {
    if signals != [] {
      var rest, last := signals[..|signals| - 1], signals[|signals| - 1];
      FirstSignalsBefore(rest, k);
      if last.barIndex < k {
        var cut := Ev.Before(rest, k);
        assert (cut + [last])[..|cut|] == cut;
      }
    }
  }

  // ---------------------------------------------------------------- the engine

  /** The engine after `m` bars depends on nothing from bar `k` on. */
  lemma {:induction false} RunCausal(setup: Setup, early: SignalMap, full: SignalMap, bars: seq<Kline>, k: nat, m: nat)
    requires m <= k <= |bars|
    requires forall i :: 0 <= i < k ==> Lookup(early, i) == Lookup(full, i)
    ensures Run(setup, early, bars[..k], m) == Run(setup, full, bars, m)
  {
    if m > 0 {
      RunCausal(setup, early, full, bars, k, m - 1);
      assert Lookup(early, m - 1) == Lookup(full, m - 1);
      BarStepSameLookup(setup, early, full, bars[m - 1], m - 1, Run(setup, full, bars, m - 1));
    }
  }

  lemma BarStepSameLookup(setup: Setup, a: SignalMap, b: SignalMap, bar: Kline, index: nat, st: EngineState)
    requires Lookup(a, index) == Lookup(b, index)
    ensures BarStep(setup, a, bar, index, st) == BarStep(setup, b, bar, index, st)
  {
    hide FillStep, ExitStep;
  }

  /** The trades that left before bar `k`, other than by running out of data. */
  function ExitedBefore(trades: seq<Trade>, k: nat): seq<Trade> {
    if trades == [] then []
    else
      var rest, last := ExitedBefore(trades[..|trades| - 1], k), trades[|trades| - 1];
      if last.exitReason != EndOfData && last.exitIndex < k then rest + [last] else rest
  }

  lemma {:induction false} AllExitedBefore(trades: seq<Trade>, k: nat)
    requires forall i :: 0 <= i < |trades| ==> trades[i].exitReason != EndOfData && trades[i].exitIndex < k
    ensures ExitedBefore(trades, k) == trades
  {
    if trades != [] {
      AllExitedBefore(trades[..|trades| - 1], k);
    }
  }

  /** Later bars only append trades that leave on them, and only append to the curve. */
  lemma BarStepExtends(setup: Setup, sig: SignalMap, bar: Kline, index: nat, st: EngineState, k: nat)
    requires k <= index
    ensures ExitedBefore(BarStep(setup, sig, bar, index, st).trades, k) == ExitedBefore(st.trades, k)
    ensures |BarStep(setup, sig, bar, index, st).curve| == |st.curve| + 1
    ensures BarStep(setup, sig, bar, index, st).curve[..|st.curve|] == st.curve
  {
    hide Close, EntrySizing, Opened, ResolveExit;
    var filled := FillStep(setup, bar, index, st);
    if filled.position.Some? {
      var exit := ResolveExit(filled.position.value, bar, index, setup.maxBars);
      if exit.Some? {
        CloseShape(filled.position.value, index, bar, exit.value, setup.costs);
        var t := Close(filled.position.value, index, bar, exit.value, setup.costs);
        assert (filled.trades + [t])[..|filled.trades|] == filled.trades;
      }
    }
  }

  lemma AllExitedInRun(setup: Setup, sig: SignalMap, bars: seq<Kline>, k: nat)
    requires k <= |bars|
    ensures ExitedBefore(Run(setup, sig, bars, k).trades, k) == Run(setup, sig, bars, k).trades
  {
    hide BarStep, ProperTrade, ProperPosition, Untouched;
    RunSound(setup, sig, bars, k);
    AllExitedBefore(Run(setup, sig, bars, k).trades, k);
  }

  lemma {:induction false} RunExtends(setup: Setup, sig: SignalMap, bars: seq<Kline>, k: nat, m: nat)
    requires k <= m <= |bars|
    ensures ExitedBefore(Run(setup, sig, bars, m).trades, k) == Run(setup, sig, bars, k).trades
    ensures |Run(setup, sig, bars, m).curve| == m
    ensures Run(setup, sig, bars, m).curve[..k] == Run(setup, sig, bars, k).curve
    decreases m - k
  {
    hide BarStep, Balanced;
    EquityConserved(setup, sig, bars, m);
    EquityConserved(setup, sig, bars, k);
    if m == k {
      AllExitedInRun(setup, sig, bars, k);
    } else {
      RunExtends(setup, sig, bars, k, m - 1);
      BarStepExtends(setup, sig, bars[m - 1], m - 1, Run(setup, sig, bars, m - 1), k);
    }
  }

  lemma FinishExtends(setup: Setup, sig: SignalMap, bars: seq<Kline>, k: nat)
    requires k <= |bars|
    ensures var end := FinalState(setup, sig, bars);
      && ExitedBefore(end.trades, k) == Run(setup, sig, bars, k).trades
      && |end.curve| == |bars| && |Run(setup, sig, bars, k).curve| == k
      && forall i :: 0 <= i < k && i < |bars| - 1 ==> end.curve[i] == Run(setup, sig, bars, k).curve[i]
  {
    hide BarStep, Finish, Balanced;
    RunExtends(setup, sig, bars, k, |bars|);
    RunExtends(setup, sig, bars, k, k);
    NothingOpenWithoutBars(setup, sig, bars);
    var st, early := Run(setup, sig, bars, |bars|), Run(setup, sig, bars, k);
    FinishKeeps(setup, bars, st, k);
    assert forall i :: 0 <= i < k ==> st.curve[i] == st.curve[..k][i];
  }

  /** The forced close changes no earlier trade and only the last point of the curve. */
  lemma FinishKeeps(setup: Setup, bars: seq<Kline>, st: EngineState, k: nat)
    requires |st.curve| == |bars| && (st.position.Some? ==> bars != [])
    ensures var end := Finish(setup, bars, st);
      && ExitedBefore(end.trades, k) == ExitedBefore(st.trades, k)
      && |end.curve| == |bars|
      && forall i :: 0 <= i < |bars| - 1 ==> end.curve[i] == st.curve[i]
  {
    if st.position.Some? {
      FinishAppendsEndOfData(setup, bars, st);
      hide Finish;
      var end, n := Finish(setup, bars, st), |bars| - 1;
      assert end.trades[..|end.trades| - 1] == st.trades;
      assert forall i :: 0 <= i < n ==> end.curve[i] == end.curve[..n][i] && st.curve[i] == st.curve[..n][i];
    }
  }

  lemma FinishAppendsEndOfData(setup: Setup, bars: seq<Kline>, st: EngineState)
    requires st.position.Some? && bars != [] && |st.curve| == |bars|
    ensures var end := Finish(setup, bars, st);
      && |end.trades| == |st.trades| + 1 && end.trades[..|st.trades|] == st.trades
      && end.trades[|st.trades|].exitReason == EndOfData
      && |end.curve| == |bars| && end.curve[..|bars| - 1] == st.curve[..|bars| - 1]
  {
    hide Close;
    CloseShape(st.position.value, |bars| - 1, bars[|bars| - 1], Exit(bars[|bars| - 1].close, EndOfData), setup.costs);
  }

  /** For every `k`: backtesting the first `k` bars gives exactly the trades of the full backtest that left
      before bar `k`, and the same equity curve up to its last point, where only a forced close may differ. */
  lemma BacktestIsCausal(spec: Ev.StrategySpec, bars: seq<Kline>, setup: Setup, k: nat)
    requires Ev.ValidSpec(spec) && k <= |bars|
    ensures var early := FinalState(setup, FirstSignals(Ev.Signals(spec, bars[..k])), bars[..k]);
      var full := FinalState(setup, FirstSignals(Ev.Signals(spec, bars)), bars);
      && ExitedBefore(early.trades, k) == ExitedBefore(full.trades, k)
      && |early.curve| == k && |full.curve| == |bars|
      && forall i :: 0 <= i < k - 1 ==> early.curve[i] == full.curve[i]
  {
    var cut := bars[..k];
    var early, full := FirstSignals(Ev.Signals(spec, cut)), FirstSignals(Ev.Signals(spec, bars));
    Ev.SignalsCausal(spec, bars, k);
    FirstSignalsBefore(Ev.Signals(spec, bars), k);
    RunCausal(setup, early, full, bars, k, k);
    FinishExtends(setup, early, cut, k);
    FinishExtends(setup, full, bars, k);
  }
}
