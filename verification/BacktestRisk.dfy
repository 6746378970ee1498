/** What sizing guarantees a run: a bounded loss per trade and, long only, equity that stays positive. */
module BacktestRisk {
  import opened Common
  import opened Market
  import opened Sizing
  import opened Trades
  import opened Backtest
  import opened BacktestProperties
  import Ev = Evaluator

  predicate AllOrdered(sig: SignalMap) {
    forall i :: i in sig ==> LevelsOrdered(sig[i])
  }

  lemma {:induction false} FirstSignalsOrdered(signals: seq<Signal>)
    requires forall s :: 0 <= s < |signals| ==> LevelsOrdered(signals[s])
    ensures AllOrdered(FirstSignals(signals))
  {
    if signals != [] {
      FirstSignalsOrdered(signals[..|signals| - 1]);
    }
  }

  /** What sizing granted the trade: the quantity and what it put at risk. */
  lemma SizingOfTrade(setup: Setup, sig: SignalMap, bars: seq<Kline>, t: Trade)
    requires ProperTrade(setup, sig, bars, t)
    ensures var s := sig[t.entryIndex - 1];
      var before := EquityBefore(setup, sig, bars, t.entryIndex);
      var sizing := EntrySizing(setup, s, before, bars[t.entryIndex]);
      && sizing.Accepted? && before > 0.0
      && t.side == s.side && t.stopPrice == s.stopPrice && t.targetPrice == s.targetPrice
      && t.quantity == sizing.quantity > 0.0
      && t.entryPrice == FillPrice(setup.costs, bars[t.entryIndex].open, s.side, true) > 0.0
      && sizing.riskAmount
        == Times(t.quantity, AbsOf(t.entryPrice - t.stopPrice)) <= Times(before, setup.policy.riskPct)
      && sizing.notional == Times(t.quantity, t.entryPrice) <= Times(before, setup.policy.maxPositionPct)
      && (t.side == Long ==> t.stopPrice < t.entryPrice)
      && (t.side == Short ==> t.entryPrice < t.stopPrice)
  {
    hide Close, MustExit, FirstTouchExit, FillPrice, AbsOf, Times, FeeOn, SizePosition;
    var s := sig[t.entryIndex - 1];
    var before := EquityBefore(setup, sig, bars, t.entryIndex);
    var r := EntryRequest(s, before, bars[t.entryIndex], setup.costs);
    var p := PositionOf(setup, sig, bars, t).value;
    AcceptedRespectsCaps(r, setup.policy, setup.filters);
    TimesOne(Times(before, setup.policy.riskPct));
    var exit := if t.exitReason == EndOfData then Exit(bars[t.exitIndex].close, EndOfData)
                else FirstTouchExit(s, bars[t.exitIndex]);
    CloseShape(p, t.exitIndex, bars[t.exitIndex], exit, setup.costs);
  }

  lemma TimesOne(a: real)
    ensures Times(a, 1.0) == a
  {
  }

  /** Every trade that leaves at its stop or its target loses at most the risk budget of the equity it was
      sized from, even when the fill gapped past the target; one that leaves at its stop loses exactly the
      amount sizing put at risk. */
  lemma LossBoundedByBudget(setup: Setup, sig: SignalMap, bars: seq<Kline>, t: Trade)
    requires ProperTrade(setup, sig, bars, t) && AllOrdered(sig)
    requires t.exitReason == StopHit || t.exitReason == TargetHit
    ensures var s := sig[t.entryIndex - 1];
      var before := EquityBefore(setup, sig, bars, t.entryIndex);
      var sizing := EntrySizing(setup, s, before, bars[t.entryIndex]);
      && sizing.Accepted?
      && t.grossPnl >= -Times(before, setup.policy.riskPct)
      && (t.exitReason == StopHit ==> t.grossPnl == -sizing.riskAmount)
  {
    hide FillPrice, Times, FeeOn, SizePosition, EntrySizing, MustExit;
    SizingOfTrade(setup, sig, bars, t);
    var s := sig[t.entryIndex - 1];
    assert LevelsOrdered(s);
    assert t.exitPrice == if t.exitReason == StopHit then t.stopPrice else t.targetPrice;
    var gain, risk := Gain(t.side, t.entryPrice, t.exitPrice), AbsOf(t.entryPrice - t.stopPrice);
    assert t.exitReason == StopHit ==> gain == -risk;
    assert gain >= -risk;
    GainTimesQuantity(gain, risk, t.quantity);
  }

  lemma GainTimesQuantity(gain: real, risk: real, quantity: real)
    requires gain >= -risk && quantity > 0.0
    ensures Times(gain, quantity) >= -Times(quantity, risk)
    ensures gain == -risk ==> Times(gain, quantity) == -Times(quantity, risk)
  {
    MulOrder(-risk, gain, quantity);
    assert (-risk) * quantity == -(quantity * risk);
  }

  /** The bound holds of every stop or target exit in every backtest of a valid spec. */
  lemma EveryLossBounded(spec: Ev.StrategySpec, bars: seq<Kline>, setup: Setup, i: nat)
    requires Ev.ValidSpec(spec)
    requires i < |FinalState(setup, FirstSignals(Ev.Signals(spec, bars)), bars).trades|
    ensures var sig := FirstSignals(Ev.Signals(spec, bars));
      var t := FinalState(setup, sig, bars).trades[i];
      && Signalled(sig, bars, t.entryIndex)
      && var before := EquityBefore(setup, sig, bars, t.entryIndex);
         var sizing := EntrySizing(setup, sig[t.entryIndex - 1], before, bars[t.entryIndex]);
         && (t.exitReason == StopHit || t.exitReason == TargetHit ==>
               sizing.Accepted? && t.grossPnl >= -Times(before, setup.policy.riskPct))
         && (t.exitReason == StopHit ==> t.grossPnl == -sizing.riskAmount)
  {
    var signals := Ev.Signals(spec, bars);
    var sig := FirstSignals(signals);
    Ev.SignalsChronological(spec, bars);
    FirstSignalsOrdered(signals);
    TradesAreFirstTouchAndDisjoint(setup, sig, bars);
    var t := FinalState(setup, sig, bars).trades[i];
    if t.exitReason == StopHit || t.exitReason == TargetHit {
      LossBoundedByBudget(setup, sig, bars, t);
    }
  }

  // ---------------------------------------------------------------- long-only runs stay solvent

  /** The most one long trade can cost, as a fraction of the equity it was sized from. */
  function WorstFraction(setup: Setup): real {
    Times(setup.policy.maxPositionPct, 1.0 + setup.costs.feeRate)
  }

  /** A position cap that leaves something after a total loss, and a fee in the one range in which every trade
      within the cap keeps to it. */
  predicate Solvent(setup: Setup) {
    && setup.startingEquity > 0.0
    && -1.0 <= setup.costs.feeRate <= 1.0
    && setup.costs.slippageRate < 1.0
    && WorstFraction(setup) < 1.0
  }

  predicate LongOnly(sig: SignalMap) {
    forall i :: i in sig ==> sig[i].side == Long
  }

  function Power(base: real, n: nat): real {
    if n == 0 then 1.0 else Times(Power(base, n - 1), base)
  }

  /** The least equity `n` closed trades can leave. */
  function Floor(setup: Setup, n: nat): real {
    Times(setup.startingEquity, Power(1.0 - WorstFraction(setup), n))
  }

  lemma {:induction false} FloorPositive(setup: Setup, n: nat)
    requires Solvent(setup)
    ensures Floor(setup, n) > 0.0
    ensures n > 0 ==> Floor(setup, n) == Times(Floor(setup, n - 1), 1.0 - WorstFraction(setup))
  {
    hide WorstFraction;
    PowerPositive(1.0 - WorstFraction(setup), n);
    TimesPositive(setup.startingEquity, Power(1.0 - WorstFraction(setup), n));
    if n > 0 {
      TimesAssociates(setup.startingEquity, Power(1.0 - WorstFraction(setup), n - 1), 1.0 - WorstFraction(setup));
    }
  }

  lemma {:induction false} PowerPositive(base: real, n: nat)
    requires base > 0.0
    ensures Power(base, n) > 0.0
  {
    if n > 0 {
      PowerPositive(base, n - 1);
      TimesPositive(Power(base, n - 1), base);
    }
  }

  /** A long position bought out of `before` with positive notional, then sold at a non-negative price. */
  lemma LongTradeKeepsFraction(setup: Setup, before: real, quantity: real, entry: real, exit: real)
    requires Solvent(setup) && before > 0.0 && quantity > 0.0 && exit >= 0.0
    requires 0.0 < Times(quantity, entry) <= Times(before, setup.policy.maxPositionPct)
    ensures before - FeeOn(setup.costs, Times(quantity, entry))
              >= Times(before, 1.0 - WorstFraction(setup))
    ensures before - FeeOn(setup.costs, Times(quantity, entry)) + Times(Gain(Long, entry, exit), quantity)
              - FeeOn(setup.costs, Times(exit, quantity)) >= Times(before, 1.0 - WorstFraction(setup))
  {
    var fee, paid := setup.costs.feeRate, quantity * entry;
    var got, cap := exit * quantity, before * setup.policy.maxPositionPct;
    assert (exit - entry) * quantity == got - paid;
    MulOrder(0.0, exit, quantity);
    MulOrder(fee, 1.0, got);
    MulOrder(paid, cap, 1.0 + fee);
    assert paid * (1.0 + fee) == paid + paid * fee;
    var worst := WorstFraction(setup);
    assert cap * (1.0 + fee) == before * worst;
    assert before * (1.0 - worst) == before - before * worst;
    assert Times(before, 1.0 - worst) == before - before * worst;
    assert FeeOn(setup.costs, Times(quantity, entry)) == paid * fee;
    assert FeeOn(setup.costs, Times(exit, quantity)) == got * fee == fee * got;
    assert before - paid * (1.0 + fee) >= Times(before, 1.0 - worst);
    assert Times(Gain(Long, entry, exit), quantity) == got - paid;
  }

  /** The state of a solvent long-only run after some bars. */
  predicate SolventState(setup: Setup, sig: SignalMap, bars: seq<Kline>, st: EngineState) {
    && (forall i :: 0 <= i < |st.curve| ==> st.curve[i] > 0.0)
    && st.equity > 0.0
    && (st.position.None? ==> st.equity >= Floor(setup, |st.trades|))
    && (st.position.Some? ==>
          && ProperPosition(setup, sig, bars, st.position.value)
          && var before := EquityBefore(setup, sig, bars, st.position.value.entryIndex);
             && before >= Floor(setup, |st.trades|)
             && st.equity == before - st.position.value.entryFee)
  }

  lemma FloorStep(setup: Setup, n: nat, before: real)
    requires Solvent(setup) && before >= Floor(setup, n)
    ensures Times(before, 1.0 - WorstFraction(setup)) >= Floor(setup, n + 1) > 0.0
  {
    hide WorstFraction;
    FloorPositive(setup, n + 1);
    TimesMonotone(Floor(setup, n), before, 1.0 - WorstFraction(setup));
  }

  /** Opening a position leaves equity above the floor of the next trade. */
  lemma OpeningKeepsFloor(setup: Setup, sig: SignalMap, bars: seq<Kline>, p: Position, n: nat)
    requires Solvent(setup) && LongOnly(sig) && ProperPosition(setup, sig, bars, p)
    requires EquityBefore(setup, sig, bars, p.entryIndex) >= Floor(setup, n)
    ensures EquityBefore(setup, sig, bars, p.entryIndex) - p.entryFee >= Floor(setup, n + 1) > 0.0
  {
    hide WorstFraction, Times, FeeOn, FillPrice, AbsOf;
    var s := sig[p.entryIndex - 1];
    var before := EquityBefore(setup, sig, bars, p.entryIndex);
    AcceptedRespectsCaps(EntryRequest(s, before, bars[p.entryIndex], setup.costs), setup.policy, setup.filters);
    LongTradeKeepsFraction(setup, before, p.quantity, p.entryPrice, 0.0);
    FloorStep(setup, n, before);
  }

  /** Closing a long position at any positive price leaves equity above the floor of the trades so far. */
  lemma ClosingKeepsFloor(setup: Setup, sig: SignalMap, bars: seq<Kline>, p: Position, n: nat,
                          index: nat, bar: Kline, exit: Exit)
    requires Solvent(setup) && LongOnly(sig) && ProperPosition(setup, sig, bars, p)
    requires EquityBefore(setup, sig, bars, p.entryIndex) >= Floor(setup, n)
    requires exit.price > 0.0
    ensures var t := Close(p, index, bar, exit, setup.costs);
      EquityBefore(setup, sig, bars, p.entryIndex) - p.entryFee + CloseCredit(p, t) >= Floor(setup, n + 1) > 0.0
  {
    hide WorstFraction, Times, FeeOn, AbsOf, Gain;
    var s := sig[p.entryIndex - 1];
    var before := EquityBefore(setup, sig, bars, p.entryIndex);
    var t := Close(p, index, bar, exit, setup.costs);
    AcceptedRespectsCaps(EntryRequest(s, before, bars[p.entryIndex], setup.costs), setup.policy, setup.filters);
    TimesPositive(exit.price, 1.0 - setup.costs.slippageRate);
    LongTradeKeepsFraction(setup, before, p.quantity, p.entryPrice, t.exitPrice);
    FloorStep(setup, n, before);
  }

  lemma FillStepSolvent(setup: Setup, sig: SignalMap, bars: seq<Kline>, k: nat, st: EngineState)
    requires Solvent(setup) && LongOnly(sig) && k < |bars| && st == Run(setup, sig, bars, k)
    requires SolventState(setup, sig, bars, st) && Sound(setup, sig, bars, k, st)
    ensures SolventState(setup, sig, bars, FillStep(setup, bars[k], k, st))
  {
    hide Opened, EntrySizing, Floor, ProperTrade, Untouched;
    var filled := FillStep(setup, bars[k], k, st);
    if st.position.None? && filled.position.Some? {
      var s := st.pending.value;
      OpenedShape(setup, s, k, bars[k], EntrySizing(setup, s, st.equity, bars[k]));
      OpeningKeepsFloor(setup, sig, bars, filled.position.value, |st.trades|);
    }
  }

  /** A position's levels are its signal's, so they are positive. */
  lemma ExitPricePositive(setup: Setup, sig: SignalMap, bars: seq<Kline>, p: Position, index: nat, bar: Kline)
    requires ProperPosition(setup, sig, bars, p) && AllOrdered(sig)
    requires ResolveExit(p, bar, index, setup.maxBars).Some?
    ensures ResolveExit(p, bar, index, setup.maxBars).value.price > 0.0
  {
    hide EntrySizing;
    var s := sig[p.entryIndex - 1];
    assert LevelsOrdered(s);
    OpenedShape(setup, s, p.entryIndex, bars[p.entryIndex],
                EntrySizing(setup, s, EquityBefore(setup, sig, bars, p.entryIndex), bars[p.entryIndex]));
  }

  lemma ExitStepSolvent(setup: Setup, sig: SignalMap, bars: seq<Kline>, k: nat, st: EngineState)
    requires Solvent(setup) && LongOnly(sig) && AllOrdered(sig) && k < |bars|
    requires SolventState(setup, sig, bars, st)
    ensures SolventState(setup, sig, bars, ExitStep(setup, bars[k], k, st))
  {
    hide Opened, EntrySizing, Floor, Close, ResolveExit, CloseCredit, ProperPosition;
    if st.position.Some? {
      var p := st.position.value;
      var exit := ResolveExit(p, bars[k], k, setup.maxBars);
      if exit.Some? {
        ExitPricePositive(setup, sig, bars, p, k, bars[k]);
        ClosingKeepsFloor(setup, sig, bars, p, |st.trades|, k, bars[k], exit.value);
      }
    }
  }

  lemma {:induction false} RunSolvent(setup: Setup, sig: SignalMap, bars: seq<Kline>, k: nat)
    requires Solvent(setup) && LongOnly(sig) && AllOrdered(sig) && k <= |bars|
    ensures SolventState(setup, sig, bars, Run(setup, sig, bars, k))
  {
    hide BarStep, Floor, Sound, ProperPosition, LongOnly, AllOrdered, Solvent;
    if k == 0 {
      StartSolvent(setup, sig, bars);
    } else {
      hide SolventState;
      RunSolvent(setup, sig, bars, k - 1);
      RunSound(setup, sig, bars, k - 1);
      BarStepSolvent(setup, sig, bars, k - 1, Run(setup, sig, bars, k - 1));
    }
  }

  lemma StartSolvent(setup: Setup, sig: SignalMap, bars: seq<Kline>)
    requires Solvent(setup)
    ensures SolventState(setup, sig, bars, Run(setup, sig, bars, 0))
  {
    hide Floor;
    FloorOfNone(setup);
  }

  lemma BarStepSolvent(setup: Setup, sig: SignalMap, bars: seq<Kline>, k: nat, st: EngineState)
    requires Solvent(setup) && LongOnly(sig) && AllOrdered(sig) && k < |bars| && st == Run(setup, sig, bars, k)
    requires SolventState(setup, sig, bars, st) && Sound(setup, sig, bars, k, st)
    ensures SolventState(setup, sig, bars, BarStep(setup, sig, bars[k], k, st))
  {
    hide Solvent, LongOnly, AllOrdered, SolventState, Sound, FillStep, ExitStep, ArmStep;
    FillStepSolvent(setup, sig, bars, k, st);
    var filled := FillStep(setup, bars[k], k, st);
    ExitStepSolvent(setup, sig, bars, k, filled);
    CurvePointSolvent(setup, sig, bars, k, ExitStep(setup, bars[k], k, filled));
  }

  lemma CurvePointSolvent(setup: Setup, sig: SignalMap, bars: seq<Kline>, k: nat, st: EngineState)
    requires SolventState(setup, sig, bars, st)
    ensures var armed := ArmStep(sig, k, st);
      SolventState(setup, sig, bars, armed.(curve := armed.curve + [armed.equity]))
  {
    hide Floor, ProperPosition;
  }

  lemma FloorOfNone(setup: Setup)
    ensures Floor(setup, 0) == setup.startingEquity
  {
  }

  /** A long-only run never goes broke: after n trades equity is at least the start shrunk n times by the
      worst single trade, and every point of the curve is positive. */
  lemma LongOnlyStaysSolvent(setup: Setup, sig: SignalMap, bars: seq<Kline>)
    requires Solvent(setup) && LongOnly(sig) && AllOrdered(sig)
    ensures var end := FinalState(setup, sig, bars);
      && end.equity >= Floor(setup, |end.trades|) > 0.0
      && forall i :: 0 <= i < |end.curve| ==> end.curve[i] > 0.0
  {
    hide Floor, Close, CloseCredit, ProperPosition;
    RunSolvent(setup, sig, bars, |bars|);
    NothingOpenWithoutBars(setup, sig, bars);
    var st := Run(setup, sig, bars, |bars|);
    FloorPositive(setup, |st.trades|);
    if st.position.Some? {
      var last := |bars| - 1;
      ClosingKeepsFloor(setup, sig, bars, st.position.value, |st.trades|, last, bars[last],
                        Exit(bars[last].close, EndOfData));
    }
  }

  lemma {:induction false} FirstSignalsLong(signals: seq<Signal>)
    requires forall s :: s in signals ==> s.side == Long
    ensures LongOnly(FirstSignals(signals))
  {
    if signals != [] {
      var rest, last := signals[..|signals| - 1], signals[|signals| - 1];
      assert last in signals;
      FirstSignalsLong(rest);
    }
  }

  /** The same of every backtest of a spec whose only entry rule is long. */
  lemma LongOnlyBacktestStaysSolvent(spec: Ev.StrategySpec, bars: seq<Kline>, setup: Setup)
    requires Ev.ValidSpec(spec) && Solvent(setup)
    requires forall e :: 0 <= e < |spec.entries| ==> spec.entries[e].side == Long
    ensures var end := FinalState(setup, FirstSignals(Ev.Signals(spec, bars)), bars);
      && end.equity >= Floor(setup, |end.trades|) > 0.0
      && forall i :: 0 <= i < |end.curve| ==> end.curve[i] > 0.0
  {
    hide Floor, Solvent;
    var signals := Ev.Signals(spec, bars);
    Ev.SignalsChronological(spec, bars);
    FirstSignalsOrdered(signals);
    Ev.ValidSpecIsKnown(spec, bars);
    Ev.SignalSides(spec, |bars|, bars, Ev.ComputedFor(spec.indicators, bars));
    FirstSignalsLong(signals);
    LongOnlyStaysSolvent(setup, FirstSignals(signals), bars);
  }
}
