/** A strategy that signals on every bar: a witness for properties that some strategy breaks. */
module EagerStrategy {
  import opened Market
  import opened Common
  import Ev = Evaluator

  const EAGER := Ev.EntryRule(Long, [Ev.Condition(Ev.Price(Ev.ClosePrice), Ev.Gt, Ev.Constant(0.0))])

  /** Goes long on every bar, a tenth away either way. */
  function EagerSpec(symbol: string): Ev.StrategySpec {
    Ev.StrategySpec(symbol, [], [EAGER], Ev.PercentStop(0.1), Ev.PercentTarget(0.1), 10)
  }

  lemma EagerIsValid(symbol: string)
    requires 1 <= |symbol| <= 20
    ensures Ev.ValidSpec(EagerSpec(symbol))
  {
    assert Ev.RuleKnown([], EagerSpec(symbol).entries[0]);
  }

  function EagerSignal(bars: seq<Kline>, i: nat): Signal
    requires i < |bars|
  {
    var c := bars[i].close;
    Signal(i, Long, c, c - c * 0.1, c + c * 0.1)
  }

  lemma EagerFires(symbol: string, bars: seq<Kline>, i: nat)
    requires i < |bars|
    ensures Ev.SpecKnown(EagerSpec(symbol), map[])
    ensures Ev.BarSignals(EagerSpec(symbol), 1, i, bars, map[]) == [EagerSignal(bars, i)]
  {
    var spec := EagerSpec(symbol);
    assert Ev.RuleComputed(spec.entries[0], map[]);
    assert Ev.Holds(EAGER.conditions[0], i, bars, map[]);
    assert Ev.RuleSignal(spec, EAGER, i, bars, map[]) == Some(EagerSignal(bars, i));
    assert Ev.BarSignals(spec, 0, i, bars, map[]) == [];
  }

  lemma EagerOverTwoBars(symbol: string, bars: seq<Kline>)
    requires 1 <= |symbol| <= 20 && |bars| == 2
    ensures Ev.ValidSpec(EagerSpec(symbol))
    ensures Ev.Signals(EagerSpec(symbol), bars) == [EagerSignal(bars, 0), EagerSignal(bars, 1)]
  {
    var spec := EagerSpec(symbol);
    EagerIsValid(symbol);
    EagerFires(symbol, bars, 0);
    EagerFires(symbol, bars, 1);
    var p, q := EagerSignal(bars, 0), EagerSignal(bars, 1);
    assert Ev.ComputedFor(spec.indicators, bars) == map[];
    assert Ev.SignalsOf(spec, 0, bars, map[]) == [];
    hide EagerSignal, Ev.ValidSpec;
    assert Ev.SignalsOf(spec, 1, bars, map[]) == [] + [p] == [p];
    assert Ev.SignalsOf(spec, 2, bars, map[]) == [p] + [q];
  }
}
