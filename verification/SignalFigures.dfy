/** Which signals a spec raises, and at what levels, said from the spec and the bars alone. */
module SignalFigures {
  import opened Common
  import opened Market
  import opened Evaluator
  import Ind = Indicators

  // ---------------------------------------------------------------- what a bar says

  /** The value on bar `i` of the indicator of that id. */
  predicate IndicatorReads(items: seq<IndicatorSpec>, bars: seq<Kline>, id: string, i: nat, v: Option<real>)
    requires i < |bars|
  {
    exists k :: 0 <= k < |items| && items[k].id == id && items[k].period >= 1
      && v == Ind.SeriesOf(items[k].name, bars, items[k].period)[i]
  }

  /** An operand's value on bar `i`: itself, the bar's own figure, or the indicator's value there. */
  predicate Reads(items: seq<IndicatorSpec>, bars: seq<Kline>, o: Operand, i: nat, v: Option<real>)
    requires i < |bars|
  {
    && (o.Constant? ==> v == Some(o.value))
    && (o == Price(OpenPrice) ==> v == Some(bars[i].open))
    && (o == Price(HighPrice) ==> v == Some(bars[i].high))
    && (o == Price(LowPrice) ==> v == Some(bars[i].low))
    && (o == Price(ClosePrice) ==> v == Some(bars[i].close))
    && (o == Price(TradedVolume) ==> v == Some(bars[i].volume))
    && (o.IndicatorValue? ==> IndicatorReads(items, bars, o.ref, i, v))
  }

  /** Both operands have a value on bar `i` and the first exceeds the second. */
  ghost predicate Exceeds(items: seq<IndicatorSpec>, bars: seq<Kline>, a: Operand, b: Operand, i: nat)
    requires i < |bars|
  {
    exists x: real, y: real :: Reads(items, bars, a, i, Some(x)) && Reads(items, bars, b, i, Some(y)) && x > y
  }

  /** Both operands have a value on bar `i` and the first is no less than the second. */
  ghost predicate AtLeast(items: seq<IndicatorSpec>, bars: seq<Kline>, a: Operand, b: Operand, i: nat)
    requires i < |bars|
  {
    exists x: real, y: real :: Reads(items, bars, a, i, Some(x)) && Reads(items, bars, b, i, Some(y)) && x >= y
  }

  /** What a condition asks for: an order of its operands, and for a crossing that it was the other way one bar ago. */
  ghost predicate Met(items: seq<IndicatorSpec>, bars: seq<Kline>, c: Condition, i: nat)
    requires i < |bars|
  {
    && (c.op == Gt ==> Exceeds(items, bars, c.left, c.right, i))
    && (c.op == Lt ==> Exceeds(items, bars, c.right, c.left, i))
    && (c.op == Gte ==> AtLeast(items, bars, c.left, c.right, i))
    && (c.op == Lte ==> AtLeast(items, bars, c.right, c.left, i))
    && (c.op == CrossAbove ==>
          Exceeds(items, bars, c.left, c.right, i) && i > 0 && AtLeast(items, bars, c.right, c.left, i - 1))
    && (c.op == CrossBelow ==>
          Exceeds(items, bars, c.right, c.left, i) && i > 0 && AtLeast(items, bars, c.left, c.right, i - 1))
  }

  /** How far a signal's stop is against it, and its target for it. */
  function Risk(s: Signal): real {
    match s.side
    case Long => s.referencePrice - s.stopPrice
    case Short => s.stopPrice - s.referencePrice
  }

  function Reward(s: Signal): real {
    match s.side
    case Long => s.targetPrice - s.referencePrice
    case Short => s.referencePrice - s.targetPrice
  }

  /** A distance is a multiple of the indicator's value on that bar, which is there and positive. */
  ghost predicate MultipleOf(items: seq<IndicatorSpec>, bars: seq<Kline>, id: string, i: nat, multiple: real,
                             distance: real)
    requires i < |bars|
  {
    exists x: real :: IndicatorReads(items, bars, id, i, Some(x)) && x > 0.0 && distance == Times(x, multiple)
  }

  /** The stop rule's distance off the close of a bar. */
  ghost predicate StopOff(spec: StrategySpec, bars: seq<Kline>, i: nat, distance: real)
    requires i < |bars|
  {
    && (spec.stop.PercentStop? ==> distance == bars[i].close * spec.stop.value)
    && (spec.stop.AtrStop? ==> MultipleOf(spec.indicators, bars, spec.stop.ref, i, spec.stop.value, distance))
  }

  /** The target rule's distance off the close of a bar, given how far the stop is. */
  ghost predicate TargetOff(spec: StrategySpec, bars: seq<Kline>, i: nat, risk: real, distance: real)
    requires i < |bars|
  {
    && (spec.target.RiskMultipleTarget? ==> distance == risk * spec.target.value)
    && (spec.target.PercentTarget? ==> distance == bars[i].close * spec.target.value)
    && (spec.target.AtrTarget? ==> MultipleOf(spec.indicators, bars, spec.target.ref, i, spec.target.value, distance))
  }

  /** Reference at the close; the stop against the position by its rule's distance and the target for it by its
      rule's, both distances and both prices positive. */
  ghost predicate LevelsInFigures(spec: StrategySpec, bars: seq<Kline>, s: Signal)
    requires s.barIndex < |bars|
  {
    && s.referencePrice == bars[s.barIndex].close
    && Risk(s) > 0.0 && Reward(s) > 0.0 && s.stopPrice > 0.0 && s.targetPrice > 0.0
    && StopOff(spec, bars, s.barIndex, Risk(s))
    && TargetOff(spec, bars, s.barIndex, Risk(s), Reward(s))
  }

  /** Some rule of the signal's side has every condition met on the signal's bar. */
  ghost predicate Called(spec: StrategySpec, bars: seq<Kline>, s: Signal)
    requires s.barIndex < |bars|
  {
    exists e :: 0 <= e < |spec.entries| && spec.entries[e].side == s.side
      && forall c :: 0 <= c < |spec.entries[e].conditions| ==>
           Met(spec.indicators, bars, spec.entries[e].conditions[c], s.barIndex)
  }

  // ---------------------------------------------------------------- operands and conditions

  /** The computed values are what the indicators read. */
  ghost predicate Mirrors(items: seq<IndicatorSpec>, bars: seq<Kline>, computed: Computed) {
    && (forall id :: Known(items, id) ==> id in computed)
    && (forall id, i: nat, v :: Known(items, id) && i < |bars| ==>
          (IndicatorReads(items, bars, id, i, v) <==> v == SeriesValue(computed[id], i)))
  }

  lemma {:induction false} ComputedReads(items: seq<IndicatorSpec>, bars: seq<Kline>, k: nat)
    requires PeriodsPositive(items) && k < |items|
    requires forall i, j :: 0 <= i < j < |items| ==> items[i].id != items[j].id
    ensures items[k].id in ComputedFor(items, bars)
    ensures ComputedFor(items, bars)[items[k].id] == Ind.SeriesOf(items[k].name, bars, items[k].period)
  {
    if k < |items| - 1 {
      ComputedReads(items[..|items| - 1], bars, k);
    }
  }

  lemma ComputedMirrors(items: seq<IndicatorSpec>, bars: seq<Kline>)
    requires PeriodsPositive(items)
    requires forall i, j :: 0 <= i < j < |items| ==> items[i].id != items[j].id
    ensures Mirrors(items, bars, ComputedFor(items, bars))
  {
    hide ComputedFor;
    forall k | 0 <= k < |items|
      ensures items[k].id in ComputedFor(items, bars)
      ensures ComputedFor(items, bars)[items[k].id] == Ind.SeriesOf(items[k].name, bars, items[k].period)
    {
      ComputedReads(items, bars, k);
    }
  }

  lemma OperandReads(items: seq<IndicatorSpec>, bars: seq<Kline>, computed: Computed, o: Operand, i: nat,
                     v: Option<real>)
    requires i < |bars| && Mirrors(items, bars, computed) && OperandKnown(items, o)
    ensures o.IndicatorValue? ==> o.ref in computed
    ensures Reads(items, bars, o, i, v) <==> v == OperandAt(o, i, bars, computed)
  {
    hide IndicatorReads, SeriesValue, Known;
  }

  /** The two comparisons in terms of the computed values. */
  lemma ComparisonsRead(items: seq<IndicatorSpec>, bars: seq<Kline>, computed: Computed, a: Operand, b: Operand, i: nat)
    requires i < |bars| && Mirrors(items, bars, computed) && OperandKnown(items, a) && OperandKnown(items, b)
    ensures a.IndicatorValue? ==> a.ref in computed
    ensures b.IndicatorValue? ==> b.ref in computed
    ensures var x, y := OperandAt(a, i, bars, computed), OperandAt(b, i, bars, computed);
      && (Exceeds(items, bars, a, b, i) <==> x.Some? && y.Some? && x.value > y.value)
      && (AtLeast(items, bars, a, b, i) <==> x.Some? && y.Some? && x.value >= y.value)
  {
    hide Reads, OperandAt, OperandKnown, Mirrors;
    OperandReads(items, bars, computed, a, i, None);
    OperandReads(items, bars, computed, b, i, None);
    forall v
      ensures Reads(items, bars, a, i, v) <==> v == OperandAt(a, i, bars, computed)
      ensures Reads(items, bars, b, i, v) <==> v == OperandAt(b, i, bars, computed)
    {
      OperandReads(items, bars, computed, a, i, v);
      OperandReads(items, bars, computed, b, i, v);
    }
  }

  /** A condition holds exactly when it is met. */
  lemma HoldsIffMet(items: seq<IndicatorSpec>, bars: seq<Kline>, computed: Computed, c: Condition, i: nat)
    requires i < |bars| && Mirrors(items, bars, computed)
    requires OperandKnown(items, c.left) && OperandKnown(items, c.right)
    ensures ConditionKnown(c, computed)
    ensures Holds(c, i, bars, computed) <==> Met(items, bars, c, i)
  {
    hide OperandAt, OperandKnown, Exceeds, AtLeast, Mirrors;
    ComparisonsRead(items, bars, computed, c.left, c.right, i);
    ComparisonsRead(items, bars, computed, c.right, c.left, i);
    if i > 0 {
      ComparisonsRead(items, bars, computed, c.left, c.right, i - 1);
      ComparisonsRead(items, bars, computed, c.right, c.left, i - 1);
    }
  }

  // ---------------------------------------------------------------- levels

  lemma ScaledReads(items: seq<IndicatorSpec>, bars: seq<Kline>, computed: Computed, id: string, i: nat, multiple: real,
                    distance: real)
    requires i < |bars| && Mirrors(items, bars, computed) && Known(items, id)
    ensures id in computed
    ensures MultipleOf(items, bars, id, i, multiple, distance)
            <==> PositiveScaled(SeriesValue(computed[id], i), multiple) == Some(distance)
  {
    hide IndicatorReads, Known;
    var value := SeriesValue(computed[id], i);
    assert forall x :: IndicatorReads(items, bars, id, i, Some(x)) <==> value == Some(x);
    ValueScaled(items, bars, value, id, i, multiple, distance);
  }

  lemma ValueScaled(items: seq<IndicatorSpec>, bars: seq<Kline>, value: Option<real>, id: string, i: nat,
                    multiple: real, distance: real)
    requires i < |bars| && forall x :: IndicatorReads(items, bars, id, i, Some(x)) <==> value == Some(x)
    ensures MultipleOf(items, bars, id, i, multiple, distance) <==> PositiveScaled(value, multiple) == Some(distance)
  {
    hide IndicatorReads, Times;
    if value.Some? {
      var x := value.value;
      assert value == Some(x) && IndicatorReads(items, bars, id, i, Some(x));
    }
  }

  lemma StopIff(spec: StrategySpec, bars: seq<Kline>, computed: Computed, s: Signal)
    requires s.barIndex < |bars| && s.referencePrice == bars[s.barIndex].close
    requires Mirrors(spec.indicators, bars, computed) && (spec.stop.AtrStop? ==> Known(spec.indicators, spec.stop.ref))
    ensures spec.stop.AtrStop? ==> spec.stop.ref in computed
    ensures StopPrice(spec.stop, s.side, s.referencePrice, s.barIndex, computed) == Some(s.stopPrice)
            <==> StopOff(spec, bars, s.barIndex, Risk(s)) && Risk(s) > 0.0 && s.stopPrice > 0.0
  {
    hide Mirrors, Known, MultipleOf, PositiveScaled, SeriesValue;
    match spec.stop
    case PercentStop(value) =>
      var distance := s.referencePrice * value;
      assert StopOff(spec, bars, s.barIndex, Risk(s)) <==> Risk(s) == distance;
    case AtrStop(value, ref) =>
      ScaledReads(spec.indicators, bars, computed, ref, s.barIndex, value, Risk(s));
  }

  lemma TargetIff(spec: StrategySpec, bars: seq<Kline>, computed: Computed, s: Signal)
    requires s.barIndex < |bars| && s.referencePrice == bars[s.barIndex].close && Risk(s) > 0.0
    requires Mirrors(spec.indicators, bars, computed)
    requires spec.target.AtrTarget? ==> Known(spec.indicators, spec.target.ref)
    ensures spec.target.AtrTarget? ==> spec.target.ref in computed
    ensures TargetPrice(spec.target, s.side, s.referencePrice, s.stopPrice, s.barIndex, computed) == Some(s.targetPrice)
            <==> TargetOff(spec, bars, s.barIndex, Risk(s), Reward(s)) && Reward(s) > 0.0 && s.targetPrice > 0.0
  {
    hide Mirrors, Known, MultipleOf, PositiveScaled, SeriesValue;
    match spec.target
    case RiskMultipleTarget(value) =>
      assert AbsOf(s.referencePrice - s.stopPrice) == Risk(s);
      hide AbsOf, Risk;
    case PercentTarget(value) =>
      var distance := s.referencePrice * value;
      assert TargetOff(spec, bars, s.barIndex, Risk(s), Reward(s)) <==> Reward(s) == distance;
      hide AbsOf, Risk;
    case AtrTarget(value, ref) =>
      ScaledReads(spec.indicators, bars, computed, ref, s.barIndex, value, Reward(s));
  }

  /** A rule's levels on a bar are a signal exactly when they are in figures. */
  lemma LevelsIffInFigures(spec: StrategySpec, bars: seq<Kline>, computed: Computed, s: Signal)
    requires s.barIndex < |bars| && SpecKnown(spec, computed) && Mirrors(spec.indicators, bars, computed)
    requires spec.stop.AtrStop? ==> Known(spec.indicators, spec.stop.ref)
    requires spec.target.AtrTarget? ==> Known(spec.indicators, spec.target.ref)
    ensures Levels(spec, s.side, s.barIndex, bars, computed) == Some(s) <==> LevelsInFigures(spec, bars, s)
  {
    hide StopOff, TargetOff, StopPrice, TargetPrice, Known, Mirrors;
    if s.referencePrice == bars[s.barIndex].close {
      StopIff(spec, bars, computed, s);
      if Risk(s) > 0.0 {
        TargetIff(spec, bars, computed, s);
      }
    }
  }

  // ---------------------------------------------------------------- every signal

  lemma AllHoldIffMet(items: seq<IndicatorSpec>, bars: seq<Kline>, computed: Computed, rule: EntryRule, i: nat)
    requires i < |bars| && Mirrors(items, bars, computed) && RuleKnown(items, rule)
    ensures RuleComputed(rule, computed)
    ensures AllHold(rule, i, bars, computed)
            <==> forall c :: 0 <= c < |rule.conditions| ==> Met(items, bars, rule.conditions[c], i)
  {
    hide Holds, Met, Mirrors, OperandKnown, ConditionKnown;
    forall c | 0 <= c < |rule.conditions|
      ensures ConditionKnown(rule.conditions[c], computed)
      ensures Holds(rule.conditions[c], i, bars, computed) <==> Met(items, bars, rule.conditions[c], i)
    {
      HoldsIffMet(items, bars, computed, rule.conditions[c], i);
    }
  }

  /** One rule raises a signal exactly when its conditions are met and the levels are in figures. */
  lemma RuleSignalIff(spec: StrategySpec, bars: seq<Kline>, computed: Computed, e: nat, s: Signal)
    requires ValidSpec(spec) && s.barIndex < |bars| && e < |spec.entries| && spec.entries[e].side == s.side
    requires Mirrors(spec.indicators, bars, computed) && SpecKnown(spec, computed)
    ensures RuleComputed(spec.entries[e], computed)
    ensures RuleSignal(spec, spec.entries[e], s.barIndex, bars, computed) == Some(s)
            <==> LevelsInFigures(spec, bars, s)
                 && forall c :: 0 <= c < |spec.entries[e].conditions| ==>
                      Met(spec.indicators, bars, spec.entries[e].conditions[c], s.barIndex)
  {
    hide AllHold, Met, Mirrors, Levels, LevelsInFigures, SpecKnown;
    assert RuleKnown(spec.indicators, spec.entries[e]);
    AllHoldIffMet(spec.indicators, bars, computed, spec.entries[e], s.barIndex);
    LevelsIffInFigures(spec, bars, computed, s);
  }

  /** A spec raises a signal exactly when some rule of its side has every condition met on the signal's bar and its
      levels are the rules' distances off that bar's close, all from the spec and the bars alone. */
  lemma SignalsInFigures(spec: StrategySpec, bars: seq<Kline>, s: Signal)
    requires ValidSpec(spec)
    ensures s in Signals(spec, bars)
            <==> s.barIndex < |bars| && Called(spec, bars, s) && LevelsInFigures(spec, bars, s)
  {
    assert PeriodsPositive(spec.indicators);
    var computed := ComputedFor(spec.indicators, bars);
    SignalsChronological(spec, bars);
    if s.barIndex < |bars| {
      ValidSpecIsKnown(spec, bars);
      ComputedMirrors(spec.indicators, bars);
      SignalSides(spec, |bars|, bars, computed);
      InSignalsOf(spec, |bars|, bars, computed, s);
      hide ValidSpec, ComputedFor, Mirrors, SpecKnown, RuleSignal, BarSignals, SignalsOf, LevelsInFigures, Met;
      forall e | 0 <= e < |spec.entries| && spec.entries[e].side == s.side
        ensures s in Signals(spec, bars)
                <==> LevelsInFigures(spec, bars, s)
                     && forall c :: 0 <= c < |spec.entries[e].conditions| ==>
                          Met(spec.indicators, bars, spec.entries[e].conditions[c], s.barIndex)
      {
        RuleSignalIff(spec, bars, computed, e, s);
        InBarSignals(spec, |spec.entries|, s.barIndex, bars, computed, e);
      }
    }
  }
}
