/** Pure strategy evaluation: a declarative spec over closed bars yields entry signals. */
module Evaluator {
  import opened Common
  import opened Market
  import Ind = Indicators

  datatype PriceField = OpenPrice | HighPrice | LowPrice | ClosePrice | TradedVolume

  datatype Operand = Constant(value: real) | Price(field: PriceField) | IndicatorValue(ref: string)

  datatype Comparator = Gt | Lt | Gte | Lte | CrossAbove | CrossBelow

  datatype Condition = Condition(left: Operand, op: Comparator, right: Operand)

  datatype EntryRule = EntryRule(side: Side, conditions: seq<Condition>)

  datatype StopRule = PercentStop(value: real) | AtrStop(value: real, ref: string)

  datatype TargetRule =
    | RiskMultipleTarget(value: real)
    | PercentTarget(value: real)
    | AtrTarget(value: real, ref: string)

  datatype IndicatorSpec = IndicatorSpec(id: string, name: Ind.IndicatorName, period: int)

  datatype StrategySpec = StrategySpec(
    symbol: string,
    indicators: seq<IndicatorSpec>,
    entries: seq<EntryRule>,
    stop: StopRule,
    target: TargetRule,
    maxBarsInTrade: int)

  // ---------------------------------------------------------------- the spec's own validation

  predicate Known(items: seq<IndicatorSpec>, id: string) {
    exists i :: 0 <= i < |items| && items[i].id == id
  }

  predicate OperandKnown(items: seq<IndicatorSpec>, o: Operand) {
    o.IndicatorValue? ==> Known(items, o.ref)
  }

  /** The references and ranges a spec is checked for when it is built. */
  predicate ValidSpec(spec: StrategySpec) {
    && 1 <= |spec.symbol| <= 20
    && (forall i :: 0 <= i < |spec.indicators| ==> 1 <= spec.indicators[i].period <= 500)
    && (forall i, j :: 0 <= i < j < |spec.indicators| ==> spec.indicators[i].id != spec.indicators[j].id)
    && 1 <= |spec.entries| <= 2
    && (forall i, j :: 0 <= i < j < |spec.entries| ==> spec.entries[i].side != spec.entries[j].side)
    && (forall i :: 0 <= i < |spec.entries| ==> RuleKnown(spec.indicators, spec.entries[i]))
    && spec.stop.value > 0.0 && (spec.stop.PercentStop? ==> spec.stop.value < 1.0)
    && (spec.stop.AtrStop? ==> Known(spec.indicators, spec.stop.ref))
    && spec.target.value > 0.0 && (spec.target.PercentTarget? ==> spec.target.value < 1.0)
    && (spec.target.AtrTarget? ==> Known(spec.indicators, spec.target.ref))
    && 1 <= spec.maxBarsInTrade <= 5000
  }

  predicate RuleKnown(items: seq<IndicatorSpec>, rule: EntryRule) {
    && 1 <= |rule.conditions| <= 6
    && forall c :: 0 <= c < |rule.conditions| ==>
         && OperandKnown(items, rule.conditions[c].left)
         && OperandKnown(items, rule.conditions[c].right)
  }

  // ---------------------------------------------------------------- computed indicators

  type Computed = map<string, Ind.Series>

  predicate PeriodsPositive(items: seq<IndicatorSpec>) {
    forall i :: 0 <= i < |items| ==> 1 <= items[i].period
  }

  function ComputedFor(items: seq<IndicatorSpec>, bars: seq<Kline>): Computed
    requires PeriodsPositive(items)
  {
    if items == [] then map[]
    else
      var last := items[|items| - 1];
      ComputedFor(items[..|items| - 1], bars)[last.id := Ind.SeriesOf(last.name, bars, last.period)]
  }

  lemma {:induction false} ComputedKeys(items: seq<IndicatorSpec>, bars: seq<Kline>, id: string)
    requires PeriodsPositive(items) && Known(items, id)
    ensures id in ComputedFor(items, bars) && |ComputedFor(items, bars)[id]| == |bars|
  {
    var rest := items[..|items| - 1];
    if items[|items| - 1].id != id {
      assert Known(rest, id);
      ComputedKeys(rest, bars, id);
    }
  }

  method ComputeIndicators(spec: StrategySpec, bars: seq<Kline>) returns (computed: Computed)
    requires ValidSpec(spec)
    ensures computed == ComputedFor(spec.indicators, bars)
  {
    assert PeriodsPositive(spec.indicators);
    hide ValidSpec;
    computed := map[];
    for i := 0 to |spec.indicators|
      invariant computed == ComputedFor(spec.indicators[..i], bars)
    {
      var item := spec.indicators[i];
      var series := Ind.Compute(item.name, bars, item.period);
      computed := computed[item.id := series.value];
      assert spec.indicators[..i + 1][..i] == spec.indicators[..i];
    }
    assert spec.indicators[..|spec.indicators|] == spec.indicators;
  }

  // ---------------------------------------------------------------- operands, conditions and levels

  function SeriesValue(series: Ind.Series, index: nat): Option<real> {
    if index < |series| then series[index] else None
  }

  function OperandAt(o: Operand, index: nat, bars: seq<Kline>, computed: Computed): Option<real>
    requires index < |bars|
    requires o.IndicatorValue? ==> o.ref in computed
  {
    match o
    case Constant(value) => Some(value)
    case Price(field) => Some(match field
                              case OpenPrice => bars[index].open
                              case HighPrice => bars[index].high
                              case LowPrice => bars[index].low
                              case ClosePrice => bars[index].close
                              case TradedVolume => bars[index].volume)
    case IndicatorValue(ref) => SeriesValue(computed[ref], index)
  }

  predicate ConditionKnown(c: Condition, computed: Computed) {
    && (c.left.IndicatorValue? ==> c.left.ref in computed)
    && (c.right.IndicatorValue? ==> c.right.ref in computed)
  }

  /** On the previous bar both operands had a value and the first did not exceed the second. */
  predicate WasOrdered(low: Operand, high: Operand, index: nat, bars: seq<Kline>, computed: Computed)
    requires index < |bars|
    requires (low.IndicatorValue? ==> low.ref in computed) && (high.IndicatorValue? ==> high.ref in computed)
  {
    && index > 0
    && var prevLow := OperandAt(low, index - 1, bars, computed);
       var prevHigh := OperandAt(high, index - 1, bars, computed);
       prevLow.Some? && prevHigh.Some? && prevLow.value <= prevHigh.value
  }

  /** Crossings also look at the previous bar, so bar 0 cannot cross. */
  predicate Holds(c: Condition, index: nat, bars: seq<Kline>, computed: Computed)
    requires index < |bars| && ConditionKnown(c, computed)
  {
    var left := OperandAt(c.left, index, bars, computed);
    var right := OperandAt(c.right, index, bars, computed);
    if left.None? || right.None? then false
    else
      match c.op
      case Gt => left.value > right.value
      case Lt => left.value < right.value
      case Gte => left.value >= right.value
      case Lte => left.value <= right.value
      case CrossAbove => left.value > right.value && WasOrdered(c.left, c.right, index, bars, computed)
      case CrossBelow => left.value < right.value && WasOrdered(c.right, c.left, index, bars, computed)
  }

  function PositiveScaled(atr: Option<real>, multiple: real): Option<real> {
    if atr.None? || atr.value <= 0.0 then None else Some(Times(atr.value, multiple))
  }

  function StopPrice(rule: StopRule, side: Side, reference: real, index: nat, computed: Computed): Option<real>
    requires rule.AtrStop? ==> rule.ref in computed
  {
    var distance := match rule
      case PercentStop(value) => Some(reference * value)
      case AtrStop(value, ref) => PositiveScaled(SeriesValue(computed[ref], index), value);
    if distance.None? || distance.value <= 0.0 then None
    else
      var stop := if side == Long then reference - distance.value else reference + distance.value;
      if stop > 0.0 then Some(stop) else None
  }

  function TargetPrice(rule: TargetRule, side: Side, reference: real, stop: real, index: nat, computed: Computed)
    : Option<real>
    requires rule.AtrTarget? ==> rule.ref in computed
  {
    var distance := match rule
      case RiskMultipleTarget(value) => Some(AbsOf(reference - stop) * value)
      case PercentTarget(value) => Some(reference * value)
      case AtrTarget(value, ref) => PositiveScaled(SeriesValue(computed[ref], index), value);
    if distance.None? || distance.value <= 0.0 then None
    else
      var target := if side == Long then reference + distance.value else reference - distance.value;
      if target > 0.0 then Some(target) else None
  }

  predicate SpecKnown(spec: StrategySpec, computed: Computed) {
    && (forall i :: 0 <= i < |spec.entries| ==> RuleComputed(spec.entries[i], computed))
    && (spec.stop.AtrStop? ==> spec.stop.ref in computed)
    && (spec.target.AtrTarget? ==> spec.target.ref in computed)
  }

  predicate RuleComputed(rule: EntryRule, computed: Computed) {
    forall c :: 0 <= c < |rule.conditions| ==> ConditionKnown(rule.conditions[c], computed)
  }

  lemma ValidSpecIsKnown(spec: StrategySpec, bars: seq<Kline>)
    requires ValidSpec(spec)
    ensures SpecKnown(spec, ComputedFor(spec.indicators, bars))
  {
    var items := spec.indicators;
    forall id | Known(items, id)
      ensures id in ComputedFor(items, bars)
    {
      ComputedKeys(items, bars, id);
    }
    forall i | 0 <= i < |spec.entries|
      ensures RuleComputed(spec.entries[i], ComputedFor(items, bars))
    {
      assert RuleKnown(items, spec.entries[i]);
      assert forall c :: 0 <= c < |spec.entries[i].conditions| ==>
          OperandKnown(items, spec.entries[i].conditions[c].left);
    }
  }

  // ---------------------------------------------------------------- signals

  predicate AllHold(rule: EntryRule, index: nat, bars: seq<Kline>, computed: Computed)
    requires index < |bars| && RuleComputed(rule, computed)
  {
    forall c :: 0 <= c < |rule.conditions| ==> Holds(rule.conditions[c], index, bars, computed)
  }

  /** The stop and target one rule would use on one bar, when both exist and straddle the close. */
  function Levels(spec: StrategySpec, side: Side, index: nat, bars: seq<Kline>, computed: Computed)
    : (s: Option<Signal>)
    requires index < |bars| && SpecKnown(spec, computed)
    ensures s.Some? ==> LevelsOrdered(s.value) && s.value.barIndex == index && s.value.side == side
  {
    var reference := bars[index].close;
    var stop := StopPrice(spec.stop, side, reference, index, computed);
    if stop.None? then None
    else
      var target := TargetPrice(spec.target, side, reference, stop.value, index, computed);
      if target.None? then None
      else
        var signal := Signal(index, side, reference, stop.value, target.value);
        if LevelsOrdered(signal) then Some(signal) else None
  }

  function RuleSignal(spec: StrategySpec, rule: EntryRule, index: nat, bars: seq<Kline>, computed: Computed)
    : (s: Option<Signal>)
    requires index < |bars| && SpecKnown(spec, computed) && RuleComputed(rule, computed)
    ensures s.Some? ==> LevelsOrdered(s.value) && s.value.barIndex == index && s.value.side == rule.side
  {
    if AllHold(rule, index, bars, computed) then Levels(spec, rule.side, index, bars, computed) else None
  }

  function Appended(signals: seq<Signal>, s: Option<Signal>): seq<Signal> {
    if s.Some? then signals + [s.value] else signals
  }

  /** The signals of the first `n` rules on one bar. */
  function BarSignals(spec: StrategySpec, n: nat, index: nat, bars: seq<Kline>, computed: Computed): seq<Signal>
    requires n <= |spec.entries| && index < |bars| && SpecKnown(spec, computed)
  {
    if n == 0 then []
    else Appended(BarSignals(spec, n - 1, index, bars, computed),
                  RuleSignal(spec, spec.entries[n - 1], index, bars, computed))
  }

  /** The signals of the first `k` bars. */
  function SignalsOf(spec: StrategySpec, k: nat, bars: seq<Kline>, computed: Computed): seq<Signal>
    requires k <= |bars| && SpecKnown(spec, computed)
  {
    if k == 0 then []
    else SignalsOf(spec, k - 1, bars, computed) + BarSignals(spec, |spec.entries|, k - 1, bars, computed)
  }

  function Signals(spec: StrategySpec, bars: seq<Kline>): seq<Signal>
    requires ValidSpec(spec)
  {
    ValidSpecIsKnown(spec, bars);
    SignalsOf(spec, |bars|, bars, ComputedFor(spec.indicators, bars))
  }

  /** One rule on one bar: every condition, then a stop and a target on the right sides of the close. */
  method TryRule(spec: StrategySpec, rule: EntryRule, index: nat, bars: seq<Kline>, computed: Computed)
    returns (signal: Option<Signal>)
    requires index < |bars| && SpecKnown(spec, computed) && RuleComputed(rule, computed)
    ensures signal == RuleSignal(spec, rule, index, bars, computed)
  {
    hide AllHold;
    var reference := bars[index].close;
    if !AllHold(rule, index, bars, computed) {
      return None;
    }
    var stop := StopPrice(spec.stop, rule.side, reference, index, computed);
    if stop.None? {
      return None;
    }
    var target := TargetPrice(spec.target, rule.side, reference, stop.value, index, computed);
    if target.None? {
      return None;
    }
    if rule.side == Long && !(stop.value < reference < target.value) {
      return None;
    }
    if rule.side == Short && !(target.value < reference < stop.value) {
      return None;
    }
    return Some(Signal(index, rule.side, reference, stop.value, target.value));
  }

  /** The rules on one bar, in the order the spec lists them. */
  method EvaluateBar(spec: StrategySpec, index: nat, bars: seq<Kline>, computed: Computed)
    returns (signals: seq<Signal>)
    requires index < |bars| && SpecKnown(spec, computed)
    ensures signals == BarSignals(spec, |spec.entries|, index, bars, computed)
  {
    hide RuleSignal;
    signals := [];
    for i := 0 to |spec.entries|
      invariant signals == BarSignals(spec, i, index, bars, computed)
    {
      var signal := TryRule(spec, spec.entries[i], index, bars, computed);
      if signal.Some? {
        signals := signals + [signal.value];
      }
    }
  }

  method Evaluate(spec: StrategySpec, bars: seq<Kline>) returns (signals: seq<Signal>)
    requires ValidSpec(spec)
    ensures signals == Signals(spec, bars)
  {
    signals := [];
    if bars == [] {
      return;
    }
    var computed := ComputeIndicators(spec, bars);
    ValidSpecIsKnown(spec, bars);
    hide ValidSpec, ComputedFor, SpecKnown;
    for index := 0 to |bars|
      invariant signals == SignalsOf(spec, index, bars, computed)
    {
      var raised := EvaluateBar(spec, index, bars, computed);
      signals := signals + raised;
    }
  }

  // ---------------------------------------------------------------- causality

  /** `early` holds the same indicators as `full`, cut to their first `k` values. */
  predicate CutTo(early: Computed, full: Computed, k: nat) {
    && early.Keys == full.Keys
    && forall id :: id in early ==> k <= |full[id]| && early[id] == full[id][..k]
  }

  lemma {:induction false} ComputedCausal(items: seq<IndicatorSpec>, bars: seq<Kline>, k: nat)
    requires PeriodsPositive(items) && k <= |bars|
    ensures CutTo(ComputedFor(items, bars[..k]), ComputedFor(items, bars), k)
  {
    if items != [] {
      var last := items[|items| - 1];
      ComputedCausal(items[..|items| - 1], bars, k);
      Ind.IndicatorCausal(last.name, bars, last.period, k);
    }
  }

  lemma OperandCausal(o: Operand, i: nat, bars: seq<Kline>, k: nat, early: Computed, full: Computed)
    requires i < k <= |bars| && CutTo(early, full, k)
    requires o.IndicatorValue? ==> o.ref in early
    ensures OperandAt(o, i, bars[..k], early) == OperandAt(o, i, bars, full)
  {
  }

  lemma ConditionCausal(c: Condition, i: nat, bars: seq<Kline>, k: nat, early: Computed, full: Computed)
    requires i < k <= |bars| && CutTo(early, full, k) && ConditionKnown(c, early)
    ensures Holds(c, i, bars[..k], early) <==> Holds(c, i, bars, full)
  {
    hide OperandAt;
    OperandCausal(c.left, i, bars, k, early, full);
    OperandCausal(c.right, i, bars, k, early, full);
    if i > 0 {
      OperandCausal(c.left, i - 1, bars, k, early, full);
      OperandCausal(c.right, i - 1, bars, k, early, full);
    }
  }

  lemma RuleCausal(spec: StrategySpec, rule: EntryRule, i: nat, bars: seq<Kline>, k: nat, early: Computed,
                   full: Computed)
    requires i < k <= |bars| && CutTo(early, full, k)
    requires SpecKnown(spec, early) && RuleComputed(rule, early)
    ensures RuleComputed(rule, full) && SpecKnown(spec, full)
    ensures RuleSignal(spec, rule, i, bars[..k], early) == RuleSignal(spec, rule, i, bars, full)
  {
    hide Holds;
    KnownBoth(spec, early, full, k);
    forall c | 0 <= c < |rule.conditions|
      ensures Holds(rule.conditions[c], i, bars[..k], early) <==> Holds(rule.conditions[c], i, bars, full)
    {
      ConditionCausal(rule.conditions[c], i, bars, k, early, full);
    }
    LevelsCausal(spec, rule.side, i, bars, k, early, full);
  }

  lemma KnownBoth(spec: StrategySpec, early: Computed, full: Computed, k: nat)
    requires CutTo(early, full, k) && SpecKnown(spec, early)
    ensures SpecKnown(spec, full)
  {
    forall i | 0 <= i < |spec.entries|
      ensures RuleComputed(spec.entries[i], full)
    {
      assert RuleComputed(spec.entries[i], early);
    }
  }

  lemma LevelsCausal(spec: StrategySpec, side: Side, i: nat, bars: seq<Kline>, k: nat, early: Computed, full: Computed)
    requires i < k <= |bars| && CutTo(early, full, k)
    requires SpecKnown(spec, early) && SpecKnown(spec, full)
    ensures Levels(spec, side, i, bars[..k], early) == Levels(spec, side, i, bars, full)
  {
    hide PositiveScaled, RuleComputed;
    var reference := bars[i].close;
    assert StopPrice(spec.stop, side, reference, i, early) == StopPrice(spec.stop, side, reference, i, full);
    assert forall stop :: TargetPrice(spec.target, side, reference, stop, i, early)
                       == TargetPrice(spec.target, side, reference, stop, i, full);
  }

  lemma {:induction false} BarCausal(spec: StrategySpec, n: nat, i: nat, bars: seq<Kline>, k: nat, early: Computed,
                                     full: Computed)
    requires n <= |spec.entries| && i < k <= |bars| && CutTo(early, full, k)
    requires SpecKnown(spec, early) && SpecKnown(spec, full)
    ensures BarSignals(spec, n, i, bars[..k], early) == BarSignals(spec, n, i, bars, full)
  {
    hide RuleSignal;
    if n > 0 {
      BarCausal(spec, n - 1, i, bars, k, early, full);
      RuleCausal(spec, spec.entries[n - 1], i, bars, k, early, full);
    }
  }

  lemma {:induction false} SignalsOfCausal(spec: StrategySpec, m: nat, bars: seq<Kline>, k: nat, early: Computed,
                                           full: Computed)
    requires m <= k <= |bars| && CutTo(early, full, k)
    requires SpecKnown(spec, early) && SpecKnown(spec, full)
    ensures SignalsOf(spec, m, bars[..k], early) == SignalsOf(spec, m, bars, full)
  {
    hide BarSignals;
    if m > 0 {
      SignalsOfCausal(spec, m - 1, bars, k, early, full);
      BarCausal(spec, |spec.entries|, m - 1, bars, k, early, full);
    }
  }

  /** The signals raised on bars before bar `k`. */
  function Before(signals: seq<Signal>, k: nat): seq<Signal> {
    if signals == [] then []
    else
      var rest := Before(signals[..|signals| - 1], k);
      var last := signals[|signals| - 1];
      if last.barIndex < k then rest + [last] else rest
  }

  lemma {:induction false} BeforeConcat(a: seq<Signal>, b: seq<Signal>, k: nat)
    ensures Before(a + b, k) == Before(a, k) + Before(b, k)
  {
    if b == [] {
      assert a + b == a;
    } else {
      BeforeConcat(a, b[..|b| - 1], k);
      assert (a + b)[..|a + b| - 1] == a + b[..|b| - 1];
    }
  }

  lemma {:induction false} BeforeOneBar(signals: seq<Signal>, i: nat, k: nat)
    requires forall s :: 0 <= s < |signals| ==> signals[s].barIndex == i
    ensures Before(signals, k) == if i < k then signals else []
  {
    if signals != [] {
      BeforeOneBar(signals[..|signals| - 1], i, k);
    }
  }

  predicate SideOfSome(rules: seq<EntryRule>, side: Side) {
    exists e :: 0 <= e < |rules| && rules[e].side == side
  }

  /** Every signal carries bar `i`, ordered levels and a side of its own among those of `rules`. */
  predicate BarShape(signals: seq<Signal>, rules: seq<EntryRule>, i: nat) {
    && (forall s :: 0 <= s < |signals| ==>
          && signals[s].barIndex == i && LevelsOrdered(signals[s])
          && SideOfSome(rules, signals[s].side))
    && (forall s, t :: 0 <= s < t < |signals| ==> signals[s].side != signals[t].side)
  }

  lemma BarShapeAppended(signals: seq<Signal>, rules: seq<EntryRule>, rule: EntryRule, s: Option<Signal>, i: nat)
    requires BarShape(signals, rules, i)
    requires forall e :: 0 <= e < |rules| ==> rules[e].side != rule.side
    requires s.Some? ==> s.value.barIndex == i && LevelsOrdered(s.value) && s.value.side == rule.side
    ensures BarShape(Appended(signals, s), rules + [rule], i)
  {
    hide LevelsOrdered;
    forall side | SideOfSome(rules, side)
      ensures SideOfSome(rules + [rule], side) && side != rule.side
    {
      var e :| 0 <= e < |rules| && rules[e].side == side;
      assert (rules + [rule])[e].side == side;
    }
    assert (rules + [rule])[|rules|] == rule;
  }

  lemma {:induction false} BarSignalsShape(spec: StrategySpec, n: nat, i: nat, bars: seq<Kline>, computed: Computed)
    requires ValidSpec(spec) && n <= |spec.entries| && i < |bars| && SpecKnown(spec, computed)
    ensures BarShape(BarSignals(spec, n, i, bars, computed), spec.entries[..n], i)
  {
    if n > 0 {
      var rule := spec.entries[n - 1];
      BarSignalsShape(spec, n - 1, i, bars, computed);
      assert RuleComputed(rule, computed);
      BarShapeAppended(BarSignals(spec, n - 1, i, bars, computed), spec.entries[..n - 1], rule,
                       RuleSignal(spec, rule, i, bars, computed), i);
      assert spec.entries[..n - 1] + [rule] == spec.entries[..n];
    }
  }

  lemma {:induction false} BeforeOfSignals(spec: StrategySpec, m: nat, bars: seq<Kline>, computed: Computed, k: nat)
    requires ValidSpec(spec) && m <= |bars| && SpecKnown(spec, computed)
    ensures Before(SignalsOf(spec, m, bars, computed), k) == SignalsOf(spec, if m < k then m else k, bars, computed)
  {
    hide Appended, BarSignals, ValidSpec, SpecKnown;
    if m > 0 {
      BeforeOfSignals(spec, m - 1, bars, computed, k);
      BeforeLastBar(spec, m, bars, computed, k);
    }
  }

  lemma BeforeLastBar(spec: StrategySpec, m: nat, bars: seq<Kline>, computed: Computed, k: nat)
    requires ValidSpec(spec) && 0 < m <= |bars| && SpecKnown(spec, computed)
    ensures Before(SignalsOf(spec, m, bars, computed), k)
         == Before(SignalsOf(spec, m - 1, bars, computed), k)
            + if m - 1 < k then BarSignals(spec, |spec.entries|, m - 1, bars, computed) else []
  {
    var bar := BarSignals(spec, |spec.entries|, m - 1, bars, computed);
    assert BarShape(bar, spec.entries[..|spec.entries|], m - 1) by {
      BarSignalsShape(spec, |spec.entries|, m - 1, bars, computed);
    }
    hide LevelsOrdered, SideOfSome, ValidSpec;
    BeforeConcat(SignalsOf(spec, m - 1, bars, computed), bar, k);
    BeforeOneBar(bar, m - 1, k);
  }

  /** No signal depends on a later bar: evaluating a prefix of the history gives exactly the signals of
      the full history that were raised inside the prefix. */
  lemma SignalsCausal(spec: StrategySpec, bars: seq<Kline>, k: nat)
    requires ValidSpec(spec) && k <= |bars|
    ensures Signals(spec, bars[..k]) == Before(Signals(spec, bars), k)
  {
    var early, full := ComputedFor(spec.indicators, bars[..k]), ComputedFor(spec.indicators, bars);
    ValidSpecIsKnown(spec, bars);
    ValidSpecIsKnown(spec, bars[..k]);
    ComputedCausal(spec.indicators, bars, k);
    SignalsOfCausal(spec, k, bars, k, early, full);
    BeforeOfSignals(spec, |bars|, bars, full, k);
  }

  /** Signals come in bar order, inside the first `m` bars, with ordered levels, and at most one per side
      on any bar. */
  predicate Chronological(signals: seq<Signal>, m: nat) {
    && (forall s :: 0 <= s < |signals| ==> signals[s].barIndex < m && LevelsOrdered(signals[s]))
    && (forall s, t :: 0 <= s < t < |signals| ==>
          && signals[s].barIndex <= signals[t].barIndex
          && (signals[s].barIndex == signals[t].barIndex ==> signals[s].side != signals[t].side))
  }

  lemma ChronologicalExtends(earlier: seq<Signal>, bar: seq<Signal>, rules: seq<EntryRule>, i: nat)
    requires Chronological(earlier, i) && BarShape(bar, rules, i)
    ensures Chronological(earlier + bar, i + 1)
  {
    hide LevelsOrdered, SideOfSome;
  }

  lemma {:induction false} SignalsOfChronological(spec: StrategySpec, m: nat, bars: seq<Kline>, computed: Computed)
    requires ValidSpec(spec) && m <= |bars| && SpecKnown(spec, computed)
    ensures Chronological(SignalsOf(spec, m, bars, computed), m)
  {
    if m > 0 {
      SignalsOfChronological(spec, m - 1, bars, computed);
      BarSignalsShape(spec, |spec.entries|, m - 1, bars, computed);
      ChronologicalExtends(SignalsOf(spec, m - 1, bars, computed),
                           BarSignals(spec, |spec.entries|, m - 1, bars, computed),
                           spec.entries[..|spec.entries|], m - 1);
    }
  }

  /** A signal's side is the side of one of the spec's rules. */
  lemma {:induction false} SignalSides(spec: StrategySpec, m: nat, bars: seq<Kline>, computed: Computed)
    requires ValidSpec(spec) && m <= |bars| && SpecKnown(spec, computed)
    ensures forall s :: s in SignalsOf(spec, m, bars, computed) ==> SideOfSome(spec.entries, s.side)
  {
    if m > 0 {
      SignalSides(spec, m - 1, bars, computed);
      BarSignalsShape(spec, |spec.entries|, m - 1, bars, computed);
      assert spec.entries[..|spec.entries|] == spec.entries;
      hide SideOfSome, LevelsOrdered;
    }
  }

  lemma SignalsChronological(spec: StrategySpec, bars: seq<Kline>)
    requires ValidSpec(spec)
    ensures Chronological(Signals(spec, bars), |bars|)
  {
    ValidSpecIsKnown(spec, bars);
    SignalsOfChronological(spec, |bars|, bars, ComputedFor(spec.indicators, bars));
  }

  // ---------------------------------------------------------------- the truth table behind a decision

  datatype ConditionResult = ConditionResult(leftValue: Option<real>, rightValue: Option<real>, passed: bool)

  datatype RuleResult = RuleResult(side: Side, conditions: seq<ConditionResult>)

  predicate Passed(r: RuleResult) {
    forall c :: 0 <= c < |r.conditions| ==> r.conditions[c].passed
  }

  function ConditionReport(c: Condition, at: nat, bars: seq<Kline>, computed: Computed): ConditionResult
    requires at < |bars| && ConditionKnown(c, computed)
  {
    ConditionResult(OperandAt(c.left, at, bars, computed), OperandAt(c.right, at, bars, computed),
                    Holds(c, at, bars, computed))
  }

  function RuleReport(rule: EntryRule, at: nat, bars: seq<Kline>, computed: Computed): RuleResult
    requires at < |bars| && RuleComputed(rule, computed)
  {
    RuleResult(rule.side,
               seq(|rule.conditions|, c requires 0 <= c < |rule.conditions| =>
                 ConditionReport(rule.conditions[c], at, bars, computed)))
  }

  lemma {:induction false} InBarSignals(spec: StrategySpec, n: nat, i: nat, bars: seq<Kline>, computed: Computed,
                                        e: nat)
    requires ValidSpec(spec) && n <= |spec.entries| && i < |bars| && SpecKnown(spec, computed)
    requires e < |spec.entries|
    ensures var signal := RuleSignal(spec, spec.entries[e], i, bars, computed);
      && (e < n && signal.Some? ==> signal.value in BarSignals(spec, n, i, bars, computed))
      && (forall s :: s in BarSignals(spec, n, i, bars, computed) && s.side == spec.entries[e].side ==>
            signal == Some(s))
  {
    if n > 0 {
      InBarSignals(spec, n - 1, i, bars, computed, e);
      var rule := spec.entries[n - 1];
      assert RuleComputed(rule, computed);
      if e != n - 1 {
        assert rule.side != spec.entries[e].side;
      }
    }
  }

  lemma {:induction false} InSignalsOf(spec: StrategySpec, m: nat, bars: seq<Kline>, computed: Computed, s: Signal)
    requires ValidSpec(spec) && m <= |bars| && SpecKnown(spec, computed) && s.barIndex < |bars|
    ensures s in SignalsOf(spec, m, bars, computed)
            <==> s.barIndex < m && s in BarSignals(spec, |spec.entries|, s.barIndex, bars, computed)
  {
    if m > 0 {
      InSignalsOf(spec, m - 1, bars, computed, s);
      BarSignalsShape(spec, |spec.entries|, m - 1, bars, computed);
    }
  }

  lemma ReportPasses(rule: EntryRule, i: nat, bars: seq<Kline>, computed: Computed)
    requires i < |bars| && RuleComputed(rule, computed)
    ensures Passed(RuleReport(rule, i, bars, computed)) <==> AllHold(rule, i, bars, computed)
  {
    hide Holds;
    var report := RuleReport(rule, i, bars, computed);
    forall c | 0 <= c < |rule.conditions|
      ensures report.conditions[c].passed == Holds(rule.conditions[c], i, bars, computed)
    {
    }
  }

  /** A rule raises a signal on a bar exactly when the explanation of that bar says every condition passed
      and the rule's levels exist and straddle the close: evaluation and explanation cannot disagree. */
  lemma EvaluateAgreesWithExplain(spec: StrategySpec, bars: seq<Kline>, i: nat, e: nat)
    requires ValidSpec(spec) && i < |bars| && e < |spec.entries|
    ensures var computed, rule := ComputedFor(spec.indicators, bars), spec.entries[e];
      && SpecKnown(spec, computed) && RuleComputed(rule, computed)
      && ((exists s :: s in Signals(spec, bars) && s.barIndex == i && s.side == rule.side)
          <==> Passed(RuleReport(rule, i, bars, computed)) && Levels(spec, rule.side, i, bars, computed).Some?)
  {
    var computed, rule := ComputedFor(spec.indicators, bars), spec.entries[e];
    ValidSpecIsKnown(spec, bars);
    assert RuleComputed(rule, computed);
    ReportPasses(rule, i, bars, computed);
    hide Levels, AllHold, RuleReport, Passed;
    InBarSignals(spec, |spec.entries|, i, bars, computed, e);
    var signal := RuleSignal(spec, rule, i, bars, computed);
    if signal.Some? {
      InSignalsOf(spec, |bars|, bars, computed, signal.value);
    }
    forall s | s in Signals(spec, bars) && s.barIndex == i && s.side == rule.side
      ensures signal == Some(s)
    {
      InSignalsOf(spec, |bars|, bars, computed, s);
    }
  }
}
