/** Explaining one bar at any index a caller may pass: negative indices count back from the end, and a lookup
    outside the history raises. */
module Explanations {
  import opened Common
  import opened Market
  import opened Evaluator

  datatype LookupError = IndexOutOfRange

  /** The position an index names in a list of `n` items, if any. */
  function Wrapped(at: int, n: nat): Option<nat> {
    if 0 <= at < n then Some(at) else if at < 0 <= n + at then Some(n + at) else None
  }

  function Lookup(o: Operand, at: int, bars: seq<Kline>, computed: Computed): Result<Option<real>, LookupError>
    requires o.IndicatorValue? ==> o.ref in computed
  {
    match o
    case Constant(value) => Success(Some(value))
    case Price(_) =>
      var i := Wrapped(at, |bars|);
      if i.None? then Failure(IndexOutOfRange) else Success(OperandAt(o, i.value, bars, computed))
    case IndicatorValue(ref) =>
      var i := Wrapped(at, |computed[ref]|);
      if at >= |computed[ref]| then Success(None)
      else if i.None? then Failure(IndexOutOfRange)
      else Success(computed[ref][i.value])
  }

  predicate IsCrossing(op: Comparator) {
    op == CrossAbove || op == CrossBelow
  }

  /** Whether a crossing condition whose operands now are `l` and `r` has just crossed. */
  function Crossed(c: Condition, l: real, r: real, at: int, bars: seq<Kline>,
                   computed: Computed): Result<bool, LookupError>
    requires ConditionKnown(c, computed)
  {
    if at == 0 then Success(false)
    else
      var before, other := Lookup(c.left, at - 1, bars, computed), Lookup(c.right, at - 1, bars, computed);
      if before.Failure? || other.Failure? then Failure(IndexOutOfRange)
      else if before.value.None? || other.value.None? then Success(false)
      else if c.op == CrossAbove then Success(before.value.value <= other.value.value && l > r)
      else Success(before.value.value >= other.value.value && l < r)
  }

  /** Whether a condition holds; a crossing also looks one index back, except at index 0. */
  function Decide(c: Condition, at: int, bars: seq<Kline>, computed: Computed): Result<bool, LookupError>
    requires ConditionKnown(c, computed)
  {
    var left, right := Lookup(c.left, at, bars, computed), Lookup(c.right, at, bars, computed);
    if left.Failure? || right.Failure? then Failure(IndexOutOfRange)
    else if left.value.None? || right.value.None? then Success(false)
    else
      var l, r := left.value.value, right.value.value;
      match c.op
      case Gt => Success(l > r)
      case Lt => Success(l < r)
      case Gte => Success(l >= r)
      case Lte => Success(l <= r)
      case CrossAbove => Crossed(c, l, r, at, bars, computed)
      case CrossBelow => Crossed(c, l, r, at, bars, computed)
  }

  function ConditionAt(c: Condition, at: int, bars: seq<Kline>,
                       computed: Computed): Result<ConditionResult, LookupError>
    requires ConditionKnown(c, computed)
  {
    var decided := Decide(c, at, bars, computed);
    if decided.Failure? then Failure(IndexOutOfRange)
    else Success(ConditionResult(Lookup(c.left, at, bars, computed).value, Lookup(c.right, at, bars, computed).value,
                                 decided.value))
  }

  /** Every lookup of the rule's conditions succeeds. */
  predicate Answers(rule: EntryRule, at: int, bars: seq<Kline>, computed: Computed)
    requires RuleComputed(rule, computed)
  {
    forall c :: 0 <= c < |rule.conditions| ==> ConditionAt(rule.conditions[c], at, bars, computed).Success?
  }

  function RuleAt(rule: EntryRule, at: int, bars: seq<Kline>, computed: Computed): RuleResult
    requires RuleComputed(rule, computed) && Answers(rule, at, bars, computed)
  {
    RuleResult(rule.side,
               seq(|rule.conditions|, c requires 0 <= c < |rule.conditions| =>
                 ConditionAt(rule.conditions[c], at, bars, computed).value))
  }

  function RulesAt(spec: StrategySpec, at: int, bars: seq<Kline>, computed: Computed): seq<RuleResult>
    requires SpecKnown(spec, computed)
    requires forall e :: 0 <= e < |spec.entries| ==> Answers(spec.entries[e], at, bars, computed)
  {
    seq(|spec.entries|, e requires 0 <= e < |spec.entries| => RuleAt(spec.entries[e], at, bars, computed))
  }

  function RuleReports(spec: StrategySpec, i: nat, bars: seq<Kline>, computed: Computed): seq<RuleResult>
    requires SpecKnown(spec, computed) && i < |bars|
  {
    seq(|spec.entries|, e requires 0 <= e < |spec.entries| => RuleReport(spec.entries[e], i, bars, computed))
  }

  /** Each rule's report, or the error of a lookup that failed. */
  function Explained(spec: StrategySpec, at: int, bars: seq<Kline>,
                     computed: Computed): Result<seq<RuleResult>, LookupError>
    requires SpecKnown(spec, computed)
  {
    if exists e :: 0 <= e < |spec.entries| && !Answers(spec.entries[e], at, bars, computed)
    then Failure(IndexOutOfRange)
    else Success(RulesAt(spec, at, bars, computed))
  }

  /** Reports one rule, stopping at the first lookup that fails. */
  method ExplainRule(rule: EntryRule, at: int, bars: seq<Kline>, computed: Computed)
    returns (r: Result<RuleResult, LookupError>)
    requires RuleComputed(rule, computed)
    ensures r == if Answers(rule, at, bars, computed) then Success(RuleAt(rule, at, bars, computed))
                 else Failure(IndexOutOfRange)
  {
    hide ConditionAt;
    var conditions: seq<ConditionResult> := [];
    for c := 0 to |rule.conditions|
      invariant |conditions| == c
      invariant forall j :: 0 <= j < c ==> ConditionAt(rule.conditions[j], at, bars, computed) == Success(conditions[j])
    {
      var result := ConditionAt(rule.conditions[c], at, bars, computed);
      if result.Failure? {
        return Failure(IndexOutOfRange);
      }
      conditions := conditions + [result.value];
    }
    assert Answers(rule, at, bars, computed);
    assert conditions == RuleAt(rule, at, bars, computed).conditions;
    r := Success(RuleResult(rule.side, conditions));
  }

  /** Reports each entry rule on one bar; the last bar unless another is asked for. */
  method Explain(spec: StrategySpec, bars: seq<Kline>, index: Option<int>)
    returns (r: Result<seq<RuleResult>, LookupError>)
    requires ValidSpec(spec)
    ensures bars == [] ==> r == Success([])
    ensures bars != [] ==>
              var computed := ComputedFor(spec.indicators, bars);
              && SpecKnown(spec, computed)
              && r == Explained(spec, if index.Some? then index.value else |bars| - 1, bars, computed)
  {
    if bars == [] {
      return Success([]);
    }
    var at := if index.Some? then index.value else |bars| - 1;
    var computed := ComputeIndicators(spec, bars);
    ValidSpecIsKnown(spec, bars);
    hide ValidSpec, ComputedFor, Answers, RuleAt;
    var results: seq<RuleResult> := [];
    for e := 0 to |spec.entries|
      invariant |results| == e
      invariant forall j :: 0 <= j < e ==>
        Answers(spec.entries[j], at, bars, computed) && results[j] == RuleAt(spec.entries[j], at, bars, computed)
    {
      var rule := ExplainRule(spec.entries[e], at, bars, computed);
      if rule.Failure? {
        return Failure(IndexOutOfRange);
      }
      results := results + [rule.value];
    }
    assert results == Explained(spec, at, bars, computed).value;
    r := Success(results);
  }

  // ---------------------------------------------------------------- which indices are answered

  predicate FullSeries(c: Condition, bars: seq<Kline>, computed: Computed)
    requires ConditionKnown(c, computed)
  {
    && (c.left.IndicatorValue? ==> |computed[c.left.ref]| == |bars|)
    && (c.right.IndicatorValue? ==> |computed[c.right.ref]| == |bars|)
  }

  lemma LookupInRange(o: Operand, at: int, bars: seq<Kline>, computed: Computed)
    requires -|bars| <= at < |bars|
    requires o.IndicatorValue? ==> o.ref in computed && |computed[o.ref]| == |bars|
    ensures Lookup(o, at, bars, computed) == Success(OperandAt(o, Wrapped(at, |bars|).value, bars, computed))
  {
  }

  /** At any index but the first bar counted from the end, a condition is reported as on the bar it names. */
  lemma ConditionInRange(c: Condition, at: int, bars: seq<Kline>, computed: Computed)
    requires -|bars| < at < |bars| && ConditionKnown(c, computed) && FullSeries(c, bars, computed)
    ensures ConditionAt(c, at, bars, computed)
         == Success(ConditionReport(c, Wrapped(at, |bars|).value, bars, computed))
  {
    hide OperandAt, Lookup;
    LookupInRange(c.left, at, bars, computed);
    LookupInRange(c.right, at, bars, computed);
    if at != 0 {
      LookupInRange(c.left, at - 1, bars, computed);
      LookupInRange(c.right, at - 1, bars, computed);
    }
  }

  /** The first bar counted from the end is answered like bar 0, unless a crossing with both values present looks
      before it: then it raises, except between constants. */
  lemma FirstBarFromTheEnd(c: Condition, bars: seq<Kline>, computed: Computed)
    requires bars != [] && ConditionKnown(c, computed) && FullSeries(c, bars, computed)
    ensures var report := ConditionReport(c, 0, bars, computed);
      ConditionAt(c, -|bars|, bars, computed)
      == if IsCrossing(c.op) && report.leftValue.Some? && report.rightValue.Some?
            && !(c.left.Constant? && c.right.Constant?)
         then Failure(IndexOutOfRange) else Success(report)
  {
    LookupInRange(c.left, -|bars|, bars, computed);
    LookupInRange(c.right, -|bars|, bars, computed);
  }

  lemma SpecSeriesFull(spec: StrategySpec, bars: seq<Kline>, e: nat, c: nat)
    requires ValidSpec(spec) && e < |spec.entries| && c < |spec.entries[e].conditions|
    ensures var computed, condition := ComputedFor(spec.indicators, bars), spec.entries[e].conditions[c];
      ConditionKnown(condition, computed) && FullSeries(condition, bars, computed)
  {
    var condition := spec.entries[e].conditions[c];
    assert RuleKnown(spec.indicators, spec.entries[e]);
    if condition.left.IndicatorValue? {
      ComputedKeys(spec.indicators, bars, condition.left.ref);
    }
    if condition.right.IndicatorValue? {
      ComputedKeys(spec.indicators, bars, condition.right.ref);
    }
  }

  /** Every index strictly within the history either way is answered with the report of the bar it names. */
  lemma ExplainedInRange(spec: StrategySpec, at: int, bars: seq<Kline>)
    requires ValidSpec(spec) && -|bars| < at < |bars|
    ensures var computed, bar := ComputedFor(spec.indicators, bars), if at >= 0 then at else |bars| + at;
      && SpecKnown(spec, computed)
      && Explained(spec, at, bars, computed) == Success(RuleReports(spec, bar, bars, computed))
  {
    var computed, bar := ComputedFor(spec.indicators, bars), if at >= 0 then at else |bars| + at;
    assert Wrapped(at, |bars|) == Some(bar);
    ValidSpecIsKnown(spec, bars);
    hide ValidSpec, Answers, RuleAt, RuleReport, Wrapped, ComputedFor, SpecKnown;
    forall e | 0 <= e < |spec.entries|
      ensures Answers(spec.entries[e], at, bars, computed)
      ensures RuleAt(spec.entries[e], at, bars, computed) == RuleReport(spec.entries[e], bar, bars, computed)
    {
      RuleInRange(spec, e, at, bars);
    }
    assert RulesAt(spec, at, bars, computed) == RuleReports(spec, bar, bars, computed);
  }

  lemma RuleInRange(spec: StrategySpec, e: nat, at: int, bars: seq<Kline>)
    requires ValidSpec(spec) && e < |spec.entries| && -|bars| < at < |bars|
    ensures var computed := ComputedFor(spec.indicators, bars);
      && SpecKnown(spec, computed) && Answers(spec.entries[e], at, bars, computed)
      && RuleAt(spec.entries[e], at, bars, computed)
         == RuleReport(spec.entries[e], Wrapped(at, |bars|).value, bars, computed)
  {
    var computed, rule := ComputedFor(spec.indicators, bars), spec.entries[e];
    ValidSpecIsKnown(spec, bars);
    assert RuleComputed(rule, computed);
    forall c | 0 <= c < |rule.conditions|
      ensures ConditionAt(rule.conditions[c], at, bars, computed)
           == Success(ConditionReport(rule.conditions[c], Wrapped(at, |bars|).value, bars, computed))
    {
      SpecSeriesFull(spec, bars, e, c);
      ConditionInRange(rule.conditions[c], at, bars, computed);
    }
  }
}
