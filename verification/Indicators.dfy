/** The fixed indicator library: every loop against a definition that names the bars it may read.
    A series is aligned with its input, and entry `i` is the value as of the close of bar `i`. */
module Indicators {
  import opened Common
  import opened Market

  type Series = seq<Option<real>>

  datatype IndicatorName = Sma | Ema | Rsi | Atr | RollingHigh | RollingLow | VolumeSma | TrueRange

  datatype IndicatorError = PeriodBelowOne

  function Closes(bars: seq<Kline>): (c: seq<real>)
    ensures |c| == |bars|
  {
    seq(|bars|, i requires 0 <= i < |bars| => bars[i].close)
  }

  function Volumes(bars: seq<Kline>): (v: seq<real>)
    ensures |v| == |bars|
  {
    seq(|bars|, i requires 0 <= i < |bars| => bars[i].volume)
  }

  function Empty(n: nat): (s: Series)
    ensures |s| == n && forall i :: 0 <= i < n ==> s[i] == None
  {
    seq(n, _ => None)
  }

  // ---------------------------------------------------------------- simple moving average

  /** The mean of the `period` values up to and including index `i`. */
  function WindowMean(values: seq<real>, period: nat, i: nat): real
    requires 1 <= period <= i + 1 <= |values|
  {
    Mean(Sum(values[i + 1 - period..i + 1]), period)
  }

  function SmaSeries(values: seq<real>, period: nat): (s: Series)
    requires period >= 1
    ensures |s| == |values|
  {
    seq(|values|, i requires 0 <= i < |values| =>
      if i + 1 >= period then Some(WindowMean(values, period, i)) else None)
  }

  /** One running sum, adding the newest value and dropping the one that leaves the window. */
  method ComputeSma(values: seq<real>, period: int) returns (r: Result<Series, IndicatorError>)
    ensures period < 1 ==> r == Failure(PeriodBelowOne)
    ensures period >= 1 ==> r == Success(SmaSeries(values, period))
  {
    if period < 1 {
      return Failure(PeriodBelowOne);
    }
    hide Sum, Mean, WindowSum, SmaSeries;
    ghost var series := SmaSeries(values, period);
    var out := Empty(|values|);
    var running := 0.0;
    assert running == WindowSum(values, period, 0) by { NoSum(values, period); }
    for i := 0 to |values|
      invariant |out| == |values|
      invariant running == WindowSum(values, period, i)
      invariant forall j :: 0 <= j < i ==> out[j] == series[j]
      invariant forall j :: i <= j < |values| ==> out[j] == None
    {
      WindowSlides(values, period, i);
      SmaEntry(values, period, i);
      running := running + values[i];
      if i >= period {
        running := running - values[i - period];
      }
      if i >= period - 1 {
        out := out[i := Some(Mean(running, period))];
      }
    }
    assert out == series;
    r := Success(out);
  }

  /** The sum of the last `period` of the first `i` values, or of all of them while there are fewer. */
  function WindowSum(values: seq<real>, period: nat, i: nat): real
    requires i <= |values|
  {
    Sum(values[if i > period then i - period else 0..i])
  }

  lemma WindowSlides(values: seq<real>, period: nat, i: nat)
    requires 1 <= period && i < |values|
    ensures WindowSum(values, period, i + 1)
         == WindowSum(values, period, i) + values[i] - if i >= period then values[i - period] else 0.0
  {
    var first := if i > period then i - period else 0;
    SumAppend(values[first..i], values[i]);
    assert values[first..i] + [values[i]] == values[first..i + 1];
    if i >= period {
      SumDropFirst(values[first..i + 1]);
      assert values[first..i + 1][1..] == values[first + 1..i + 1];
    }
  }

  lemma SmaEntry(values: seq<real>, period: nat, i: nat)
    requires 1 <= period && i < |values|
    ensures SmaSeries(values, period)[i]
         == if i + 1 >= period then Some(Mean(WindowSum(values, period, i + 1), period)) else None
  {
  }

  lemma NoSum(values: seq<real>, period: nat)
    ensures WindowSum(values, period, 0) == 0.0
  {
  }

  // ---------------------------------------------------------------- exponential moving average

  /** Moves the average a fraction 2 / (period + 1) of the way to the new value. */
  function EmaStep(previous: real, value: real, period: nat): real {
    (value - previous) * (2.0 / (period as real + 1.0)) + previous
  }

  function EmaAt(values: seq<real>, period: nat, i: nat): real
    requires 1 <= period <= i + 1 <= |values|
    decreases i
  {
    if i + 1 == period then WindowMean(values, period, i)
    else EmaStep(EmaAt(values, period, i - 1), values[i], period)
  }

  function EmaSeries(values: seq<real>, period: nat): (s: Series)
    requires period >= 1
    ensures |s| == |values|
  {
    seq(|values|, i requires 0 <= i < |values| =>
      if i + 1 >= period then Some(EmaAt(values, period, i)) else None)
  }

  method ComputeEma(values: seq<real>, period: int) returns (r: Result<Series, IndicatorError>)
    ensures period < 1 ==> r == Failure(PeriodBelowOne)
    ensures period >= 1 ==> r == Success(EmaSeries(values, period))
  {
    if period < 1 {
      return Failure(PeriodBelowOne);
    }
    hide Sum, Mean, EmaStep;
    var out := Empty(|values|);
    if |values| < period {
      assert out == EmaSeries(values, period);
      return Success(out);
    }
    var seed := Mean(Sum(values[..period]), period);
    out := out[period - 1 := Some(seed)];
    assert values[0..period] == values[..period];
    var previous := seed;
    for i := period to |values|
      invariant |out| == |values|
      invariant previous == EmaAt(values, period, i - 1)
      invariant forall j :: 0 <= j < i ==> out[j] == EmaSeries(values, period)[j]
    {
      previous := EmaStep(previous, values[i], period);
      out := out[i := Some(previous)];
    }
    assert out == EmaSeries(values, period);
    r := Success(out);
  }

  /** Moving part of the way from one value within bounds to another stays within the bounds. */
  lemma EmaStepBounds(previous: real, value: real, period: nat, lo: real, hi: real)
    requires period >= 1 && lo <= previous <= hi && lo <= value <= hi
    ensures lo <= EmaStep(previous, value, period) <= hi
  {
    var w := 2.0 / (period as real + 1.0);
    QuotientBounds(2.0, period as real + 1.0, 0.0, 1.0);
    var change, fall, rise := (value - previous) * w, (lo - previous) * w, (hi - previous) * w;
    MulOrder(lo - previous, value - previous, w);
    MulOrder(value - previous, hi - previous, w);
    MulOrder(w, 1.0, previous - lo);
    MulOrder(w, 1.0, hi - previous);
    assert fall == -(w * (previous - lo)) && rise == w * (hi - previous);
    assert lo - previous <= fall <= change <= rise <= hi - previous;
    assert EmaStep(previous, value, period) == change + previous;
  }

  lemma MeanBounds(values: seq<real>, period: nat, i: nat, lo: real, hi: real)
    requires 1 <= period <= i + 1 <= |values|
    requires forall j :: i + 1 - period <= j <= i ==> lo <= values[j] <= hi
    ensures lo <= WindowMean(values, period, i) <= hi
  {
    var w := values[i + 1 - period..i + 1];
    SumBounds(w, lo, hi);
    QuotientBounds(Sum(w), period as real, lo, hi);
  }

  lemma QuotientBounds(total: real, n: real, lo: real, hi: real)
    requires n > 0.0 && n * lo <= total <= n * hi
    ensures lo <= total / n <= hi
  {
    var q := total / n;
    assert q * n == total;
    if q < lo {
      MulStrict(q, lo, n);
    }
    if hi < q {
      MulStrict(hi, q, n);
    }
  }

  /** The exponential average never leaves the range of the values consumed so far. */
  lemma {:induction false} EmaWithinInputs(values: seq<real>, period: nat, i: nat, lo: real, hi: real)
    requires 1 <= period <= i + 1 <= |values|
    requires forall j :: 0 <= j <= i ==> lo <= values[j] <= hi
    ensures lo <= EmaAt(values, period, i) <= hi
    decreases i
  {
    if i + 1 == period {
      MeanBounds(values, period, i, lo, hi);
    } else {
      EmaWithinInputs(values, period, i - 1, lo, hi);
      EmaStepBounds(EmaAt(values, period, i - 1), values[i], period, lo, hi);
    }
  }

  // ---------------------------------------------------------------- Wilder's smoothing, RSI

  function WilderStep(previous: real, value: real, period: nat): real
    requires period >= 1
  {
    (previous * (period as real - 1.0) + value) / period as real
  }

  /** The numerator of one step stays between n times the bounds. */
  lemma WilderNumerator(previous: real, value: real, n: real, lo: real, hi: real)
    requires n >= 1.0 && lo <= previous <= hi && lo <= value <= hi
    ensures n * lo <= previous * (n - 1.0) + value <= n * hi
  {
    MulOrder(lo, previous, n - 1.0);
    MulOrder(previous, hi, n - 1.0);
    OneMore(lo, n);
    OneMore(hi, n);
  }

  lemma OneMore(x: real, n: real)
    ensures n * x == x * (n - 1.0) + x
  {
  }

  lemma WilderStepBounds(previous: real, value: real, period: nat, lo: real, hi: real)
    requires period >= 1 && lo <= previous <= hi && lo <= value <= hi
    ensures lo <= WilderStep(previous, value, period) <= hi
  {
    var n := period as real;
    WilderNumerator(previous, value, n, lo, hi);
    QuotientBounds(previous * (n - 1.0) + value, n, lo, hi);
  }

  /** Wilder's average of `inputs`, seeded with a plain mean of the first `period` of them. */
  function WilderAt(inputs: seq<real>, period: nat, i: nat): real
    requires 1 <= period <= i + 1 <= |inputs|
    decreases i
  {
    if i + 1 == period then WindowMean(inputs, period, i)
    else WilderStep(WilderAt(inputs, period, i - 1), inputs[i], period)
  }

  /** Wilder's average never leaves the range of the inputs consumed so far. */
  lemma {:induction false} WilderWithinInputs(inputs: seq<real>, period: nat, i: nat, lo: real, hi: real)
    requires 1 <= period <= i + 1 <= |inputs|
    requires forall j :: 0 <= j <= i ==> lo <= inputs[j] <= hi
    ensures lo <= WilderAt(inputs, period, i) <= hi
    decreases i
  {
    if i + 1 == period {
      MeanBounds(inputs, period, i, lo, hi);
    } else {
      WilderWithinInputs(inputs, period, i - 1, lo, hi);
      WilderStepBounds(WilderAt(inputs, period, i - 1), inputs[i], period, lo, hi);
    }
  }

  /** The rises of consecutive values; entry `i` compares values `i` and `i + 1`. */
  function Gains(values: seq<real>): (g: seq<real>)
    ensures |g| == if values == [] then 0 else |values| - 1
  {
    seq(if values == [] then 0 else |values| - 1, i requires 0 <= i < |values| - 1 =>
      MaxOf(values[i + 1] - values[i], 0.0))
  }

  function Losses(values: seq<real>): (l: seq<real>)
    ensures |l| == if values == [] then 0 else |values| - 1
  {
    seq(if values == [] then 0 else |values| - 1, i requires 0 <= i < |values| - 1 =>
      MaxOf(-(values[i + 1] - values[i]), 0.0))
  }

  function RsiFrom(gain: real, loss: real): real
    requires gain >= 0.0 && loss >= 0.0
  {
    if loss == 0.0 then 100.0 else 100.0 - 100.0 / (1.0 + Ratio(gain, loss))
  }

  function Ratio(gain: real, loss: real): (q: real)
    requires gain >= 0.0 && loss > 0.0
    ensures q >= 0.0
  {
    gain / loss
  }

  lemma RsiFromRange(gain: real, loss: real)
    requires gain >= 0.0 && loss >= 0.0
    ensures 0.0 <= RsiFrom(gain, loss) <= 100.0
  {
    if loss != 0.0 {
      QuotientBounds(100.0, 1.0 + Ratio(gain, loss), 0.0, 100.0);
    }
  }

  lemma SmoothedNonNegative(inputs: seq<real>, period: nat, i: nat)
    requires 1 <= period <= i + 1 <= |inputs|
    requires forall j :: 0 <= j < |inputs| ==> inputs[j] >= 0.0
    ensures WilderAt(inputs, period, i) >= 0.0
  {
    var hi := UpperBound(inputs[..i + 1]);
    WilderWithinInputs(inputs, period, i, 0.0, hi);
  }

  function UpperBound(v: seq<real>): (u: real)
    ensures forall j :: 0 <= j < |v| ==> v[j] <= u
  {
    if v == [] then 0.0
    else MaxOf(UpperBound(v[..|v| - 1]), v[|v| - 1])
  }

  function RsiAt(values: seq<real>, period: nat, i: nat): real
    requires 1 <= period <= i < |values|
  {
    SmoothedNonNegative(Gains(values), period, i - 1);
    SmoothedNonNegative(Losses(values), period, i - 1);
    RsiFrom(WilderAt(Gains(values), period, i - 1), WilderAt(Losses(values), period, i - 1))
  }

  function RsiSeries(values: seq<real>, period: nat): (s: Series)
    requires period >= 1
    ensures |s| == |values|
  {
    seq(|values|, i requires 0 <= i < |values| =>
      if i >= period then Some(RsiAt(values, period, i)) else None)
  }

  lemma RsiInRange(values: seq<real>, period: nat, i: nat)
    requires 1 <= period <= i < |values|
    ensures 0.0 <= RsiAt(values, period, i) <= 100.0
  {
    SmoothedNonNegative(Gains(values), period, i - 1);
    SmoothedNonNegative(Losses(values), period, i - 1);
    RsiFromRange(WilderAt(Gains(values), period, i - 1), WilderAt(Losses(values), period, i - 1));
  }

  lemma RsiTooEarly(values: seq<real>, period: nat)
    requires period >= 1
    ensures forall j :: 0 <= j < period && j < |values| ==> RsiSeries(values, period)[j] == None
  {
  }

  lemma RsiTooShort(values: seq<real>, period: nat)
    requires period >= 1 && |values| <= period
    ensures RsiSeries(values, period) == Empty(|values|)
  {
  }

  /** Wilder's averages of the rises and falls up to value `i`, by name. */
  function AverageGain(values: seq<real>, period: nat, i: nat): real
    requires 1 <= period <= i < |values|
  {
    WilderAt(Gains(values), period, i - 1)
  }

  function AverageLoss(values: seq<real>, period: nat, i: nat): real
    requires 1 <= period <= i < |values|
  {
    WilderAt(Losses(values), period, i - 1)
  }

  lemma RsiEntry(values: seq<real>, period: nat, i: nat)
    requires 1 <= period <= i < |values|
    ensures var gain, loss := AverageGain(values, period, i), AverageLoss(values, period, i);
      gain >= 0.0 && loss >= 0.0 && RsiSeries(values, period)[i] == Some(RsiFrom(gain, loss))
  {
    SmoothedNonNegative(Gains(values), period, i - 1);
    SmoothedNonNegative(Losses(values), period, i - 1);
  }

  lemma AveragesStart(values: seq<real>, period: nat)
    requires 1 <= period < |values|
    ensures AverageGain(values, period, period) == Mean(Sum(Gains(values)[..period]), period)
    ensures AverageLoss(values, period, period) == Mean(Sum(Losses(values)[..period]), period)
  {
    assert Gains(values)[0..period] == Gains(values)[..period] && Losses(values)[0..period] == Losses(values)[..period];
  }

  lemma AveragesStep(values: seq<real>, period: nat, i: nat)
    requires 1 <= period <= i < |values| - 1
    ensures AverageGain(values, period, i + 1) == WilderStep(AverageGain(values, period, i), Gains(values)[i], period)
    ensures AverageLoss(values, period, i + 1) == WilderStep(AverageLoss(values, period, i), Losses(values)[i], period)
  {
  }

  /** The rises and falls of consecutive values, collected in one pass. */
  method ComputeChanges(values: seq<real>) returns (gains: seq<real>, losses: seq<real>)
    requires values != []
    ensures gains == Gains(values) && losses == Losses(values)
  {
    gains, losses := [], [];
    for i := 1 to |values|
      invariant gains == Gains(values)[..i - 1]
      invariant losses == Losses(values)[..i - 1]
    {
      var change := values[i] - values[i - 1];
      gains := gains + [MaxOf(change, 0.0)];
      losses := losses + [MaxOf(-change, 0.0)];
    }
  }

  /** Smooths the changes and fills in the index from the first full period on. */
  method SmoothRsi(values: seq<real>, period: nat, gains: seq<real>, losses: seq<real>) returns (out: Series)
    requires 1 <= period < |values| && gains == Gains(values) && losses == Losses(values)
    ensures out == RsiSeries(values, period)
  {
    hide Sum, Mean, WilderStep, RsiFrom, RsiSeries, AverageGain, AverageLoss, Gains, Losses;
    ghost var series := RsiSeries(values, period);
    out := Empty(|values|);
    RsiTooEarly(values, period);
    RsiEntry(values, period, period);
    AveragesStart(values, period);
    var avgGain, avgLoss := Mean(Sum(gains[..period]), period), Mean(Sum(losses[..period]), period);
    out := out[period := Some(RsiFrom(avgGain, avgLoss))];
    for i := period to |gains|
      invariant |out| == |values|
      invariant avgGain == AverageGain(values, period, i) && avgLoss == AverageLoss(values, period, i)
      invariant forall j :: 0 <= j <= i ==> out[j] == series[j]
      invariant forall j :: i < j < |out| ==> out[j] == None
    {
      AveragesStep(values, period, i);
      RsiEntry(values, period, i + 1);
      avgGain := WilderStep(avgGain, gains[i], period);
      avgLoss := WilderStep(avgLoss, losses[i], period);
      out := out[i + 1 := Some(RsiFrom(avgGain, avgLoss))];
    }
    assert out == series;
  }

  method ComputeRsi(values: seq<real>, period: int) returns (r: Result<Series, IndicatorError>)
    ensures period < 1 ==> r == Failure(PeriodBelowOne)
    ensures period >= 1 ==> r == Success(RsiSeries(values, period))
  {
    hide RsiSeries, Gains, Losses;
    if period < 1 {
      return Failure(PeriodBelowOne);
    }
    if |values| <= period {
      RsiTooShort(values, period);
      return Success(Empty(|values|));
    }
    var gains, losses := ComputeChanges(values);
    var out := SmoothRsi(values, period, gains, losses);
    r := Success(out);
  }

  // ---------------------------------------------------------------- true range and ATR

  function TrueRangeAt(bars: seq<Kline>, i: nat): real
    requires i < |bars|
  {
    var range := bars[i].high - bars[i].low;
    if i == 0 then range
    else MaxOf(MaxOf(range, AbsOf(bars[i].high - bars[i - 1].close)), AbsOf(bars[i].low - bars[i - 1].close))
  }

  function TrueRanges(bars: seq<Kline>): (r: seq<real>)
    ensures |r| == |bars|
  {
    seq(|bars|, i requires 0 <= i < |bars| => TrueRangeAt(bars, i))
  }

  function TrueRangeSeries(bars: seq<Kline>): (s: Series)
    ensures |s| == |bars|
  {
    seq(|bars|, i requires 0 <= i < |bars| => Some(TrueRangeAt(bars, i)))
  }

  method ComputeTrueRange(bars: seq<Kline>) returns (out: Series)
    ensures out == TrueRangeSeries(bars)
  {
    out := Empty(|bars|);
    for i := 0 to |bars|
      invariant |out| == |bars|
      invariant forall j :: 0 <= j < i ==> out[j] == TrueRangeSeries(bars)[j]
    {
      var range := bars[i].high - bars[i].low;
      if i == 0 {
        out := out[i := Some(range)];
        continue;
      }
      var prevClose := bars[i - 1].close;
      out := out[i := Some(MaxOf(MaxOf(range, AbsOf(bars[i].high - prevClose)),
                                 AbsOf(bars[i].low - prevClose)))];
    }
  }

  function AtrSeries(bars: seq<Kline>, period: nat): (s: Series)
    requires period >= 1
    ensures |s| == |bars|
  {
    seq(|bars|, i requires 0 <= i < |bars| =>
      if i + 1 >= period then Some(WilderAt(TrueRanges(bars), period, i)) else None)
  }

  /** The entries of a window that are present, in order. */
  function Present(s: Series): seq<real> {
    if s == [] then []
    else if s[0].Some? then [s[0].value] + Present(s[1..])
    else Present(s[1..])
  }

  lemma {:induction false} PresentOfAllPresent(s: Series, v: seq<real>)
    requires |s| == |v| && forall j :: 0 <= j < |s| ==> s[j] == Some(v[j])
    ensures Present(s) == v
  {
    if s != [] {
      PresentOfAllPresent(s[1..], v[1..]);
    }
  }

  method ComputeAtr(bars: seq<Kline>, period: int) returns (r: Result<Series, IndicatorError>)
    ensures period < 1 ==> r == Failure(PeriodBelowOne)
    ensures period >= 1 ==> r == Success(AtrSeries(bars, period))
  {
    if period < 1 {
      return Failure(PeriodBelowOne);
    }
    hide Sum, Mean, WilderStep, TrueRangeAt;
    var ranges := ComputeTrueRange(bars);
    var out := Empty(|bars|);
    if |bars| < period {
      assert out == AtrSeries(bars, period);
      return Success(out);
    }
    ghost var inputs := TrueRanges(bars);
    var window := Present(ranges[..period]);
    PresentOfAllPresent(ranges[..period], inputs[..period]);
    assert inputs[0..period] == inputs[..period];
    var previous := Mean(Sum(window), period);
    out := out[period - 1 := Some(previous)];
    for i := period to |bars|
      invariant |out| == |bars|
      invariant previous == WilderAt(inputs, period, i - 1)
      invariant forall j :: 0 <= j < i ==> out[j] == AtrSeries(bars, period)[j]
    {
      if ranges[i].Some? {
        previous := WilderStep(previous, ranges[i].value, period);
        out := out[i := Some(previous)];
      }
    }
    assert out == AtrSeries(bars, period);
    r := Success(out);
  }

  /** The average true range never leaves the range of the true ranges consumed so far, so it is never
      negative. */
  lemma AtrWithinInputs(bars: seq<Kline>, period: nat, i: nat, lo: real, hi: real)
    requires 1 <= period <= i + 1 <= |bars|
    requires forall j :: 0 <= j <= i ==> lo <= TrueRangeAt(bars, j) <= hi
    ensures AtrSeries(bars, period)[i].Some?
    ensures lo <= AtrSeries(bars, period)[i].value <= hi
    ensures 0.0 <= AtrSeries(bars, period)[i].value
  {
    WilderWithinInputs(TrueRanges(bars), period, i, lo, hi);
    SmoothedNonNegative(TrueRanges(bars), period, i);
  }

  // ---------------------------------------------------------------- rolling extremes

  function Highest(bars: seq<Kline>): (h: real)
    requires bars != []
    ensures forall j :: 0 <= j < |bars| ==> bars[j].high <= h
    ensures exists j :: 0 <= j < |bars| && bars[j].high == h
  {
    if |bars| == 1 then bars[0].high
    else MaxOf(Highest(bars[..|bars| - 1]), bars[|bars| - 1].high)
  }

  function Lowest(bars: seq<Kline>): (l: real)
    requires bars != []
    ensures forall j :: 0 <= j < |bars| ==> l <= bars[j].low
    ensures exists j :: 0 <= j < |bars| && bars[j].low == l
  {
    if |bars| == 1 then bars[0].low
    else MinOf(Lowest(bars[..|bars| - 1]), bars[|bars| - 1].low)
  }

  function RollingHighSeries(bars: seq<Kline>, period: nat): (s: Series)
    requires period >= 1
    ensures |s| == |bars|
  {
    seq(|bars|, i requires 0 <= i < |bars| =>
      if i + 1 >= period then Some(Highest(bars[i + 1 - period..i + 1])) else None)
  }

  function RollingLowSeries(bars: seq<Kline>, period: nat): (s: Series)
    requires period >= 1
    ensures |s| == |bars|
  {
    seq(|bars|, i requires 0 <= i < |bars| =>
      if i + 1 >= period then Some(Lowest(bars[i + 1 - period..i + 1])) else None)
  }

  method ComputeRollingHigh(bars: seq<Kline>, period: int) returns (r: Result<Series, IndicatorError>)
    ensures period < 1 ==> r == Failure(PeriodBelowOne)
    ensures period >= 1 ==> r == Success(RollingHighSeries(bars, period))
  {
    if period < 1 {
      return Failure(PeriodBelowOne);
    }
    hide Highest;
    var out := Empty(|bars|);
    for i := 0 to |bars|
      invariant |out| == |bars|
      invariant forall j :: 0 <= j < i ==> out[j] == RollingHighSeries(bars, period)[j]
      invariant forall j :: i <= j < |bars| ==> out[j] == None
    {
      if i >= period - 1 {
        out := out[i := Some(Highest(bars[i - period + 1..i + 1]))];
      }
    }
    assert out == RollingHighSeries(bars, period);
    r := Success(out);
  }

  method ComputeRollingLow(bars: seq<Kline>, period: int) returns (r: Result<Series, IndicatorError>)
    ensures period < 1 ==> r == Failure(PeriodBelowOne)
    ensures period >= 1 ==> r == Success(RollingLowSeries(bars, period))
  {
    if period < 1 {
      return Failure(PeriodBelowOne);
    }
    hide Lowest;
    var out := Empty(|bars|);
    for i := 0 to |bars|
      invariant |out| == |bars|
      invariant forall j :: 0 <= j < i ==> out[j] == RollingLowSeries(bars, period)[j]
      invariant forall j :: i <= j < |bars| ==> out[j] == None
    {
      if i >= period - 1 {
        out := out[i := Some(Lowest(bars[i - period + 1..i + 1]))];
      }
    }
    assert out == RollingLowSeries(bars, period);
    r := Success(out);
  }

  // ---------------------------------------------------------------- dispatch and causality

  function SeriesOf(name: IndicatorName, bars: seq<Kline>, period: nat): (s: Series)
    requires period >= 1
    ensures |s| == |bars|
  {
    match name
    case Sma => SmaSeries(Closes(bars), period)
    case Ema => EmaSeries(Closes(bars), period)
    case Rsi => RsiSeries(Closes(bars), period)
    case Atr => AtrSeries(bars, period)
    case RollingHigh => RollingHighSeries(bars, period)
    case RollingLow => RollingLowSeries(bars, period)
    case VolumeSma => SmaSeries(Volumes(bars), period)
    case TrueRange => TrueRangeSeries(bars)
  }

  /** True range ignores its period, so it alone accepts any. */
  method Compute(name: IndicatorName, bars: seq<Kline>, period: int) returns (r: Result<Series, IndicatorError>)
    ensures period >= 1 ==> r == Success(SeriesOf(name, bars, period))
    ensures period < 1 && name != TrueRange ==> r == Failure(PeriodBelowOne)
    ensures name == TrueRange ==> r == Success(TrueRangeSeries(bars))
  {
    match name
    case Sma => r := ComputeSma(Closes(bars), period);
    case Ema => r := ComputeEma(Closes(bars), period);
    case Rsi => r := ComputeRsi(Closes(bars), period);
    case Atr => r := ComputeAtr(bars, period);
    case RollingHigh => r := ComputeRollingHigh(bars, period);
    case RollingLow => r := ComputeRollingLow(bars, period);
    case VolumeSma => r := ComputeSma(Volumes(bars), period);
    case TrueRange =>
      var ranges := ComputeTrueRange(bars);
      r := Success(ranges);
  }

  lemma MeanCausal(values: seq<real>, period: nat, i: nat, k: nat)
    requires 1 <= period <= i + 1 <= k <= |values|
    ensures WindowMean(values[..k], period, i) == WindowMean(values, period, i)
  {
    assert values[..k][i + 1 - period..i + 1] == values[i + 1 - period..i + 1];
  }

  lemma {:induction false} EmaCausal(values: seq<real>, period: nat, i: nat, k: nat)
    requires 1 <= period <= i + 1 <= k <= |values|
    ensures EmaAt(values[..k], period, i) == EmaAt(values, period, i)
    decreases i
  {
    if i + 1 == period {
      MeanCausal(values, period, i, k);
    } else {
      EmaCausal(values, period, i - 1, k);
    }
  }

  lemma {:induction false} WilderCausal(inputs: seq<real>, period: nat, i: nat, k: nat)
    requires 1 <= period <= i + 1 <= k <= |inputs|
    ensures WilderAt(inputs[..k], period, i) == WilderAt(inputs, period, i)
    decreases i
  {
    if i + 1 == period {
      MeanCausal(inputs, period, i, k);
    } else {
      WilderCausal(inputs, period, i - 1, k);
    }
  }

  lemma RsiCausal(values: seq<real>, period: nat, i: nat, k: nat)
    requires 1 <= period <= i < k <= |values|
    ensures RsiAt(values[..k], period, i) == RsiAt(values, period, i)
  {
    assert Gains(values[..k]) == Gains(values)[..k - 1];
    assert Losses(values[..k]) == Losses(values)[..k - 1];
    WilderCausal(Gains(values), period, i - 1, k - 1);
    WilderCausal(Losses(values), period, i - 1, k - 1);
  }

  lemma AtrCausal(bars: seq<Kline>, period: nat, i: nat, k: nat)
    requires 1 <= period <= i + 1 <= k <= |bars|
    ensures WilderAt(TrueRanges(bars[..k]), period, i) == WilderAt(TrueRanges(bars), period, i)
  {
    assert TrueRanges(bars[..k]) == TrueRanges(bars)[..k];
    WilderCausal(TrueRanges(bars), period, i, k);
  }

  lemma WindowCausal(bars: seq<Kline>, period: nat, i: nat, k: nat)
    requires 1 <= period <= i + 1 <= k <= |bars|
    ensures bars[..k][i + 1 - period..i + 1] == bars[i + 1 - period..i + 1]
  {
  }

  lemma SeriesCausal(values: seq<real>, period: nat, i: nat, k: nat)
    requires period >= 1 && i < k <= |values|
    ensures SmaSeries(values[..k], period)[i] == SmaSeries(values, period)[i]
    ensures EmaSeries(values[..k], period)[i] == EmaSeries(values, period)[i]
    ensures RsiSeries(values[..k], period)[i] == RsiSeries(values, period)[i]
  {
    hide WindowMean, RsiAt;
    if i + 1 >= period {
      MeanCausal(values, period, i, k);
      EmaCausal(values, period, i, k);
    }
    if i >= period {
      RsiCausal(values, period, i, k);
    }
  }

  lemma BarSeriesCausal(bars: seq<Kline>, period: nat, i: nat, k: nat)
    requires period >= 1 && i < k <= |bars|
    ensures AtrSeries(bars[..k], period)[i] == AtrSeries(bars, period)[i]
    ensures TrueRangeSeries(bars[..k])[i] == TrueRangeSeries(bars)[i]
    ensures RollingHighSeries(bars[..k], period)[i] == RollingHighSeries(bars, period)[i]
    ensures RollingLowSeries(bars[..k], period)[i] == RollingLowSeries(bars, period)[i]
  {
    if i + 1 >= period {
      AtrCausal(bars, period, i, k);
      WindowCausal(bars, period, i, k);
    }
  }

  lemma ValueCausal(name: IndicatorName, bars: seq<Kline>, period: nat, i: nat, k: nat)
    requires period >= 1 && i < k <= |bars|
    ensures SeriesOf(name, bars[..k], period)[i] == SeriesOf(name, bars, period)[i]
  {
    hide SmaSeries, EmaSeries, RsiSeries, AtrSeries, TrueRangeSeries, RollingHighSeries, RollingLowSeries;
    assert Closes(bars[..k]) == Closes(bars)[..k] && Volumes(bars[..k]) == Volumes(bars)[..k];
    SeriesCausal(Closes(bars), period, i, k);
    SeriesCausal(Volumes(bars), period, i, k);
    BarSeriesCausal(bars, period, i, k);
  }

  /** No indicator reads forward: computed on the first `k` bars it is the first `k` values of the full
      series, short histories included. */
  lemma IndicatorCausal(name: IndicatorName, bars: seq<Kline>, period: nat, k: nat)
    requires period >= 1 && k <= |bars|
    ensures SeriesOf(name, bars[..k], period) == SeriesOf(name, bars, period)[..k]
  {
    forall i | 0 <= i < k
      ensures SeriesOf(name, bars[..k], period)[i] == SeriesOf(name, bars, period)[..k][i]
    {
      ValueCausal(name, bars, period, i, k);
    }
  }
}
