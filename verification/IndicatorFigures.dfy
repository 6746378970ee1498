/** What each indicator's values are, in products and bounds over the bars they are read from. */
module IndicatorFigures {
  import opened Common
  import opened Market
  import opened Indicators

  // ---------------------------------------------------------------- the averages

  /** A window's mean times its length is the sum of its values. */
  lemma WindowInFigures(values: seq<real>, period: nat, i: nat, w: seq<real>)
    requires 1 <= period <= i + 1 <= |values|
    requires |w| == period && forall j :: 0 <= j < period ==> w[j] == values[i + 1 - period + j]
    ensures WindowMean(values, period, i) * period as real == Sum(w)
  {
    assert w == values[i + 1 - period..i + 1];
    MeanTimes(Sum(w), period);
  }

  lemma EmaStepInFigures(previous: real, value: real, period: nat)
    ensures (period as real + 1.0) * (EmaStep(previous, value, period) - previous) == 2.0 * (value - previous)
  {
    var n := period as real + 1.0;
    var w := 2.0 / n;
    assert w * n == 2.0;
    assert EmaStep(previous, value, period) - previous == (value - previous) * w;
  }

  lemma WilderStepInFigures(previous: real, value: real, period: nat)
    requires period >= 1
    ensures period as real * WilderStep(previous, value, period) == (period as real - 1.0) * previous + value
  {
    var n := period as real;
    var total := previous * (n - 1.0) + value;
    var q := total / n;
    assert q * n == total;
  }

  lemma SmaSeriesInFigures(values: seq<real>, period: nat, i: nat, w: seq<real>)
    requires period >= 1 && i < |values|
    requires period <= i + 1 ==> |w| == period && forall j :: 0 <= j < period ==> w[j] == values[i + 1 - period + j]
    ensures var mean := SmaSeries(values, period)[i];
      && (mean.Some? <==> i + 1 >= period)
      && (i + 1 >= period ==> mean.value * period as real == Sum(w))
  {
    hide WindowMean;
    if i + 1 >= period {
      WindowInFigures(values, period, i, w);
    }
  }

  /** The moving average of closes: the sum of the window over its length, and nothing before the window is full. */
  lemma SmaInFigures(bars: seq<Kline>, period: nat, i: nat, w: seq<real>)
    requires period >= 1 && i < |bars|
    requires period <= i + 1 ==>
               |w| == period && forall j :: 0 <= j < period ==> w[j] == bars[i + 1 - period + j].close
    ensures var mean := SeriesOf(Sma, bars, period)[i];
      && (mean.Some? <==> i + 1 >= period)
      && (i + 1 >= period ==> mean.value * period as real == Sum(w))
  {
    hide SmaSeries, Sum;
    SmaSeriesInFigures(Closes(bars), period, i, w);
  }

  /** The same of volumes. */
  lemma VolumeSmaInFigures(bars: seq<Kline>, period: nat, i: nat, w: seq<real>)
    requires period >= 1 && i < |bars|
    requires period <= i + 1 ==>
               |w| == period && forall j :: 0 <= j < period ==> w[j] == bars[i + 1 - period + j].volume
    ensures var mean := SeriesOf(VolumeSma, bars, period)[i];
      && (mean.Some? <==> i + 1 >= period)
      && (i + 1 >= period ==> mean.value * period as real == Sum(w))
  {
    hide SmaSeries, Sum;
    SmaSeriesInFigures(Volumes(bars), period, i, w);
  }

  /** The exponential average starts as the plain mean of the first closes and then moves two parts in period plus one
      of the way to each new close. */
  lemma EmaInFigures(bars: seq<Kline>, period: nat, i: nat, first: seq<real>)
    requires period >= 1 && i < |bars|
    requires i + 1 == period ==> |first| == period && forall j :: 0 <= j < period ==> first[j] == bars[j].close
    ensures var s := SeriesOf(Ema, bars, period);
      && (s[i].Some? <==> i + 1 >= period)
      && (i + 1 == period ==> s[i].value * period as real == Sum(first))
      && (i + 1 > period ==>
            && s[i - 1].Some?
            && (period as real + 1.0) * (s[i].value - s[i - 1].value) == 2.0 * (bars[i].close - s[i - 1].value))
  {
    hide WindowMean, EmaStep;
    if i + 1 == period {
      WindowInFigures(Closes(bars), period, i, first);
    } else if i + 1 > period {
      EmaStepInFigures(EmaAt(Closes(bars), period, i - 1), bars[i].close, period);
    }
  }

  // ---------------------------------------------------------------- Wilder's average, RSI and true range

  /** Wilder's average: the plain mean of the first inputs, then each new input weighs one part in period. */
  lemma WilderInFigures(inputs: seq<real>, period: nat, i: nat)
    requires 1 <= period <= i + 1 <= |inputs|
    ensures i + 1 == period ==> WilderAt(inputs, period, i) * period as real == Sum(inputs[..period])
    ensures i + 1 > period ==>
              period as real * WilderAt(inputs, period, i)
              == (period as real - 1.0) * WilderAt(inputs, period, i - 1) + inputs[i]
  {
    hide WindowMean, WilderStep;
    if i + 1 == period {
      WindowInFigures(inputs, period, i, inputs[..period]);
    } else {
      WilderStepInFigures(WilderAt(inputs, period, i - 1), inputs[i], period);
    }
  }

  /** Rises and falls are never negative, at most one of a pair is positive, and their difference is the change. */
  lemma ChangesInFigures(values: seq<real>, i: nat)
    requires i + 1 < |values|
    ensures var gain, loss := Gains(values)[i], Losses(values)[i];
      gain >= 0.0 && loss >= 0.0 && (gain == 0.0 || loss == 0.0) && gain - loss == values[i + 1] - values[i]
  {
  }

  /** A hundred times the rises' share of rises and falls; a hundred when nothing fell. */
  predicate ShareOfRises(rsi: real, gain: real, loss: real) {
    && gain >= 0.0 && loss >= 0.0
    && (gain + loss > 0.0 ==> rsi * (gain + loss) == 100.0 * gain)
    && (loss == 0.0 ==> rsi == 100.0)
  }

  lemma RsiFromInFigures(gain: real, loss: real)
    requires gain >= 0.0 && loss >= 0.0
    ensures ShareOfRises(RsiFrom(gain, loss), gain, loss)
  {
    if loss != 0.0 {
      var q := Ratio(gain, loss);
      assert q * loss == gain;
      var y := 100.0 / (1.0 + q);
      assert y * (1.0 + q) == 100.0;
      ShareOfLoss(y, q, gain, loss);
      assert (100.0 - y) * (gain + loss) == 100.0 * (gain + loss) - y * (gain + loss);
    }
  }

  lemma ShareOfLoss(y: real, q: real, gain: real, loss: real)
    requires q * loss == gain && y * (1.0 + q) == 100.0
    ensures y * (gain + loss) == 100.0 * loss
  {
    assert gain + loss == (1.0 + q) * loss;
    assert y * ((1.0 + q) * loss) == (y * (1.0 + q)) * loss;
  }

  lemma RsiSeriesInFigures(values: seq<real>, period: nat, i: nat)
    requires period >= 1 && i < |values|
    ensures RsiSeries(values, period)[i].Some? <==> i >= period
    ensures i >= period ==>
              ShareOfRises(RsiSeries(values, period)[i].value, AverageGain(values, period, i),
                           AverageLoss(values, period, i))
  {
    hide RsiFrom, AverageGain, AverageLoss, RsiAt, ShareOfRises;
    if i >= period {
      RsiEntry(values, period, i);
      RsiFromInFigures(AverageGain(values, period, i), AverageLoss(values, period, i));
    }
  }

  /** RSI is a hundred times the rises' share of the rises and falls of the closes, each averaged Wilder's way. */
  lemma RsiInFigures(bars: seq<Kline>, period: nat, i: nat, closes: seq<real>)
    requires period >= 1 && i < |bars|
    requires |closes| == |bars| && forall j :: 0 <= j < |bars| ==> closes[j] == bars[j].close
    ensures SeriesOf(Rsi, bars, period)[i].Some? <==> i >= period
    ensures i >= period ==>
              ShareOfRises(SeriesOf(Rsi, bars, period)[i].value, WilderAt(Gains(closes), period, i - 1),
                           WilderAt(Losses(closes), period, i - 1))
  {
    hide RsiSeries, ShareOfRises, WilderAt, Gains, Losses;
    assert Closes(bars) == closes;
    RsiSeriesInFigures(closes, period, i);
  }

  /** The true range covers the bar and the gap from the previous close, and is no more than it must be. */
  lemma TrueRangeInFigures(bars: seq<Kline>, period: nat, i: nat)
    requires period >= 1 && i < |bars|
    ensures SeriesOf(TrueRange, bars, period)[i] == Some(TrueRangeAt(bars, i))
    ensures var r, bar := TrueRangeAt(bars, i), bars[i];
      && r >= bar.high - bar.low
      && (i == 0 ==> r == bar.high - bar.low)
      && (i > 0 ==>
            var last := bars[i - 1].close;
            && r >= bar.high - last && r >= last - bar.high && r >= bar.low - last && r >= last - bar.low
            && (r == bar.high - bar.low || r == bar.high - last || r == last - bar.high || r == bar.low - last
                || r == last - bar.low))
  {
  }

  /** ATR is Wilder's average of the true ranges. */
  lemma AtrInFigures(bars: seq<Kline>, period: nat, i: nat, ranges: seq<real>)
    requires period >= 1 && i < |bars|
    requires |ranges| == |bars| && forall j :: 0 <= j < |bars| ==> ranges[j] == TrueRangeAt(bars, j)
    ensures var s := SeriesOf(Atr, bars, period);
      && (s[i].Some? <==> i + 1 >= period)
      && (i + 1 == period ==> s[i].value * period as real == Sum(ranges[..period]))
      && (i + 1 > period ==>
            && s[i - 1].Some?
            && period as real * s[i].value == (period as real - 1.0) * s[i - 1].value + ranges[i])
  {
    hide TrueRangeAt, WilderAt;
    assert TrueRanges(bars) == ranges;
    if i + 1 >= period {
      WilderInFigures(ranges, period, i);
    }
  }

  // ---------------------------------------------------------------- rolling extremes

  lemma WindowExtremes(bars: seq<Kline>, first: nat, end: nat)
    requires first < end <= |bars|
    ensures var high, low := Highest(bars[first..end]), Lowest(bars[first..end]);
      && (forall j :: first <= j < end ==> bars[j].high <= high && low <= bars[j].low)
      && (exists j :: first <= j < end && bars[j].high == high)
      && (exists j :: first <= j < end && bars[j].low == low)
  {
    hide Highest, Lowest;
    var w := bars[first..end];
    var h :| 0 <= h < |w| && w[h].high == Highest(w);
    var l :| 0 <= l < |w| && w[l].low == Lowest(w);
    assert bars[first + h] == w[h] && bars[first + l] == w[l];
    forall j | first <= j < end
      ensures bars[j].high <= Highest(w) && Lowest(w) <= bars[j].low
    {
      assert bars[j] == w[j - first];
    }
  }

  /** The rolling extremes bound the window's highs and lows, and are among them. */
  lemma ExtremesInFigures(bars: seq<Kline>, period: nat, i: nat)
    requires period >= 1 && i < |bars|
    ensures var high, low := SeriesOf(RollingHigh, bars, period)[i], SeriesOf(RollingLow, bars, period)[i];
      && (high.Some? <==> i + 1 >= period) && (low.Some? <==> i + 1 >= period)
      && (i + 1 >= period ==>
            && (forall j :: i + 1 - period <= j < i + 1 ==> bars[j].high <= high.value && low.value <= bars[j].low)
            && (exists j :: i + 1 - period <= j < i + 1 && bars[j].high == high.value)
            && (exists j :: i + 1 - period <= j < i + 1 && bars[j].low == low.value))
  {
    hide Highest, Lowest;
    if i + 1 >= period {
      WindowExtremes(bars, i + 1 - period, i + 1);
    }
  }
}
