/** Backtest statistics over the closed trades and the equity curve. */
module Stats {
  import opened Common
  import opened Trades

  datatype BacktestStats = BacktestStats(
    tradeCount: nat,
    wins: nat,
    losses: nat,
    winRate: real,
    netReturn: real,
    profitFactor: real,
    expectancy: real,
    maxDrawdown: real,
    avgBarsHeld: real,
    grossProfit: real,
    grossLoss: real,
    totalFees: real,
    finalEquity: real,
    buyAndHoldReturn: real,
    beatsBuyAndHold: bool,
    cappedTradeCount: nat)

  // ---------------------------------------------------------------- drawdown

  /** The decline from the value at `i` to the value at `j`, as a fraction of the value at `i`. */
  function Decline(curve: seq<real>, i: nat, j: nat): real
    requires i < |curve| && j < |curve| && curve[i] > 0.0
  {
    (curve[i] - curve[j]) / curve[i]
  }

  /** `d` is the largest decline from any positive point to a point at or after it. */
  ghost predicate IsLargestDecline(curve: seq<real>, d: real) {
    && (forall i, j :: 0 <= i <= j < |curve| && curve[i] > 0.0 ==> Decline(curve, i, j) <= d)
    && (exists i, j :: 0 <= i <= j < |curve| && curve[i] > 0.0 && Decline(curve, i, j) == d)
  }

  /** What one pass with a running peak leaves behind: the peak and the worst decline so far. */
  datatype Pass = Pass(peak: real, worst: real)

  function PassOver(curve: seq<real>, k: nat): Pass
    requires 0 < |curve| && k <= |curve|
  {
    if k == 0 then Pass(curve[0], 0.0)
    else
      var before := PassOver(curve, k - 1);
      var peak := MaxOf(before.peak, curve[k - 1]);
      Pass(peak, if peak > 0.0 then MaxOf(before.worst, (peak - curve[k - 1]) / peak) else before.worst)
  }

  function MaxDrawdown(curve: seq<real>): real {
    if curve == [] then 0.0 else PassOver(curve, |curve|).worst
  }

  method ComputeMaxDrawdown(curve: seq<real>) returns (worst: real)
    ensures worst == MaxDrawdown(curve)
  {
    if curve == [] {
      return 0.0;
    }
    var peak := curve[0];
    worst := 0.0;
    for k := 0 to |curve|
      invariant Pass(peak, worst) == PassOver(curve, k)
    {
      peak := MaxOf(peak, curve[k]);
      if peak > 0.0 {
        worst := MaxOf(worst, (peak - curve[k]) / peak);
      }
    }
  }

  lemma OneMinusQuotient(p: real, v: real)
    requires 0.0 < p
    ensures (p - v) / p == 1.0 - v / p
  {
    var a, c := v / p, (p - v) / p;
    assert a * p == v && c * p == p - v;
    assert (1.0 - a) * p == p - a * p;
    if c < 1.0 - a {
      MulStrict(c, 1.0 - a, p);
    } else if 1.0 - a < c {
      MulStrict(1.0 - a, c, p);
    }
  }

  lemma QuotientNonNegative(v: real, p: real)
    requires 0.0 < p && 0.0 <= v
    ensures 0.0 <= v / p
  {
  }

  lemma QuotientAntitone(p: real, q: real, v: real)
    requires 0.0 < p <= q && 0.0 <= v
    ensures v / q <= v / p
  {
    var a, b := v / p, v / q;
    assert a * p == v;
    assert b * q == v;
    QuotientNonNegative(v, q);
    MulOrder(p, q, b);
    assert b * p <= a * p;
    if a < b {
      MulStrict(a, b, p);
    }
  }

  lemma QuotientOrder(p: real, q: real, v: real)
    requires 0.0 < p <= q && 0.0 <= v
    ensures (p - v) / p <= (q - v) / q
  {
    QuotientAntitone(p, q, v);
    OneMinusQuotient(p, v);
    OneMinusQuotient(q, v);
  }

  /** Invariant of the pass on a non-negative curve that starts above zero. */
  ghost predicate PassOk(curve: seq<real>, k: nat)
    requires 0 < k <= |curve|
  {
    var p := PassOver(curve, k);
    && (exists i :: 0 <= i < k && curve[i] == p.peak)
    && (forall i :: 0 <= i < k ==> curve[i] <= p.peak)
    && IsLargestDecline(curve[..k], p.worst)
  }

  lemma {:induction false} PassIsOk(curve: seq<real>, k: nat)
    requires 0 < k <= |curve| && curve[0] > 0.0
    requires forall i :: 0 <= i < |curve| ==> curve[i] >= 0.0
    ensures PassOk(curve, k)
  {
    if k == 1 {
      assert PassOver(curve, 0) == Pass(curve[0], 0.0);
      assert PassOver(curve, 1) == Pass(curve[0], 0.0);
      assert Decline(curve[..1], 0, 0) == 0.0;
    } else {
      PassIsOk(curve, k - 1);
      PassExtends(curve, k);
    }
  }

  lemma PassExtends(curve: seq<real>, k: nat)
    requires 1 < k <= |curve| && curve[0] > 0.0
    requires forall i :: 0 <= i < |curve| ==> curve[i] >= 0.0
    requires PassOk(curve, k - 1)
    ensures PassOk(curve, k)
  {
    var before, p, v := PassOver(curve, k - 1), PassOver(curve, k), curve[k - 1];
    var top :| 0 <= top < k - 1 && curve[top] == before.peak;
    var i0, j0 :| 0 <= i0 <= j0 < k - 1 && curve[..k - 1][i0] > 0.0 && Decline(curve[..k - 1], i0, j0) == before.worst;
    var newTop := if v > before.peak then k - 1 else top;
    assert curve[newTop] == p.peak;
    assert p.worst == MaxOf(before.worst, Decline(curve[..k], newTop, k - 1));
    assert Decline(curve[..k], i0, j0) == before.worst;
    forall i, j | 0 <= i <= j < k && curve[..k][i] > 0.0
      ensures Decline(curve[..k], i, j) <= p.worst
    {
      if j < k - 1 {
        assert Decline(curve[..k - 1], i, j) <= before.worst;
      } else {
        QuotientOrder(curve[i], p.peak, v);
      }
    }
  }

  /** One pass with a running peak finds the largest peak-to-later-point decline, and it is a fraction. */
  lemma MaxDrawdownIsLargestDecline(curve: seq<real>)
    requires 0 < |curve| && curve[0] > 0.0
    requires forall i :: 0 <= i < |curve| ==> curve[i] >= 0.0
    ensures IsLargestDecline(curve, MaxDrawdown(curve))
    ensures 0.0 <= MaxDrawdown(curve) <= 1.0
  {
    PassIsOk(curve, |curve|);
    assert curve[..|curve|] == curve;
    assert Decline(curve, 0, 0) <= MaxDrawdown(curve);
    var i, j :| 0 <= i <= j < |curve| && curve[i] > 0.0 && Decline(curve, i, j) == MaxDrawdown(curve);
    OneMinusQuotient(curve[i], curve[j]);
    QuotientNonNegative(curve[j], curve[i]);
  }

  // ---------------------------------------------------------------- the summary

  function Winners(trades: seq<Trade>): seq<Trade> {
    if trades == [] then []
    else
      var last := trades[|trades| - 1];
      Winners(trades[..|trades| - 1]) + if last.netPnl > 0.0 then [last] else []
  }

  function Losers(trades: seq<Trade>): seq<Trade> {
    if trades == [] then []
    else
      var last := trades[|trades| - 1];
      Losers(trades[..|trades| - 1]) + if last.netPnl <= 0.0 then [last] else []
  }

  function SumFees(trades: seq<Trade>): real {
    if trades == [] then 0.0 else SumFees(trades[..|trades| - 1]) + trades[|trades| - 1].fees
  }

  function SumBarsHeld(trades: seq<Trade>): int {
    if trades == [] then 0
    else
      var last := trades[|trades| - 1];
      SumBarsHeld(trades[..|trades| - 1]) + (last.exitIndex - last.entryIndex)
  }

  function CountCapped(trades: seq<Trade>): nat {
    if trades == [] then 0
    else CountCapped(trades[..|trades| - 1]) + if trades[|trades| - 1].wasCapped then 1 else 0
  }

  function NetReturn(finalEquity: real, startingEquity: real): real {
    if startingEquity > 0.0 then (finalEquity - startingEquity) / startingEquity else 0.0
  }

  function ComputeStats(trades: seq<Trade>, curve: seq<real>, startingEquity: real, buyAndHold: real): BacktestStats {
    var wins, losses := Winners(trades), Losers(trades);
    var grossProfit, grossLoss := SumNet(wins), AbsOf(SumNet(losses));
    var finalEquity := if curve != [] then curve[|curve| - 1] else startingEquity;
    var netReturn := NetReturn(finalEquity, startingEquity);
    var count := |trades|;
    BacktestStats(
      count,
      |wins|,
      |losses|,
      if count != 0 then |wins| as real / count as real else 0.0,
      netReturn,
      if grossLoss > 0.0 then grossProfit / grossLoss else if grossProfit > 0.0 then 999.0 else 0.0,
      if count != 0 then SumNet(trades) / count as real else 0.0,
      MaxDrawdown(curve),
      if count != 0 then SumBarsHeld(trades) as real / count as real else 0.0,
      grossProfit,
      grossLoss,
      SumFees(trades),
      finalEquity,
      buyAndHold,
      netReturn > buyAndHold,
      CountCapped(trades))
  }

  lemma {:induction false} WinnersAndLosers(trades: seq<Trade>)
    ensures |Winners(trades)| + |Losers(trades)| == |trades|
    ensures SumNet(Winners(trades)) + SumNet(Losers(trades)) == SumNet(trades)
    ensures SumNet(Winners(trades)) >= 0.0 >= SumNet(Losers(trades))
  {
    if trades != [] {
      var rest, last := trades[..|trades| - 1], trades[|trades| - 1];
      WinnersAndLosers(rest);
      if last.netPnl > 0.0 {
        SumNetAppend(Winners(rest), last);
        assert Losers(trades) == Losers(rest);
      } else {
        SumNetAppend(Losers(rest), last);
        assert Winners(trades) == Winners(rest);
      }
    }
  }

  /** Every trade is a win or a loss, and profit less loss is the net of all trades. */
  lemma StatsConserve(trades: seq<Trade>, curve: seq<real>, startingEquity: real, buyAndHold: real)
    ensures var s := ComputeStats(trades, curve, startingEquity, buyAndHold);
      && s.wins + s.losses == s.tradeCount == |trades|
      && s.grossProfit >= 0.0 && s.grossLoss >= 0.0
      && s.grossProfit - s.grossLoss == SumNet(trades)
  {
    WinnersAndLosers(trades);
  }
}
