/** The summary of a run in products and counts over its trades. */
module StatsFigures {
  import opened Common
  import opened Trades
  import opened Stats

  // ---------------------------------------------------------------- sums and counts

  /** One figure of every trade, in order. */
  predicate Lists(values: seq<real>, trades: seq<Trade>, figure: Trade -> real) {
    |values| == |trades| && forall i :: 0 <= i < |trades| ==> values[i] == figure(trades[i])
  }

  lemma {:induction false} NetsAdd(trades: seq<Trade>, nets: seq<real>)
    requires Lists(nets, trades, (t: Trade) => t.netPnl)
    ensures SumNet(trades) == Sum(nets)
  {
    if trades != [] {
      NetsAdd(trades[..|trades| - 1], nets[..|trades| - 1]);
    }
  }

  lemma {:induction false} ProfitsAdd(trades: seq<Trade>, profits: seq<real>, losses: seq<real>)
    requires Lists(profits, trades, (t: Trade) => if t.netPnl > 0.0 then t.netPnl else 0.0)
    requires Lists(losses, trades, (t: Trade) => if t.netPnl < 0.0 then -t.netPnl else 0.0)
    ensures SumNet(Winners(trades)) == Sum(profits) && SumNet(Losers(trades)) == -Sum(losses)
  {
    if trades != [] {
      var rest, last := trades[..|trades| - 1], trades[|trades| - 1];
      ProfitsAdd(rest, profits[..|rest|], losses[..|rest|]);
      if last.netPnl > 0.0 {
        SumNetAppend(Winners(rest), last);
        assert Losers(trades) == Losers(rest);
      } else {
        SumNetAppend(Losers(rest), last);
        assert Winners(trades) == Winners(rest);
      }
    }
  }

  lemma {:induction false} FeesAdd(trades: seq<Trade>, fees: seq<real>)
    requires Lists(fees, trades, (t: Trade) => t.fees)
    ensures SumFees(trades) == Sum(fees)
  {
    if trades != [] {
      FeesAdd(trades[..|trades| - 1], fees[..|trades| - 1]);
    }
  }

  lemma {:induction false} HoldsAdd(trades: seq<Trade>, held: seq<real>)
    requires Lists(held, trades, (t: Trade) => (t.exitIndex - t.entryIndex) as real)
    ensures SumBarsHeld(trades) as real == Sum(held)
  {
    if trades != [] {
      HoldsAdd(trades[..|trades| - 1], held[..|trades| - 1]);
    }
  }

  /** The places of the trades that won, and of those whose size a cap bound. */
  function Wins(trades: seq<Trade>): set<int> {
    set i | 0 <= i < |trades| && trades[i].netPnl > 0.0
  }

  function Capped(trades: seq<Trade>): set<int> {
    set i | 0 <= i < |trades| && trades[i].wasCapped
  }

  lemma {:induction false} CountsOfPlaces(trades: seq<Trade>)
    ensures |Winners(trades)| == |Wins(trades)| && CountCapped(trades) == |Capped(trades)|
  {
    if trades != [] {
      var n := |trades| - 1;
      var rest, last := trades[..n], trades[n];
      CountsOfPlaces(rest);
      assert Wins(trades) == if last.netPnl > 0.0 then Wins(rest) + {n} else Wins(rest);
      assert Capped(trades) == if last.wasCapped then Capped(rest) + {n} else Capped(rest);
      assert n !in Wins(rest) && n !in Capped(rest);
    }
  }

  // ---------------------------------------------------------------- the figures

  /** `q` times the base is the total. */
  predicate IsShare(q: real, base: real, total: real) {
    q * base == total
  }

  lemma ShareOf(total: real, base: real)
    requires base > 0.0
    ensures IsShare(total / base, base, total)
  {
    var q := total / base;
    assert q * base == total;
  }

  /** Counts and averages: wins are the trades with a positive net, and each average times the number of trades is what
      it averages; without trades all are zero. */
  lemma AveragesInFigures(trades: seq<Trade>, curve: seq<real>, start: real, buyAndHold: real, nets: seq<real>,
                          held: seq<real>)
    requires Lists(nets, trades, (t: Trade) => t.netPnl)
    requires Lists(held, trades, (t: Trade) => (t.exitIndex - t.entryIndex) as real)
    ensures var s := ComputeStats(trades, curve, start, buyAndHold);
      && s.tradeCount == |trades| && s.wins == |Wins(trades)| && s.cappedTradeCount == |Capped(trades)|
      && (trades == [] ==> s.winRate == s.expectancy == s.avgBarsHeld == 0.0)
      && (trades != [] ==>
            && IsShare(s.winRate, s.tradeCount as real, s.wins as real)
            && IsShare(s.expectancy, s.tradeCount as real, Sum(nets))
            && IsShare(s.avgBarsHeld, s.tradeCount as real, Sum(held)))
  {
    CountsOfPlaces(trades);
    NetsAdd(trades, nets);
    HoldsAdd(trades, held);
    if trades != [] {
      ShareOf(|Winners(trades)| as real, |trades| as real);
      ShareOf(SumNet(trades), |trades| as real);
      ShareOf(SumBarsHeld(trades) as real, |trades| as real);
    }
    hide IsShare, Lists, Winners, Losers, SumNet, SumBarsHeld, CountCapped, SumFees, NetReturn, MaxDrawdown;
  }

  /** Money: gross profit and loss add the positive and the negative nets, their ratio is the profit factor, and the
      return is the change of the last point of the curve over the start. */
  lemma MoneyInFigures(trades: seq<Trade>, curve: seq<real>, start: real, buyAndHold: real, profits: seq<real>,
                       losses: seq<real>, fees: seq<real>)
    requires Lists(profits, trades, (t: Trade) => if t.netPnl > 0.0 then t.netPnl else 0.0)
    requires Lists(losses, trades, (t: Trade) => if t.netPnl < 0.0 then -t.netPnl else 0.0)
    requires Lists(fees, trades, (t: Trade) => t.fees)
    ensures var s := ComputeStats(trades, curve, start, buyAndHold);
      && s.grossProfit == Sum(profits) && s.grossLoss == Sum(losses) && s.totalFees == Sum(fees)
      && (s.grossLoss > 0.0 ==> IsShare(s.profitFactor, s.grossLoss, s.grossProfit))
      && (s.grossLoss == 0.0 ==> s.profitFactor == if s.grossProfit > 0.0 then 999.0 else 0.0)
      && (curve != [] ==> s.finalEquity == curve[|curve| - 1]) && (curve == [] ==> s.finalEquity == start)
      && (start > 0.0 ==> IsShare(s.netReturn, start, s.finalEquity - start)) && (start <= 0.0 ==> s.netReturn == 0.0)
      && s.buyAndHoldReturn == buyAndHold && (s.beatsBuyAndHold <==> s.netReturn > buyAndHold)
  {
    ProfitsAdd(trades, profits, losses);
    FeesAdd(trades, fees);
    WinnersAndLosers(trades);
    var profit, loss := SumNet(Winners(trades)), AbsOf(SumNet(Losers(trades)));
    var final := if curve != [] then curve[|curve| - 1] else start;
    if loss > 0.0 {
      ShareOf(profit, loss);
    }
    if start > 0.0 {
      ShareOf(final - start, start);
    }
    hide IsShare, Lists, Winners, Losers, SumNet, SumBarsHeld, CountCapped, SumFees, MaxDrawdown;
  }
}
