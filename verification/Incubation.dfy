/** Forward paper trading: the third exit resolver, against the backtest's per-bar dispatch and the
    verifier's scan. */
module Incubation {
  import opened Common
  import opened Market
  import opened Trades
  import opened Backtest
  import opened Verifier

  datatype PaperOutcome = Win | Loss | Open

  datatype Resolution = Resolution(exitAt: Option<int>, exitPrice: Option<real>, outcome: PaperOutcome)

  /** What a scan result is recorded as: raw prices, a time exit judged against the entry bar's open. */
  function Recorded(bars: seq<Kline>, entry: nat, s: Signal, r: Scan): Resolution
    requires entry < |bars|
    requires r.Left? ==> r.index < |bars|
  {
    if r.StillOpen? then Resolution(None, None, Open)
    else
      Resolution(Some(bars[r.index].closeTime), Some(r.exit.price),
                 if r.exit.reason == StopHit then Loss
                 else if r.exit.reason == TargetHit then Win
                 else if Gain(s.side, bars[entry].open, bars[r.index].close) > 0.0 then Win
                 else Loss)
  }

  method Resolve(bars: seq<Kline>, entry: nat, s: Signal, maxBars: int) returns (r: Resolution)
    requires entry < |bars|
    ensures r == Recorded(bars, entry, s, ScanFrom(bars, entry, s, maxBars, entry + 1))
  {
    for i := entry + 1 to |bars|
      invariant ScanFrom(bars, entry, s, maxBars, entry + 1) == ScanFrom(bars, entry, s, maxBars, i)
    {
      var bar := bars[i];
      var stopped, targeted;
      if s.side == Long {
        stopped, targeted := bar.low <= s.stopPrice, bar.high >= s.targetPrice;
      } else {
        stopped, targeted := bar.high >= s.stopPrice, bar.low <= s.targetPrice;
      }
      if stopped {
        return Resolution(Some(bar.closeTime), Some(s.stopPrice), Loss);
      }
      if targeted {
        return Resolution(Some(bar.closeTime), Some(s.targetPrice), Win);
      }
      if i - entry >= maxBars {
        var direction := if s.side == Long then 1.0 else -1.0;
        var won := (bar.close - bars[entry].open) * direction > 0.0;
        return Resolution(Some(bar.closeTime), Some(bar.close), if won then Win else Loss);
      }
    }
    return Resolution(None, None, Open);
  }

  /** The resolvers pick the same bar and raw price: the scan stops at bar `x` exactly when per-bar dispatch,
      walked from the entry bar on, first closes the position at `x`, and with the same exit; incubation
      records that bar's close time and that price, or an open signal when no bar closes it. */
  lemma ResolversAgree(setup: Setup, bars: seq<Kline>, p: Position, s: Signal)
    requires p.entryIndex < |bars|
    requires p.side == s.side && p.stopPrice == s.stopPrice && p.targetPrice == s.targetPrice
    ensures var r := ScanFrom(bars, p.entryIndex, s, setup.maxBars, p.entryIndex + 1);
      var paper := Recorded(bars, p.entryIndex, s, r);
      && (r.Left? ==>
            && ResolveExit(p, bars[r.index], r.index, setup.maxBars) == Some(r.exit)
            && (forall j :: p.entryIndex <= j < r.index ==> ResolveExit(p, bars[j], j, setup.maxBars) == None)
            && paper.exitAt == Some(bars[r.index].closeTime) && paper.exitPrice == Some(r.exit.price))
      && (r.StillOpen? ==>
            && (forall j :: p.entryIndex <= j < |bars| ==> ResolveExit(p, bars[j], j, setup.maxBars) == None)
            && paper.outcome == Open)
  {
    ScanIsFirst(bars, p.entryIndex, s, setup.maxBars, p.entryIndex + 1);
    forall j | p.entryIndex <= j < |bars|
      ensures ResolveExit(p, bars[j], j, setup.maxBars)
           == if j == p.entryIndex then None else LeavesAt(bars, p.entryIndex, s, setup.maxBars, j)
    {
    }
  }
}
