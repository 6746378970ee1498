/** Cross-engine comparison: what disagreement between the two engines is reported as. */
module Compare {
  import opened Common
  import opened Market
  import opened Trades
  import opened Backtest
  import opened BacktestProperties
  import opened Verifier
  import opened Equivalence
  import opened Contested
  import Ev = Evaluator
  import Stats

  datatype Mismatch = TradeCountDiffers | NetReturnDiffers

  datatype Outcome = Outcome(
    passed: bool,
    tradeCountDelta: real,
    netReturnDelta: real,
    engineDefectSuspected: bool,
    reasons: seq<Mismatch>)

  /** Relative difference, zero when both are zero. */
  function RelativeDelta(a: real, b: real): real {
    var base := MaxOf(AbsOf(a), AbsOf(b));
    if base == 0.0 then 0.0 else AbsOf(a - b) / base
  }

  /** A relative difference is never negative, does not depend on the order, and is zero only of equals. */
  lemma RelativeDeltaMeaning(a: real, b: real)
    ensures 0.0 <= RelativeDelta(a, b) == RelativeDelta(b, a)
    ensures RelativeDelta(a, b) == 0.0 <==> a == b
  {
    var base, gap := MaxOf(AbsOf(a), AbsOf(b)), AbsOf(a - b);
    if base != 0.0 {
      assert gap / base * base == gap;
      Stats.QuotientNonNegative(gap, base);
    }
  }

  const TRADE_COUNT_TOLERANCE := 0.02
  const NET_RETURN_TOLERANCE := 0.05

  method CompareRuns(primary: Stats.BacktestStats, verifier: VerifierResult,
                     countTolerance: real := TRADE_COUNT_TOLERANCE, returnTolerance: real := NET_RETURN_TOLERANCE)
    returns (o: Outcome)
    ensures o.tradeCountDelta == RelativeDelta(primary.tradeCount as real, verifier.tradeCount as real)
    ensures o.netReturnDelta == RelativeDelta(primary.netReturn, verifier.netReturn)
    ensures o.reasons == (if o.tradeCountDelta > countTolerance then [TradeCountDiffers] else [])
                       + (if o.netReturnDelta > returnTolerance then [NetReturnDiffers] else [])
    ensures o.passed <==> o.reasons == []
    ensures o.engineDefectSuspected <==> !o.passed && (primary.tradeCount != 0 || verifier.tradeCount != 0)
  {
    var reasons: seq<Mismatch> := [];
    var tradeDelta := RelativeDelta(primary.tradeCount as real, verifier.tradeCount as real);
    var returnDelta := RelativeDelta(primary.netReturn, verifier.netReturn);
    if tradeDelta > countTolerance {
      reasons := reasons + [TradeCountDiffers];
    }
    if returnDelta > returnTolerance {
      reasons := reasons + [NetReturnDiffers];
    }
    var trivial := primary.tradeCount == 0 && verifier.tradeCount == 0;
    o := Outcome(reasons == [], tradeDelta, returnDelta, reasons != [] && !trivial, reasons);
  }

  // ---------------------------------------------------------------- what a tolerance forgives

  lemma WithinToleranceIff(x: real, y: real, tolerance: real)
    requires tolerance >= 0.0
    ensures RelativeDelta(x, y) <= tolerance <==> AbsOf(x - y) <= Times(tolerance, MaxOf(AbsOf(x), AbsOf(y)))
  {
    var base, gap := MaxOf(AbsOf(x), AbsOf(y)), AbsOf(x - y);
    if base != 0.0 {
      QuotientAtMostIff(gap, base, tolerance);
    }
  }

  lemma QuotientAtMostIff(gap: real, base: real, tolerance: real)
    requires base > 0.0
    ensures gap / base <= tolerance <==> gap <= Times(tolerance, base)
  {
    var q := gap / base;
    assert q * base == gap;
    if q <= tolerance { MulOrder(q, tolerance, base); } else { MulStrict(tolerance, q, base); }
  }

  lemma ScaledDistance(x: real, y: real, start: real)
    requires start > 0.0
    ensures Times(AbsOf(x - y), start) == AbsOf(Times(x, start) - Times(y, start))
    ensures Times(MaxOf(AbsOf(x), AbsOf(y)), start) == MaxOf(AbsOf(Times(x, start)), AbsOf(Times(y, start)))
  {
    ScaledAbs(x, start);
    ScaledAbs(y, start);
    ScaledAbs(x - y, start);
    assert Times(x - y, start) == Times(x, start) - Times(y, start);
    hide Times, AbsOf;
    if AbsOf(x) >= AbsOf(y) {
      TimesMonotone(AbsOf(y), AbsOf(x), start);
    } else {
      TimesMonotone(AbsOf(x), AbsOf(y), start);
    }
  }

  lemma ScaledAbs(x: real, start: real)
    requires start > 0.0
    ensures Times(AbsOf(x), start) == AbsOf(Times(x, start))
  {
    if x >= 0.0 {
      MulOrder(0.0, x, start);
    } else {
      MulStrict(x, 0.0, start);
    }
  }

  /** How far equity moved in whichever engine moved it more. */
  function LargerMove(a: real, b: real, start: real): real {
    MaxOf(AbsOf(a - start), AbsOf(b - start))
  }

  /** Two final equities pass the return check exactly when their gap is within the tolerance of the larger
      move, so the less a run earned the smaller the gap it is allowed. */
  lemma ReturnsPassIff(a: real, b: real, start: real, tolerance: real)
    requires start > 0.0 && tolerance >= 0.0
    ensures RelativeDelta(Stats.NetReturn(a, start), Stats.NetReturn(b, start)) <= tolerance
            <==> AbsOf(b - a) <= Times(tolerance, LargerMove(a, b, start))
  {
    hide Stats.NetReturn, RelativeDelta, LargerMove, Times;
    NetReturnScaled(a, start);
    NetReturnScaled(b, start);
    ScaledReturnsPassIff(Stats.NetReturn(a, start), Stats.NetReturn(b, start), a, b, start, tolerance);
  }

  lemma NetReturnScaled(a: real, start: real)
    requires start > 0.0
    ensures Times(Stats.NetReturn(a, start), start) == a - start
  {
  }

  lemma ScaledReturnsPassIff(x: real, y: real, a: real, b: real, start: real, tolerance: real)
    requires start > 0.0 && tolerance >= 0.0 && Times(x, start) == a - start && Times(y, start) == b - start
    ensures RelativeDelta(x, y) <= tolerance <==> AbsOf(b - a) <= Times(tolerance, LargerMove(a, b, start))
  {
    ScaledDistance(x, y, start);
    hide RelativeDelta, Times, MaxOf, AbsOf;
    WithinToleranceIff(x, y, tolerance);
    SameDistance(a, b, start);
    ScaledBound(AbsOf(x - y), MaxOf(AbsOf(x), AbsOf(y)), tolerance, start);
  }

  lemma SameDistance(a: real, b: real, start: real)
    ensures AbsOf((a - start) - (b - start)) == AbsOf(b - a)
  {
  }

  lemma ScaledBound(gap: real, base: real, tolerance: real, start: real)
    requires start > 0.0
    ensures gap <= Times(tolerance, base) <==> Times(gap, start) <= Times(tolerance, Times(base, start))
  {
    var bound := tolerance * base;
    assert tolerance * (base * start) == bound * start;
    if gap <= bound { MulOrder(gap, bound, start); } else { MulStrict(bound, gap, start); }
  }

  /** Running both engines over one spec no entry of which is contested: the trade counts always agree, and the
      comparison passes exactly when the gap left by a forced close is within the return tolerance of the larger
      move. At zero tolerance that is when nothing slips, no trade was forced out, or the fee offsets it. */
  method VerifyStrategy(spec: Ev.StrategySpec, bars: seq<Kline>, setup: Setup,
                        countTolerance: real := TRADE_COUNT_TOLERANCE, returnTolerance: real := NET_RETURN_TOLERANCE)
    returns (primary: BacktestResult, o: Outcome)
    requires Ev.ValidSpec(spec) && setup.maxBars == spec.maxBarsInTrade
    requires var signals := Ev.Signals(spec, bars);
      Uncontested(setup, FirstSignals(signals), LastSignals(signals), bars, 0, setup.startingEquity)
    requires setup.startingEquity > 0.0 && countTolerance >= 0.0 && returnTolerance >= 0.0
    ensures primary == ResultOf(setup, bars, FinalState(setup, FirstSignals(Ev.Signals(spec, bars)), bars))
    ensures o.tradeCountDelta == 0.0
    ensures var equity, gap := primary.stats.finalEquity, FinalGap(setup.costs, bars, primary.trades);
      o.passed <==> AbsOf(gap) <= Times(returnTolerance, LargerMove(equity, equity + gap, setup.startingEquity))
    ensures o.engineDefectSuspected <==> !o.passed
    ensures returnTolerance == 0.0 ==>
              (o.passed <==> || setup.costs.slippageRate == 0.0 || !ForcedOut(primary.trades)
                             || FeeOffsets(setup.costs, primary.trades))
  {
    hide FinalState, Stats.NetReturn, RelativeDelta, FinalGap, LargerMove, Times, Rivals, SameEntries, FeeOffsets,
         Ev.Signals;
    ghost var sig := FirstSignals(Ev.Signals(spec, bars));
    KeptAreRivals(spec, bars);
    ReplaysAgreeIff(setup, sig, LastSignals(Ev.Signals(spec, bars)), bars, 0, setup.startingEquity);
    EnginesAgreeOnMap(setup, sig, bars);
    RunConserves(setup, sig, bars);
    primary := RunBacktest(spec, bars, setup);
    var verifier := RunVerifier(spec, bars, setup);
    ghost var gap := FinalGap(setup.costs, bars, primary.trades);
    ReturnsPassIff(primary.stats.finalEquity, verifier.finalEquity, setup.startingEquity, returnTolerance);
    RelativeDeltaMeaning(primary.stats.tradeCount as real, verifier.tradeCount as real);
    o := CompareRuns(primary.stats, verifier, countTolerance, returnTolerance);
    FinalEquitiesEqualIff(setup, sig, bars);
    ZeroTolerance(gap, LargerMove(primary.stats.finalEquity, verifier.finalEquity, setup.startingEquity));
    if primary.trades == [] {
      UntradedHasNoGap(setup.costs, bars, primary.trades);
      MoveIsNonNegative(primary.stats.finalEquity, verifier.finalEquity, setup.startingEquity);
      NoMoveNeeded(returnTolerance, LargerMove(primary.stats.finalEquity, verifier.finalEquity, setup.startingEquity));
    }
  }

  lemma ZeroTolerance(gap: real, move: real)
    ensures AbsOf(gap) <= Times(0.0, move) <==> gap == 0.0
  {
  }

  lemma MoveIsNonNegative(a: real, b: real, start: real)
    ensures LargerMove(a, b, start) >= 0.0
  {
  }

  lemma NoMoveNeeded(tolerance: real, move: real)
    requires tolerance >= 0.0 && move >= 0.0
    ensures AbsOf(0.0) <= Times(tolerance, move)
  {
    MulOrder(0.0, tolerance, move);
  }

  lemma UntradedHasNoGap(costs: CostModel, bars: seq<Kline>, trades: seq<Trade>)
    requires trades == []
    ensures FinalGap(costs, bars, trades) == 0.0
  {
  }
}
