/** Sizing in plain products: the budget written out, which guard refuses first, and what each later refusal means. */
module SizingFigures {
  import opened Common
  import opened Market
  import opened Sizing

  // ---------------------------------------------------------------- the budget

  /** An accepted trade risks at most the equity's risk fraction times the multiplier, each factor written out. */
  lemma AcceptedInFigures(r: Request, p: Policy, f: Filters)
    requires SizePosition(r, p, f).Accepted?
    ensures var s := SizePosition(r, p, f);
      && s.notional == s.quantity * r.entryPrice
      && s.riskAmount == s.quantity * AbsOf(r.entryPrice - r.stopPrice)
      && s.riskAmount <= r.equity * p.riskPct * r.riskMultiplier
      && s.notional <= r.equity * p.maxPositionPct && s.notional <= r.freeCash
      && r.deployed + s.notional <= r.equity * p.maxDeployedPct
  {
    hide SizePosition;
    AcceptedRespectsCaps(r, p, f);
  }

  /** A promotion multiplier scales the risk fraction and nothing else. */
  lemma MultiplierScalesRisk(r: Request, p: Policy, f: Filters)
    ensures SizePosition(r, p, f)
         == SizePosition(r.(riskMultiplier := 1.0), p.(riskPct := r.riskMultiplier * p.riskPct), f)
  {
    hide FloorQuantity, AbsOf, MinOf, Times;
    var q, t := r.(riskMultiplier := 1.0), p.(riskPct := r.riskMultiplier * p.riskPct);
    MultiplierShifts(r.equity, p.riskPct, r.riskMultiplier);
    assert RiskBudget(r, p) == RiskBudget(q, t);
    assert Guard(r, p) == Guard(q, t);
    if Guard(r, p).None? {
      GuardedDistancePositive(r, p);
      assert StopDistance(r) == StopDistance(q);
      assert NotionalByRisk(r, p) == NotionalByRisk(q, t);
      assert CappedNotional(r, p) == CappedNotional(q, t);
    }
  }

  lemma MultiplierShifts(equity: real, riskPct: real, m: real)
    ensures Times(Times(equity, riskPct), m) == Times(Times(equity, m * riskPct), 1.0)
  {
  }

  // ---------------------------------------------------------------- refusals

  /** Levels that make sense: all positive, the stop below a long's entry and above a short's. */
  predicate ProperLevels(r: Request) {
    && r.entryPrice > 0.0 && r.stopPrice > 0.0 && r.equity > 0.0
    && (r.side == Long ==> r.stopPrice < r.entryPrice)
    && (r.side == Short ==> r.stopPrice > r.entryPrice)
  }

  /** Which guard refuses, in their order, and that none does. */
  lemma GuardMeaning(r: Request, p: Policy)
    ensures var room := r.equity * p.maxDeployedPct - r.deployed;
      && (Guard(r, p) == Some(InvalidLevels) <==> !ProperLevels(r))
      && (Guard(r, p) == Some(MaxConcurrent) <==> ProperLevels(r) && r.openPositions >= p.maxConcurrent)
      && (Guard(r, p) == Some(NoFreeCash) <==>
            ProperLevels(r) && r.openPositions < p.maxConcurrent && r.freeCash <= 0.0)
      && (Guard(r, p) == Some(MaxDeployed) <==>
            ProperLevels(r) && r.openPositions < p.maxConcurrent && r.freeCash > 0.0 && room <= 0.0)
      && (Guard(r, p).None? <==>
            ProperLevels(r) && r.openPositions < p.maxConcurrent && r.freeCash > 0.0 && room > 0.0)
    ensures forall f: Filters :: Guard(r, p).Some? ==> SizePosition(r, p, f) == Rejected(Guard(r, p).value)
  {
  }

  /** Past the guards: nothing affordable; nothing affordable reaching the least quantity; or nothing affordable
      reaching it and the least notional too. */
  lemma RefusalMeaning(r: Request, p: Policy, f: Filters)
    requires Guard(r, p).None? && f.stepSize > 0.0
    ensures var s := SizePosition(r, p, f);
      var some := exists lots: int :: lots >= 1 && Affordable(r, p, f, lots);
      var enough := exists lots: int ::
        lots >= 1 && Affordable(r, p, f, lots) && GridPoint(lots, f.stepSize) >= f.minQty;
      && (s == Rejected(ZeroQuantity) <==> !some)
      && (s == Rejected(BelowMinQty) <==> some && !enough)
      && (s == Rejected(BelowMinNotional) <==> enough && !exists lots: int :: Tradable(r, p, f, lots))
  {
    var best := LotsThatFit(r, p, f);
    SizingIsExact(r, p, f);
    GridMonotone(1, if best >= 1 then best else 1, f.stepSize);
    GridMonotone(if best >= 1 then 0 else best, 0, f.stepSize);
    hide GridPoint, Affordable, Times, AbsOf, CappedNotional;
    forall lots: int | lots >= 1 && Affordable(r, p, f, lots)
      ensures lots <= best && Affordable(r, p, f, best) && GridPoint(lots, f.stepSize) <= GridPoint(best, f.stepSize)
    {
      AffordableLotsFit(r, p, f, lots);
      AffordableLotsFit(r, p, f, best);
      GridMonotone(lots, best, f.stepSize);
    }
    if best >= 1 {
      AffordableLotsFit(r, p, f, best);
    }
  }

  /** An amount of money buys less than the risk budget does: lost at the stop, it costs less than the budget. */
  predicate AllowsLess(r: Request, p: Policy, amount: real) {
    amount * AbsOf(r.entryPrice - r.stopPrice) < r.equity * p.riskPct * r.riskMultiplier * r.entryPrice
  }

  /** A trade is marked as capped exactly when the position cap, the free cash or the deployment cap's room allows less
      than the risk budget. */
  lemma CappedIff(r: Request, p: Policy, f: Filters)
    requires SizePosition(r, p, f).Accepted?
    ensures SizePosition(r, p, f).capped
            <==> || AllowsLess(r, p, r.equity * p.maxPositionPct) || AllowsLess(r, p, r.freeCash)
                 || AllowsLess(r, p, r.equity * p.maxDeployedPct - r.deployed)
  {
    CappedByOne(r, p, f);
    hide SizePosition, AllowsLess, NotionalByRisk, Guard;
    BelowRiskIff(r, p, r.equity * p.maxPositionPct);
    BelowRiskIff(r, p, r.freeCash);
    BelowRiskIff(r, p, r.equity * p.maxDeployedPct - r.deployed);
  }

  lemma CappedByOne(r: Request, p: Policy, f: Filters)
    requires SizePosition(r, p, f).Accepted?
    ensures Guard(r, p).None?
    ensures var most := NotionalByRisk(r, p);
      SizePosition(r, p, f).capped
      <==> r.equity * p.maxPositionPct < most || r.freeCash < most || r.equity * p.maxDeployedPct - r.deployed < most
  {
    hide AbsOf, StopDistance, RiskBudget, NotionalByRisk, FloorQuantity;
    TimesIsProduct(r.equity, p.maxPositionPct);
    TimesIsProduct(r.equity, p.maxDeployedPct);
    hide Times;
  }

  lemma TimesIsProduct(a: real, b: real)
    ensures Times(a, b) == a * b
  {
  }

  lemma BelowRiskIff(r: Request, p: Policy, amount: real)
    requires Guard(r, p).None?
    ensures amount < NotionalByRisk(r, p) <==> AllowsLess(r, p, amount)
  {
    GuardedDistancePositive(r, p);
    var d, n, budget := StopDistance(r), NotionalByRisk(r, p), RiskBudget(r, p);
    assert budget == r.equity * p.riskPct * r.riskMultiplier;
    assert n * d == budget;
    QuotientOrder(amount, n, d, r.entryPrice, AbsOf(r.entryPrice - r.stopPrice), budget);
  }

  lemma QuotientOrder(x: real, y: real, d: real, e: real, gap: real, budget: real)
    requires d > 0.0 && e > 0.0 && d * e == gap && y * d == budget
    ensures x < y <==> x * gap < budget * e
  {
    TimesPositive(d, e);
    assert y * gap == budget * e;
    if x < y {
      MulStrict(x, y, gap);
    } else {
      MulOrder(y, x, gap);
    }
  }

  // ---------------------------------------------------------------- the stop band

  /** The band's ends: the stop distance at which the position cap buys the risk fraction, and that at which the least
      notional risks it; without a least notional, the whole price. */
  lemma BandInFigures(equity: real, p: Policy, f: Filters)
    requires p.maxPositionPct != 0.0
    ensures var (lower, upper) := FeasibleStopBand(equity, p, f);
      && lower * p.maxPositionPct == p.riskPct
      && (f.minNotional > 0.0 ==> upper * f.minNotional == equity * p.riskPct)
      && (f.minNotional <= 0.0 ==> upper == 1.0)
  {
    var lower := p.riskPct / p.maxPositionPct;
    assert lower * p.maxPositionPct == p.riskPct;
    if f.minNotional > 0.0 {
      var full := Times(equity, p.riskPct);
      var upper := full / f.minNotional;
      assert upper * f.minNotional == full;
    }
  }
}
