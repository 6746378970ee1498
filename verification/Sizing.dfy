/** Position sizing: four caps, a step grid, and rejection instead of rounding up. */
module Sizing {
  import opened Common
  import opened Market

  datatype RejectReason =
    | InvalidLevels
    | MaxConcurrent
    | NoFreeCash
    | MaxDeployed
    | ZeroQuantity
    | BelowMinQty
    | BelowMinNotional

  datatype Filters = Filters(stepSize: real, minQty: real, minNotional: real, tickSize: real)

  datatype Policy = Policy(riskPct: real, maxPositionPct: real, maxDeployedPct: real, maxConcurrent: int)

  datatype SizingResult =
    | Accepted(quantity: real, notional: real, riskAmount: real, capped: bool)
    | Rejected(reason: RejectReason)

  /** Everything one sizing call is asked about. */
  datatype Request = Request(
    equity: real,
    freeCash: real,
    entryPrice: real,
    stopPrice: real,
    side: Side,
    openPositions: int,
    deployed: real,
    riskMultiplier: real)

  // ---------------------------------------------------------------- the price and quantity grids

  /** Integral part, toward zero (ROUND_DOWN). */
  function Truncate(x: real): int {
    if x >= 0.0 then x.Floor else -((-x).Floor)
  }

  /** Integral part, away from zero (ROUND_UP). */
  function RoundAway(x: real): int {
    if x >= 0.0 then -((-x).Floor) else x.Floor
  }

  /** The `n`-th point of the grid with spacing `step`. */
  function GridPoint(n: int, step: real): real {
    n as real * step
  }

  ghost predicate OnGrid(x: real, step: real) {
    exists n: int :: x == GridPoint(n, step)
  }

  function FloorQuantity(f: Filters, quantity: real): real {
    if f.stepSize <= 0.0 then quantity else GridPoint(Truncate(quantity / f.stepSize), f.stepSize)
  }

  function RoundPriceToward(f: Filters, price: real, reference: real): real {
    if f.tickSize <= 0.0 then price
    else if price > reference then GridPoint(Truncate(price / f.tickSize), f.tickSize)
    else GridPoint(RoundAway(price / f.tickSize), f.tickSize)
  }

  /** Flooring `x / step` brackets `x` between two neighbouring grid points. */
  lemma FloorBrackets(x: real, step: real, n: int)
    requires step > 0.0 && n == (x / step).Floor
    ensures GridPoint(n, step) <= x < GridPoint(n, step) + step
  {
    GridIsTimes(n, step);
    QuotientTimes(x, step);
    NextMultiple(n as real, step);
    hide Times, GridPoint;
    BetweenMultiples(n as real, x / step, n as real + 1.0, step);
  }

  lemma GridIsTimes(n: int, step: real)
    ensures GridPoint(n, step) == Times(n as real, step)
  {
  }

  lemma QuotientTimes(x: real, step: real)
    requires step > 0.0
    ensures Times(x / step, step) == x
  {
  }

  lemma NextMultiple(m: real, step: real)
    ensures Times(m + 1.0, step) == Times(m, step) + step
  {
  }

  lemma BetweenMultiples(m: real, y: real, next: real, step: real)
    requires step > 0.0 && m <= y < next
    ensures Times(m, step) <= Times(y, step) < Times(next, step)
  {
    MulOrder(m, y, step);
    MulStrict(y, next, step);
  }

  lemma GridMonotone(m: int, n: int, step: real)
    requires step > 0.0 && m <= n
    ensures GridPoint(m, step) <= GridPoint(n, step)
    ensures m < n ==> GridPoint(m, step) + step <= GridPoint(n, step)
  {
    GridIsTimes(m, step);
    GridIsTimes(n, step);
    NextMultiple(m as real, step);
    hide Times, GridPoint;
    TimesMonotone(m as real, n as real, step);
    if m < n {
      TimesMonotone(m as real + 1.0, n as real, step);
    }
  }

  /** Flooring a non-negative quantity keeps the largest grid point not above it. */
  lemma FloorQuantityIsLargest(f: Filters, quantity: real, lots: int)
    requires f.stepSize > 0.0 && quantity >= 0.0
    ensures FloorQuantity(f, quantity) <= quantity < FloorQuantity(f, quantity) + f.stepSize
    ensures GridPoint(lots, f.stepSize) <= quantity ==> lots <= (quantity / f.stepSize).Floor
  {
    var n := (quantity / f.stepSize).Floor;
    FloorBrackets(quantity, f.stepSize, n);
    if n < lots {
      GridMonotone(n, lots, f.stepSize);
    }
  }

  /** A level snapped toward entry lands on the tick grid, less than one tick from the asked level,
      on the side of the reference. */
  lemma RoundPriceTowardMeaning(f: Filters, price: real, reference: real)
    requires f.tickSize > 0.0 && price > 0.0
    ensures OnGrid(RoundPriceToward(f, price, reference), f.tickSize)
    ensures price > reference ==> price - f.tickSize < RoundPriceToward(f, price, reference) <= price
    ensures price <= reference ==> price <= RoundPriceToward(f, price, reference) < price + f.tickSize
  {
    var x := price / f.tickSize;
    if price > reference {
      FloorBrackets(price, f.tickSize, x.Floor);
    } else {
      assert -x == (-price) / f.tickSize;
      var n := (-x).Floor;
      FloorBrackets(-price, f.tickSize, n);
      assert GridPoint(-n, f.tickSize) == -GridPoint(n, f.tickSize);
    }
  }

  // ---------------------------------------------------------------- sizing one position

  function StopDistance(r: Request): real
    requires r.entryPrice > 0.0
  {
    AbsOf(r.entryPrice - r.stopPrice) / r.entryPrice
  }

  /** The guards that refuse a request before any arithmetic on its size. */
  function Guard(r: Request, p: Policy): Option<RejectReason> {
    if r.entryPrice <= 0.0 || r.stopPrice <= 0.0 || r.equity <= 0.0 then Some(InvalidLevels)
    else if r.side == Long && r.stopPrice >= r.entryPrice then Some(InvalidLevels)
    else if r.side == Short && r.stopPrice <= r.entryPrice then Some(InvalidLevels)
    else if r.openPositions >= p.maxConcurrent then Some(MaxConcurrent)
    else if r.freeCash <= 0.0 then Some(NoFreeCash)
    else if Times(r.equity, p.maxDeployedPct) - r.deployed <= 0.0 then Some(MaxDeployed)
    else None
  }

  lemma GuardedDistancePositive(r: Request, p: Policy)
    requires Guard(r, p).None?
    ensures StopDistance(r) > 0.0
    ensures StopDistance(r) * r.entryPrice == AbsOf(r.entryPrice - r.stopPrice)
  {
  }

  function RiskBudget(r: Request, p: Policy): real {
    Times(Times(r.equity, p.riskPct), r.riskMultiplier)
  }

  function NotionalByRisk(r: Request, p: Policy): real
    requires Guard(r, p).None?
  {
    GuardedDistancePositive(r, p);
    RiskBudget(r, p) / StopDistance(r)
  }

  /** The unrounded notional: the tightest of the four caps. */
  function CappedNotional(r: Request, p: Policy): real
    requires Guard(r, p).None?
  {
    MinOf(MinOf(NotionalByRisk(r, p), Times(r.equity, p.maxPositionPct)),
          MinOf(r.freeCash, Times(r.equity, p.maxDeployedPct) - r.deployed))
  }

  function SizePosition(r: Request, p: Policy, f: Filters): SizingResult {
    var guard := Guard(r, p);
    if guard.Some? then Rejected(guard.value)
    else
      var notional := CappedNotional(r, p);
      var quantity := FloorQuantity(f, notional / r.entryPrice);
      if quantity <= 0.0 then Rejected(ZeroQuantity)
      else if quantity < f.minQty then Rejected(BelowMinQty)
      else if Times(quantity, r.entryPrice) < f.minNotional then Rejected(BelowMinNotional)
      else Accepted(quantity, Times(quantity, r.entryPrice), Times(Times(quantity, r.entryPrice), StopDistance(r)),
                    notional < NotionalByRisk(r, p))
  }

  // ---------------------------------------------------------------- what acceptance means

  /** A lot count the policy and the exchange both allow, said in terms of money: what is lost at the
      stop, what the position costs, and what the account then has deployed. */
  predicate Affordable(r: Request, p: Policy, f: Filters, lots: int)
    requires r.entryPrice > 0.0
  {
    var quantity := GridPoint(lots, f.stepSize);
    var cost := Times(quantity, r.entryPrice);
    && Times(quantity, AbsOf(r.entryPrice - r.stopPrice)) <= Times(Times(r.equity, p.riskPct), r.riskMultiplier)
    && cost <= Times(r.equity, p.maxPositionPct)
    && cost <= r.freeCash
    && r.deployed + cost <= Times(r.equity, p.maxDeployedPct)
  }

  predicate Tradable(r: Request, p: Policy, f: Filters, lots: int)
    requires r.entryPrice > 0.0
  {
    && lots >= 1
    && GridPoint(lots, f.stepSize) >= f.minQty
    && Times(GridPoint(lots, f.stepSize), r.entryPrice) >= f.minNotional
    && Affordable(r, p, f, lots)
  }

  lemma RiskCapInMoney(r: Request, p: Policy, quantity: real)
    requires Guard(r, p).None?
    ensures Times(quantity, r.entryPrice) <= NotionalByRisk(r, p)
            <==> Times(quantity, AbsOf(r.entryPrice - r.stopPrice))
                 <= Times(Times(r.equity, p.riskPct), r.riskMultiplier)
    ensures Times(Times(quantity, r.entryPrice), StopDistance(r)) == Times(quantity, AbsOf(r.entryPrice - r.stopPrice))
  {
    GuardedDistancePositive(r, p);
    var d, e, b := StopDistance(r), r.entryPrice, RiskBudget(r, p);
    var cost, cap := Times(quantity, e), NotionalByRisk(r, p);
    assert cap * d == b;
    assert cost * d == quantity * (d * e);
    if cost <= cap {
      MulOrder(cost, cap, d);
    } else {
      MulStrict(cap, cost, d);
    }
  }

  lemma WithinQuotientIff(q: real, cap: real, e: real)
    requires e > 0.0
    ensures q <= cap / e <==> Times(q, e) <= cap
  {
    var c := cap / e;
    assert c * e == cap;
    if q <= c {
      MulOrder(q, c, e);
    } else {
      MulStrict(c, q, e);
    }
  }

  lemma WithinMinIff(x: real, a: real, b: real, c: real, d: real)
    ensures x <= MinOf(MinOf(a, b), MinOf(c, d)) <==> x <= a && x <= b && x <= c && x <= d
  {
  }

  /** A lot count is affordable exactly when its quantity is within the capped notional. */
  lemma AffordableIffWithinCap(r: Request, p: Policy, f: Filters, lots: int)
    requires Guard(r, p).None?
    ensures Affordable(r, p, f, lots) <==> GridPoint(lots, f.stepSize) <= CappedNotional(r, p) / r.entryPrice
  {
    hide Times, GridPoint, AbsOf;
    var q := GridPoint(lots, f.stepSize);
    RiskCapInMoney(r, p, q);
    WithinQuotientIff(q, CappedNotional(r, p), r.entryPrice);
    WithinMinIff(Times(q, r.entryPrice), NotionalByRisk(r, p), Times(r.equity, p.maxPositionPct),
                 r.freeCash, Times(r.equity, p.maxDeployedPct) - r.deployed);
  }

  /** The number of whole lots that fit into the capped notional. */
  function LotsThatFit(r: Request, p: Policy, f: Filters): int
    requires Guard(r, p).None? && f.stepSize > 0.0
  {
    Truncate(CappedNotional(r, p) / r.entryPrice / f.stepSize)
  }

  lemma AffordableLotsFit(r: Request, p: Policy, f: Filters, lots: int)
    requires Guard(r, p).None? && f.stepSize > 0.0 && lots >= 1
    ensures Affordable(r, p, f, lots) <==> lots <= LotsThatFit(r, p, f)
  {
    var room := CappedNotional(r, p) / r.entryPrice;
    var best := LotsThatFit(r, p, f);
    AffordableIffWithinCap(r, p, f, lots);
    GridMonotone(0, lots, f.stepSize);
    if room >= 0.0 {
      FloorQuantityIsLargest(f, room, lots);
      if lots <= best {
        GridMonotone(lots, best, f.stepSize);
      }
    } else {
      NegativeRoomHasNoLots(f, room);
    }
  }

  /** Whether a trade is accepted, in terms of the lots that fit. */
  lemma AcceptedIffTradable(r: Request, p: Policy, f: Filters)
    requires Guard(r, p).None? && f.stepSize > 0.0
    ensures SizePosition(r, p, f).Accepted? <==> Tradable(r, p, f, LotsThatFit(r, p, f))
    ensures SizePosition(r, p, f).Accepted? ==>
              && SizePosition(r, p, f).quantity == GridPoint(LotsThatFit(r, p, f), f.stepSize)
  {
    var best := LotsThatFit(r, p, f);
    if best >= 1 {
      GridMonotone(1, best, f.stepSize);
      AffordableLotsFit(r, p, f, best);
    } else {
      GridMonotone(best, 0, f.stepSize);
    }
  }

  /** A lot count tradable when a larger affordable one exists makes that larger one tradable too. */
  lemma MoreLotsStayTradable(r: Request, p: Policy, f: Filters, lots: int, more: int)
    requires Guard(r, p).None? && f.stepSize > 0.0
    requires Tradable(r, p, f, lots) && lots <= more && Affordable(r, p, f, more)
    ensures Tradable(r, p, f, more)
  {
    hide GridPoint, AbsOf;
    GridMonotone(lots, more, f.stepSize);
    TimesMonotone(GridPoint(lots, f.stepSize), GridPoint(more, f.stepSize), r.entryPrice);
  }

  /** Past the guards, a trade is accepted exactly when some positive number of lots is tradable, and then
      the largest such number is what is bought; the money lost at the stop stays within the budget. */
  lemma SizingIsExact(r: Request, p: Policy, f: Filters)
    requires Guard(r, p).None? && f.stepSize > 0.0
    ensures var s := SizePosition(r, p, f);
      && (s.Accepted? <==> exists lots: int :: Tradable(r, p, f, lots))
      && (s.Accepted? ==>
            && (exists lots: int ::
                  && Tradable(r, p, f, lots)
                  && s.quantity == GridPoint(lots, f.stepSize)
                  && forall other: int :: Tradable(r, p, f, other) ==> other <= lots)
            && s.notional == Times(s.quantity, r.entryPrice)
            && s.riskAmount == Times(s.quantity, AbsOf(r.entryPrice - r.stopPrice))
               <= Times(Times(r.equity, p.riskPct), r.riskMultiplier))
  {
    hide Times, GridPoint, AbsOf, RiskBudget, NotionalByRisk, CappedNotional, LotsThatFit;
    var best := LotsThatFit(r, p, f);
    AcceptedIffTradable(r, p, f);
    forall lots: int | Tradable(r, p, f, lots)
      ensures lots <= best && Tradable(r, p, f, best)
    {
      AffordableLotsFit(r, p, f, lots);
      AffordableLotsFit(r, p, f, best);
      MoreLotsStayTradable(r, p, f, lots, best);
    }
    RiskCapInMoney(r, p, GridPoint(best, f.stepSize));
  }

  /** Whatever the step size, an accepted trade respects all four caps, the exchange minimum and the
      risk budget. */
  lemma AcceptedRespectsCaps(r: Request, p: Policy, f: Filters)
    requires SizePosition(r, p, f).Accepted?
    ensures Guard(r, p).None?
    ensures var s := SizePosition(r, p, f);
      && 0.0 < s.quantity && f.minQty <= s.quantity
      && s.notional == Times(s.quantity, r.entryPrice) && 0.0 < s.notional && f.minNotional <= s.notional
      && s.notional <= Times(r.equity, p.maxPositionPct)
      && s.notional <= r.freeCash
      && r.deployed + s.notional <= Times(r.equity, p.maxDeployedPct)
      && s.riskAmount == Times(s.quantity, AbsOf(r.entryPrice - r.stopPrice))
         <= Times(Times(r.equity, p.riskPct), r.riskMultiplier)
  {
    hide Times, GridPoint, AbsOf, RiskBudget;
    var cap := CappedNotional(r, p);
    var room, q := cap / r.entryPrice, SizePosition(r, p, f).quantity;
    if f.stepSize > 0.0 {
      if room >= 0.0 {
        FloorQuantityIsLargest(f, room, 0);
      } else {
        NegativeRoomHasNoLots(f, room);
        GridMonotone(Truncate(room / f.stepSize), 0, f.stepSize);
        assert GridPoint(0, f.stepSize) == 0.0 by { ZeroPoint(f.stepSize); }
      }
    }
    RiskCapInMoney(r, p, q);
    WithinQuotientIff(q, cap, r.entryPrice);
    WithinMinIff(Times(q, r.entryPrice), NotionalByRisk(r, p), Times(r.equity, p.maxPositionPct),
                 r.freeCash, Times(r.equity, p.maxDeployedPct) - r.deployed);
    TimesPositive(q, r.entryPrice);
  }

  lemma ZeroPoint(step: real)
    ensures GridPoint(0, step) == 0.0
  {
  }

  lemma NegativeRoomHasNoLots(f: Filters, room: real)
    requires f.stepSize > 0.0 && room < 0.0
    ensures Truncate(room / f.stepSize) <= 0
  {
    var x := room / f.stepSize;
    assert x * f.stepSize == room;
    if x >= 0.0 {
      MulOrder(0.0, x, f.stepSize);
    }
  }

  // ---------------------------------------------------------------- the feasible stop band

  /** The stop distances that size at full intended risk; division by a zero position cap is the caller's error. */
  function FeasibleStopBand(equity: real, p: Policy, f: Filters): (real, real)
    requires p.maxPositionPct != 0.0
  {
    (p.riskPct / p.maxPositionPct, if f.minNotional <= 0.0 then 1.0 else Times(equity, p.riskPct) / f.minNotional)
  }

  lemma ScaledBudget(equity: real, riskPct: real, m: real)
    requires equity > 0.0 && 0.0 <= m <= 1.0
    ensures riskPct >= 0.0 ==> Times(Times(equity, riskPct), m) <= Times(equity, riskPct)
    ensures riskPct <= 0.0 ==> Times(Times(equity, riskPct), m) <= 0.0
  {
    var full := equity * riskPct;
    if riskPct >= 0.0 {
      assert full >= 0.0;
      MulOrder(m, 1.0, full);
    } else {
      assert full <= 0.0;
      MulOrder(0.0, m, -full);
    }
  }

  /** Above the upper bound the trade always falls under the exchange minimum: acceptance implies a
      distance within the band. */
  lemma AcceptedWithinUpperBound(r: Request, p: Policy, f: Filters)
    requires p.maxPositionPct != 0.0 && f.minNotional > 0.0 && 0.0 <= r.riskMultiplier <= 1.0
    requires SizePosition(r, p, f).Accepted?
    ensures StopDistance(r) <= FeasibleStopBand(r.equity, p, f).1
  {
    hide Times, GridPoint, AbsOf;
    var s, d := SizePosition(r, p, f), StopDistance(r);
    AcceptedRespectsCaps(r, p, f);
    GuardedDistancePositive(r, p);
    RiskCapInMoney(r, p, s.quantity);
    ScaledBudget(r.equity, p.riskPct, r.riskMultiplier);
    UpperBoundArithmetic(s.notional, d, f.minNotional, RiskBudget(r, p), Times(r.equity, p.riskPct), p.riskPct);
  }

  lemma UpperBoundArithmetic(notional: real, d: real, least: real, budget: real, full: real, riskPct: real)
    requires 0.0 < least <= notional && 0.0 < d
    requires Times(notional, d) <= budget
    requires riskPct >= 0.0 ==> budget <= full
    requires riskPct <= 0.0 ==> budget <= 0.0
    ensures d <= full / least
  {
    MulOrder(least, notional, d);
    MulStrict(0.0, least, d);
    var bound := full / least;
    assert bound * least == full;
    if bound < d {
      MulStrict(bound, d, least);
    }
  }

  /** At or above the lower bound the position cap does not bind: raising it changes nothing. */
  lemma PositionCapSlackAboveLowerBound(r: Request, p: Policy, f: Filters, higherCap: real)
    requires p.maxPositionPct > 0.0 && 0.0 <= r.riskMultiplier <= 1.0
    requires r.entryPrice > 0.0 && StopDistance(r) >= FeasibleStopBand(r.equity, p, f).0
    requires higherCap >= p.maxPositionPct
    ensures SizePosition(r, p.(maxPositionPct := higherCap), f) == SizePosition(r, p, f)
  {
    hide Times, FloorQuantity, StopDistance;
    var q := p.(maxPositionPct := higherCap);
    if Guard(r, p).None? {
      GuardedDistancePositive(r, p);
      ScaledBudget(r.equity, p.riskPct, r.riskMultiplier);
      LowerBoundArithmetic(r.equity, p.riskPct, p.maxPositionPct, StopDistance(r), RiskBudget(r, p));
      TimesMonotone(p.maxPositionPct, higherCap, r.equity);
      TimesCommutes(p.maxPositionPct, r.equity);
      TimesCommutes(higherCap, r.equity);
    }
  }

  lemma LowerBoundArithmetic(equity: real, riskPct: real, cap: real, d: real, budget: real)
    requires equity > 0.0 && cap > 0.0 && d > 0.0 && d >= riskPct / cap
    requires riskPct >= 0.0 ==> budget <= Times(equity, riskPct)
    requires riskPct <= 0.0 ==> budget <= 0.0
    ensures budget / d <= Times(equity, cap)
  {
    var least := riskPct / cap;
    assert least * cap == riskPct;
    MulOrder(least, d, cap);
    MulOrder(riskPct, d * cap, equity);
    var notional, limit := budget / d, equity * cap;
    assert notional * d == budget;
    assert limit * d == equity * (d * cap);
    MulStrict(0.0, limit, d);
    if limit < notional {
      MulStrict(limit, notional, d);
    }
  }
}
