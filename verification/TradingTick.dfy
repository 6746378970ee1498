/** The trading tick: limits first, then entries from live strategies with cash, deployment and open symbols
    carried from one entry to the next, and a decision for every symbol. */
module TradingTick {
  import opened Common
  import opened Market
  import opened Sizing
  import Ev = Evaluator

  // ---------------------------------------------------------------- what a tick is given

  /** Upper case of the letters exchange symbols are made of. */
  function UpperChar(c: char): char {
    if 'a' <= c <= 'z' then ((c as int) - 32) as char else c
  }

  function Upper(s: string): string {
    seq(|s|, i requires 0 <= i < |s| => UpperChar(s[i]))
  }

  datatype Account = Account(
    equity: real,
    peakEquity: real,
    dayStartEquity: real,
    freeCash: real,
    deployed: real,
    openSymbols: set<string>,
    valuationComplete: bool)

  datatype Limits = Limits(dailyLossLimit: real, maxAccountDrawdown: real)

  /** How the exchange side of one bracket ended, as far as the tick can tell. */
  datatype BracketReply = Placed | SwitchArmedMidTick | OrderRefused | PositionUnprotected

  /** The candles of one symbol, and what validation and the staleness check say of them. */
  datatype Candles = Candles(bars: seq<Kline>, valid: bool, stale: bool)

  /** What is known of the market: candles and exchange filters, under the symbol as it is spelled. */
  datatype Feeds = Feeds(series: map<string, Candles>, filters: map<string, Filters>)

  /** A live strategy, its promotion multiplier, and how its bracket would end if it placed one. */
  datatype LiveStrategy = LiveStrategy(strategyId: string, spec: Option<Ev.StrategySpec>, multiplier: real,
                                       bracket: BracketReply)

  predicate Usable(s: LiveStrategy) {
    s.spec.Some? ==> Ev.ValidSpec(s.spec.value)
  }

  predicate AllUsable(live: seq<LiveStrategy>) {
    forall i :: 0 <= i < |live| ==> Usable(live[i])
  }

  // ---------------------------------------------------------------- what a tick decides

  datatype DecisionOutcome =
    | Entered
    | NoStrategy
    | SpecMissing
    | NoMarketData
    | DataInvalid
    | DataStale
    | NoSignal
    | PositionAlreadyOpen
    | FiltersUnavailable
    | RiskRejected
    | OrderRejected
    | Halted
    | EntriesSuspended

  datatype SymbolDecision = SymbolDecision(
    symbol: string,
    outcome: DecisionOutcome,
    strategyId: Option<string>,
    notional: Option<real>)

  /** `breach` is the limit the tick itself armed the switch for. */
  datatype TickResult = TickResult(
    breach: Option<Breach>,
    halted: bool,
    suspended: bool,
    entriesPlaced: nat,
    entriesRejected: nat,
    decisions: seq<SymbolDecision>)

  /** A position that could not be protected ends the tick with an error. */
  datatype TickError = UnprotectedPosition

  // ---------------------------------------------------------------- account limits

  datatype Breach = MaxAccountDrawdown | DailyLossLimit

  function LossFraction(base: real, equity: real): real {
    if base <= 0.0 then 0.0 else MaxOf(0.0, (base - equity) / base)
  }

  /** Drawdown is the more serious condition and is named first. */
  function CheckLimits(a: Account, l: Limits): Option<Breach> {
    if LossFraction(a.peakEquity, a.equity) >= l.maxAccountDrawdown then Some(MaxAccountDrawdown)
    else if LossFraction(a.dayStartEquity, a.equity) >= l.dailyLossLimit then Some(DailyLossLimit)
    else None
  }

  // ---------------------------------------------------------------- one strategy

  /** What the entry loop carries forward. `stopped` is the early break, `aborted` the error that leaves it. */
  datatype Carry = Carry(
    freeCash: real,
    deployed: real,
    open: set<string>,
    halted: bool,
    placed: nat,
    rejected: nat,
    decisions: seq<SymbolDecision>,
    stopped: bool,
    aborted: bool)

  function FirstOn(signals: seq<Signal>, bar: nat): Option<Signal> {
    if signals == [] then None
    else if signals[0].barIndex == bar then Some(signals[0])
    else FirstOn(signals[1..], bar)
  }

  /** The signal of the last closed bar; when two rules fire, the first rule's. */
  function Actionable(spec: Ev.StrategySpec, bars: seq<Kline>): Option<Signal>
    requires Ev.ValidSpec(spec) && bars != []
  {
    FirstOn(Ev.Signals(spec, bars), |bars| - 1)
  }

  function TickRequest(a: Account, c: Carry, s: Signal, multiplier: real): Request {
    Request(a.equity, c.freeCash, s.referencePrice, s.stopPrice, s.side, |c.open|, c.deployed, multiplier)
  }

  function Noted(c: Carry, symbol: string, outcome: DecisionOutcome, strategyId: string): Carry {
    c.(decisions := c.decisions + [SymbolDecision(symbol, outcome, Some(strategyId), None)])
  }

  function Refusal(c: Carry, symbol: string, outcome: DecisionOutcome, strategyId: string): Carry {
    Noted(c.(rejected := c.rejected + 1), symbol, outcome, strategyId)
  }

  /** The last step of an attempt: a sized trade is sent as a bracket. */
  function Sent(c: Carry, symbol: string, s: LiveStrategy, specSymbol: string, notional: real,
                reply: BracketReply): Carry
  {
    match reply
    case SwitchArmedMidTick =>
      c.(halted := true, stopped := true,
         decisions := c.decisions + [SymbolDecision(symbol, Halted, Some(s.strategyId), Some(notional))])
    case OrderRefused =>
      c.(rejected := c.rejected + 1,
         decisions := c.decisions + [SymbolDecision(symbol, OrderRejected, Some(s.strategyId), Some(notional))])
    case PositionUnprotected => c.(aborted := true, stopped := true)
    case Placed =>
      c.(placed := c.placed + 1, open := c.open + {specSymbol},
         freeCash := c.freeCash - notional, deployed := c.deployed + notional,
         decisions := c.decisions + [SymbolDecision(symbol, Entered, Some(s.strategyId), Some(notional))])
  }

  /** Candles are looked up by the specification's own spelling of its symbol. */
  predicate HasCandles(m: Feeds, spelled: string) {
    spelled in m.series && m.series[spelled].bars != []
  }

  /** One live strategy's turn. */
  function Attempt(a: Account, p: Policy, m: Feeds, c: Carry, symbol: string, s: LiveStrategy): Carry
    requires Usable(s)
  {
    if s.spec.None? then Noted(c, symbol, SpecMissing, s.strategyId)
    else if !HasCandles(m, s.spec.value.symbol) then Noted(c, symbol, NoMarketData, s.strategyId)
    else
      var spelled := s.spec.value.symbol;
      var candles := m.series[spelled];
      if !candles.valid then Noted(c, symbol, DataInvalid, s.strategyId)
      else if candles.stale then Noted(c, symbol, DataStale, s.strategyId).(halted := true, stopped := true)
      else if Upper(spelled) in a.openSymbols || spelled in c.open then
        Noted(c, symbol, PositionAlreadyOpen, s.strategyId)
      else
        var signal := Actionable(s.spec.value, candles.bars);
        if signal.None? then Noted(c, symbol, NoSignal, s.strategyId)
        else if spelled !in m.filters then Refusal(c, symbol, FiltersUnavailable, s.strategyId)
        else
          var sizing := SizePosition(TickRequest(a, c, signal.value, s.multiplier), p, m.filters[spelled]);
          if sizing.Rejected? then Refusal(c, symbol, RiskRejected, s.strategyId)
          else Sent(c, symbol, s, spelled, sizing.notional, s.bracket)
  }

  // ---------------------------------------------------------------- the loops

  /** The first `k` strategies of one symbol, or as many as precede a break. */
  function WalkStrategies(a: Account, p: Policy, m: Feeds, c: Carry, symbol: string, here: seq<LiveStrategy>,
                          k: nat): Carry
    requires k <= |here| && AllUsable(here)
  {
    if k == 0 then c
    else
      var before := WalkStrategies(a, p, m, c, symbol, here, k - 1);
      if before.stopped then before else Attempt(a, p, m, before, symbol, here[k - 1])
  }

  function KeyOf(s: LiveStrategy): string {
    if s.spec.Some? then Upper(s.spec.value.symbol) else "UNKNOWN"
  }

  /** The live strategies that trade `symbol`, in registry order. */
  function DeployedOn(live: seq<LiveStrategy>, symbol: string): (here: seq<LiveStrategy>)
    requires AllUsable(live)
    ensures AllUsable(here)
  {
    if live == [] then []
    else
      var rest := DeployedOn(live[..|live| - 1], symbol);
      var last := live[|live| - 1];
      if KeyOf(last) == symbol then rest + [last] else rest
  }

  function Visit(a: Account, p: Policy, m: Feeds, c: Carry, live: seq<LiveStrategy>, symbol: string): Carry
    requires AllUsable(live)
  {
    var here := DeployedOn(live, symbol);
    if here == [] then c.(decisions := c.decisions + [SymbolDecision(symbol, NoStrategy, None, None)])
    else WalkStrategies(a, p, m, c, symbol, here, |here|)
  }

  /** The first `k` symbols of the universe, or as many as precede a break. */
  function WalkUniverse(a: Account, p: Policy, m: Feeds, c: Carry, live: seq<LiveStrategy>, universe: seq<string>,
                        k: nat): Carry
    requires k <= |universe| && AllUsable(live)
  {
    if k == 0 then c
    else
      var before := WalkUniverse(a, p, m, c, live, universe, k - 1);
      if before.stopped then before else Visit(a, p, m, before, live, universe[k - 1])
  }

  // ---------------------------------------------------------------- the universe

  function Distinct(symbols: seq<string>): seq<string> {
    if symbols == [] then []
    else
      var rest, last := Distinct(symbols[..|symbols| - 1]), symbols[|symbols| - 1];
      if last in rest then rest else rest + [last]
  }

  predicate Precedes(a: string, b: string) {
    a == [] || (b != [] && (a[0] < b[0] || (a[0] == b[0] && Precedes(a[1..], b[1..]))))
  }

  function Insert(x: string, sorted: seq<string>): seq<string> {
    if sorted == [] || Precedes(x, sorted[0]) then [x] + sorted else [sorted[0]] + Insert(x, sorted[1..])
  }

  function Sorted(symbols: seq<string>): seq<string> {
    if symbols == [] then [] else Insert(symbols[0], Sorted(symbols[1..]))
  }

  function Keys(live: seq<LiveStrategy>): seq<string> {
    seq(|live|, i requires 0 <= i < |live| => KeyOf(live[i]))
  }

  /** The configured symbols, then every other symbol a live strategy trades. */
  function Universe(configured: seq<string>, live: seq<LiveStrategy>): seq<string> {
    Distinct(configured + Sorted(Distinct(Keys(live))))
  }

  /** Decisions for the symbols a tick never reached. What counts as reached is settled before any is added. */
  function Remaining(seen: set<string>, symbols: seq<string>, outcome: DecisionOutcome): seq<SymbolDecision> {
    if symbols == [] then []
    else
      var rest, last := Remaining(seen, symbols[..|symbols| - 1], outcome), symbols[|symbols| - 1];
      if last in seen then rest else rest + [SymbolDecision(last, outcome, None, None)]
  }

  function Symbols(decisions: seq<SymbolDecision>): set<string> {
    set i | 0 <= i < |decisions| :: decisions[i].symbol
  }

  function WithRemaining(decisions: seq<SymbolDecision>, symbols: seq<string>,
                         outcome: DecisionOutcome): seq<SymbolDecision>
  {
    decisions + Remaining(Symbols(decisions), symbols, outcome)
  }

  // ---------------------------------------------------------------- the tick

  function Initial(a: Account): Carry {
    Carry(a.freeCash, a.deployed, a.openSymbols, false, 0, 0, [], false, false)
  }

  function EntryLoop(a: Account, p: Policy, m: Feeds, configured: seq<string>, live: seq<LiveStrategy>): Carry
    requires AllUsable(live)
  {
    var universe := Universe(configured, live);
    WalkUniverse(a, p, m, Initial(a), live, universe, |universe|)
  }

  /** Limits are checked of a fully valued account only. */
  function LimitBreach(a: Account, l: Limits): Option<Breach> {
    if a.valuationComplete then CheckLimits(a, l) else None
  }

  /** Whether the switch is armed once the account's limits have been checked. */
  predicate ArmedAtEntries(a: Account, l: Limits, armed: bool) {
    armed || LimitBreach(a, l).Some?
  }

  function TickOutcome(a: Account, p: Policy, m: Feeds, l: Limits, configured: seq<string>, live: seq<LiveStrategy>,
                       armed: bool)
    : Result<TickResult, TickError>
    requires AllUsable(live)
  {
    if ArmedAtEntries(a, l, armed) then
      Success(TickResult(LimitBreach(a, l), true, !a.valuationComplete, 0, 0, WithRemaining([], configured, Halted)))
    else if !a.valuationComplete then
      Success(TickResult(None, false, true, 0, 0, WithRemaining([], configured, EntriesSuspended)))
    else
      var c := EntryLoop(a, p, m, configured, live);
      if c.aborted then Failure(UnprotectedPosition)
      else Success(TickResult(None, c.halted, false, c.placed, c.rejected,
                              WithRemaining(c.decisions, Universe(configured, live), Halted)))
  }

  method FillRemaining(decisions: seq<SymbolDecision>, symbols: seq<string>, outcome: DecisionOutcome)
    returns (all: seq<SymbolDecision>)
    ensures all == WithRemaining(decisions, symbols, outcome)
  {
    var seen := Symbols(decisions);
    all := decisions;
    for i := 0 to |symbols|
      invariant all == decisions + Remaining(seen, symbols[..i], outcome)
    {
      if symbols[i] !in seen {
        all := all + [SymbolDecision(symbols[i], outcome, None, None)];
      }
      assert symbols[..i + 1][..i] == symbols[..i];
    }
    assert symbols[..|symbols|] == symbols;
  }

  /** Each symbol some live strategy trades maps to those strategies, in registry order. */
  ghost predicate GroupedBy(grouped: map<string, seq<LiveStrategy>>, live: seq<LiveStrategy>)
    requires AllUsable(live)
  {
    forall symbol ::
      && (symbol in grouped <==> DeployedOn(live, symbol) != [])
      && (symbol in grouped ==> grouped[symbol] == DeployedOn(live, symbol))
  }

  lemma GroupNext(grouped: map<string, seq<LiveStrategy>>, live: seq<LiveStrategy>, i: nat)
    requires AllUsable(live) && i < |live| && GroupedBy(grouped, live[..i])
    ensures var key := KeyOf(live[i]);
      GroupedBy(grouped[key := (if key in grouped then grouped[key] else []) + [live[i]]], live[..i + 1])
  {
    hide Usable, KeyOf;
    assert live[..i + 1][..i] == live[..i];
  }

  /** Groups live strategies by the symbol they trade; one whose spec will not load is kept. */
  method LiveStrategiesBySymbol(live: seq<LiveStrategy>) returns (grouped: map<string, seq<LiveStrategy>>)
    requires AllUsable(live)
    ensures GroupedBy(grouped, live)
  {
    grouped := map[];
    for i := 0 to |live|
      invariant GroupedBy(grouped, live[..i])
    {
      GroupNext(grouped, live, i);
      hide GroupedBy;
      var key := KeyOf(live[i]);
      grouped := grouped[key := (if key in grouped then grouped[key] else []) + [live[i]]];
    }
    assert live[..|live|] == live;
  }

  /** One strategy's turn, step by step; `c` is what the loop carries. */
  method TryStrategy(a: Account, p: Policy, m: Feeds, c: Carry, symbol: string, s: LiveStrategy) returns (next: Carry)
    requires Usable(s)
    ensures next == Attempt(a, p, m, c, symbol, s)
  {
    hide SizePosition, Ev.ValidSpec, Upper;
    if s.spec.None? {
      return Noted(c, symbol, SpecMissing, s.strategyId);
    }
    var spec := s.spec.value;
    if spec.symbol !in m.series || m.series[spec.symbol].bars == [] {
      return Noted(c, symbol, NoMarketData, s.strategyId);
    }
    var candles := m.series[spec.symbol];
    var bars := candles.bars;
    if !candles.valid {
      return Noted(c, symbol, DataInvalid, s.strategyId);
    }
    if candles.stale {
      return Noted(c, symbol, DataStale, s.strategyId).(halted := true, stopped := true);
    }
    if Upper(spec.symbol) in a.openSymbols || spec.symbol in c.open {
      return Noted(c, symbol, PositionAlreadyOpen, s.strategyId);
    }
    var signals := Ev.Evaluate(spec, bars);
    var signal := FirstOn(signals, |bars| - 1);
    if signal.None? {
      return Noted(c, symbol, NoSignal, s.strategyId);
    }
    if spec.symbol !in m.filters {
      return Refusal(c, symbol, FiltersUnavailable, s.strategyId);
    }
    var request := Request(a.equity, c.freeCash, signal.value.referencePrice, signal.value.stopPrice, signal.value.side,
                           |c.open|, c.deployed, s.multiplier);
    var sizing := SizePosition(request, p, m.filters[spec.symbol]);
    if sizing.Rejected? {
      return Refusal(c, symbol, RiskRejected, s.strategyId);
    }
    next := Sent(c, symbol, s, spec.symbol, sizing.notional, s.bracket);
  }

  /** The nested loop over symbols and their strategies; a break out of the inner loop ends the outer one. */
  method EnterPositions(a: Account, p: Policy, m: Feeds, universe: seq<string>, live: seq<LiveStrategy>)
    returns (c: Carry)
    requires AllUsable(live)
    ensures c == WalkUniverse(a, p, m, Initial(a), live, universe, |universe|)
  {
    hide Attempt, Usable, KeyOf;
    var bySymbol := LiveStrategiesBySymbol(live);
    c := Initial(a);
    var i := 0;
    while i < |universe| && !c.stopped
      invariant i <= |universe|
      invariant c == WalkUniverse(a, p, m, Initial(a), live, universe, i)
      decreases |universe| - i
    {
      var symbol := universe[i];
      ghost var before := c;
      var here := if symbol in bySymbol then bySymbol[symbol] else [];
      assert here == DeployedOn(live, symbol);
      if here == [] {
        c := c.(decisions := c.decisions + [SymbolDecision(symbol, NoStrategy, None, None)]);
      } else {
        var j := 0;
        while j < |here| && !c.stopped
          invariant j <= |here|
          invariant c == WalkStrategies(a, p, m, before, symbol, here, j)
          decreases |here| - j
        {
          c := TryStrategy(a, p, m, c, symbol, here[j]);
          j := j + 1;
        }
        StoppedStays(a, p, m, before, symbol, here, j, |here|);
      }
      assert c == Visit(a, p, m, before, live, symbol);
      i := i + 1;
    }
    StoppedWalkStays(a, p, m, Initial(a), live, universe, i, |universe|);
  }

  lemma {:induction false} StoppedStays(a: Account, p: Policy, m: Feeds, c: Carry, symbol: string,
                                        here: seq<LiveStrategy>, j: nat, k: nat)
    requires j <= k <= |here| && AllUsable(here)
    requires j < k ==> WalkStrategies(a, p, m, c, symbol, here, j).stopped
    ensures WalkStrategies(a, p, m, c, symbol, here, k) == WalkStrategies(a, p, m, c, symbol, here, j)
    decreases k
  {
    hide Attempt, Usable;
    if j < k {
      StoppedStays(a, p, m, c, symbol, here, j, k - 1);
    }
  }

  lemma {:induction false} StoppedWalkStays(a: Account, p: Policy, m: Feeds, c: Carry, live: seq<LiveStrategy>,
                                            universe: seq<string>, j: nat, k: nat)
    requires j <= k <= |universe| && AllUsable(live)
    requires j < k ==> WalkUniverse(a, p, m, c, live, universe, j).stopped
    ensures WalkUniverse(a, p, m, c, live, universe, k) == WalkUniverse(a, p, m, c, live, universe, j)
    decreases k
  {
    hide Visit, Usable;
    if j < k {
      StoppedWalkStays(a, p, m, c, live, universe, j, k - 1);
    }
  }

  /** One tick. `armed` says whether the switch was armed when reconciliation had run. */
  method Tick(a: Account, p: Policy, m: Feeds, l: Limits, symbols: seq<string>, live: seq<LiveStrategy>, armed: bool)
    returns (r: Result<TickResult, TickError>)
    requires AllUsable(live)
    ensures r == TickOutcome(a, p, m, l, UpperAll(symbols), live, armed)
  {
    hide CheckLimits, WithRemaining, Universe, Visit, UpperAll;
    var configured := UpperAll(symbols);
    var halted, suspended, switchArmed := false, false, armed;
    var breach: Option<Breach> := None;
    if a.valuationComplete {
      breach := CheckLimits(a, l);
      if breach.Some? {
        switchArmed, halted := true, true;
      }
    } else {
      suspended := true;
    }
    if switchArmed {
      var decisions := FillRemaining([], configured, Halted);
      return Success(TickResult(breach, true, suspended, 0, 0, decisions));
    }
    if suspended {
      var decisions := FillRemaining([], configured, EntriesSuspended);
      return Success(TickResult(None, halted, true, 0, 0, decisions));
    }
    var universe := Universe(configured, live);
    var c := EnterPositions(a, p, m, universe, live);
    if c.aborted {
      return Failure(UnprotectedPosition);
    }
    var decisions := FillRemaining(c.decisions, universe, Halted);
    return Success(TickResult(None, c.halted, false, c.placed, c.rejected, decisions));
  }

  function UpperAll(symbols: seq<string>): seq<string> {
    seq(|symbols|, i requires 0 <= i < |symbols| => Upper(symbols[i]))
  }
}
