/** What one tick guarantees, whatever number of strategies compete in it. */
module TickProperties {
  import opened Common
  import opened Sizing
  import opened TradingTick
  import Ev = Evaluator

  // ---------------------------------------------------------------- reading the decisions back

  predicate IsEntry(d: SymbolDecision) {
    d.outcome == Entered && d.notional.Some?
  }

  function EnteredNotional(decisions: seq<SymbolDecision>): real {
    if decisions == [] then 0.0
    else
      var last := decisions[|decisions| - 1];
      EnteredNotional(decisions[..|decisions| - 1]) + if IsEntry(last) then last.notional.value else 0.0
  }

  function CountEntered(decisions: seq<SymbolDecision>): nat {
    if decisions == [] then 0
    else CountEntered(decisions[..|decisions| - 1]) + if IsEntry(decisions[|decisions| - 1]) then 1 else 0
  }

  predicate IsRejection(o: DecisionOutcome) {
    o == FiltersUnavailable || o == RiskRejected || o == OrderRejected
  }

  function CountRejected(decisions: seq<SymbolDecision>): nat {
    if decisions == [] then 0
    else CountRejected(decisions[..|decisions| - 1]) + if IsRejection(decisions[|decisions| - 1].outcome) then 1 else 0
  }

  /** An outcome that ends the entries of a tick. */
  predicate EndsEntries(o: DecisionOutcome) {
    o == Halted || o == DataStale
  }

  predicate NothingAfterHalt(decisions: seq<SymbolDecision>) {
    forall i, j :: 0 <= i < j < |decisions| && EndsEntries(decisions[i].outcome) ==> decisions[j].outcome != Entered
  }

  predicate NoHaltYet(decisions: seq<SymbolDecision>) {
    forall i :: 0 <= i < |decisions| ==> !EndsEntries(decisions[i].outcome)
  }

  predicate EntriesPriced(decisions: seq<SymbolDecision>) {
    forall i :: 0 <= i < |decisions| && decisions[i].outcome == Entered ==> decisions[i].notional.Some?
  }

  /** No symbol is entered twice. */
  predicate EnteredOnce(decisions: seq<SymbolDecision>) {
    forall i, j :: 0 <= i < j < |decisions| && decisions[i].outcome == decisions[j].outcome == Entered ==>
      decisions[i].symbol != decisions[j].symbol
  }

  /** No symbol the account already holds is entered. */
  predicate NoneReopened(a: Account, decisions: seq<SymbolDecision>) {
    forall i :: 0 <= i < |decisions| && decisions[i].outcome == Entered ==> decisions[i].symbol !in a.openSymbols
  }

  // ---------------------------------------------------------------- spellings

  /** A spelling under which an entry is possible: a specification can name it, and its candles pass the checks. */
  predicate Quoted(series: map<string, Candles>, spelled: string) {
    && 1 <= |spelled| <= 20 && spelled in series
    && series[spelled].bars != [] && series[spelled].valid && !series[spelled].stale
  }

  /** No two such spellings are one symbol in upper case. */
  predicate DistinctSpellings(series: map<string, Candles>) {
    forall j, k :: j in series && k in series && Quoted(series, j) && Quoted(series, k) && Upper(j) == Upper(k)
      ==> j == k
  }

  /** What was entered is remembered as open, under the spelling it was entered by. */
  predicate Remembered(series: map<string, Candles>, c: Carry) {
    forall i :: 0 <= i < |c.decisions| && c.decisions[i].outcome == Entered ==>
      exists k :: k in c.open && Quoted(series, k) && Upper(k) == c.decisions[i].symbol
  }

  // ---------------------------------------------------------------- the invariant of the entry loop

  function MaxNat(a: int, b: int): int {
    if a >= b then a else b
  }

  /** Cash, deployment and open symbols are the account's, moved by exactly the entries decided so far, and
      within the caps. */
  predicate WithinCaps(a: Account, p: Policy, c: Carry) {
    && c.deployed == a.deployed + EnteredNotional(c.decisions)
    && c.freeCash == a.freeCash - EnteredNotional(c.decisions)
    && c.deployed <= MaxOf(a.deployed, Times(a.equity, p.maxDeployedPct))
    && c.freeCash >= MinOf(a.freeCash, 0.0)
    && |c.open| <= MaxNat(|a.openSymbols|, p.maxConcurrent)
    && |c.open| == |a.openSymbols| + CountEntered(c.decisions)
  }

  predicate Recorded(a: Account, c: Carry) {
    && c.placed == CountEntered(c.decisions)
    && c.rejected == CountRejected(c.decisions)
    && EntriesPriced(c.decisions)
    && NoneReopened(a, c.decisions)
    && NothingAfterHalt(c.decisions)
    && (!c.stopped ==> NoHaltYet(c.decisions))
    && (c.halted ==> c.stopped)
  }

  lemma Appending(decisions: seq<SymbolDecision>, d: SymbolDecision)
    ensures EnteredNotional(decisions + [d]) == EnteredNotional(decisions) + if IsEntry(d) then d.notional.value
            else 0.0
    ensures CountEntered(decisions + [d]) == CountEntered(decisions) + if IsEntry(d) then 1 else 0
    ensures CountRejected(decisions + [d]) == CountRejected(decisions) + if IsRejection(d.outcome) then 1 else 0
  {
    assert (decisions + [d])[..|decisions|] == decisions;
  }

  lemma NothingAfterHaltAppends(decisions: seq<SymbolDecision>, d: SymbolDecision)
    requires NothingAfterHalt(decisions) && (NoHaltYet(decisions) || d.outcome != Entered)
    ensures NothingAfterHalt(decisions + [d])
  {
    hide EndsEntries;
  }

  lemma NoHaltYetAppends(decisions: seq<SymbolDecision>, d: SymbolDecision)
    requires NoHaltYet(decisions) && !EndsEntries(d.outcome)
    ensures NoHaltYet(decisions + [d])
  {
    hide EndsEntries;
  }

  lemma EntriesPricedAppends(decisions: seq<SymbolDecision>, d: SymbolDecision)
    requires EntriesPriced(decisions) && (d.outcome == Entered ==> d.notional.Some?)
    ensures EntriesPriced(decisions + [d])
  {
  }

  lemma NoneReopenedAppends(a: Account, decisions: seq<SymbolDecision>, d: SymbolDecision)
    requires NoneReopened(a, decisions) && (d.outcome == Entered ==> d.symbol !in a.openSymbols)
    ensures NoneReopened(a, decisions + [d])
  {
  }

  /** A step of the entry loop that adds one decision, and counts and stops as that decision says. */
  predicate Appends(c: Carry, d: SymbolDecision, next: Carry) {
    && next.decisions == c.decisions + [d]
    && next.placed == c.placed + (if IsEntry(d) then 1 else 0)
    && next.rejected == c.rejected + (if IsRejection(d.outcome) then 1 else 0)
    && (d.outcome == Entered ==> d.notional.Some?)
    && (EndsEntries(d.outcome) <==> next.stopped)
    && (next.halted ==> next.stopped || c.halted)
  }

  lemma AppendsKeepsRecord(a: Account, c: Carry, d: SymbolDecision, next: Carry)
    requires Recorded(a, c) && !c.stopped && Appends(c, d, next)
    requires d.outcome == Entered ==> d.symbol !in a.openSymbols
    ensures Recorded(a, next)
  {
    hide NothingAfterHalt, NoHaltYet, EntriesPriced, NoneReopened, IsEntry, IsRejection, EndsEntries;
    Appending(c.decisions, d);
    NothingAfterHaltAppends(c.decisions, d);
    if !next.stopped {
      NoHaltYetAppends(c.decisions, d);
    }
    EntriesPricedAppends(c.decisions, d);
    NoneReopenedAppends(a, c.decisions, d);
  }

  predicate SameMoney(c: Carry, next: Carry) {
    next.freeCash == c.freeCash && next.deployed == c.deployed && next.open == c.open
  }

  /** A decision that enters nothing moves no money and breaks no record. */
  lemma NonEntryKeeps(a: Account, p: Policy, c: Carry, d: SymbolDecision, next: Carry)
    requires WithinCaps(a, p, c) && Recorded(a, c) && !c.stopped
    requires d.outcome != Entered && Appends(c, d, next) && SameMoney(c, next)
    ensures WithinCaps(a, p, next) && Recorded(a, next)
  {
    hide Times, IsRejection, EndsEntries, Recorded, MaxOf, MinOf, MaxNat;
    Appending(c.decisions, d);
    AppendsKeepsRecord(a, c, d, next);
  }

  /** An entry moves its notional from cash to deployment and opens its symbol. */
  predicate MovesMoney(c: Carry, next: Carry, symbol: string, notional: real) {
    && next.freeCash == c.freeCash - notional
    && next.deployed == c.deployed + notional
    && next.open == c.open + {symbol}
  }

  function EntryDecision(symbol: string, strategyId: string, notional: real): SymbolDecision {
    SymbolDecision(symbol, Entered, Some(strategyId), Some(notional))
  }

  predicate FitsRequest(a: Account, c: Carry, r: Request) {
    r.equity == a.equity && r.freeCash == c.freeCash && r.deployed == c.deployed && r.openPositions == |c.open|
  }

  /** Sizing against what is left keeps what is carried within the caps. */
  lemma EntryKeepsCaps(a: Account, p: Policy, c: Carry, f: Filters, r: Request, symbol: string, spelled: string,
                       strategyId: string, next: Carry)
    requires WithinCaps(a, p, c) && FitsRequest(a, c, r) && SizePosition(r, p, f).Accepted? && spelled !in c.open
    requires var notional := SizePosition(r, p, f).notional;
      && MovesMoney(c, next, spelled, notional)
      && next.decisions == c.decisions + [EntryDecision(symbol, strategyId, notional)]
    ensures WithinCaps(a, p, next)
  {
    hide Times, SizePosition, AbsOf, RiskBudget, EnteredNotional, CountEntered;
    var notional := SizePosition(r, p, f).notional;
    AcceptedFits(r, p, f);
    Appending(c.decisions, EntryDecision(symbol, strategyId, notional));
  }

  lemma AcceptedFits(r: Request, p: Policy, f: Filters)
    requires SizePosition(r, p, f).Accepted?
    ensures var notional := SizePosition(r, p, f).notional;
      notional <= r.freeCash && r.deployed + notional <= Times(r.equity, p.maxDeployedPct)
    ensures r.openPositions < p.maxConcurrent
  {
    AcceptedRespectsCaps(r, p, f);
  }

  /** An accepted, placed trade on a symbol not open keeps every cap. */
  lemma EntryKeeps(a: Account, p: Policy, c: Carry, f: Filters, r: Request, symbol: string, spelled: string,
                   strategyId: string, next: Carry)
    requires WithinCaps(a, p, c) && Recorded(a, c) && !c.stopped
    requires FitsRequest(a, c, r) && SizePosition(r, p, f).Accepted?
    requires symbol !in a.openSymbols && spelled !in c.open
    requires var notional := SizePosition(r, p, f).notional;
      && MovesMoney(c, next, spelled, notional)
      && Appends(c, EntryDecision(symbol, strategyId, notional), next)
    ensures WithinCaps(a, p, next) && Recorded(a, next)
  {
    EntryKeepsCaps(a, p, c, f, r, symbol, spelled, strategyId, next);
    hide Times, SizePosition, Recorded;
    AppendsKeepsRecord(a, c, EntryDecision(symbol, strategyId, SizePosition(r, p, f).notional), next);
  }

  /** A quiet decision forgets nothing and enters nothing. */
  lemma NonEntryRemembers(series: map<string, Candles>, c: Carry, d: SymbolDecision, next: Carry)
    requires Remembered(series, c) && d.outcome != Entered && next.decisions == c.decisions + [d] && next.open == c.open
    ensures Remembered(series, next)
    ensures EnteredOnce(c.decisions) ==> EnteredOnce(next.decisions)
  {
    hide Quoted, Upper;
    forall i | 0 <= i < |next.decisions| && next.decisions[i].outcome == Entered
      ensures i < |c.decisions| && next.decisions[i] == c.decisions[i]
    {
    }
  }

  /** An entry under a spelling not yet open is remembered, and repeats no symbol while spellings are distinct. */
  lemma EntryRemembers(series: map<string, Candles>, c: Carry, d: SymbolDecision, spelled: string, next: Carry)
    requires Remembered(series, c) && next.decisions == c.decisions + [d] && next.open == c.open + {spelled}
    requires Quoted(series, spelled) && Upper(spelled) == d.symbol && spelled !in c.open
    ensures Remembered(series, next)
    ensures DistinctSpellings(series) && EnteredOnce(c.decisions) ==> EnteredOnce(next.decisions)
  {
    hide Upper;
    var n := |c.decisions|;
    forall i | 0 <= i < |next.decisions| && next.decisions[i].outcome == Entered
      ensures exists k :: k in next.open && Quoted(series, k) && Upper(k) == next.decisions[i].symbol
    {
      if i < n {
        var k :| k in c.open && Quoted(series, k) && Upper(k) == c.decisions[i].symbol;
        assert k in next.open;
      } else {
        assert spelled in next.open;
      }
    }
    if DistinctSpellings(series) {
      forall i | 0 <= i < n && c.decisions[i].outcome == Entered
        ensures c.decisions[i].symbol != d.symbol
      {
        var k :| k in c.open && Quoted(series, k) && Upper(k) == c.decisions[i].symbol;
      }
    }
  }

  /** What the entry loop keeps. */
  predicate CarryOk(a: Account, p: Policy, series: map<string, Candles>, c: Carry) {
    && WithinCaps(a, p, c) && Recorded(a, c) && Remembered(series, c)
    && (DistinctSpellings(series) ==> EnteredOnce(c.decisions))
  }

  predicate LoopOk(a: Account, p: Policy, series: map<string, Candles>, c: Carry) {
    c.aborted || CarryOk(a, p, series, c)
  }

  /** A turn that neither enters nor raises adds one decision and moves no money. */
  lemma QuietAttempt(a: Account, p: Policy, m: Feeds, c: Carry, symbol: string, s: LiveStrategy)
    requires Usable(s) && !c.stopped && !c.aborted
    requires Attempt(a, p, m, c, symbol, s).placed == c.placed && !Attempt(a, p, m, c, symbol, s).aborted
    ensures var next := Attempt(a, p, m, c, symbol, s);
      && |next.decisions| > |c.decisions|
      && next.decisions[|c.decisions|].outcome != Entered
      && Appends(c, next.decisions[|c.decisions|], next) && SameMoney(c, next)
  {
    hide SizePosition, Ev.ValidSpec, Actionable, Upper, TickRequest;
  }

  /** A turn that enters has sized the signal of the last bar against what is carried. */
  lemma EnteringAttempt(a: Account, p: Policy, m: Feeds, c: Carry, symbol: string, s: LiveStrategy)
    returns (f: Filters, r: Request, spelled: string)
    requires Usable(s) && KeyOf(s) == symbol && !c.stopped && !c.aborted
    requires Attempt(a, p, m, c, symbol, s).placed != c.placed
    ensures FitsRequest(a, c, r) && SizePosition(r, p, f).Accepted?
    ensures symbol !in a.openSymbols && spelled !in c.open && Quoted(m.series, spelled) && Upper(spelled) == symbol
    ensures var next, notional := Attempt(a, p, m, c, symbol, s), SizePosition(r, p, f).notional;
      MovesMoney(c, next, spelled, notional) && Appends(c, EntryDecision(symbol, s.strategyId, notional), next)
  {
    hide SizePosition, Actionable, Upper;
    spelled := s.spec.value.symbol;
    f := m.filters[spelled];
    r := TickRequest(a, c, Actionable(s.spec.value, m.series[spelled].bars).value, s.multiplier);
  }

  lemma AbortingStops(a: Account, p: Policy, m: Feeds, c: Carry, symbol: string, s: LiveStrategy)
    requires Usable(s) && !c.aborted && Attempt(a, p, m, c, symbol, s).aborted
    ensures Attempt(a, p, m, c, symbol, s).stopped && Attempt(a, p, m, c, symbol, s).placed == c.placed
  {
    hide SizePosition, Ev.ValidSpec, Actionable, Upper, TickRequest;
  }

  lemma AttemptKeeps(a: Account, p: Policy, m: Feeds, c: Carry, symbol: string, s: LiveStrategy)
    requires Usable(s) && KeyOf(s) == symbol
    requires CarryOk(a, p, m.series, c) && !c.stopped && !c.aborted
    ensures LoopOk(a, p, m.series, Attempt(a, p, m, c, symbol, s))
    ensures Attempt(a, p, m, c, symbol, s).aborted ==> Attempt(a, p, m, c, symbol, s).stopped
  {
    hide WithinCaps, Recorded, Remembered, EnteredOnce, DistinctSpellings, Quoted, SizePosition, Usable, KeyOf, Attempt;
    var next := Attempt(a, p, m, c, symbol, s);
    if next.aborted {
      AbortingStops(a, p, m, c, symbol, s);
    } else if next.placed == c.placed {
      QuietAttempt(a, p, m, c, symbol, s);
      QuietKeeps(a, p, m.series, c, next.decisions[|c.decisions|], next);
    } else {
      var f, r, spelled := EnteringAttempt(a, p, m, c, symbol, s);
      var d := EntryDecision(symbol, s.strategyId, SizePosition(r, p, f).notional);
      EntryKeeps(a, p, c, f, r, symbol, spelled, s.strategyId, next);
      EntryRemembers(m.series, c, d, spelled, next);
    }
  }

  lemma QuietKeeps(a: Account, p: Policy, series: map<string, Candles>, c: Carry, d: SymbolDecision, next: Carry)
    requires CarryOk(a, p, series, c) && !c.stopped && d.outcome != Entered && Appends(c, d, next) && SameMoney(c, next)
    ensures CarryOk(a, p, series, next)
  {
    hide WithinCaps, Recorded, Remembered, EnteredOnce, DistinctSpellings, IsEntry, IsRejection, EndsEntries;
    NonEntryKeeps(a, p, c, d, next);
    NonEntryRemembers(series, c, d, next);
  }

  lemma {:induction false} StrategiesKeep(a: Account, p: Policy, m: Feeds, c: Carry, symbol: string,
                                          here: seq<LiveStrategy>, k: nat)
    requires k <= |here| && AllUsable(here)
    requires forall i :: 0 <= i < |here| ==> KeyOf(here[i]) == symbol
    requires CarryOk(a, p, m.series, c) && !c.stopped && !c.aborted
    ensures LoopOk(a, p, m.series, WalkStrategies(a, p, m, c, symbol, here, k))
    ensures WalkStrategies(a, p, m, c, symbol, here, k).aborted ==> WalkStrategies(a, p, m, c, symbol, here, k).stopped
  {
    hide Attempt, CarryOk, Usable, KeyOf;
    if k > 0 {
      StrategiesKeep(a, p, m, c, symbol, here, k - 1);
      var before := WalkStrategies(a, p, m, c, symbol, here, k - 1);
      if !before.stopped {
        AttemptKeeps(a, p, m, before, symbol, here[k - 1]);
      }
    }
  }

  lemma {:induction false} DeployedOnKeys(live: seq<LiveStrategy>, symbol: string)
    requires AllUsable(live)
    ensures forall i :: 0 <= i < |DeployedOn(live, symbol)| ==> KeyOf(DeployedOn(live, symbol)[i]) == symbol
  {
    hide Usable, KeyOf;
    if live != [] {
      DeployedOnKeys(live[..|live| - 1], symbol);
    }
  }

  lemma VisitKeeps(a: Account, p: Policy, m: Feeds, c: Carry, live: seq<LiveStrategy>, symbol: string)
    requires AllUsable(live)
    requires CarryOk(a, p, m.series, c) && !c.stopped && !c.aborted
    ensures LoopOk(a, p, m.series, Visit(a, p, m, c, live, symbol))
    ensures Visit(a, p, m, c, live, symbol).aborted ==> Visit(a, p, m, c, live, symbol).stopped
  {
    hide CarryOk;
    var here := DeployedOn(live, symbol);
    if here == [] {
      QuietKeeps(a, p, m.series, c, SymbolDecision(symbol, NoStrategy, None, None), Visit(a, p, m, c, live, symbol));
    } else {
      DeployedOnKeys(live, symbol);
      StrategiesKeep(a, p, m, c, symbol, here, |here|);
    }
  }

  lemma {:induction false} UniverseKeeps(a: Account, p: Policy, m: Feeds, live: seq<LiveStrategy>,
                                         universe: seq<string>, k: nat)
    requires k <= |universe| && AllUsable(live)
    ensures LoopOk(a, p, m.series, WalkUniverse(a, p, m, Initial(a), live, universe, k))
    ensures var c := WalkUniverse(a, p, m, Initial(a), live, universe, k); c.aborted ==> c.stopped
  {
    hide Visit, AllUsable, CarryOk, Initial;
    if k == 0 {
      InitialOk(a, p, m.series);
    } else {
      UniverseKeeps(a, p, m, live, universe, k - 1);
      var before := WalkUniverse(a, p, m, Initial(a), live, universe, k - 1);
      if !before.stopped {
        VisitKeeps(a, p, m, before, live, universe[k - 1]);
      }
    }
  }

  lemma InitialOk(a: Account, p: Policy, series: map<string, Candles>)
    ensures CarryOk(a, p, series, Initial(a))
    ensures !Initial(a).aborted && !Initial(a).stopped
  {
    hide Times;
    NoSums();
  }

  lemma NoSums()
    ensures EnteredNotional([]) == 0.0 && CountEntered([]) == 0 && CountRejected([]) == 0
  {
  }

  // ---------------------------------------------------------------- the rest of the decisions

  lemma {:induction false} RemainingShape(seen: set<string>, symbols: seq<string>, outcome: DecisionOutcome)
    ensures forall i :: 0 <= i < |Remaining(seen, symbols, outcome)| ==>
              && Remaining(seen, symbols, outcome)[i].outcome == outcome
              && Remaining(seen, symbols, outcome)[i].symbol !in seen
    ensures forall symbol :: symbol in symbols ==>
              symbol in seen || symbol in Symbols(Remaining(seen, symbols, outcome))
  {
    if symbols != [] {
      var earlier, last := symbols[..|symbols| - 1], symbols[|symbols| - 1];
      RemainingShape(seen, earlier, outcome);
      var before, after := Remaining(seen, earlier, outcome), Remaining(seen, symbols, outcome);
      forall symbol | symbol in symbols
        ensures symbol in seen || symbol in Symbols(after)
      {
        if symbol in Symbols(before) {
          var i :| 0 <= i < |before| && before[i].symbol == symbol;
          assert after[i].symbol == symbol;
        } else if symbol == last && last !in seen {
          assert after[|after| - 1].symbol == last;
        }
      }
    }
  }

  lemma SymbolsOfConcat(s: seq<SymbolDecision>, t: seq<SymbolDecision>)
    ensures Symbols(s + t) == Symbols(s) + Symbols(t)
  {
    forall symbol | symbol in Symbols(s) + Symbols(t)
      ensures symbol in Symbols(s + t)
    {
      if symbol in Symbols(s) {
        var i :| 0 <= i < |s| && s[i].symbol == symbol;
        assert (s + t)[i].symbol == symbol;
      } else {
        var i :| 0 <= i < |t| && t[i].symbol == symbol;
        assert (s + t)[|s| + i].symbol == symbol;
      }
    }
  }

  /** Filling in adds no entry and leaves no symbol without a decision. */
  lemma FillingIn(decisions: seq<SymbolDecision>, symbols: seq<string>, outcome: DecisionOutcome)
    requires outcome != Entered && !IsRejection(outcome)
    ensures var all := WithRemaining(decisions, symbols, outcome);
      && decisions <= all
      && (forall i :: |decisions| <= i < |all| ==> all[i].outcome == outcome)
      && forall symbol :: symbol in symbols ==> symbol in Symbols(all)
  {
    RemainingShape(Symbols(decisions), symbols, outcome);
    SymbolsOfConcat(decisions, Remaining(Symbols(decisions), symbols, outcome));
  }

  /** Decisions that neither enter nor reject. */
  predicate Inert(decisions: seq<SymbolDecision>) {
    forall i :: 0 <= i < |decisions| ==> decisions[i].outcome != Entered && !IsRejection(decisions[i].outcome)
  }

  lemma {:induction false} CountsOfTail(decisions: seq<SymbolDecision>, tail: seq<SymbolDecision>)
    requires Inert(tail)
    ensures CountEntered(decisions + tail) == CountEntered(decisions)
    ensures CountRejected(decisions + tail) == CountRejected(decisions)
    ensures EnteredNotional(decisions + tail) == EnteredNotional(decisions)
  {
    hide IsRejection;
    if tail == [] {
      assert decisions + tail == decisions;
    } else {
      var rest, last := tail[..|tail| - 1], tail[|tail| - 1];
      CountsOfTail(decisions, rest);
      Appending(decisions + rest, last);
      assert decisions + tail == decisions + rest + [last];
    }
  }

  // ---------------------------------------------------------------- the universe

  lemma {:induction false} DistinctKeeps(symbols: seq<string>)
    ensures forall symbol :: symbol in Distinct(symbols) <==> symbol in symbols
    ensures forall i, j :: 0 <= i < j < |Distinct(symbols)| ==> Distinct(symbols)[i] != Distinct(symbols)[j]
  {
    if symbols != [] {
      DistinctKeeps(symbols[..|symbols| - 1]);
      assert symbols == symbols[..|symbols| - 1] + [symbols[|symbols| - 1]];
    }
  }

  lemma {:induction false} InsertKeeps(x: string, sorted: seq<string>)
    ensures forall symbol :: symbol in Insert(x, sorted) <==> symbol == x || symbol in sorted
  {
    if sorted != [] && !Precedes(x, sorted[0]) {
      InsertKeeps(x, sorted[1..]);
      assert sorted == [sorted[0]] + sorted[1..];
    }
  }

  lemma {:induction false} SortedKeeps(symbols: seq<string>)
    ensures forall symbol :: symbol in Sorted(symbols) <==> symbol in symbols
  {
    if symbols != [] {
      SortedKeeps(symbols[1..]);
      InsertKeeps(symbols[0], Sorted(symbols[1..]));
      assert symbols == [symbols[0]] + symbols[1..];
    }
  }

  /** The universe is every configured symbol and every symbol a live strategy trades, each once. */
  lemma UniverseCovers(configured: seq<string>, live: seq<LiveStrategy>)
    ensures forall symbol :: symbol in Universe(configured, live) <==> symbol in configured || symbol in Keys(live)
    ensures var u := Universe(configured, live); forall i, j :: 0 <= i < j < |u| ==> u[i] != u[j]
  {
    var keys := Distinct(Keys(live));
    DistinctKeeps(Keys(live));
    SortedKeeps(keys);
    DistinctKeeps(configured + Sorted(keys));
  }

  // ---------------------------------------------------------------- the theorem

  predicate TickOk(a: Account, p: Policy, series: map<string, Candles>, configured: seq<string>, r: TickResult) {
    && a.deployed + EnteredNotional(r.decisions) <= MaxOf(a.deployed, Times(a.equity, p.maxDeployedPct))
    && a.freeCash - EnteredNotional(r.decisions) >= MinOf(a.freeCash, 0.0)
    && |a.openSymbols| + r.entriesPlaced <= MaxNat(|a.openSymbols|, p.maxConcurrent)
    && NoneReopened(a, r.decisions)
    && (DistinctSpellings(series) ==> EnteredOnce(r.decisions))
    && r.entriesPlaced == CountEntered(r.decisions)
    && r.entriesRejected == CountRejected(r.decisions)
    && NothingAfterHalt(r.decisions)
    && forall symbol :: symbol in configured ==> symbol in Symbols(r.decisions)
  }

  lemma TailIsInert(all: seq<SymbolDecision>, from: nat, outcome: DecisionOutcome)
    requires from <= |all| && (outcome == Halted || outcome == EntriesSuspended)
    requires forall i :: from <= i < |all| ==> all[i].outcome == outcome
    ensures Inert(all[from..])
  {
  }

  lemma TailKeepsRecord(a: Account, decisions: seq<SymbolDecision>, tail: seq<SymbolDecision>)
    requires NoneReopened(a, decisions) && NothingAfterHalt(decisions) && Inert(tail)
    ensures NoneReopened(a, decisions + tail) && NothingAfterHalt(decisions + tail)
    ensures EnteredOnce(decisions) ==> EnteredOnce(decisions + tail)
  {
    hide IsRejection, EndsEntries;
    var all := decisions + tail;
    assert forall i :: 0 <= i < |all| && all[i].outcome == Entered ==> i < |decisions| && all[i] == decisions[i];
  }

  lemma EntriesFilledIn(a: Account, p: Policy, series: map<string, Candles>, configured: seq<string>,
                        universe: seq<string>, c: Carry, r: TickResult, outcome: DecisionOutcome)
    requires outcome == Halted || outcome == EntriesSuspended
    requires CarryOk(a, p, series, c)
    requires forall symbol :: symbol in configured ==> symbol in universe
    requires r.decisions == WithRemaining(c.decisions, universe, outcome)
    requires r.entriesPlaced == c.placed && r.entriesRejected == c.rejected
    ensures TickOk(a, p, series, configured, r)
  {
    hide Times, WithRemaining, MaxOf, MinOf, MaxNat, EnteredOnce, NoneReopened, NothingAfterHalt, Inert, Symbols,
         Remembered, DistinctSpellings;
    FillingIn(c.decisions, universe, outcome);
    var tail := r.decisions[|c.decisions|..];
    assert r.decisions == c.decisions + tail;
    assert Inert(tail) by { TailIsInert(r.decisions, |c.decisions|, outcome); }
    CountsOfTail(c.decisions, tail);
    TailKeepsRecord(a, c.decisions, tail);
  }

  lemma NoEntries(a: Account, p: Policy, series: map<string, Candles>, configured: seq<string>, r: TickResult,
                  outcome: DecisionOutcome)
    requires outcome == Halted || outcome == EntriesSuspended
    requires r.decisions == WithRemaining([], configured, outcome) && r.entriesPlaced == 0 && r.entriesRejected == 0
    ensures TickOk(a, p, series, configured, r)
  {
    hide TickOk, CarryOk, WithRemaining;
    InitialOk(a, p, series);
    EntriesFilledIn(a, p, series, configured, configured, Initial(a), r, outcome);
  }

  /** Every tick that returns, with any number of strategies however they spell their symbols: what it enters
      fits the deployment cap and the free cash together with everything entered before it in the same tick,
      held symbols and entries together stay within their cap, no held symbol is entered again, the counters
      count the decisions, nothing is entered after the tick halts, every configured symbol gets a decision,
      and no symbol is entered twice as long as the candles hold it under one spelling. */
  lemma TickKeepsCaps(a: Account, p: Policy, m: Feeds, l: Limits, configured: seq<string>, live: seq<LiveStrategy>,
                      armed: bool)
    requires AllUsable(live)
    requires TickOutcome(a, p, m, l, configured, live, armed).Success?
    ensures TickOk(a, p, m.series, configured, TickOutcome(a, p, m, l, configured, live, armed).value)
  {
    hide TickOk, CheckLimits, CarryOk;
    var r := TickOutcome(a, p, m, l, configured, live, armed).value;
    if ArmedAtEntries(a, l, armed) {
      NoEntries(a, p, m.series, configured, r, Halted);
    } else if !a.valuationComplete {
      NoEntries(a, p, m.series, configured, r, EntriesSuspended);
    } else {
      var universe := Universe(configured, live);
      UniverseCovers(configured, live);
      UniverseKeeps(a, p, m, live, universe, |universe|);
      EntriesFilledIn(a, p, m.series, configured, universe, EntryLoop(a, p, m, configured, live), r, Halted);
    }
  }

  /** Equity is the limit's fraction or more below a positive base; a limit of zero is always reached. */
  predicate LimitReached(base: real, equity: real, limit: real) {
    limit <= 0.0 || (base > 0.0 && equity <= base * (1.0 - limit))
  }

  lemma LossReachesIff(base: real, equity: real, limit: real)
    ensures LossFraction(base, equity) >= limit <==> LimitReached(base, equity, limit)
  {
    if limit > 0.0 && base > 0.0 {
      var loss := (base - equity) / base;
      assert loss * base == base - equity;
      assert base * (1.0 - limit) == base - limit * base;
      if loss >= limit {
        MulOrder(limit, loss, base);
      } else {
        MulStrict(loss, limit, base);
      }
    }
  }

  /** Equity down the drawdown limit from its peak or the daily limit from its start of day, or an armed switch,
      enters nothing and halts; an account that cannot be valued enters nothing either, but is not halted for it. */
  lemma NoEntriesUnlessReleased(a: Account, p: Policy, m: Feeds, l: Limits, configured: seq<string>,
                                live: seq<LiveStrategy>, armed: bool)
    requires AllUsable(live)
    requires || armed || !a.valuationComplete || LimitReached(a.peakEquity, a.equity, l.maxAccountDrawdown)
             || LimitReached(a.dayStartEquity, a.equity, l.dailyLossLimit)
    ensures var r := TickOutcome(a, p, m, l, configured, live, armed);
      && r.Success? && r.value.entriesPlaced == 0
      && (r.value.halted <==>
            || armed
            || (&& a.valuationComplete
                && (|| LimitReached(a.peakEquity, a.equity, l.maxAccountDrawdown)
                    || LimitReached(a.dayStartEquity, a.equity, l.dailyLossLimit))))
      && forall i :: 0 <= i < |r.value.decisions| ==> r.value.decisions[i].outcome != Entered
  {
    hide LossFraction, LimitReached;
    LossReachesIff(a.peakEquity, a.equity, l.maxAccountDrawdown);
    LossReachesIff(a.dayStartEquity, a.equity, l.dailyLossLimit);
    FillingIn([], configured, Halted);
    FillingIn([], configured, EntriesSuspended);
  }

  // ---------------------------------------------------------------- one decision per symbol, or more

  function CountFor(decisions: seq<SymbolDecision>, symbol: string): nat {
    if decisions == [] then 0
    else
      CountFor(decisions[..|decisions| - 1], symbol) + if decisions[|decisions| - 1].symbol == symbol then 1 else 0
  }

  lemma CountForAppend(decisions: seq<SymbolDecision>, d: SymbolDecision, symbol: string)
    ensures CountFor(decisions + [d], symbol) == CountFor(decisions, symbol) + if d.symbol == symbol then 1 else 0
  {
    assert (decisions + [d])[..|decisions|] == decisions;
  }

  predicate AppendsOne(c: Carry, next: Carry, symbol: string) {
    && |next.decisions| == |c.decisions| + 1
    && next.decisions[..|c.decisions|] == c.decisions
    && next.decisions[|c.decisions|].symbol == symbol
  }

  lemma AttemptAppendsOne(a: Account, p: Policy, m: Feeds, c: Carry, here: string, s: LiveStrategy)
    requires Usable(s) && !Attempt(a, p, m, c, here, s).aborted
    ensures AppendsOne(c, Attempt(a, p, m, c, here, s), here)
  {
    hide SizePosition, Ev.ValidSpec, Actionable, Upper, TickRequest;
  }

  lemma AttemptDecidesOnce(a: Account, p: Policy, m: Feeds, c: Carry, here: string, s: LiveStrategy, symbol: string)
    requires Usable(s) && !Attempt(a, p, m, c, here, s).aborted
    ensures CountFor(Attempt(a, p, m, c, here, s).decisions, symbol)
         == CountFor(c.decisions, symbol) + if here == symbol then 1 else 0
  {
    hide Attempt, Usable;
    AttemptAppendsOne(a, p, m, c, here, s);
    var next := Attempt(a, p, m, c, here, s);
    assert next.decisions == c.decisions + [next.decisions[|c.decisions|]];
    CountForAppend(c.decisions, next.decisions[|c.decisions|], symbol);
  }

  lemma {:induction false} StrategiesDecide(a: Account, p: Policy, m: Feeds, c: Carry, here: string,
                                            strategies: seq<LiveStrategy>, k: nat, symbol: string)
    requires k <= |strategies| && AllUsable(strategies)
    requires !WalkStrategies(a, p, m, c, here, strategies, k).stopped
             && !WalkStrategies(a, p, m, c, here, strategies, k).aborted
    ensures CountFor(WalkStrategies(a, p, m, c, here, strategies, k).decisions, symbol)
         == CountFor(c.decisions, symbol) + if here == symbol then k else 0
  {
    hide Attempt, Usable;
    if k > 0 {
      var before := WalkStrategies(a, p, m, c, here, strategies, k - 1);
      if before.aborted {
        AbortedStays(a, p, m, before, here, strategies[k - 1]);
      }
      StrategiesDecide(a, p, m, c, here, strategies, k - 1, symbol);
      AttemptDecidesOnce(a, p, m, before, here, strategies[k - 1], symbol);
    }
  }

  lemma AbortedStays(a: Account, p: Policy, m: Feeds, c: Carry, here: string, s: LiveStrategy)
    requires Usable(s) && c.aborted
    ensures Attempt(a, p, m, c, here, s).aborted
  {
    hide SizePosition, Ev.ValidSpec, FirstOn, Upper;
  }

  /** How many decisions a symbol gets from the strategies deployed on it. */
  function Share(live: seq<LiveStrategy>, symbol: string): nat
    requires AllUsable(live)
  {
    if DeployedOn(live, symbol) == [] then 1 else |DeployedOn(live, symbol)|
  }

  lemma VisitDecides(a: Account, p: Policy, m: Feeds, c: Carry, live: seq<LiveStrategy>, here: string, symbol: string)
    requires AllUsable(live) && !Visit(a, p, m, c, live, here).stopped && !Visit(a, p, m, c, live, here).aborted
    ensures !c.aborted
    ensures CountFor(Visit(a, p, m, c, live, here).decisions, symbol)
         == CountFor(c.decisions, symbol) + if here == symbol then Share(live, symbol) else 0
  {
    hide Usable, AllUsable;
    var strategies := DeployedOn(live, here);
    if strategies == [] {
      CountForAppend(c.decisions, SymbolDecision(here, NoStrategy, None, None), symbol);
    } else {
      if c.aborted {
        AbortedThroughout(a, p, m, c, here, strategies, |strategies|);
      }
      StrategiesDecide(a, p, m, c, here, strategies, |strategies|, symbol);
    }
  }

  lemma {:induction false} UniverseDecides(a: Account, p: Policy, m: Feeds, c: Carry, live: seq<LiveStrategy>,
                                           universe: seq<string>, k: nat, symbol: string)
    requires k <= |universe| && AllUsable(live)
    requires !WalkUniverse(a, p, m, c, live, universe, k).stopped
             && !WalkUniverse(a, p, m, c, live, universe, k).aborted
    requires forall i, j :: 0 <= i < j < |universe| ==> universe[i] != universe[j]
    ensures CountFor(WalkUniverse(a, p, m, c, live, universe, k).decisions, symbol)
         == CountFor(c.decisions, symbol) + if symbol in universe[..k] then Share(live, symbol) else 0
  {
    hide AllUsable, Visit, Share;
    if k > 0 {
      VisitDecides(a, p, m, WalkUniverse(a, p, m, c, live, universe, k - 1), live, universe[k - 1], symbol);
      UniverseDecides(a, p, m, c, live, universe, k - 1, symbol);
      assert universe[..k] == universe[..k - 1] + [universe[k - 1]];
    }
  }

  lemma {:induction false} AbortedThroughout(a: Account, p: Policy, m: Feeds, c: Carry, here: string,
                                             strategies: seq<LiveStrategy>, k: nat)
    requires k <= |strategies| && AllUsable(strategies) && c.aborted
    ensures WalkStrategies(a, p, m, c, here, strategies, k).aborted
  {
    hide Attempt, Usable;
    if k > 0 {
      AbortedThroughout(a, p, m, c, here, strategies, k - 1);
      AbortedStays(a, p, m, WalkStrategies(a, p, m, c, here, strategies, k - 1), here, strategies[k - 1]);
    }
  }

  lemma {:induction false} NoneForAbsent(decisions: seq<SymbolDecision>, symbol: string)
    ensures CountFor(decisions, symbol) > 0 ==> symbol in Symbols(decisions)
  {
    if decisions != [] {
      var rest := decisions[..|decisions| - 1];
      NoneForAbsent(rest, symbol);
      if symbol in Symbols(rest) {
        var i :| 0 <= i < |rest| && rest[i].symbol == symbol;
        assert decisions[i].symbol == symbol;
      }
    }
  }

  lemma {:induction false} NothingRemains(seen: set<string>, symbols: seq<string>, outcome: DecisionOutcome)
    requires forall symbol :: symbol in symbols ==> symbol in seen
    ensures Remaining(seen, symbols, outcome) == []
  {
    if symbols != [] {
      assert symbols[|symbols| - 1] in symbols;
      NothingRemains(seen, symbols[..|symbols| - 1], outcome);
    }
  }

  /** A tick that runs to the end gives a symbol one decision for each strategy deployed on it, and one when
      there is none: exactly one per symbol if and only if no two live strategies share it. */
  lemma DecisionsPerSymbol(a: Account, p: Policy, m: Feeds, l: Limits, configured: seq<string>,
                           live: seq<LiveStrategy>, symbol: string)
    requires AllUsable(live) && !ArmedAtEntries(a, l, false) && a.valuationComplete
    requires !EntryLoop(a, p, m, configured, live).stopped && !EntryLoop(a, p, m, configured, live).aborted
    requires symbol in Universe(configured, live)
    ensures var r := TickOutcome(a, p, m, l, configured, live, false);
      && r.Success?
      && CountFor(r.value.decisions, symbol) == Share(live, symbol)
      && (CountFor(r.value.decisions, symbol) == 1 <==> |DeployedOn(live, symbol)| <= 1)
  {
    hide CheckLimits, Visit, Universe, Symbols;
    var universe, c := Universe(configured, live), EntryLoop(a, p, m, configured, live);
    UniverseCovers(configured, live);
    forall s | s in universe
      ensures CountFor(c.decisions, s) == Share(live, s) && s in Symbols(c.decisions)
    {
      UniverseDecides(a, p, m, Initial(a), live, universe, |universe|, s);
      assert universe[..|universe|] == universe;
      NoneForAbsent(c.decisions, s);
    }
    NothingRemains(Symbols(c.decisions), universe, Halted);
    assert c.decisions + [] == c.decisions;
  }
}
