/** What halts a tick and what lets a strategy enter, in the account's own figures. */
module TickFigures {
  import opened Common
  import opened Market
  import opened Sizing
  import opened TradingTick
  import opened TickProperties
  import Ev = Evaluator

  // ---------------------------------------------------------------- the account limits

  /** A released, fully valued account is halted at the limit check, before anything is entered, exactly when its
      equity has fallen the drawdown limit below its peak or the daily limit below its start of day; the drawdown is
      what is reported when both have. */
  lemma HaltedAtLimitsIff(a: Account, p: Policy, m: Feeds, l: Limits, configured: seq<string>, live: seq<LiveStrategy>)
    requires AllUsable(live) && a.valuationComplete
    ensures var r := TickOutcome(a, p, m, l, configured, live, false);
      var drawdown := LimitReached(a.peakEquity, a.equity, l.maxAccountDrawdown);
      var daily := LimitReached(a.dayStartEquity, a.equity, l.dailyLossLimit);
      && (drawdown || daily ==>
            && r.Success? && r.value.halted && !r.value.suspended && r.value.entriesPlaced == 0
            && (forall i :: 0 <= i < |r.value.decisions| ==> r.value.decisions[i].outcome == Halted)
            && r.value.breach == Some(if drawdown then MaxAccountDrawdown else DailyLossLimit))
      && (!drawdown && !daily ==>
            (r.Success? ==> r.value.breach.None?) && !ArmedAtEntries(a, l, false))
  {
    hide LossFraction, LimitReached, EntryLoop;
    LossReachesIff(a.peakEquity, a.equity, l.maxAccountDrawdown);
    LossReachesIff(a.dayStartEquity, a.equity, l.dailyLossLimit);
    FillingIn([], configured, Halted);
  }

  /** An account that cannot be valued is suspended and never halted for a limit. */
  lemma UnvaluedIsSuspended(a: Account, p: Policy, m: Feeds, l: Limits, configured: seq<string>,
                            live: seq<LiveStrategy>, armed: bool)
    requires AllUsable(live) && !a.valuationComplete
    ensures var r := TickOutcome(a, p, m, l, configured, live, armed);
      && r.Success? && r.value.suspended && r.value.halted == armed && r.value.breach.None?
      && forall i :: 0 <= i < |r.value.decisions| ==>
           r.value.decisions[i].outcome == if armed then Halted else EntriesSuspended
  {
    FillingIn([], configured, Halted);
    FillingIn([], configured, EntriesSuspended);
  }

  // ---------------------------------------------------------------- one strategy's turn

  lemma {:induction false} FirstOnMeaning(signals: seq<Signal>, bar: nat)
    ensures FirstOn(signals, bar).None? <==> forall i :: 0 <= i < |signals| ==> signals[i].barIndex != bar
    ensures FirstOn(signals, bar).Some? ==>
              exists i :: 0 <= i < |signals| && signals[i] == FirstOn(signals, bar).value && signals[i].barIndex == bar
                && forall j :: 0 <= j < i ==> signals[j].barIndex != bar
  {
    if signals != [] && signals[0].barIndex != bar {
      FirstOnMeaning(signals[1..], bar);
      assert forall i :: 1 <= i < |signals| ==> signals[i] == signals[1..][i - 1];
      if FirstOn(signals, bar).Some? {
        var i :| 0 <= i < |signals[1..]| && signals[1..][i] == FirstOn(signals[1..], bar).value
                 && signals[1..][i].barIndex == bar && forall j :: 0 <= j < i ==> signals[1..][j].barIndex != bar;
        assert signals[i + 1] == signals[1..][i];
      }
    }
  }

  /** What a strategy needs before its signal is looked at: candles that pass the checks, on a symbol not open. */
  predicate Considered(a: Account, m: Feeds, c: Carry, s: LiveStrategy) {
    && s.spec.Some?
    && var spelled := s.spec.value.symbol;
       && spelled in m.series && m.series[spelled].bars != [] && m.series[spelled].valid && !m.series[spelled].stale
       && Upper(spelled) !in a.openSymbols && spelled !in c.open
  }

  /** The signal a considered strategy acts on: the first raised on the last bar. */
  function SignalNow(m: Feeds, s: LiveStrategy): Option<Signal>
    requires Usable(s) && s.spec.Some?
    requires s.spec.value.symbol in m.series && m.series[s.spec.value.symbol].bars != []
  {
    Actionable(s.spec.value, m.series[s.spec.value.symbol].bars)
  }

  /** The request that sizes it: the account's equity, what cash, deployment and open count the tick carries, and the
      strategy's own multiplier. */
  predicate SizedFrom(a: Account, c: Carry, signal: Signal, s: LiveStrategy, r: Request) {
    && r.equity == a.equity && r.freeCash == c.freeCash && r.deployed == c.deployed && r.openPositions == |c.open|
    && r.entryPrice == signal.referencePrice && r.stopPrice == signal.stopPrice && r.side == signal.side
    && r.riskMultiplier == s.multiplier
  }

  /** A turn enters exactly when the strategy is considered, signals on the last bar, its filters are known, sizing
      accepts, and the bracket is placed. */
  lemma EntersIff(a: Account, p: Policy, m: Feeds, c: Carry, symbol: string, s: LiveStrategy)
    requires Usable(s)
    ensures var next := Attempt(a, p, m, c, symbol, s);
      next.placed == c.placed + 1
      <==> && Considered(a, m, c, s) && SignalNow(m, s).Some? && s.spec.value.symbol in m.filters && s.bracket.Placed?
           && SizePosition(TickRequest(a, c, SignalNow(m, s).value, s.multiplier), p,
                           m.filters[s.spec.value.symbol]).Accepted?
    ensures Considered(a, m, c, s) && SignalNow(m, s).Some? ==>
              SizedFrom(a, c, SignalNow(m, s).value, s, TickRequest(a, c, SignalNow(m, s).value, s.multiplier))
  {
    hide SizePosition, Ev.ValidSpec, Actionable, Upper;
  }

  /** A turn ends the entries of the tick exactly when its candles are stale or, once sized, the switch was armed or
      the position could not be protected. */
  lemma EndsEntriesIff(a: Account, p: Policy, m: Feeds, c: Carry, symbol: string, s: LiveStrategy)
    requires Usable(s) && !c.stopped
    ensures var next := Attempt(a, p, m, c, symbol, s);
      next.stopped
      <==> || (&& s.spec.Some? && s.spec.value.symbol in m.series && m.series[s.spec.value.symbol].bars != []
               && m.series[s.spec.value.symbol].valid && m.series[s.spec.value.symbol].stale)
           || (&& Considered(a, m, c, s) && SignalNow(m, s).Some? && s.spec.value.symbol in m.filters
               && (s.bracket.SwitchArmedMidTick? || s.bracket.PositionUnprotected?)
               && SizePosition(TickRequest(a, c, SignalNow(m, s).value, s.multiplier), p,
                               m.filters[s.spec.value.symbol]).Accepted?)
  {
    hide SizePosition, Ev.ValidSpec, Actionable, Upper, TickRequest;
  }

  /** The outcome of the decision a turn added, unless it left the tick without one. */
  function Told(before: Carry, after: Carry): Option<DecisionOutcome> {
    if |after.decisions| == |before.decisions| + 1 then Some(after.decisions[|before.decisions|].outcome) else None
  }

  /** A turn that stays in the tick adds one decision, of its own symbol and strategy. Its refusals are counted, and
      only an entry moves cash, deployment and the open symbols: by the notional its decision records. */
  predicate TurnMoves(c: Carry, next: Carry, symbol: string, s: LiveStrategy) {
    && (next.aborted || Told(c, next).Some?)
    && (Told(c, next).Some? ==>
          && next.decisions[..|c.decisions|] == c.decisions
          && (var d := next.decisions[|c.decisions|];
              && d.symbol == symbol && d.strategyId == Some(s.strategyId)
              && next.rejected == c.rejected + (if d.outcome in REFUSALS then 1 else 0)
              && next.halted == (c.halted || d.outcome == DataStale || d.outcome == Halted)
              && (if d.outcome == Entered then
                    && s.spec.Some? && next.placed == c.placed + 1 && next.open == c.open + {s.spec.value.symbol}
                    && d.notional == Some(c.freeCash - next.freeCash)
                    && next.deployed - c.deployed == c.freeCash - next.freeCash
                  else
                    && next.freeCash == c.freeCash && next.deployed == c.deployed && next.open == c.open
                    && next.placed == c.placed)))
  }

  const REFUSALS: set<DecisionOutcome> := {FiltersUnavailable, RiskRejected, OrderRejected}

  lemma NotedMoves(c: Carry, symbol: string, outcome: DecisionOutcome, s: LiveStrategy)
    ensures var noted := Noted(c, symbol, outcome, s.strategyId);
      && Told(c, noted) == Some(outcome)
      && (outcome !in REFUSALS + {DataStale, Halted, Entered} ==> TurnMoves(c, noted, symbol, s))
    ensures var refused := Refusal(c, symbol, outcome, s.strategyId);
      && Told(c, refused) == Some(outcome)
      && (outcome in REFUSALS ==> TurnMoves(c, refused, symbol, s))
  {
  }

  lemma StaleMoves(c: Carry, symbol: string, s: LiveStrategy)
    ensures var noted := Noted(c, symbol, DataStale, s.strategyId).(halted := true, stopped := true);
      Told(c, noted) == Some(DataStale) && TurnMoves(c, noted, symbol, s)
  {
  }

  lemma SentMoves(c: Carry, symbol: string, s: LiveStrategy, notional: real)
    requires s.spec.Some?
    ensures var sent := Sent(c, symbol, s, s.spec.value.symbol, notional, s.bracket);
      && (sent.aborted || Told(c, sent) in {Some(Entered), Some(OrderRejected), Some(Halted)})
      && (Told(c, sent).Some? ==> Told(c, sent).value in {Entered, OrderRejected, Halted})
      && (!c.aborted ==> TurnMoves(c, sent, symbol, s))
  {
  }

  /** What a turn's decision says became of the strategy, and what the turn moved. */
  lemma TurnInFigures(a: Account, p: Policy, m: Feeds, c: Carry, symbol: string, s: LiveStrategy)
    requires Usable(s) && !c.aborted
    ensures TurnMoves(c, Attempt(a, p, m, c, symbol, s), symbol, s)
    ensures var outcome := Told(c, Attempt(a, p, m, c, symbol, s));
      && (outcome == Some(SpecMissing) <==> s.spec.None?)
      && (s.spec.Some? ==>
            var spelled := s.spec.value.symbol;
            var missing := spelled !in m.series || m.series[spelled].bars == [];
            && (outcome == Some(NoMarketData) <==> missing)
            && (outcome == Some(DataInvalid) <==> !missing && !m.series[spelled].valid)
            && (outcome == Some(DataStale) <==> !missing && m.series[spelled].valid && m.series[spelled].stale)
            && (outcome == Some(PositionAlreadyOpen) <==>
                  !missing && m.series[spelled].valid && !m.series[spelled].stale && !Considered(a, m, c, s))
            && (outcome == Some(NoSignal) <==> Considered(a, m, c, s) && SignalNow(m, s).None?)
            && (outcome == Some(FiltersUnavailable) <==>
                  Considered(a, m, c, s) && SignalNow(m, s).Some? && spelled !in m.filters))
  {
    hide SizePosition, Ev.ValidSpec, Actionable, Upper, TickRequest, Noted, Refusal, Sent, TurnMoves, Told;
    NotedMoves(c, symbol, SpecMissing, s);
    NotedMoves(c, symbol, NoMarketData, s);
    NotedMoves(c, symbol, DataInvalid, s);
    NotedMoves(c, symbol, PositionAlreadyOpen, s);
    NotedMoves(c, symbol, NoSignal, s);
    NotedMoves(c, symbol, FiltersUnavailable, s);
    NotedMoves(c, symbol, RiskRejected, s);
    StaleMoves(c, symbol, s);
    if s.spec.Some? {
      forall notional
        ensures var sent := Sent(c, symbol, s, s.spec.value.symbol, notional, s.bracket);
          && (Told(c, sent).Some? ==> Told(c, sent).value in {Entered, OrderRejected, Halted})
          && TurnMoves(c, sent, symbol, s)
      {
        SentMoves(c, symbol, s, notional);
      }
    }
  }

  // ---------------------------------------------------------------- the order of the universe

  /** Upper case maps letters to their capitals and leaves everything else alone. */
  lemma UpperMeaning(s: string)
    ensures |Upper(s)| == |s| && Upper(Upper(s)) == Upper(s)
    ensures forall i :: 0 <= i < |s| ==>
              if 'a' <= s[i] <= 'z' then Upper(s)[i] as int == s[i] as int - 'a' as int + 'A' as int
              else Upper(s)[i] == s[i]
  {
    assert forall i :: 0 <= i < |s| ==> UpperChar(UpperChar(s[i])) == UpperChar(s[i]);
  }

  /** No string precedes one that precedes it, unless they are equal; and one of any two does. */
  lemma {:induction false} PrecedesIsTotal(a: string, b: string)
    ensures Precedes(a, b) || Precedes(b, a)
    ensures Precedes(a, b) && Precedes(b, a) ==> a == b
  {
    if a != [] && b != [] && a[0] == b[0] {
      PrecedesIsTotal(a[1..], b[1..]);
      assert a == [a[0]] + a[1..] && b == [b[0]] + b[1..];
    }
  }

  predicate InOrder(s: seq<string>) {
    forall i :: 0 <= i < |s| - 1 ==> Precedes(s[i], s[i + 1])
  }

  lemma {:induction false} InsertInOrder(x: string, s: seq<string>)
    requires InOrder(s)
    ensures InOrder(Insert(x, s))
    ensures Insert(x, s)[0] == x || (s != [] && Insert(x, s)[0] == s[0])
  {
    hide Precedes;
    if s != [] && !Precedes(x, s[0]) {
      PrecedesIsTotal(x, s[0]);
      assert InOrder(s[1..]) by {
        assert forall i :: 0 <= i < |s[1..]| ==> s[1..][i] == s[i + 1];
      }
      InsertInOrder(x, s[1..]);
      var rest := Insert(x, s[1..]);
      assert Precedes(s[0], rest[0]);
      assert Insert(x, s) == [s[0]] + rest;
    }
  }

  lemma {:induction false} SortedInOrder(s: seq<string>)
    ensures InOrder(Sorted(s))
  {
    hide Precedes;
    if s != [] {
      SortedInOrder(s[1..]);
      InsertInOrder(s[0], Sorted(s[1..]));
    }
  }

  /** What comes before an addition keeps its places. */
  lemma {:induction false} DistinctExtends(s: seq<string>, t: seq<string>)
    ensures Distinct(s) <= Distinct(s + t)
  {
    if t == [] {
      assert s + t == s;
    } else {
      DistinctExtends(s, t[..|t| - 1]);
      assert (s + t)[..|s + t| - 1] == s + t[..|t| - 1];
    }
  }

  /** A list without repetitions is kept as it is. */
  lemma {:induction false} DistinctKeeps(s: seq<string>)
    requires forall i, j :: 0 <= i < j < |s| ==> s[i] != s[j]
    ensures Distinct(s) == s
  {
    if s != [] {
      DistinctKeeps(s[..|s| - 1]);
    }
  }

  /** The configured symbols come first, in their order. */
  lemma ConfiguredComeFirst(configured: seq<string>, live: seq<LiveStrategy>)
    ensures Distinct(configured) <= Universe(configured, live)
    ensures (forall i, j :: 0 <= i < j < |configured| ==> configured[i] != configured[j]) ==>
              configured <= Universe(configured, live)
    ensures InOrder(Sorted(Distinct(Keys(live))))
  {
    DistinctExtends(configured, Sorted(Distinct(Keys(live))));
    if forall i, j :: 0 <= i < j < |configured| ==> configured[i] != configured[j] {
      DistinctKeeps(configured);
    }
    SortedInOrder(Distinct(Keys(live)));
  }
}
