/** One position per symbol within a tick: exactly which candle maps guarantee it. */
module TickSpelling {
  import opened Common
  import opened Market
  import opened Sizing
  import opened TradingTick
  import opened TickProperties
  import opened EagerStrategy
  import Ev = Evaluator

  /** Whatever else a tick is given, it enters no symbol twice. */
  ghost predicate NeverEntersTwice(series: map<string, Candles>) {
    forall a: Account, p: Policy, filters: map<string, Filters>, l: Limits, configured: seq<string>,
           live: seq<LiveStrategy>, armed: bool ::
      AllUsable(live) && TickOutcome(a, p, Feeds(series, filters), l, configured, live, armed).Success? ==>
        EnteredOnce(TickOutcome(a, p, Feeds(series, filters), l, configured, live, armed).value.decisions)
  }

  // ---------------------------------------------------------------- two spellings, two entries

  const ROOMY := Policy(0.01, 1.0, 1.0, 2)
  const UNFILTERED := Filters(0.0, 0.0, 0.0, 0.0)
  const FLAT := Account(100.0, 100.0, 100.0, 100.0, 0.0, {}, true)
  const LOOSE := Limits(1.0, 1.0)

  lemma {:induction false} FirstOnLast(earlier: seq<Signal>, s: Signal)
    requires forall i :: 0 <= i < |earlier| ==> earlier[i].barIndex != s.barIndex
    ensures FirstOn(earlier + [s], s.barIndex) == Some(s)
  {
    if earlier == [] {
      assert (earlier + [s])[0] == s;
    } else {
      assert (earlier + [s])[1..] == earlier[1..] + [s];
      FirstOnLast(earlier[1..], s);
    }
  }

  lemma EagerActs(symbol: string, bars: seq<Kline>)
    requires 1 <= |symbol| <= 20 && bars != []
    ensures Ev.ValidSpec(EagerSpec(symbol))
    ensures Actionable(EagerSpec(symbol), bars) == Some(EagerSignal(bars, |bars| - 1))
  {
    var spec, last := EagerSpec(symbol), |bars| - 1;
    EagerIsValid(symbol);
    EagerFires(symbol, bars, last);
    var earlier := Ev.SignalsOf(spec, last, bars, map[]);
    Ev.SignalsOfChronological(spec, last, bars, map[]);
    assert Ev.ComputedFor(spec.indicators, bars) == map[];
    assert Ev.Signals(spec, bars) == earlier + [EagerSignal(bars, last)];
    FirstOnLast(earlier, EagerSignal(bars, last));
  }

  lemma EagerSized(c: real, freeCash: real, deployed: real, open: int)
    requires c > 0.0 && freeCash >= 10.0 && deployed <= 90.0 && open < 2
    ensures var r := Request(100.0, freeCash, c, c - c * 0.1, Long, open, deployed, 1.0);
      SizePosition(r, ROOMY, UNFILTERED).Accepted? && SizePosition(r, ROOMY, UNFILTERED).notional == 10.0
  {
    var r := Request(100.0, freeCash, c, c - c * 0.1, Long, open, deployed, 1.0);
    assert Guard(r, ROOMY).None?;
    assert StopDistance(r) == 0.1 by { TenthOf(c); }
    assert NotionalByRisk(r, ROOMY) == 10.0;
    assert CappedNotional(r, ROOMY) == 10.0;
    var q := 10.0 / c;
    assert q * c == 10.0;
    assert q > 0.0;
  }

  lemma TenthOf(c: real)
    requires c > 0.0
    ensures AbsOf(c - (c - c * 0.1)) / c == 0.1
  {
  }

  function Eager(id: string, symbol: string): LiveStrategy {
    LiveStrategy(id, Some(EagerSpec(symbol)), 1.0, Placed)
  }

  /** An eager strategy on a symbol neither held nor entered under its spelling enters. */
  lemma EagerEnters(m: Feeds, c: Carry, id: string, spelled: string)
    requires Quoted(m.series, spelled) && spelled in m.filters && m.filters[spelled] == UNFILTERED
    requires spelled !in c.open && c.freeCash >= 10.0 && c.deployed <= 90.0 && |c.open| < 2
    ensures Usable(Eager(id, spelled))
    ensures Attempt(FLAT, ROOMY, m, c, Upper(spelled), Eager(id, spelled))
         == Sent(c, Upper(spelled), Eager(id, spelled), spelled, 10.0, Placed)
  {
    var bars := m.series[spelled].bars;
    EagerActs(spelled, bars);
    EagerSized(bars[|bars| - 1].close, c.freeCash, c.deployed, |c.open|);
    hide SizePosition, Actionable, Ev.ValidSpec, Upper;
  }

  function EnteredAs(symbol: string, id: string): SymbolDecision {
    SymbolDecision(symbol, Entered, Some(id), Some(10.0))
  }

  /** A candle map that holds one symbol under two spellings admits a tick that enters it twice. */
  lemma TwoSpellingsEnterTwice(series: map<string, Candles>, j: string, k: string)
    requires Quoted(series, j) && Quoted(series, k) && j != k && Upper(j) == Upper(k)
    ensures var live := [Eager("first", j), Eager("second", k)];
      var m := Feeds(series, map[j := UNFILTERED, k := UNFILTERED]);
      && AllUsable(live)
      && TickOutcome(FLAT, ROOMY, m, LOOSE, [], live, false).Success?
      && TickOutcome(FLAT, ROOMY, m, LOOSE, [], live, false).value.decisions
         == [EnteredAs(Upper(j), "first"), EnteredAs(Upper(j), "second")]
  {
    hide Upper, Quoted;
    var u := Upper(j);
    var live := [Eager("first", j), Eager("second", k)];
    var m := Feeds(series, map[j := UNFILTERED, k := UNFILTERED]);
    var start := Initial(FLAT);
    EagerEnters(m, start, "first", j);
    var one := Sent(start, u, live[0], j, 10.0, Placed);
    EagerEnters(m, one, "second", k);
    var two := Sent(one, u, live[1], k, 10.0, Placed);
    TwoDeployed(live, u);
    assert WalkStrategies(FLAT, ROOMY, m, start, u, live, 0) == start;
    assert WalkStrategies(FLAT, ROOMY, m, start, u, live, 1) == one;
    assert WalkStrategies(FLAT, ROOMY, m, start, u, live, 2) == two;
    assert Visit(FLAT, ROOMY, m, start, live, u) == two;
    assert WalkUniverse(FLAT, ROOMY, m, start, live, [u], 0) == start;
    assert WalkUniverse(FLAT, ROOMY, m, start, live, [u], 1) == two;
    assert EntryLoop(FLAT, ROOMY, m, [], live) == two;
    assert two.decisions[0].symbol == u;
    NothingRemains(Symbols(two.decisions), [u], Halted);
    assert CheckLimits(FLAT, LOOSE).None?;
  }

  const ONE_BAR: seq<Kline> := [Candle(0, 1, 100.0, 100.0, 100.0, 100.0, 0.0)]

  /** The least such map: one bar under "A" and under "a", two entries on A. */
  lemma TwoEntriesOnA()
    ensures var series := map["A" := Candles(ONE_BAR, true, false), "a" := Candles(ONE_BAR, true, false)];
      var m := Feeds(series, map["A" := UNFILTERED, "a" := UNFILTERED]);
      var live := [Eager("first", "A"), Eager("second", "a")];
      && AllUsable(live)
      && TickOutcome(FLAT, ROOMY, m, LOOSE, [], live, false).Success?
      && TickOutcome(FLAT, ROOMY, m, LOOSE, [], live, false).value.decisions
         == [EnteredAs("A", "first"), EnteredAs("A", "second")]
  {
    var series := map["A" := Candles(ONE_BAR, true, false), "a" := Candles(ONE_BAR, true, false)];
    assert "A"[0] != "a"[0];
    assert Upper("A") == "A" && Upper("a") == "A";
    hide Upper, TickOutcome;
    TwoSpellingsEnterTwice(series, "A", "a");
  }

  /** Two strategies on one upper-case symbol: it is the universe, and both are deployed on it. */
  lemma TwoDeployed(live: seq<LiveStrategy>, u: string)
    requires |live| == 2 && AllUsable(live) && KeyOf(live[0]) == KeyOf(live[1]) == u
    ensures DeployedOn(live, u) == live
    ensures Universe([], live) == [u]
  {
    hide Usable, KeyOf;
    assert live[..1] == [live[0]] && live[..1][..0] == [];
    assert DeployedOn(live[..1], u) == [live[0]];
    assert Keys(live) == [u, u];
    assert [u, u][..1] == [u] && [u][..0] == [];
    assert Distinct([u]) == [u];
    assert Distinct([u, u]) == [u];
    assert Sorted([u]) == [u];
    assert [] + [u] == [u];
  }

  /** A tick can never enter a symbol twice if and only if no two spellings in the candle map, both with usable
      candles, are one symbol in upper case. */
  lemma {:induction false} NeverEntersTwiceIff(series: map<string, Candles>)
    ensures NeverEntersTwice(series) <==> DistinctSpellings(series)
  {
    hide Quoted, Upper, EnteredOnce;
    if DistinctSpellings(series) {
      forall a: Account, p: Policy, filters: map<string, Filters>, l: Limits, configured: seq<string>,
             live: seq<LiveStrategy>, armed: bool
        | AllUsable(live) && TickOutcome(a, p, Feeds(series, filters), l, configured, live, armed).Success?
        ensures EnteredOnce(TickOutcome(a, p, Feeds(series, filters), l, configured, live, armed).value.decisions)
      {
        TickKeepsCaps(a, p, Feeds(series, filters), l, configured, live, armed);
      }
    } else {
      var j, k :| j in series && k in series && Quoted(series, j) && Quoted(series, k) && Upper(j) == Upper(k)
        && j != k;
      TwoSpellingsEnterTwice(series, j, k);
      TwiceIsNotOnce(Upper(j));
    }
  }

  lemma TwiceIsNotOnce(u: string)
    ensures !EnteredOnce([EnteredAs(u, "first"), EnteredAs(u, "second")])
  {
    var decisions := [EnteredAs(u, "first"), EnteredAs(u, "second")];
    assert decisions[0].symbol == decisions[1].symbol;
  }

  /** The service keys its candles by upper-cased settings, which is enough: a strategy that spells its symbol
      otherwise finds no candles. */
  lemma UpperCaseKeysAreDistinct(series: map<string, Candles>)
    requires forall k :: k in series ==> Upper(k) == k
    ensures DistinctSpellings(series) && NeverEntersTwice(series)
  {
    hide Upper, Quoted;
    NeverEntersTwiceIff(series);
  }
}
