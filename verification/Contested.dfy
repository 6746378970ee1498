/** Bars on which two rules fire: exactly when they make the engines' books differ. */
module Contested {
  import opened Market
  import opened Trades
  import opened Backtest
  import opened Verifier
  import opened Equivalence
  import Ev = Evaluator

  /** Two maps over the same bars, that differ only in the side taken. */
  predicate Rivals(f: SignalMap, l: SignalMap) {
    f.Keys == l.Keys && forall i :: i in f && f[i] != l[i] ==> f[i].side != l[i].side
  }

  /** At none of the bars reached between trades do the maps hold different signals of which sizing accepts
      one. */
  predicate Uncontested(setup: Setup, f: SignalMap, l: SignalMap, bars: seq<Kline>, cursor: nat, equity: real)
    decreases |bars| - cursor
  {
    if cursor + 1 >= |bars| then true
    else if cursor !in f || cursor !in l then Uncontested(setup, f, l, bars, cursor + 1, equity)
    else
      var mine := EntrySizing(setup, f[cursor], equity, bars[cursor + 1]);
      var yours := EntrySizing(setup, l[cursor], equity, bars[cursor + 1]);
      if f[cursor] != l[cursor] && (mine.Accepted? || yours.Accepted?) then false
      else if mine.Rejected? then Uncontested(setup, f, l, bars, cursor + 1, equity)
      else
        var t := TripOf(setup, bars, cursor, f[cursor], mine);
        Uncontested(setup, f, l, bars, t.exitIndex, equity + TripResult(setup.costs, t, mine.notional))
  }

  /** The same entries on the same sides. */
  predicate SameEntries(a: seq<RoundTrip>, b: seq<RoundTrip>) {
    |a| == |b| && forall i :: 0 <= i < |a| ==> a[i].entryIndex == b[i].entryIndex && a[i].side == b[i].side
  }

  /** A replay's first trip enters after the cursor. */
  lemma {:induction false} FirstEntersLater(setup: Setup, sig: SignalMap, bars: seq<Kline>, cursor: nat, equity: real)
    ensures var trips := Replay(setup, sig, bars, cursor, equity).trips; trips != [] ==> trips[0].entryIndex > cursor
    decreases |bars| - cursor
  {
    hide EntrySizing, TripResult;
    if cursor + 1 < |bars| && (cursor !in sig || EntrySizing(setup, sig[cursor], equity, bars[cursor + 1]).Rejected?) {
      FirstEntersLater(setup, sig, bars, cursor + 1, equity);
    }
  }

  lemma RejectedMovesOn(setup: Setup, sig: SignalMap, bars: seq<Kline>, cursor: nat, equity: real)
    requires cursor + 1 < |bars|
    requires cursor in sig ==> EntrySizing(setup, sig[cursor], equity, bars[cursor + 1]).Rejected?
    ensures Replay(setup, sig, bars, cursor, equity) == Replay(setup, sig, bars, cursor + 1, equity)
  {
    hide EntrySizing, TripResult, TripOf;
  }

  /** A contested entry shows in the trips: on the other side, or on a bar the other engine does not enter. */
  lemma ContestShows(setup: Setup, f: SignalMap, l: SignalMap, bars: seq<Kline>, cursor: nat, equity: real)
    requires Rivals(f, l) && cursor + 1 < |bars| && cursor in f && f[cursor] != l[cursor]
    requires EntrySizing(setup, f[cursor], equity, bars[cursor + 1]).Accepted?
             || EntrySizing(setup, l[cursor], equity, bars[cursor + 1]).Accepted?
    ensures !SameEntries(Replay(setup, f, bars, cursor, equity).trips, Replay(setup, l, bars, cursor, equity).trips)
  {
    hide EntrySizing, TripResult, Replay;
    var mine := EntrySizing(setup, f[cursor], equity, bars[cursor + 1]);
    var yours := EntrySizing(setup, l[cursor], equity, bars[cursor + 1]);
    var a, b := Replay(setup, f, bars, cursor, equity).trips, Replay(setup, l, bars, cursor, equity).trips;
    if mine.Accepted? {
      ReplayTakes(setup, f, bars, cursor, equity);
      assert a[0].entryIndex == cursor + 1 && a[0].side == f[cursor].side;
    } else {
      RejectedMovesOn(setup, f, bars, cursor, equity);
      FirstEntersLater(setup, f, bars, cursor + 1, equity);
    }
    if yours.Accepted? {
      ReplayTakes(setup, l, bars, cursor, equity);
      assert b[0].entryIndex == cursor + 1 && b[0].side == l[cursor].side;
    } else {
      RejectedMovesOn(setup, l, bars, cursor, equity);
      FirstEntersLater(setup, l, bars, cursor + 1, equity);
    }
    FirstTripsDiffer(a, b);
  }

  lemma FirstTripsDiffer(a: seq<RoundTrip>, b: seq<RoundTrip>)
    requires a != [] || b != []
    requires a != [] && b != [] ==> a[0].entryIndex != b[0].entryIndex || a[0].side != b[0].side
    ensures !SameEntries(a, b)
  {
  }

  lemma SameEntriesTail(t: RoundTrip, a: seq<RoundTrip>, b: seq<RoundTrip>)
    ensures SameEntries([t] + a, [t] + b) <==> SameEntries(a, b)
  {
    if SameEntries([t] + a, [t] + b) {
      forall i | 0 <= i < |a|
        ensures a[i].entryIndex == b[i].entryIndex && a[i].side == b[i].side
      {
        assert a[i] == ([t] + a)[i + 1] && b[i] == ([t] + b)[i + 1];
      }
    }
  }

  /** Replays over rival maps enter alike exactly when no entry is contested, and then they are one replay. */
  lemma {:induction false} ReplaysAgreeIff(setup: Setup, f: SignalMap, l: SignalMap, bars: seq<Kline>, cursor: nat,
                                           equity: real)
    requires Rivals(f, l)
    ensures var a, b := Replay(setup, f, bars, cursor, equity), Replay(setup, l, bars, cursor, equity);
      && (SameEntries(a.trips, b.trips) <==> Uncontested(setup, f, l, bars, cursor, equity))
      && (Uncontested(setup, f, l, bars, cursor, equity) ==> a == b)
    decreases |bars| - cursor
  {
    hide EntrySizing, TripResult, SameEntries, Rivals;
    if cursor + 1 >= |bars| {
      assert SameEntries([], []) by { NoEntriesAlike(); }
    } else {
      assert f.Keys == l.Keys by { RivalKeys(f, l); }
      if cursor !in f {
        assert cursor !in l;
        RejectedMovesOn(setup, f, bars, cursor, equity);
        RejectedMovesOn(setup, l, bars, cursor, equity);
        ReplaysAgreeIff(setup, f, l, bars, cursor + 1, equity);
      } else {
        assert cursor in l;
        SignalledAgreeIff(setup, f, l, bars, cursor, equity);
      }
    }
  }

  lemma NoEntriesAlike()
    ensures SameEntries([], [])
  {
  }

  lemma RivalKeys(f: SignalMap, l: SignalMap)
    requires Rivals(f, l)
    ensures f.Keys == l.Keys
  {
  }

  lemma {:induction false} SignalledAgreeIff(setup: Setup, f: SignalMap, l: SignalMap, bars: seq<Kline>, cursor: nat,
                                             equity: real)
    requires Rivals(f, l) && f.Keys == l.Keys && cursor + 1 < |bars| && cursor in f && cursor in l
    ensures var a, b := Replay(setup, f, bars, cursor, equity), Replay(setup, l, bars, cursor, equity);
      && (SameEntries(a.trips, b.trips) <==> Uncontested(setup, f, l, bars, cursor, equity))
      && (Uncontested(setup, f, l, bars, cursor, equity) ==> a == b)
    decreases |bars| - cursor, 0
  {
    hide EntrySizing, TripResult, SameEntries, Rivals;
    var mine := EntrySizing(setup, f[cursor], equity, bars[cursor + 1]);
    var yours := EntrySizing(setup, l[cursor], equity, bars[cursor + 1]);
    if f[cursor] != l[cursor] && (mine.Accepted? || yours.Accepted?) {
      ContestShows(setup, f, l, bars, cursor, equity);
    } else if mine.Rejected? {
      RejectedMovesOn(setup, f, bars, cursor, equity);
      RejectedMovesOn(setup, l, bars, cursor, equity);
      ReplaysAgreeIff(setup, f, l, bars, cursor + 1, equity);
    } else {
      var t := TripOf(setup, bars, cursor, f[cursor], mine);
      var after := equity + TripResult(setup.costs, t, mine.notional);
      ReplayTakes(setup, f, bars, cursor, equity);
      ReplayTakes(setup, l, bars, cursor, equity);
      ReplaysAgreeIff(setup, f, l, bars, t.exitIndex, after);
      SameEntriesTail(t, Replay(setup, f, bars, t.exitIndex, after).trips,
                      Replay(setup, l, bars, t.exitIndex, after).trips);
    }
  }

  // ---------------------------------------------------------------- the engines

  /** The signals the engines keep are rivals: a bar's signals take different sides. */
  lemma KeptAreRivals(spec: Ev.StrategySpec, bars: seq<Kline>)
    requires Ev.ValidSpec(spec)
    ensures Rivals(FirstSignals(Ev.Signals(spec, bars)), LastSignals(Ev.Signals(spec, bars)))
  {
    var signals := Ev.Signals(spec, bars);
    hide Ev.ValidSpec, Ev.Signals, LevelsOrdered;
    Ev.SignalsChronological(spec, bars);
    var f, l := FirstSignals(signals), LastSignals(signals);
    forall i: nat
      ensures i in f <==> i in l
    {
      KeptAreRaised(signals, i);
    }
    forall i | i in f && f[i] != l[i]
      ensures f[i].side != l[i].side
    {
      KeptAreRaised(signals, i);
    }
  }

  /** One map contests nothing with itself. */
  lemma {:induction false} SameMapUncontested(setup: Setup, f: SignalMap, bars: seq<Kline>, cursor: nat, equity: real)
    ensures Uncontested(setup, f, f, bars, cursor, equity)
    decreases |bars| - cursor
  {
    hide EntrySizing, TripResult;
    if cursor + 1 < |bars| {
      if cursor !in f || EntrySizing(setup, f[cursor], equity, bars[cursor + 1]).Rejected? {
        SameMapUncontested(setup, f, bars, cursor + 1, equity);
      } else {
        var sizing := EntrySizing(setup, f[cursor], equity, bars[cursor + 1]);
        var t := TripOf(setup, bars, cursor, f[cursor], sizing);
        SameMapUncontested(setup, f, bars, t.exitIndex, equity + TripResult(setup.costs, t, sizing.notional));
      }
    }
  }

  /** A spec that never signals twice on a bar contests nothing. */
  lemma OneSignalIsUncontested(spec: Ev.StrategySpec, bars: seq<Kline>, setup: Setup)
    requires Ev.ValidSpec(spec) && OneSignalPerBar(Ev.Signals(spec, bars))
    ensures var signals := Ev.Signals(spec, bars);
      Uncontested(setup, FirstSignals(signals), LastSignals(signals), bars, 0, setup.startingEquity)
  {
    hide Ev.ValidSpec, Ev.Signals, Uncontested;
    Ev.SignalsChronological(spec, bars);
    KeptSignalsAgreeIff(Ev.Signals(spec, bars));
    SameMapUncontested(setup, FirstSignals(Ev.Signals(spec, bars)), bars, 0, setup.startingEquity);
  }

  /** The engines' books agree, trade by trade, if and only if no bar reached between trades raised two signals
      of which sizing accepts one; and then the final equities differ by exactly the cost of a forced close. */
  lemma BooksAgreeIff(spec: Ev.StrategySpec, bars: seq<Kline>, setup: Setup)
    requires Ev.ValidSpec(spec)
    ensures var f, l := FirstSignals(Ev.Signals(spec, bars)), LastSignals(Ev.Signals(spec, bars));
      var end, replayed := FinalState(setup, f, bars), Replay(setup, l, bars, 0, setup.startingEquity);
      && f.Keys == l.Keys
      && (SameTrips(setup.costs, end.trades, replayed.trips)
        <==> Uncontested(setup, f, l, bars, 0, setup.startingEquity))
      && (Uncontested(setup, f, l, bars, 0, setup.startingEquity) ==>
            replayed.equity == end.equity + FinalGap(setup.costs, bars, end.trades))
  {
    hide Ev.ValidSpec, Ev.Signals, FinalState, FinalGap, SameTrips, SameEntries, Rivals;
    var f, l := FirstSignals(Ev.Signals(spec, bars)), LastSignals(Ev.Signals(spec, bars));
    KeptAreRivals(spec, bars);
    RivalKeys(f, l);
    EnginesAgreeOnMap(setup, f, bars);
    ReplaysAgreeIff(setup, f, l, bars, 0, setup.startingEquity);
    var trades := FinalState(setup, f, bars).trades;
    var a, b := Replay(setup, f, bars, 0, setup.startingEquity).trips,
      Replay(setup, l, bars, 0, setup.startingEquity).trips;
    if SameTrips(setup.costs, trades, b) {
      SameTripsSameEntries(setup.costs, trades, a, b);
    }
  }

  lemma SameTripsSameEntries(costs: CostModel, trades: seq<Trade>, a: seq<RoundTrip>, b: seq<RoundTrip>)
    requires SameTrips(costs, trades, a) && SameTrips(costs, trades, b)
    ensures SameEntries(a, b)
  {
    forall i | 0 <= i < |a|
      ensures a[i].entryIndex == b[i].entryIndex && a[i].side == b[i].side
    {
      assert SameTrip(costs, trades[i], a[i]) && SameTrip(costs, trades[i], b[i]);
    }
  }
}
