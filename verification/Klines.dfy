/** Fetching closed candles page by page, against an exchange that serves a finite, ascending history. */
module Klines {
  import opened Common
  import opened Market

  /** The most rows one request returns. */
  const MAX_LIMIT := 1000

  /** A history in which consecutive candles open at least one interval apart. */
  predicate Spaced(history: seq<Kline>, interval: int) {
    0 < interval && forall i, j :: 0 <= i < j < |history| ==> history[i].openTime + interval <= history[j].openTime
  }

  predicate Ascending(bars: seq<Kline>) {
    forall i, j :: 0 <= i < j < |bars| ==> bars[i].openTime < bars[j].openTime
  }

  // ---------------------------------------------------------------- the exchange

  function From(history: seq<Kline>, cursor: int): seq<Kline> {
    if history == [] || history[0].openTime >= cursor then history else From(history[1..], cursor)
  }

  /** What one request with a start time returns. */
  function Page(history: seq<Kline>, cursor: int): seq<Kline> {
    AtMost(From(history, cursor), MAX_LIMIT)
  }

  /** What a request without a start time returns: the latest rows. */
  function LatestPage(history: seq<Kline>): seq<Kline> {
    if |history| <= MAX_LIMIT then history else history[|history| - MAX_LIMIT..]
  }

  /** Where a fetch begins: at the start given, else at the first of the latest rows. */
  function StartOf(history: seq<Kline>, start: Option<int>): int {
    if start.Some? then start.value
    else if history == [] then 0
    else LatestPage(history)[0].openTime
  }

  // ---------------------------------------------------------------- what a fetch promises

  predicate Eligible(bar: Kline, start: int, end: Option<int>, now: int) {
    && bar.openTime >= start
    && bar.closeTime <= now
    && (end.Some? ==> bar.closeTime <= end.value)
  }

  /** Every eligible candle of a history, in order. */
  function Wanted(history: seq<Kline>, start: int, end: Option<int>, now: int): seq<Kline> {
    if history == [] then []
    else
      var rest, last := Wanted(history[..|history| - 1], start, end, now), history[|history| - 1];
      if Eligible(last, start, end, now) then rest + [last] else rest
  }

  /** The first `maxBars` eligible candles. */
  function Fetched(history: seq<Kline>, start: int, end: Option<int>, now: int, maxBars: int): seq<Kline> {
    AtMost(Wanted(history, start, end, now), maxBars)
  }

  // ---------------------------------------------------------------- the fetch loop

  function InsertByOpen(bar: Kline, sorted: seq<Kline>): seq<Kline> {
    if sorted == [] || bar.openTime <= sorted[0].openTime then [bar] + sorted
    else [sorted[0]] + InsertByOpen(bar, sorted[1..])
  }

  function SortedByOpen(bars: seq<Kline>): seq<Kline> {
    if bars == [] then [] else InsertByOpen(bars[0], SortedByOpen(bars[1..]))
  }

  lemma {:induction false} SortKeepsAscending(bars: seq<Kline>)
    requires Ascending(bars)
    ensures SortedByOpen(bars) == bars
  {
    if bars != [] {
      SortKeepsAscending(bars[1..]);
    }
  }

  /** The rows before `at` are the ones that open before the cursor. */
  predicate CursorAt(history: seq<Kline>, cursor: int, at: nat) {
    && at <= |history|
    && (forall i :: 0 <= i < at ==> history[i].openTime < cursor)
    && forall i :: at <= i < |history| ==> history[i].openTime >= cursor
  }

  lemma {:induction false} FromSkipsEarlier(history: seq<Kline>, cursor: int, at: nat)
    requires CursorAt(history, cursor, at)
    ensures From(history, cursor) == history[at..]
  {
    if at > 0 {
      FromSkipsEarlier(history[1..], cursor, at - 1);
    }
  }

  lemma {:induction false} StartIndex(history: seq<Kline>, interval: int, start: int) returns (at: nat)
    requires Spaced(history, interval)
    ensures CursorAt(history, start, at)
  {
    if history == [] || history[0].openTime >= start {
      return 0;
    }
    var rest := StartIndex(history[1..], interval, start);
    forall i | 0 < i < |history|
      ensures i < rest + 1 <==> history[i].openTime < start
    {
      assert history[i] == history[1..][i - 1];
    }
    return rest + 1;
  }

  /** A page holds the next rows, and a short page the last ones. */
  lemma PageIsNextRows(history: seq<Kline>, cursor: int, at: nat)
    requires CursorAt(history, cursor, at)
    ensures var rows := Page(history, cursor);
      && at + |rows| <= |history| && rows == history[at..at + |rows|]
      && (|rows| < MAX_LIMIT ==> at + |rows| == |history|)
  {
    FromSkipsEarlier(history, cursor, at);
  }

  /** A page whose last row opens no later than the cursor is the last one. */
  lemma OnlyRowAtCursor(history: seq<Kline>, interval: int, cursor: int, at: nat)
    requires Spaced(history, interval) && CursorAt(history, cursor, at)
    requires var rows := Page(history, cursor); rows != [] && rows[|rows| - 1].openTime <= cursor
    ensures at + |Page(history, cursor)| == |history|
  {
    PageIsNextRows(history, cursor, at);
    var rows := Page(history, cursor);
    assert rows[|rows| - 1] == history[at + |rows| - 1];
    if |rows| > 1 {
      assert history[at].openTime + interval <= history[at + |rows| - 1].openTime;
    }
  }

  /** One interval past the last row of a page is where the next page starts. */
  lemma CursorAdvances(history: seq<Kline>, interval: int, at: nat)
    requires Spaced(history, interval) && 0 < at <= |history|
    ensures CursorAt(history, history[at - 1].openTime + interval, at)
  {
  }

  predicate Unseen(history: seq<Kline>, k: nat, seen: set<int>) {
    forall i :: k <= i < |history| ==> history[i].openTime !in seen
  }

  lemma UnseenNext(history: seq<Kline>, interval: int, k: nat, seen: set<int>)
    requires Spaced(history, interval) && k < |history| && Unseen(history, k, seen)
    ensures history[k].openTime !in seen
    ensures Unseen(history, k + 1, seen) && Unseen(history, k + 1, seen + {history[k].openTime})
  {
  }

  lemma {:induction false} NothingBeforeStart(history: seq<Kline>, start: int, end: Option<int>, now: int)
    requires forall i :: 0 <= i < |history| ==> history[i].openTime < start
    ensures Wanted(history, start, end, now) == []
  {
    if history != [] {
      NothingBeforeStart(history[..|history| - 1], start, end, now);
    }
  }

  lemma WantedNext(history: seq<Kline>, k: nat, start: int, end: Option<int>, now: int)
    requires k < |history|
    ensures Wanted(history[..k + 1], start, end, now)
         == Wanted(history[..k], start, end, now) + if Eligible(history[k], start, end, now) then [history[k]] else []
  {
    assert history[..k + 1][..k] == history[..k];
  }

  lemma {:induction false} WantedGrows(history: seq<Kline>, k: nat, start: int, end: Option<int>, now: int)
    requires k <= |history|
    ensures Wanted(history[..k], start, end, now) <= Wanted(history, start, end, now)
    decreases |history| - k
  {
    if k < |history| {
      WantedNext(history, k, start, end, now);
      WantedGrows(history, k + 1, start, end, now);
    } else {
      assert history[..k] == history;
    }
  }

  lemma StartsEmpty(history: seq<Kline>, start: int, at: nat, end: Option<int>, now: int)
    requires CursorAt(history, start, at)
    ensures Gathered(history, at, start, end, now, {}, [])
  {
    NothingBeforeStart(history[..at], start, end, now);
  }

  lemma WantedAscends(history: seq<Kline>, interval: int, at: nat, start: int, end: Option<int>, now: int)
    requires Spaced(history, interval) && at <= |history|
    ensures Ascending(Wanted(history[..at], start, end, now))
  {
    WantedIsExactlyEligible(history[..at], interval, start, end, now);
  }

  /** The loop's filters, for a candle that opens at or after the start. */
  lemma KeptIffEligible(history: seq<Kline>, start: int, first: nat, k: nat, end: Option<int>, now: int)
    requires CursorAt(history, start, first) && first <= k < |history|
    ensures Eligible(history[k], start, end, now)
            <==> !(end.Some? && history[k].closeTime > end.value) && history[k].closeTime <= now
  {
  }

  /** What the loop has gathered from the first `k` rows of the history. */
  predicate Gathered(history: seq<Kline>, k: nat, start: int, end: Option<int>, now: int, seen: set<int>,
                     collected: seq<Kline>)
    requires k <= |history|
  {
    Unseen(history, k, seen) && collected == Wanted(history[..k], start, end, now)
  }

  lemma GatherNext(history: seq<Kline>, interval: int, first: nat, k: nat, start: int, end: Option<int>, now: int,
                   seen: set<int>, collected: seq<Kline>)
    requires Spaced(history, interval) && CursorAt(history, start, first) && first <= k < |history|
    requires Gathered(history, k, start, end, now, seen, collected)
    ensures var bar := history[k];
      && bar.openTime !in seen
      && if (end.Some? && bar.closeTime > end.value) || bar.closeTime > now
         then Gathered(history, k + 1, start, end, now, seen, collected)
         else Gathered(history, k + 1, start, end, now, seen + {bar.openTime}, collected + [bar])
  {
    hide Eligible, Unseen, CursorAt, Spaced;
    WantedNext(history, k, start, end, now);
    KeptIffEligible(history, start, first, k, end, now);
    UnseenNext(history, interval, k, seen);
  }

  /** Keeps the new, closed candles of one page. */
  method GatherPage(ghost history: seq<Kline>, ghost interval: int, ghost first: nat, ghost at: nat, rows: seq<Kline>,
                    ghost start: int, end: Option<int>, now: int, seen0: set<int>, collected0: seq<Kline>)
    returns (seen: set<int>, collected: seq<Kline>, progressed: bool)
    requires Spaced(history, interval) && CursorAt(history, start, first)
    requires first <= at && at + |rows| <= |history| && rows == history[at..at + |rows|]
    requires Gathered(history, at, start, end, now, seen0, collected0)
    ensures Gathered(history, at + |rows|, start, end, now, seen, collected)
    ensures progressed <==> |collected| > |collected0|
  {
    hide Spaced, CursorAt, Gathered;
    seen, collected, progressed := seen0, collected0, false;
    for j := 0 to |rows|
      invariant Gathered(history, at + j, start, end, now, seen, collected)
      invariant if progressed then |collected| > |collected0| else collected == collected0
    {
      var bar := rows[j];
      assert bar == history[at + j];
      GatherNext(history, interval, first, at + j, start, end, now, seen, collected);
      if bar.openTime in seen {
        continue;
      }
      if end.Some? && bar.closeTime > end.value {
        continue;
      }
      if bar.closeTime > now {
        continue;
      }
      seen := seen + {bar.openTime};
      collected := collected + [bar];
      progressed := true;
    }
  }

  lemma GatheredSuffices(history: seq<Kline>, interval: int, at: nat, start: int, end: Option<int>, now: int,
                         maxBars: int, seen: set<int>, collected: seq<Kline>)
    requires Spaced(history, interval) && at <= |history|
    requires Gathered(history, at, start, end, now, seen, collected)
    requires at == |history| || |collected| >= maxBars
    ensures AtMost(SortedByOpen(collected), maxBars) == Fetched(history, start, end, now, maxBars)
  {
    hide Eligible, Spaced, Unseen;
    WantedGrows(history, at, start, end, now);
    assert history[..|history|] == history;
    WantedAscends(history, interval, at, start, end, now);
    SortKeepsAscending(collected);
  }

  /** The latest rows are the page that begins where they do. */
  lemma LatestIsPage(history: seq<Kline>, interval: int)
    requires Spaced(history, interval)
    ensures LatestPage(history) == Page(history, StartOf(history, None))
  {
    if history != [] {
      var at := |history| - |LatestPage(history)|;
      FromSkipsEarlier(history, StartOf(history, None), at);
    }
  }

  /** Pages forward from the start, or through the latest page when there is none, until the history or the
      requested number of candles is exhausted. */
  method Fetch(history: seq<Kline>, interval: int, start: Option<int>, end: Option<int>, now: int, maxBars: int)
    returns (bars: seq<Kline>)
    requires Spaced(history, interval)
    ensures bars == Fetched(history, StartOf(history, start), end, now, maxBars)
  {
    hide Spaced, CursorAt, Gathered, Page, LatestPage, StartOf, Fetched, AtMost;
    ghost var begin := StartOf(history, start);
    var cursor, collected: seq<Kline>, seen: set<int> := start, [], {};
    ghost var at := StartIndex(history, interval, begin);
    ghost var first := at;
    StartsEmpty(history, begin, at, end, now);
    while |collected| < maxBars
      invariant first <= at <= |history|
      invariant CursorAt(history, begin, first) && CursorAt(history, StartOf(history, cursor), at)
      invariant Gathered(history, at, begin, end, now, seen, collected)
      decreases |history| - at
    {
      ghost var from := StartOf(history, cursor);
      PageIsNextRows(history, from, at);
      LatestIsPage(history, interval);
      if cursor.Some? {
        StartGiven(history, cursor);
      }
      var rows := if cursor.Some? then Page(history, cursor.value) else LatestPage(history);
      if rows == [] {
        break;
      }
      var progressed;
      seen, collected, progressed := GatherPage(history, interval, first, at, rows, begin, end, now, seen, collected);
      var lastOpen := rows[|rows| - 1].openTime;
      if !progressed && cursor.Some? && lastOpen <= cursor.value {
        OnlyRowAtCursor(history, interval, from, at);
        at := at + |rows|;
        break;
      }
      at := at + |rows|;
      if |rows| < MAX_LIMIT {
        break;
      }
      CursorAdvances(history, interval, at);
      cursor := Some(lastOpen + interval);
      StartGiven(history, cursor);
    }
    GatheredSuffices(history, interval, at, begin, end, now, maxBars, seen, collected);
    collected := SortedByOpen(collected);
    bars := AtMost(collected, maxBars);
  }

  lemma StartGiven(history: seq<Kline>, start: Option<int>)
    requires start.Some?
    ensures StartOf(history, start) == start.value
  {
  }

  // ---------------------------------------------------------------- what that means

  lemma InLonger(bars: seq<Kline>, last: Kline)
    ensures forall bar :: bar in bars + [last] <==> bar in bars || bar == last
  {
  }

  lemma OpensLast(history: seq<Kline>, interval: int, bar: Kline)
    requires Spaced(history, interval) && history != [] && bar in history[..|history| - 1]
    ensures bar.openTime < history[|history| - 1].openTime
  {
  }

  lemma AscendingWith(bars: seq<Kline>, last: Kline)
    requires Ascending(bars) && forall i :: 0 <= i < |bars| ==> bars[i].openTime < last.openTime
    ensures Ascending(bars + [last])
  {
  }

  /** The candles wanted are the eligible ones, each once, oldest first. */
  lemma {:induction false} WantedIsExactlyEligible(history: seq<Kline>, interval: int, start: int, end: Option<int>,
                                                   now: int)
    requires Spaced(history, interval)
    ensures forall bar :: bar in Wanted(history, start, end, now) <==> bar in history && Eligible(bar, start, end, now)
    ensures Ascending(Wanted(history, start, end, now))
  {
    hide Eligible;
    if history != [] {
      var rest, last := history[..|history| - 1], history[|history| - 1];
      WantedIsExactlyEligible(rest, interval, start, end, now);
      var earlier := Wanted(rest, start, end, now);
      InLonger(rest, last);
      assert rest + [last] == history;
      forall i | 0 <= i < |earlier|
        ensures earlier[i].openTime < last.openTime
      {
        assert earlier[i] in rest;
        OpensLast(history, interval, earlier[i]);
      }
      AscendingWith(earlier, last);
      InLonger(earlier, last);
    }
  }

  /** A candle is fetched exactly when it is in the history, opens at or after the start, has closed by now and
      by the end, and fewer than `maxBars` such candles open before it. */
  lemma FetchedIff(history: seq<Kline>, interval: int, start: int, end: Option<int>, now: int, maxBars: int, bar: Kline)
    requires Spaced(history, interval)
    ensures var wanted := Wanted(history, start, end, now);
      bar in Fetched(history, start, end, now, maxBars)
      <==> && bar in history && Eligible(bar, start, end, now)
           && exists i :: 0 <= i < |wanted| && i < maxBars && wanted[i] == bar
    ensures Ascending(Fetched(history, start, end, now, maxBars))
  {
    hide Eligible;
    WantedIsExactlyEligible(history, interval, start, end, now);
  }

  predicate SplitsAt(bars: seq<Kline>, later: int, k: nat) {
    k <= |bars| && forall i :: 0 <= i < |bars| ==> (i < k <==> bars[i].openTime < later)
  }

  /** Moving the start past some wanted candles leaves exactly the others. */
  lemma {:induction false} WantedFromLater(history: seq<Kline>, start: int, later: int, end: Option<int>, now: int,
                                           k: nat)
    requires start <= later && SplitsAt(Wanted(history, start, end, now), later, k)
    ensures Wanted(history, later, end, now) == Wanted(history, start, end, now)[k..]
  {
    if history != [] {
      var rest, last := history[..|history| - 1], history[|history| - 1];
      var w, earlier := Wanted(history, start, end, now), Wanted(rest, start, end, now);
      assert forall i :: 0 <= i < |earlier| ==> earlier[i] == w[i];
      if Eligible(last, start, end, now) {
        assert w[|earlier|] == last;
      }
      WantedFromLater(rest, start, later, end, now, if k <= |earlier| then k else |earlier|);
    }
  }

  /** Candles of a spaced history split where one interval has passed since one of them. */
  lemma WantedSplits(history: seq<Kline>, wanted: seq<Kline>, interval: int, m: nat)
    requires Spaced(history, interval) && Ascending(wanted) && 0 < m <= |wanted|
    requires forall bar :: bar in wanted ==> bar in history
    ensures SplitsAt(wanted, wanted[m - 1].openTime + interval, m)
  {
    forall i | 0 <= i < |wanted|
      ensures i < m <==> wanted[i].openTime < wanted[m - 1].openTime + interval
    {
      assert wanted[i] in history && wanted[m - 1] in history;
    }
  }

  /** A fetch resumed one interval after the last candle of a full first fetch continues it without a gap or a
      repeat: the two together are one larger fetch. */
  lemma FetchResumes(history: seq<Kline>, interval: int, start: int, end: Option<int>, now: int, m: nat, n: nat)
    requires Spaced(history, interval)
    requires 0 < m == |Fetched(history, start, end, now, m)|
    ensures var head := Fetched(history, start, end, now, m);
      head + Fetched(history, head[m - 1].openTime + interval, end, now, n) == Fetched(history, start, end, now, m + n)
  {
    var wanted := Wanted(history, start, end, now);
    var later := wanted[m - 1].openTime + interval;
    WantedIsExactlyEligible(history, interval, start, end, now);
    assert Eligible(wanted[m - 1], start, end, now);
    WantedSplits(history, wanted, interval, m);
    hide Eligible, Spaced, Ascending, SplitsAt;
    WantedFromLater(history, start, later, end, now, m);
    assert Wanted(history, later, end, now) == wanted[m..];
  }

  // ---------------------------------------------------------------- without a start

  /** The newest eligible candle is fetched exactly when no more are eligible than were asked for: a fetch keeps the
      oldest of them. */
  lemma NewestFetchedIff(history: seq<Kline>, interval: int, start: int, end: Option<int>, now: int, maxBars: int)
    requires Spaced(history, interval) && Wanted(history, start, end, now) != []
    ensures var wanted := Wanted(history, start, end, now);
      wanted[|wanted| - 1] in Fetched(history, start, end, now, maxBars) <==> |wanted| <= maxBars
  {
    hide Eligible;
    WantedIsExactlyEligible(history, interval, start, end, now);
  }

  lemma {:induction false} SpacedApart(history: seq<Kline>, interval: int, i: nat, j: nat)
    requires Spaced(history, interval) && i <= j < |history|
    ensures history[i].openTime + (j - i) * interval <= history[j].openTime
    decreases j
  {
    if i < j {
      SpacedApart(history, interval, i, j - 1);
      assert (j - i) * interval == (j - 1 - i) * interval + interval;
    }
  }

  /** Where the eligible rows are one stretch of the history, the wanted candles are that stretch. */
  lemma {:induction false} WantedIsStretch(history: seq<Kline>, from: nat, to: nat, start: int, end: Option<int>,
                                           now: int)
    requires from <= to <= |history|
    requires forall i :: 0 <= i < |history| ==> (Eligible(history[i], start, end, now) <==> from <= i < to)
    ensures Wanted(history, start, end, now) == history[from..to]
  {
    hide Eligible;
    if history != [] {
      var n := |history| - 1;
      WantedIsStretch(history[..n], if from <= n then from else n, if to <= n then to else n, start, end, now);
    }
  }

  /** A fetch without a start and for fewer candles than a page holds returns the oldest of the latest page. Over a
      long history of which all rows have closed but perhaps the last, the last candle it returns opens about as
      many intervals before the newest closed one as a page exceeds the request. */
  lemma FetchWithoutStartLags(history: seq<Kline>, interval: int, closed: nat, now: int, maxBars: nat)
    requires Spaced(history, interval) && |history| >= MAX_LIMIT && 0 < maxBars < MAX_LIMIT - 1
    requires |history| - 1 <= closed <= |history|
    requires forall i :: 0 <= i < |history| ==> (history[i].closeTime <= now <==> i < closed)
    ensures var newest := history[closed - 1];
      var bars := Fetched(history, StartOf(history, None), None, now, maxBars);
      && |bars| == maxBars && newest !in bars
      && bars[maxBars - 1].openTime + (MAX_LIMIT - 1 - maxBars) * interval <= newest.openTime
  {
    var from, start := |history| - MAX_LIMIT, StartOf(history, None);
    LatestStretch(history, interval, closed, now);
    hide Eligible, LatestPage, StartOf;
    WantedIsStretch(history, from, closed, start, None, now);
    NewestFetchedIff(history, interval, start, None, now, maxBars);
    SpacedAtLeast(history, interval, from + maxBars - 1, closed - 1, MAX_LIMIT - 1 - maxBars);
    hide Spaced, Wanted;
    assert Wanted(history, start, None, now) == history[from..closed];
    assert Fetched(history, start, None, now, maxBars) == history[from..closed][..maxBars];
  }

  lemma SpacedAtLeast(history: seq<Kline>, interval: int, i: nat, j: nat, m: int)
    requires Spaced(history, interval) && i <= j < |history| && j - i >= m
    ensures history[i].openTime + m * interval <= history[j].openTime
  {
    SpacedApart(history, interval, i, j);
    LongerApart(j - i, m, interval);
  }

  /** The eligible rows of a fetch without a start: the latest page, up to the last closed row. */
  lemma LatestStretch(history: seq<Kline>, interval: int, closed: nat, now: int)
    requires Spaced(history, interval) && |history| >= MAX_LIMIT && closed <= |history|
    requires forall i :: 0 <= i < |history| ==> (history[i].closeTime <= now <==> i < closed)
    ensures var from := |history| - MAX_LIMIT;
      forall i :: 0 <= i < |history| ==>
        (Eligible(history[i], StartOf(history, None), None, now) <==> from <= i < closed)
  {
    var from := |history| - MAX_LIMIT;
    assert LatestPage(history) == history[from..];
    assert StartOf(history, None) == history[from].openTime;
  }

  lemma LongerApart(m: int, n: int, interval: int)
    requires m >= n && interval > 0
    ensures m * interval >= n * interval
  {
  }
}
