/** Polling the trade history: what the cursor read back from the recorded fills asks for next, and so which
    trades are ever delivered. */
module Polling {
  import opened Common
  import opened Ledgers
  import opened Ingest
  import opened IngestProperties
  import Reconcile

  /** The most trades one request returns. */
  const PAGE_LIMIT := 1000

  // ---------------------------------------------------------------- trade ids as numbers

  predicate AllDigits(s: string) {
    s != [] && forall i :: 0 <= i < |s| ==> '0' <= s[i] <= '9'
  }

  function Parse(s: string): nat
    requires forall i :: 0 <= i < |s| ==> '0' <= s[i] <= '9'
  {
    if s == [] then 0 else 10 * Parse(s[..|s| - 1]) + (s[|s| - 1] - '0') as nat
  }

  /** Reading a number back from its decimal digits. */
  lemma {:induction false} ParseOfDecimal(n: nat)
    ensures AllDigits(Reconcile.Decimal(n)) && Parse(Reconcile.Decimal(n)) == n
  {
    var digits := Reconcile.Decimal(n);
    assert digits[|digits| - 1] == "0123456789"[n % 10];
    if n >= 10 {
      ParseOfDecimal(n / 10);
      assert digits[..|digits| - 1] == Reconcile.Decimal(n / 10);
    } else {
      assert digits[..0] == [];
    }
  }

  function Number(r: Report): nat {
    if AllDigits(r.tradeId) then Parse(r.tradeId) else 0
  }

  /** One symbol's trades as the exchange numbers them. */
  predicate Numbered(trades: seq<Report>) {
    && (forall i :: 0 <= i < |trades| ==> AllDigits(trades[i].tradeId))
    && forall i, j :: 0 <= i < j < |trades| ==> Number(trades[i]) < Number(trades[j])
  }

  // ---------------------------------------------------------------- the cursor

  predicate CountsFor(orders: map<OrderId, OrderRow>, f: Fill, symbol: string) {
    f.orderId in orders && orders[f.orderId].symbol == symbol && AllDigits(f.tradeId)
  }

  function Higher(c: Option<nat>, n: nat): Option<nat> {
    if c.Some? && c.value >= n then c else Some(n)
  }

  /** The highest trade number recorded for the symbol. */
  function CursorOf(orders: map<OrderId, OrderRow>, fills: seq<Fill>, symbol: string): Option<nat> {
    if fills == [] then None
    else
      var rest, last := CursorOf(orders, fills[..|fills| - 1], symbol), fills[|fills| - 1];
      if CountsFor(orders, last, symbol) then Higher(rest, Parse(last.tradeId)) else rest
  }

  /** The cursor is the greatest number among the fills with a numeric id of the symbol's orders, and absent when there
      is none. */
  lemma {:induction false} CursorIsHighest(orders: map<OrderId, OrderRow>, fills: seq<Fill>, symbol: string)
    ensures var c := CursorOf(orders, fills, symbol);
      && (c.None? <==> forall i :: 0 <= i < |fills| ==> !CountsFor(orders, fills[i], symbol))
      && (c.Some? ==>
            && (forall i :: 0 <= i < |fills| && CountsFor(orders, fills[i], symbol) ==>
                  Parse(fills[i].tradeId) <= c.value)
            && exists i :: 0 <= i < |fills| && CountsFor(orders, fills[i], symbol)
                 && Parse(fills[i].tradeId) == c.value)
  {
    hide Parse;
    if fills != [] {
      var rest := fills[..|fills| - 1];
      CursorIsHighest(orders, rest, symbol);
      assert forall i :: 0 <= i < |rest| ==> rest[i] == fills[i];
      var c := CursorOf(orders, rest, symbol);
      if c.Some? {
        var i :| 0 <= i < |rest| && CountsFor(orders, rest[i], symbol) && Parse(rest[i].tradeId) == c.value;
        assert fills[i] == rest[i];
      }
    }
  }

  method Cursor(ledger: Ledger, symbol: string) returns (c: Option<nat>)
    ensures c == CursorOf(ledger.orders, ledger.fills, symbol)
  {
    c := None;
    for i := 0 to |ledger.fills|
      invariant c == CursorOf(ledger.orders, ledger.fills[..i], symbol)
    {
      var f := ledger.fills[i];
      if f.orderId in ledger.orders && ledger.orders[f.orderId].symbol == symbol && AllDigits(f.tradeId) {
        c := Higher(c, Parse(f.tradeId));
      }
      assert ledger.fills[..i + 1][..i] == ledger.fills[..i];
    }
    assert ledger.fills[..|ledger.fills|] == ledger.fills;
  }

  // ---------------------------------------------------------------- one poll

  function From(trades: seq<Report>, first: nat): seq<Report> {
    if trades == [] || Number(trades[0]) >= first then trades else From(trades[1..], first)
  }

  /** The trades a request returns: from a number on, or the most recent ones. */
  function MyTrades(trades: seq<Report>, first: Option<nat>): seq<Report> {
    if first.Some? then AtMost(From(trades, first.value), PAGE_LIMIT)
    else if |trades| <= PAGE_LIMIT then trades
    else trades[|trades| - PAGE_LIMIT..]
  }

  function NextPage(b: Book, trades: seq<Report>, symbol: string): seq<Report> {
    var c := CursorOf(b.orders, b.fills, symbol);
    MyTrades(trades, if c.Some? then Some(c.value + 1) else None)
  }

  function Polled(b: Book, trades: seq<Report>, symbol: string): Book {
    DeliveredAll(b, NextPage(b, trades, symbol))
  }

  function Polls(b: Book, trades: seq<Report>, symbol: string, n: nat): Book {
    if n == 0 then b else Polled(Polls(b, trades, symbol, n - 1), trades, symbol)
  }

  /** Resumes after the last recorded trade of the symbol. */
  method Poll(ingestor: FillIngestor, trades: seq<Report>, symbol: string) returns (s: Summary)
    modifies ingestor.ledger
    ensures ingestor.ledger.Contents() == Polled(old(ingestor.ledger.Contents()), trades, symbol)
    ensures s == Tallied(old(ingestor.ledger.Contents()), NextPage(old(ingestor.ledger.Contents()), trades, symbol))
  {
    var cursor := Cursor(ingestor.ledger, symbol);
    var page := MyTrades(trades, if cursor.Some? then Some(cursor.value + 1) else None);
    s := ingestor.Ingest(page);
  }

  // ---------------------------------------------------------------- where the cursor ends up

  /** Every trade that can be recorded is one of the symbol's, and new. */
  predicate AllNew(b: Book, page: seq<Report>, symbol: string) {
    forall i :: 0 <= i < |page| && Known(b, page[i]) ==>
      b.orders[page[i].orderId.value].symbol == symbol && !Seen(b.fills, page[i].tradeId)
  }

  predicate Beyond(page: seq<Report>, c: nat) {
    Numbered(page) && forall i :: 0 <= i < |page| ==> Number(page[i]) > c
  }

  /** The number of the last trade of a page that can be recorded. */
  function LastKnown(b: Book, page: seq<Report>, c: nat): nat {
    if page == [] then c
    else
      var last := page[|page| - 1];
      if Known(b, last) then Number(last) else LastKnown(b, page[..|page| - 1], c)
  }

  lemma {:induction false} LastKnownBounds(b: Book, page: seq<Report>, c: nat, i: nat)
    requires Beyond(page, c) && i < |page|
    ensures c <= LastKnown(b, page, c) <= Number(page[|page| - 1])
    ensures Number(page[i]) > LastKnown(b, page, c) <==> forall j :: i <= j < |page| ==> !Known(b, page[j])
  {
    hide Known;
    var n := |page| - 1;
    if !Known(b, page[n]) && n > 0 {
      LastKnownBounds(b, page[..n], c, if i < n then i else 0);
      if i < n {
        assert forall j :: i <= j < n ==> page[..n][j] == page[j];
      }
    }
  }

  /** Trades of a page other than the one at hand leave it unseen. */
  lemma {:induction false} StillUnseen(b: Book, page: seq<Report>, r: Report)
    requires !Seen(b.fills, r.tradeId)
    requires forall i :: 0 <= i < |page| ==> page[i].tradeId != r.tradeId
    ensures !Seen(DeliveredAll(b, page).fills, r.tradeId)
  {
    hide Delivered, Known;
    if page != [] {
      var n := |page| - 1;
      StillUnseen(b, page[..n], r);
      DeliveredShape(DeliveredAll(b, page[..n]), page[n]);
    }
  }

  /** After a page, the cursor is at the last trade of it that could be recorded. */
  lemma {:induction false} CursorAfterPage(b: Book, page: seq<Report>, symbol: string, c: nat)
    requires CursorOf(b.orders, b.fills, symbol) == Some(c)
    requires Beyond(page, c) && AllNew(b, page, symbol)
    ensures var after := DeliveredAll(b, page);
      after.orders == b.orders && CursorOf(after.orders, after.fills, symbol) == Some(LastKnown(b, page, c))
  {
    hide Delivered, Seen, Known;
    if page != [] {
      var n := |page| - 1;
      var last := page[n];
      CursorAfterPage(b, page[..n], symbol, c);
      var mid := DeliveredAll(b, page[..n]);
      DeliveredShape(mid, last);
      DeliveredAllShape(b, page[..n]);
      SameKnown(b, mid, last);
      if Known(b, last) {
        StillUnseen(b, page[..n], last);
        CursorAfterFill(mid, last, symbol);
        if n > 0 {
          LastKnownBounds(b, page[..n], c, 0);
        }
      }
    }
  }

  lemma CursorAfterFill(b: Book, r: Report, symbol: string)
    requires Known(b, r) && b.orders[r.orderId.value].symbol == symbol && AllDigits(r.tradeId)
    ensures CursorOf(b.orders, b.fills + [FillOf(r)], symbol) == Higher(CursorOf(b.orders, b.fills, symbol), Number(r))
  {
    assert (b.fills + [FillOf(r)])[..|b.fills|] == b.fills;
  }

  // ---------------------------------------------------------------- what polling delivers

  /** The trades numbered `first` or higher are those from index `k` on. */
  predicate StartsAt(trades: seq<Report>, first: nat, k: nat) {
    k <= |trades| && forall i :: 0 <= i < |trades| ==> (i >= k <==> Number(trades[i]) >= first)
  }

  lemma {:induction false} FromStartsAt(trades: seq<Report>, first: nat, k: nat)
    requires StartsAt(trades, first, k)
    ensures From(trades, first) == trades[k..]
  {
    hide Number;
    if k > 0 {
      FromStartsAt(trades[1..], first, k - 1);
    }
  }

  lemma {:induction false} Start(trades: seq<Report>, first: nat) returns (k: nat)
    requires Numbered(trades)
    ensures k <= |trades| && StartsAt(trades, first, k) && From(trades, first) == trades[k..]
  {
    hide Number, AllDigits;
    if trades == [] || Number(trades[0]) >= first {
      return 0;
    }
    var rest := Start(trades[1..], first);
    forall i | 0 < i < |trades|
      ensures i >= rest + 1 <==> Number(trades[i]) >= first
    {
      assert trades[i] == trades[1..][i - 1];
    }
    return rest + 1;
  }

  lemma StartAfter(trades: seq<Report>, j: nat)
    requires Numbered(trades) && 0 < j <= |trades|
    ensures From(trades, Number(trades[j - 1]) + 1) == trades[j..]
  {
    hide Number, AllDigits;
    FromStartsAt(trades, Number(trades[j - 1]) + 1, j);
  }

  /** A stretch of the history after a cursor is numbered, and above it. */
  lemma StretchIsBeyond(trades: seq<Report>, c: nat, k: nat, m: nat)
    requires Numbered(trades) && k <= m <= |trades| && StartsAt(trades, c + 1, k)
    ensures Beyond(trades[k..m], c)
  {
    hide Number, AllDigits;
  }

  lemma {:induction false} DeliveredConcat(b: Book, s: seq<Report>, t: seq<Report>)
    ensures DeliveredAll(b, s + t) == DeliveredAll(DeliveredAll(b, s), t)
  {
    hide Delivered;
    if t == [] {
      assert s + t == s;
    } else {
      assert (s + t)[..|s + t| - 1] == s + t[..|t| - 1];
      DeliveredConcat(b, s, t[..|t| - 1]);
    }
  }

  predicate AllKnown(b: Book, trades: seq<Report>) {
    forall i :: 0 <= i < |trades| ==> Known(b, trades[i])
  }

  /** Starting from a recorded trade, and as long as every later trade is of a recorded order and parses, polls
      deliver the later trades in order, a thousand at a time, leaving none out and asking for none twice. */
  lemma {:induction false} PollsDeliverInOrder(b: Book, trades: seq<Report>, symbol: string, c: nat, n: nat)
    requires Numbered(trades) && CursorOf(b.orders, b.fills, symbol) == Some(c)
    requires AllKnown(b, From(trades, c + 1)) && AllNew(b, From(trades, c + 1), symbol)
    ensures Polls(b, trades, symbol, n) == DeliveredAll(b, AtMost(From(trades, c + 1), n * PAGE_LIMIT))
  {
    hide AllKnown, AllNew, Known, Numbered;
    if n > 0 {
      PollsDeliverInOrder(b, trades, symbol, c, n - 1);
      var m := (n - 1) * PAGE_LIMIT;
      var rest, done := From(trades, c + 1), AtMost(From(trades, c + 1), m);
      CursorResumes(b, trades, symbol, c, m);
      var page := NextPage(DeliveredAll(b, done), trades, symbol);
      assert AtMost(rest, n * PAGE_LIMIT) == done + page;
      DeliveredConcat(b, done, page);
    } else {
      assert AtMost(From(trades, c + 1), 0) == [];
    }
  }

  lemma {:induction false} LastOfAllKnown(b: Book, page: seq<Report>, c: nat)
    requires AllKnown(b, page)
    ensures LastKnown(b, page, c) == if page == [] then c else Number(page[|page| - 1])
  {
    hide Known, Number;
  }

  lemma PrefixIsNew(b: Book, rest: seq<Report>, symbol: string, m: nat)
    requires m <= |rest| && AllNew(b, rest, symbol) && AllKnown(b, rest)
    ensures AllNew(b, rest[..m], symbol) && AllKnown(b, rest[..m])
  {
    hide Known, Seen;
  }

  lemma PageAfterCursor(b: Book, trades: seq<Report>, symbol: string, c: nat)
    requires CursorOf(b.orders, b.fills, symbol) == Some(c)
    ensures NextPage(b, trades, symbol) == AtMost(From(trades, c + 1), PAGE_LIMIT)
  {
  }

  /** After the first `m` of the later trades, the next page continues with the one after them. */
  lemma CursorResumes(b: Book, trades: seq<Report>, symbol: string, c: nat, m: nat)
    requires Numbered(trades) && CursorOf(b.orders, b.fills, symbol) == Some(c)
    requires AllKnown(b, From(trades, c + 1)) && AllNew(b, From(trades, c + 1), symbol)
    ensures var rest := From(trades, c + 1);
      NextPage(DeliveredAll(b, AtMost(rest, m)), trades, symbol) == AtMost(rest[|AtMost(rest, m)|..], PAGE_LIMIT)
  {
    hide AllKnown, AllNew, Beyond, Numbered, NextPage, StartsAt;
    var rest := From(trades, c + 1);
    var n := |AtMost(rest, m)|;
    var k := Start(trades, c + 1);
    var done := rest[..n];
    assert AtMost(rest, m) == done == trades[k..k + n];
    PrefixIsNew(b, rest, symbol, n);
    StretchIsBeyond(trades, c, k, k + n);
    CursorAfterPage(b, done, symbol, c);
    LastOfAllKnown(b, done, c);
    PageAfterCursor(DeliveredAll(b, done), trades, symbol, LastKnown(b, done, c));
    if n > 0 {
      assert done[n - 1] == trades[k + n - 1];
      StartAfter(trades, k + n);
    }
    assert trades[k + n..] == rest[n..];
  }

  /** The next page, once the trades of this one that can be recorded have been. */
  lemma PageAfter(b: Book, trades: seq<Report>, symbol: string, c: nat)
    requires Numbered(trades) && CursorOf(b.orders, b.fills, symbol) == Some(c)
    requires AllNew(b, NextPage(b, trades, symbol), symbol)
    ensures var page := NextPage(b, trades, symbol);
      && Beyond(page, c)
      && NextPage(Polled(b, trades, symbol), trades, symbol)
        == AtMost(From(trades, LastKnown(b, page, c) + 1), PAGE_LIMIT)
  {
    hide AllNew, Beyond, Numbered, NextPage, StartsAt;
    var page := NextPage(b, trades, symbol);
    PageAfterCursor(b, trades, symbol, c);
    var k := Start(trades, c + 1);
    assert page == trades[k..k + |page|];
    StretchIsBeyond(trades, c, k, k + |page|);
    CursorAfterPage(b, page, symbol, c);
    PageAfterCursor(Polled(b, trades, symbol), trades, symbol, LastKnown(b, page, c));
  }

  /** A trade of one page is in the page that starts after a later cursor exactly when it is beyond it. */
  lemma AskedAgainIff(trades: seq<Report>, c: nat, i: nat, cursor: nat)
    requires Numbered(trades) && c <= cursor
    requires i < |AtMost(From(trades, c + 1), PAGE_LIMIT)|
    ensures From(trades, c + 1)[i] in AtMost(From(trades, cursor + 1), PAGE_LIMIT)
            <==> Number(From(trades, c + 1)[i]) > cursor
  {
    hide Number, AllDigits;
    var first, again := From(trades, c + 1), From(trades, cursor + 1);
    var k := Start(trades, c + 1);
    var next := Start(trades, cursor + 1);
    assert first[i] == trades[k + i];
    if next < |trades| {
      assert Number(trades[next]) > cursor;
    }
    assert k <= next;
    if Number(first[i]) > cursor {
      assert next <= k + i;
      assert again[k + i - next] == first[i];
      assert AtMost(again, PAGE_LIMIT)[k + i - next] == first[i];
    } else {
      assert forall j :: 0 <= j < |again| ==> again[j] == trades[next + j] && Number(again[j]) > cursor;
    }
  }

  /** A trade that could not be recorded, because its order is unknown or it does not parse, is asked for again
      exactly when no later trade of its page was recorded; otherwise the cursor has moved past it for good. */
  lemma UnrecordedAskedAgainIff(b: Book, trades: seq<Report>, symbol: string, c: nat, i: nat)
    requires Numbered(trades) && CursorOf(b.orders, b.fills, symbol) == Some(c)
    requires var page := NextPage(b, trades, symbol); AllNew(b, page, symbol) && i < |page| && !Known(b, page[i])
    ensures var page := NextPage(b, trades, symbol);
      page[i] in NextPage(Polled(b, trades, symbol), trades, symbol)
      <==> forall j :: i < j < |page| ==> !Known(b, page[j])
  {
    hide Known, AllNew, Number, Numbered, NextPage, Polled;
    var page := NextPage(b, trades, symbol);
    PageAfterCursor(b, trades, symbol, c);
    PageAfter(b, trades, symbol, c);
    LastKnownBounds(b, page, c, i);
    AskedAgainIff(trades, c, i, LastKnown(b, page, c));
    assert page[i] == From(trades, c + 1)[i];
  }

  /** Polling stalls for good exactly when nothing in the next page can be recorded, however much follows it. */
  lemma {:induction false} PollsStallIff(b: Book, trades: seq<Report>, symbol: string, n: nat)
    requires Numbered(trades) && n > 0
    requires AllNew(b, NextPage(b, trades, symbol), symbol)
    ensures Polls(b, trades, symbol, n) == b
            <==> forall i :: 0 <= i < |NextPage(b, trades, symbol)| ==> !Known(b, NextPage(b, trades, symbol)[i])
  {
    hide Known, Delivered, NextPage, Numbered, AllNew;
    var page := NextPage(b, trades, symbol);
    if forall i :: 0 <= i < |page| ==> !Known(b, page[i]) {
      NothingDelivered(b, page);
      StaysPut(b, trades, symbol, n);
    } else {
      var i :| 0 <= i < |page| && Known(b, page[i]);
      SomethingDelivered(b, page, symbol, i);
      PollsGrow(b, trades, symbol, n, page[i].tradeId);
    }
  }

  lemma {:induction false} NothingDelivered(b: Book, page: seq<Report>)
    requires forall i :: 0 <= i < |page| ==> !Known(b, page[i])
    ensures DeliveredAll(b, page) == b
  {
    hide Known, Delivered;
    if page != [] {
      NothingDelivered(b, page[..|page| - 1]);
      DeliveredShape(b, page[|page| - 1]);
    }
  }

  lemma {:induction false} StaysPut(b: Book, trades: seq<Report>, symbol: string, n: nat)
    requires Numbered(trades) && Polled(b, trades, symbol) == b
    ensures Polls(b, trades, symbol, n) == b
  {
    hide Polled, Numbered;
    if n > 0 {
      StaysPut(b, trades, symbol, n - 1);
    }
  }

  lemma SomethingDelivered(b: Book, page: seq<Report>, symbol: string, i: nat)
    requires AllNew(b, page, symbol) && i < |page| && Known(b, page[i])
    ensures !Seen(b.fills, page[i].tradeId) && Seen(DeliveredAll(b, page).fills, page[i].tradeId)
  {
    hide Known, Seen;
    DeliveredAllShape(b, page);
  }

  lemma {:induction false} PollsGrow(b: Book, trades: seq<Report>, symbol: string, n: nat, tradeId: string)
    requires Numbered(trades) && n > 0 && Seen(Polled(b, trades, symbol).fills, tradeId)
    ensures Seen(Polls(b, trades, symbol, n).fills, tradeId)
  {
    hide Seen, NextPage, Numbered;
    if n > 1 {
      PollsGrow(b, trades, symbol, n - 1, tradeId);
      var before := Polls(b, trades, symbol, n - 1);
      DeliveredAllShape(before, NextPage(before, trades, symbol));
      SeenStays(before.fills, Polls(b, trades, symbol, n).fills, tradeId);
    } else {
      assert Polls(b, trades, symbol, 1) == Polled(Polls(b, trades, symbol, 0), trades, symbol);
    }
  }

  // ---------------------------------------------------------------- before there is a cursor

  /** The cursor, if there is one, is at or beyond `bound`. */
  predicate CursorBeyond(orders: map<OrderId, OrderRow>, fills: seq<Fill>, symbol: string, bound: nat) {
    var c := CursorOf(orders, fills, symbol);
    c.Some? ==> c.value >= bound
  }

  lemma {:induction false} PageKeepsCursorBeyond(b: Book, page: seq<Report>, symbol: string, bound: nat)
    requires CursorBeyond(b.orders, b.fills, symbol, bound)
    requires forall i :: 0 <= i < |page| ==> AllDigits(page[i].tradeId) && Number(page[i]) >= bound
    ensures var after := DeliveredAll(b, page); CursorBeyond(after.orders, after.fills, symbol, bound)
  {
    hide Delivered, Seen, Known, AllDigits;
    if page != [] {
      var n := |page| - 1;
      PageKeepsCursorBeyond(b, page[..n], symbol, bound);
      var mid := DeliveredAll(b, page[..n]);
      DeliveredShape(mid, page[n]);
      if Delivered(mid, page[n]).fills != mid.fills {
        FillKeepsCursorBeyond(mid, page[n], symbol, bound);
      }
    }
  }

  lemma FillKeepsCursorBeyond(b: Book, r: Report, symbol: string, bound: nat)
    requires CursorBeyond(b.orders, b.fills, symbol, bound) && Known(b, r) && AllDigits(r.tradeId) && Number(r) >= bound
    ensures CursorBeyond(b.orders, b.fills + [FillOf(r)], symbol, bound)
  {
    hide CountsFor;
    CursorAppends(b.orders, b.fills, FillOf(r), symbol);
  }

  lemma CursorAppends(orders: map<OrderId, OrderRow>, fills: seq<Fill>, f: Fill, symbol: string)
    requires AllDigits(f.tradeId)
    ensures CursorOf(orders, fills + [f], symbol)
         == if CountsFor(orders, f, symbol) then Higher(CursorOf(orders, fills, symbol), Parse(f.tradeId))
            else CursorOf(orders, fills, symbol)
  {
    hide CountsFor;
    assert (fills + [f])[..|fills|] == fills;
  }

  /** Starting without a cursor, every poll asks for trades among the most recent thousand. */
  lemma PageAmongLast(b: Book, trades: seq<Report>, symbol: string, start: nat)
    requires Numbered(trades) && start < |trades| && start + PAGE_LIMIT == |trades|
    requires CursorBeyond(b.orders, b.fills, symbol, Number(trades[start]))
    ensures forall i :: 0 <= i < |NextPage(b, trades, symbol)| ==>
              && AllDigits(NextPage(b, trades, symbol)[i].tradeId)
              && Number(NextPage(b, trades, symbol)[i]) >= Number(trades[start])
  {
    hide Number, AllDigits;
    var c := CursorOf(b.orders, b.fills, symbol);
    var page := NextPage(b, trades, symbol);
    if c.Some? {
      var k := Start(trades, c.value + 1);
      assert forall i :: 0 <= i < |page| ==> page[i] == trades[k + i];
    } else {
      assert forall i :: 0 <= i < |page| ==> page[i] == trades[start + i];
    }
  }

  /** A ledger that starts without a trade of the symbol never asks for any but the most recent thousand: older
      trades are not delivered by any number of polls. */
  lemma {:induction false} OlderTradesNeverAskedFor(b: Book, trades: seq<Report>, symbol: string, n: nat, j: nat)
    requires Numbered(trades) && CursorOf(b.orders, b.fills, symbol).None? && j + PAGE_LIMIT < |trades|
    ensures trades[j] !in NextPage(Polls(b, trades, symbol, n), trades, symbol)
  {
    hide Number, AllDigits, NextPage;
    var start := |trades| - PAGE_LIMIT;
    PollsKeepCursorBeyond(b, trades, symbol, n, start);
    PageAmongLast(Polls(b, trades, symbol, n), trades, symbol, start);
    assert Number(trades[j]) < Number(trades[start]);
  }

  lemma {:induction false} PollsKeepCursorBeyond(b: Book, trades: seq<Report>, symbol: string, n: nat, start: nat)
    requires Numbered(trades) && start < |trades| && start + PAGE_LIMIT == |trades|
    requires CursorBeyond(b.orders, b.fills, symbol, Number(trades[start]))
    ensures var after := Polls(b, trades, symbol, n);
      CursorBeyond(after.orders, after.fills, symbol, Number(trades[start]))
  {
    hide Number, AllDigits, Numbered, NextPage, CursorBeyond;
    if n > 0 {
      PollsKeepCursorBeyond(b, trades, symbol, n - 1, start);
      var before := Polls(b, trades, symbol, n - 1);
      PageAmongLast(before, trades, symbol, start);
      PageKeepsCursorBeyond(before, NextPage(before, trades, symbol), symbol, Number(trades[start]));
    }
  }
}
