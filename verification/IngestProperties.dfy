/** Exactly-once ingestion, and what an open position then says about its exit orders. */
module IngestProperties {
  import opened Common
  import opened Ledgers
  import opened Ingest

  // ---------------------------------------------------------------- one delivery

  /** A delivery that names an order ATLAS recorded and parses. */
  predicate Known(b: Book, r: Report) {
    r.orderId.Some? && r.parsed.Some? && r.orderId.value in b.orders
  }

  lemma DeliveredShape(b: Book, r: Report)
    ensures Delivered(b, r).orders == b.orders
    ensures Delivered(b, r).fills == if Known(b, r) && !Seen(b.fills, r.tradeId) then b.fills + [FillOf(r)] else b.fills
    ensures Delivered(b, r).positions.Keys == b.positions.Keys
    ensures !Known(b, r) || Seen(b.fills, r.tradeId) ==> Delivered(b, r) == b
    ensures Known(b, r) ==> Seen(Delivered(b, r).fills, r.tradeId)
  {
    hide Pnl;
    if Known(b, r) && !Seen(b.fills, r.tradeId) {
      assert Delivered(b, r).fills[|b.fills|].tradeId == r.tradeId;
    }
  }

  lemma {:induction false} DeliveredAllShape(b: Book, reports: seq<Report>)
    ensures DeliveredAll(b, reports).orders == b.orders
    ensures DeliveredAll(b, reports).positions.Keys == b.positions.Keys
    ensures b.fills <= DeliveredAll(b, reports).fills
    ensures forall i :: 0 <= i < |reports| && Known(b, reports[i]) ==>
              Seen(DeliveredAll(b, reports).fills, reports[i].tradeId)
  {
    hide Seen, Delivered;
    if reports != [] {
      var earlier, last := reports[..|reports| - 1], reports[|reports| - 1];
      DeliveredAllShape(b, earlier);
      var mid := DeliveredAll(b, earlier);
      DeliveredShape(mid, last);
      forall i | 0 <= i < |reports| && Known(b, reports[i])
        ensures Seen(DeliveredAll(b, reports).fills, reports[i].tradeId)
      {
        if i < |earlier| {
          assert earlier[i] == reports[i];
          SeenStays(mid.fills, Delivered(mid, last).fills, reports[i].tradeId);
        }
      }
    }
  }

  lemma SeenStays(fills: seq<Fill>, more: seq<Fill>, tradeId: string)
    requires fills <= more && Seen(fills, tradeId)
    ensures Seen(more, tradeId)
  {
    var i :| 0 <= i < |fills| && fills[i].tradeId == tradeId;
    assert more[i].tradeId == tradeId;
  }

  // ---------------------------------------------------------------- exactly once

  /** A trade id names one trade: re-deliveries carry the same content. */
  predicate Identified(reports: seq<Report>) {
    forall i, j :: 0 <= i < j < |reports| && reports[i].tradeId == reports[j].tradeId ==> reports[i] == reports[j]
  }

  predicate Occurs(reports: seq<Report>, tradeId: string) {
    exists i :: 0 <= i < |reports| && reports[i].tradeId == tradeId
  }

  /** The deliveries with every repetition of a trade dropped. */
  function Once(reports: seq<Report>): seq<Report> {
    if reports == [] then []
    else
      var earlier, last := reports[..|reports| - 1], reports[|reports| - 1];
      if Occurs(earlier, last.tradeId) then Once(earlier) else Once(earlier) + [last]
  }

  /** However deliveries repeat and overlap, the ledger is the one that results from delivering each trade once. */
  lemma {:induction false} IngestedExactlyOnce(b: Book, reports: seq<Report>)
    requires Identified(reports)
    ensures DeliveredAll(b, reports) == DeliveredAll(b, Once(reports))
  {
    hide Seen, Delivered, Known;
    if reports != [] {
      var earlier, last := reports[..|reports| - 1], reports[|reports| - 1];
      IngestedExactlyOnce(b, earlier);
      var mid := DeliveredAll(b, earlier);
      if Occurs(earlier, last.tradeId) {
        var i :| 0 <= i < |earlier| && earlier[i].tradeId == last.tradeId;
        assert reports[i] == last;
        DeliveredAllShape(b, earlier);
        SameKnown(b, mid, last);
        DeliveredShape(mid, last);
      } else {
        assert (Once(earlier) + [last])[..|Once(earlier)|] == Once(earlier);
      }
    }
  }

  lemma SameKnown(b: Book, c: Book, r: Report)
    requires b.orders == c.orders
    ensures Known(b, r) == Known(c, r)
  {
  }

  /** Delivering a batch again changes nothing. */
  lemma RedeliveryIsNoOp(b: Book, reports: seq<Report>)
    requires Identified(reports)
    ensures DeliveredAll(DeliveredAll(b, reports), reports) == DeliveredAll(b, reports)
  {
    var done := DeliveredAll(b, reports);
    DeliveredAllShape(b, reports);
    AllSeenIsNoOp(done, reports);
  }

  lemma {:induction false} AllSeenIsNoOp(b: Book, reports: seq<Report>)
    requires forall i :: 0 <= i < |reports| && Known(b, reports[i]) ==> Seen(b.fills, reports[i].tradeId)
    ensures DeliveredAll(b, reports) == b
  {
    hide Seen, Delivered, Known;
    if reports != [] {
      AllSeenIsNoOp(b, reports[..|reports| - 1]);
      DeliveredShape(b, reports[|reports| - 1]);
    }
  }

  // ---------------------------------------------------------------- open positions and their exits

  /** `id` is a protective order of position `p`. */
  predicate Protects(b: Book, id: OrderId, p: nat) {
    id in b.orders && IsExit(b.orders[id]) && b.orders[id].positionId == Some(p)
  }

  predicate OpenIn(b: Book, p: nat) {
    p in b.positions && b.positions[p].closed.None?
  }

  /** No protective order of `p` has filled the position's quantity. */
  ghost predicate NoExitFilled(b: Book, p: nat)
    requires p in b.positions
  {
    forall id :: Protects(b, id, p) ==> FilledQuantity(b.fills, id) < b.positions[p].quantity
  }

  /** Every open position is still held: none of its exits has filled it away. */
  ghost predicate OpenMeansHeld(b: Book) {
    forall p :: OpenIn(b, p) ==> NoExitFilled(b, p)
  }

  /** Every recorded fill, delivered or stored, is of a positive quantity. */
  predicate PositiveReports(reports: seq<Report>) {
    forall i :: 0 <= i < |reports| && reports[i].parsed.Some? ==> reports[i].parsed.value.quantity > 0.0
  }

  lemma FilledAppend(fills: seq<Fill>, f: Fill, id: OrderId)
    ensures FilledQuantity(fills + [f], id)
         == FilledQuantity(fills, id) + if f.orderId == id then f.quantity else 0.0
  {
    assert (fills + [f])[..|fills|] == fills;
  }

  /** What one delivery does to the state of a position: it stays what it was, or this very fill closes it. */
  lemma DeliveredPosition(b: Book, r: Report, p: nat)
    requires p in b.positions && (r.parsed.Some? ==> r.parsed.value.quantity > 0.0)
    ensures var after := Delivered(b, r);
      && p in after.positions
      && after.positions[p].quantity == b.positions[p].quantity
      && (!OpenIn(b, p) ==> after.positions[p] == b.positions[p])
      && (OpenIn(b, p) && NoExitFilled(b, p) ==> (OpenIn(after, p) <==> NoExitFilled(after, p)))
  {
    hide Pnl;
    var after := Delivered(b, r);
    DeliveredShape(b, r);
    if Known(b, r) && !Seen(b.fills, r.tradeId) {
      var f := FillOf(r);
      var recorded := WithFill(b, f);
      forall id
        ensures FilledQuantity(after.fills, id)
             == FilledQuantity(b.fills, id) + if f.orderId == id then f.quantity else 0.0
        ensures Protects(after, id, p) == Protects(b, id, p)
      {
        FilledAppend(b.fills, f, id);
      }
      if OpenIn(b, p) && NoExitFilled(b, p) && OpenIn(after, p) {
        forall id | Protects(after, id, p)
          ensures FilledQuantity(after.fills, id) < after.positions[p].quantity
        {
          assert Protects(b, id, p);
        }
      }
      if OpenIn(b, p) && !OpenIn(after, p) {
        assert ClosedBy(recorded, f.orderId) == Some(p);
        assert Protects(after, f.orderId, p);
      }
    }
  }

  /** The invariant of ingestion: a linked position is open only while each of its protective orders has filled
      less than the position. */
  lemma DeliveryKeepsOpenMeansHeld(b: Book, r: Report)
    requires OpenMeansHeld(b) && (r.parsed.Some? ==> r.parsed.value.quantity > 0.0)
    ensures OpenMeansHeld(Delivered(b, r))
  {
    hide Delivered, NoExitFilled;
    var after := Delivered(b, r);
    DeliveredShape(b, r);
    forall p | OpenIn(after, p)
      ensures NoExitFilled(after, p)
    {
      assert p in b.positions;
      DeliveredPosition(b, r, p);
    }
  }

  lemma FilledGrows(b: Book, r: Report, id: OrderId)
    requires r.parsed.Some? ==> r.parsed.value.quantity > 0.0
    ensures FilledQuantity(b.fills, id) <= FilledQuantity(Delivered(b, r).fills, id)
  {
    DeliveredShape(b, r);
    if Known(b, r) && !Seen(b.fills, r.tradeId) {
      FilledAppend(b.fills, FillOf(r), id);
    }
  }

  /** A position that an exit has filled away stays so. */
  lemma ExitFilledStays(b: Book, r: Report, p: nat)
    requires p in b.positions && !NoExitFilled(b, p) && (r.parsed.Some? ==> r.parsed.value.quantity > 0.0)
    ensures p in Delivered(b, r).positions && !NoExitFilled(Delivered(b, r), p)
  {
    hide Delivered;
    var id :| Protects(b, id, p) && FilledQuantity(b.fills, id) >= b.positions[p].quantity;
    DeliveredShape(b, r);
    DeliveredPosition(b, r, p);
    FilledGrows(b, r, id);
    assert Protects(Delivered(b, r), id, p);
  }

  /** After any deliveries, a position that was held is open exactly when none of its protective orders has
      filled it: what is closed depends on what was filled, not on how or in what order it was delivered. */
  lemma {:induction false} OpenIffNotFilledAway(b: Book, reports: seq<Report>, p: nat)
    requires OpenIn(b, p) && NoExitFilled(b, p) && PositiveReports(reports)
    ensures var after := DeliveredAll(b, reports);
      && p in after.positions
      && (OpenIn(after, p) <==> NoExitFilled(after, p))
  {
    hide Delivered, NoExitFilled;
    if reports != [] {
      var earlier, last := reports[..|reports| - 1], reports[|reports| - 1];
      OpenIffNotFilledAway(b, earlier, p);
      var mid := DeliveredAll(b, earlier);
      DeliveredPosition(mid, last, p);
      if !NoExitFilled(mid, p) {
        ExitFilledStays(mid, last, p);
      }
    }
  }

  lemma {:induction false} IngestKeepsOpenMeansHeld(b: Book, reports: seq<Report>)
    requires OpenMeansHeld(b) && PositiveReports(reports)
    ensures OpenMeansHeld(DeliveredAll(b, reports))
  {
    hide Delivered, OpenMeansHeld;
    if reports != [] {
      IngestKeepsOpenMeansHeld(b, reports[..|reports| - 1]);
      DeliveryKeepsOpenMeansHeld(DeliveredAll(b, reports[..|reports| - 1]), reports[|reports| - 1]);
    }
  }

  // ---------------------------------------------------------------- the crash the design does not survive

  /** Recording a fill and closing its position are two transactions. A process that dies between them leaves a
      position open although its exit has filled, and every re-delivery of trades already recorded leaves it
      open for good: exactly-once recording is what stops the close from ever being retried. */
  lemma {:induction false} CrashBeforeCloseSticks(b: Book, r: Report, again: seq<Report>)
    requires VerdictOn(b, r).Recorded? && VerdictOn(b, r).closed.Some?
    requires forall i :: 0 <= i < |again| ==> again[i] == r || Seen(b.fills, again[i].tradeId)
    ensures var p := VerdictOn(b, r).closed.value;
      var crashed := WithFill(b, FillOf(r));
      && OpenIn(crashed, p) && !NoExitFilled(crashed, p)
      && DeliveredAll(crashed, again) == crashed
      && !OpenIn(Delivered(b, r), p)
  {
    hide Pnl;
    var crashed, p := WithFill(b, FillOf(r)), VerdictOn(b, r).closed.value;
    assert Protects(crashed, r.orderId.value, p);
    assert crashed.fills == b.fills + [FillOf(r)];
    assert crashed.fills[|b.fills|].tradeId == r.tradeId;
    forall i | 0 <= i < |again|
      ensures Seen(crashed.fills, again[i].tradeId)
    {
      if Seen(b.fills, again[i].tradeId) {
        SeenStays(b.fills, crashed.fills, again[i].tradeId);
      }
    }
    AllSeenIsNoOp(crashed, again);
  }

  /** Exactly such crashes do harm: one between recording a fill and closing its position leaves an open position
      that an exit has filled away if and only if the fill would have closed one. Any other is as if it had not
      happened. */
  lemma CrashBeforeCloseHarmlessIff(b: Book, r: Report)
    requires OpenMeansHeld(b) && VerdictOn(b, r).Recorded? && r.parsed.value.quantity > 0.0
    ensures OpenMeansHeld(WithFill(b, FillOf(r))) <==> VerdictOn(b, r).closed.None?
    ensures VerdictOn(b, r).closed.None? ==> WithFill(b, FillOf(r)) == Delivered(b, r)
  {
    hide NoExitFilled, Pnl;
    if VerdictOn(b, r).closed.None? {
      DeliveryKeepsOpenMeansHeld(b, r);
    } else {
      CrashBeforeCloseSticks(b, r, []);
    }
  }
}
