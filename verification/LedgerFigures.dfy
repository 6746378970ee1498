/** What closing, delivering and reconciling leave in the tables, field by field. */
module LedgerFigures {
  import opened Common
  import opened Market
  import opened Ledgers
  import opened Ingest
  import opened Reconcile

  // ---------------------------------------------------------------- closing

  /** A position closed at a price: its result there is quantity times the distance, and nothing else of it moved. */
  predicate ClosedAt(before: PositionRow, after: PositionRow, exitPrice: real) {
    && after.closed.Some? && after.closed.value.exitPrice == exitPrice
    && GainOf(before.side, before.quantity, before.entryPrice, exitPrice, after.closed.value.realisedPnl)
    && after == before.(closed := after.closed)
  }

  /** Closing records the signed result once: an unknown or a closed position is refused and nothing changes. */
  lemma CloseInFigures(b: Book, id: nat, exitPrice: real)
    ensures var r, after := Closes(b, id, exitPrice), WithClosed(b, id, exitPrice);
      && (id !in b.positions <==> r == Failure(UnknownPosition))
      && (id in b.positions && b.positions[id].closed.Some? <==> r == Failure(AlreadyClosed))
      && (r.Failure? ==> after == b)
      && (r.Success? ==>
            && after == b.(positions := b.positions[id := after.positions[id]])
            && ClosedAt(b.positions[id], after.positions[id], exitPrice)
            && r.value == after.positions[id].closed.value.realisedPnl
            && forall again: real :: Closes(after, id, again) == Failure(AlreadyClosed))
  {
    if id in b.positions && b.positions[id].closed.None? {
      PnlIsGain(b.positions[id], exitPrice);
      hide Pnl;
    }
  }

  // ---------------------------------------------------------------- delivering a trade

  /** A trade is recorded when it parses, names a recorded order, and was not seen. */
  predicate NewTrade(b: Book, r: Report) {
    && r.orderId.Some? && r.parsed.Some? && r.orderId.value in b.orders
    && forall i :: 0 <= i < |b.fills| ==> b.fills[i].tradeId != r.tradeId
  }

  /** What an order's fills add up to, each counted when it is the order's own. */
  lemma {:induction false} FilledInFigures(fills: seq<Fill>, id: OrderId, shares: seq<real>)
    requires |shares| == |fills|
    requires forall i :: 0 <= i < |fills| ==> shares[i] == if fills[i].orderId == id then fills[i].quantity else 0.0
    ensures FilledQuantity(fills, id) == Sum(shares)
  {
    if fills != [] {
      FilledInFigures(fills[..|fills| - 1], id, shares[..|fills| - 1]);
    }
  }

  /** The stop or the target of open position `p`, whose fills now reach its quantity. */
  predicate FilledAway(b: Book, id: OrderId, p: nat) {
    && id in b.orders && (b.orders[id].role == StopLoss || b.orders[id].role == TakeProfit)
    && b.orders[id].positionId == Some(p) && p in b.positions && b.positions[p].closed.None?
    && FilledQuantity(b.fills, id) >= b.positions[p].quantity
  }

  /** A new trade is kept as it was reported, and closes, at its own price, the position it fills the exit of; any other
      delivery changes nothing. */
  lemma DeliveryInFigures(b: Book, r: Report)
    ensures var after := Delivered(b, r);
      && (!NewTrade(b, r) ==> after == b)
      && (NewTrade(b, r) ==>
            var fill := Fill(r.tradeId, r.orderId.value, r.parsed.value.quantity, r.parsed.value.price);
            var recorded := b.(fills := b.fills + [fill]);
            && after.orders == b.orders && after.fills == recorded.fills && after.positions.Keys == b.positions.Keys
            && forall p :: p in b.positions ==>
                 if FilledAway(recorded, fill.orderId, p) then
                   ClosedAt(b.positions[p], after.positions[p], r.parsed.value.price)
                 else after.positions[p] == b.positions[p])
  {
    if NewTrade(b, r) {
      var fill := FillOf(r);
      var recorded := b.(fills := b.fills + [fill]);
      assert WithFill(b, fill) == recorded;
      var closing := ClosedBy(recorded, fill.orderId);
      if closing.Some? {
        CloseInFigures(recorded, closing.value, fill.price);
      }
      hide Pnl, FilledQuantity, ClosedAt;
    }
  }

  predicate OpenIn(b: Book, p: nat) {
    p in b.positions && b.positions[p].closed.None?
  }

  /** Every delivery is counted once, recorded trades are what the ledger gained, and the positions listed are those
      the batch closed. */
  lemma {:induction false} SummaryInFigures(b: Book, reports: seq<Report>)
    ensures var s, after := Tallied(b, reports), DeliveredAll(b, reports);
      && s.seen == |reports| == s.recorded + s.duplicates + s.orphans
      && |after.fills| == |b.fills| + s.recorded
      && after.positions.Keys == b.positions.Keys
      && (forall p :: p in s.closedPositions <==> OpenIn(b, p) && !OpenIn(after, p))
      && (forall p :: OpenIn(after, p) ==> OpenIn(b, p))
  {
    if reports != [] {
      var earlier, last := reports[..|reports| - 1], reports[|reports| - 1];
      SummaryInFigures(b, earlier);
      DeliveryCounts(DeliveredAll(b, earlier), last);
      hide Delivered, VerdictOn, OpenIn;
    }
  }

  lemma DeliveryCounts(b: Book, r: Report)
    ensures var v, after := VerdictOn(b, r), Delivered(b, r);
      && |after.fills| == |b.fills| + (if v.Recorded? then 1 else 0)
      && after.positions.Keys == b.positions.Keys
      && (v.Recorded? && v.closed.Some? ==> OpenIn(b, v.closed.value) && !OpenIn(after, v.closed.value))
      && (forall p: nat :: !(v.Recorded? && v.closed == Some(p)) ==> (OpenIn(after, p) <==> OpenIn(b, p)))
  {
    hide Pnl, FilledQuantity;
  }

  // ---------------------------------------------------------------- reconciling

  /** The snapshot by id: the last entry that carries an id says its status, and an id no entry carries is absent. */
  lemma {:induction false} SnapshotInFigures(snapshot: seq<RemoteOrder>, id: OrderId)
    ensures id in RemoteOf(snapshot) <==> exists i :: 0 <= i < |snapshot| && snapshot[i].id == Some(id)
    ensures forall i :: 0 <= i < |snapshot| && snapshot[i].id == Some(id)
                        && (forall j :: i < j < |snapshot| ==> snapshot[j].id != Some(id)) ==>
              id in RemoteOf(snapshot) && RemoteOf(snapshot)[id] == snapshot[i].status
  {
    if snapshot != [] {
      var rest := snapshot[..|snapshot| - 1];
      SnapshotInFigures(rest, id);
      assert forall i :: 0 <= i < |rest| ==> rest[i] == snapshot[i];
      assert id in RemoteOf(snapshot) <==> id in RemoteOf(rest) || snapshot[|rest|].id == Some(id);
      if snapshot[|rest|].id != Some(id) {
        assert id in RemoteOf(rest) ==> RemoteOf(snapshot)[id] == RemoteOf(rest)[id];
      }
    }
  }

  /** Reconciling moves the status of an order that was submitted, new or partly filled to what the snapshot says, or
      closes it when the snapshot does not list it; it moves no other status and nothing else of any row. */
  lemma SettledInFigures(b: Book, remote: Remote, id: OrderId)
    requires id in b.orders
    ensures var before, after := b.orders[id], Settled(b, remote).orders;
      && after.Keys == b.orders.Keys
      && after[id] == before.(status := after[id].status)
      && (before.status in {Submitted, New, PartiallyFilled} ==>
            after[id].status == if id in remote then remote[id] else ReconciledClosed)
      && (before.status !in {Submitted, New, PartiallyFilled} ==> after[id] == before)
    ensures Settled(b, remote).fills == b.fills && Settled(b, remote).positions == b.positions
  {
  }
}
