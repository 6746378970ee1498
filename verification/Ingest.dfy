/** Fill ingestion: trades delivered in any overlap are recorded once, and an exit filled in full closes its
    position. */
module Ingest {
  import opened Common
  import opened Ledgers

  /** A trade as the exchange reports it; price and quantity are absent when they do not parse. */
  datatype Report = Report(tradeId: string, orderId: Option<OrderId>, parsed: Option<Execution>)

  datatype Execution = Execution(quantity: real, price: real)

  datatype Verdict = Recorded(closed: Option<nat>) | Duplicate | Orphan

  datatype Summary = Summary(seen: nat, recorded: nat, duplicates: nat, orphans: nat, closedPositions: seq<nat>)

  function FillOf(r: Report): Fill
    requires r.orderId.Some? && r.parsed.Some?
  {
    Fill(r.tradeId, r.orderId.value, r.parsed.value.quantity, r.parsed.value.price)
  }

  predicate IsExit(row: OrderRow) {
    row.role == StopLoss || row.role == TakeProfit
  }

  /** The open position that this order, having filled in full, closes. */
  function ClosedBy(b: Book, id: OrderId): Option<nat> {
    if id !in b.orders || !IsExit(b.orders[id]) || b.orders[id].positionId.None? then None
    else
      var position := b.orders[id].positionId.value;
      if position !in b.positions || b.positions[position].closed.Some? then None
      else if FilledQuantity(b.fills, id) < b.positions[position].quantity then None
      else Some(position)
  }

  function AfterFill(b: Book, f: Fill): Book {
    var recorded := WithFill(b, f);
    var closing := ClosedBy(recorded, f.orderId);
    if closing.Some? then WithClosed(recorded, closing.value, f.price) else recorded
  }

  function VerdictOn(b: Book, r: Report): Verdict {
    if r.orderId.None? || r.parsed.None? then Orphan
    else
      var recorded := RecordsFill(b, FillOf(r));
      if recorded.Failure? then Orphan
      else if !recorded.value then Duplicate
      else Recorded(ClosedBy(WithFill(b, FillOf(r)), r.orderId.value))
  }

  /** The ledger after one delivery. */
  function Delivered(b: Book, r: Report): Book {
    if VerdictOn(b, r).Recorded? then AfterFill(b, FillOf(r)) else b
  }

  function DeliveredAll(b: Book, reports: seq<Report>): Book {
    if reports == [] then b
    else Delivered(DeliveredAll(b, reports[..|reports| - 1]), reports[|reports| - 1])
  }

  function Tally(s: Summary, v: Verdict): Summary {
    match v
    case Orphan => s.(orphans := s.orphans + 1)
    case Duplicate => s.(duplicates := s.duplicates + 1)
    case Recorded(closed) =>
      s.(recorded := s.recorded + 1,
         closedPositions := if closed.Some? then s.closedPositions + [closed.value] else s.closedPositions)
  }

  function Tallied(b: Book, reports: seq<Report>): Summary {
    if reports == [] then Summary(0, 0, 0, 0, [])
    else
      var earlier := reports[..|reports| - 1];
      var s := Tally(Tallied(b, earlier), VerdictOn(DeliveredAll(b, earlier), reports[|reports| - 1]));
      s.(seen := |reports|)
  }

  class FillIngestor {
    const ledger: Ledger

    constructor (ledger: Ledger)
      ensures this.ledger == ledger
    {
      this.ledger := ledger;
    }

    /** Closing cannot fail here: the position is known and open, so the "already closed" error is out of reach. */
    method CloseIfExitFilled(id: OrderId, price: real) returns (closed: Option<nat>)
      modifies ledger
      ensures closed == ClosedBy(old(ledger.Contents()), id)
      ensures ledger.Contents() == if closed.Some? then WithClosed(old(ledger.Contents()), closed.value, price)
                                   else old(ledger.Contents())
    {
      if id !in ledger.orders {
        return None;
      }
      var row := ledger.orders[id];
      if row.role != StopLoss && row.role != TakeProfit {
        return None;
      }
      if row.positionId.None? {
        return None;
      }
      var position := row.positionId.value;
      if position !in ledger.positions || ledger.positions[position].closed.Some? {
        return None;
      }
      var filled := ledger.Filled(id);
      if filled < ledger.positions[position].quantity {
        return None;
      }
      var pnl := ledger.ClosePosition(position, price);
      assert pnl.Success?;
      return Some(position);
    }

    /** Records one poll's trades; a trade of an order ATLAS does not know is an orphan. */
    method Ingest(reports: seq<Report>) returns (s: Summary)
      modifies ledger
      ensures ledger.Contents() == DeliveredAll(old(ledger.Contents()), reports)
      ensures s == Tallied(old(ledger.Contents()), reports)
    {
      ghost var before := ledger.Contents();
      s := Summary(0, 0, 0, 0, []);
      for i := 0 to |reports|
        invariant ledger.Contents() == DeliveredAll(before, reports[..i])
        invariant s == Tallied(before, reports[..i])
      {
        var report := reports[i];
        assert reports[..i + 1][..i] == reports[..i];
        s := s.(seen := i + 1);
        if report.orderId.None? || report.parsed.None? {
          s := s.(orphans := s.orphans + 1);
          continue;
        }
        var fill := FillOf(report);
        var recorded := ledger.RecordFill(fill);
        if recorded.Failure? {
          s := s.(orphans := s.orphans + 1);
        } else if !recorded.value {
          s := s.(duplicates := s.duplicates + 1);
        } else {
          var closed := CloseIfExitFilled(fill.orderId, fill.price);
          s := s.(recorded := s.recorded + 1);
          if closed.Some? {
            s := s.(closedPositions := s.closedPositions + [closed.value]);
          }
        }
      }
      assert reports[..|reports|] == reports;
    }
  }
}
