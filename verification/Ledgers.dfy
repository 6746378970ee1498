/** Orders, fills and positions: the three tables and the operations on them. */
module Ledgers {
  import opened Common
  import opened Market

  datatype OrderSide = Buy | Sell

  datatype OrderRole = Entry | StopLoss | TakeProfit

  /** Which of a decision's orders an id names. */
  datatype Tag = EntryTag | StopTag | TargetTag | ReversalTag | ListTag

  /** A client order id is a collision-free function of the decision that produced it; ids that ATLAS did not
      make are foreign. */
  datatype OrderId =
    | Atlas(strategyId: string, barTime: int, side: OrderSide, tag: Tag)
    | Foreign(id: string)

  /** What counts as an ATLAS order at the exchange: any id with the prefix ATLAS gives its own. */
  predicate ClaimedByAtlas(id: OrderId) {
    id.Atlas? || "atlas" <= id.id
  }

  datatype Status =
    | Submitted
    | New
    | PartiallyFilled
    | Filled
    | Rejected
    | NotSent
    | ReconciledClosed
    | OtherStatus(name: string)

  /** The statuses under which a local order counts as possibly resting at the exchange. */
  predicate IsOpen(s: Status) {
    s == New || s == PartiallyFilled || s == Submitted
  }

  datatype OrderRow = OrderRow(
    strategyId: string,
    symbol: string,
    side: OrderSide,
    role: OrderRole,
    quantity: real,
    price: Option<real>,
    status: Status,
    positionId: Option<nat>)

  datatype Fill = Fill(tradeId: string, orderId: OrderId, quantity: real, price: real)

  datatype Closing = Closing(exitPrice: real, realisedPnl: real)

  datatype PositionRow = PositionRow(
    strategyId: string,
    symbol: string,
    side: Side,
    quantity: real,
    entryPrice: real,
    stopPrice: real,
    targetPrice: real,
    closed: Option<Closing>)

  datatype Book = Book(orders: map<OrderId, OrderRow>, fills: seq<Fill>, positions: map<nat, PositionRow>)

  datatype LedgerError = UnknownOrder | UnknownPosition | AlreadyClosed

  // ---------------------------------------------------------------- the operations, on values

  /** Idempotent on the id: an order already recorded keeps its row. */
  function WithOrder(b: Book, id: OrderId, row: OrderRow): Book {
    if id in b.orders then b else b.(orders := b.orders[id := row])
  }

  function WithStatus(b: Book, id: OrderId, status: Status): Book {
    if id in b.orders then b.(orders := b.orders[id := b.orders[id].(status := status)]) else b
  }

  function WithLink(b: Book, id: OrderId, position: nat): Book {
    if id in b.orders then b.(orders := b.orders[id := b.orders[id].(positionId := Some(position))]) else b
  }

  predicate Seen(fills: seq<Fill>, tradeId: string) {
    exists i :: 0 <= i < |fills| && fills[i].tradeId == tradeId
  }

  /** Whether the fill is new; a fill of an unknown order is an error. */
  function RecordsFill(b: Book, f: Fill): Result<bool, LedgerError> {
    if f.orderId !in b.orders then Failure(UnknownOrder) else Success(!Seen(b.fills, f.tradeId))
  }

  function WithFill(b: Book, f: Fill): Book {
    if RecordsFill(b, f) == Success(true) then b.(fills := b.fills + [f]) else b
  }

  function FilledQuantity(fills: seq<Fill>, id: OrderId): real {
    if fills == [] then 0.0
    else
      var last := fills[|fills| - 1];
      FilledQuantity(fills[..|fills| - 1], id) + if last.orderId == id then last.quantity else 0.0
  }

  function WithPosition(b: Book, id: nat, row: PositionRow): Book {
    b.(positions := b.positions[id := row])
  }

  function Pnl(row: PositionRow, exitPrice: real): real {
    if row.side == Long then (exitPrice - row.entryPrice) * row.quantity
    else (row.entryPrice - exitPrice) * row.quantity
  }

  /** The gain of leaving at a price: quantity times how far the price moved the position's way. */
  predicate GainOf(side: Side, quantity: real, entryPrice: real, exitPrice: real, gain: real) {
    && (side == Long ==> gain == quantity * (exitPrice - entryPrice))
    && (side == Short ==> gain == quantity * (entryPrice - exitPrice))
  }

  lemma PnlIsGain(row: PositionRow, exitPrice: real)
    ensures GainOf(row.side, row.quantity, row.entryPrice, exitPrice, Pnl(row, exitPrice))
  {
  }

  function Closes(b: Book, id: nat, exitPrice: real): Result<real, LedgerError> {
    if id !in b.positions then Failure(UnknownPosition)
    else if b.positions[id].closed.Some? then Failure(AlreadyClosed)
    else Success(Pnl(b.positions[id], exitPrice))
  }

  function WithClosed(b: Book, id: nat, exitPrice: real): Book {
    var r := Closes(b, id, exitPrice);
    if r.Failure? then b
    else b.(positions := b.positions[id := b.positions[id].(closed := Some(Closing(exitPrice, r.value)))])
  }

  // ---------------------------------------------------------------- the tables

  class Ledger {
    var orders: map<OrderId, OrderRow>
    var fills: seq<Fill>
    var positions: map<nat, PositionRow>

    constructor ()
      ensures Contents() == Book(map[], [], map[])
    {
      orders, fills, positions := map[], [], map[];
    }

    function Contents(): Book
      reads this
    {
      Book(orders, fills, positions)
    }

    method RecordOrder(id: OrderId, row: OrderRow)
      modifies this
      ensures Contents() == WithOrder(old(Contents()), id, row)
    {
      if id in orders {
        return;
      }
      orders := orders[id := row];
    }

    method LinkOrderToPosition(id: OrderId, position: nat)
      modifies this
      ensures Contents() == WithLink(old(Contents()), id, position)
    {
      if id in orders {
        orders := orders[id := orders[id].(positionId := Some(position))];
      }
    }

    method UpdateOrderStatus(id: OrderId, status: Status)
      modifies this
      ensures Contents() == WithStatus(old(Contents()), id, status)
    {
      if id in orders {
        orders := orders[id := orders[id].(status := status)];
      }
    }

    /** False when this exchange trade was already seen. */
    method RecordFill(f: Fill) returns (r: Result<bool, LedgerError>)
      modifies this
      ensures r == RecordsFill(old(Contents()), f)
      ensures Contents() == WithFill(old(Contents()), f)
    {
      if f.orderId !in orders {
        return Failure(UnknownOrder);
      }
      if Seen(fills, f.tradeId) {
        return Success(false);
      }
      fills := fills + [f];
      return Success(true);
    }

    method Filled(id: OrderId) returns (total: real)
      ensures total == FilledQuantity(fills, id)
    {
      total := 0.0;
      for i := 0 to |fills|
        invariant total == FilledQuantity(fills[..i], id)
      {
        if fills[i].orderId == id {
          total := total + fills[i].quantity;
        }
        assert fills[..i + 1][..i] == fills[..i];
      }
      assert fills[..|fills|] == fills;
    }

    /** `id` is the freshly drawn identity of the position. */
    method OpenPosition(id: nat, row: PositionRow)
      requires id !in positions
      modifies this
      ensures Contents() == WithPosition(old(Contents()), id, row)
    {
      positions := positions[id := row];
    }

    method ClosePosition(id: nat, exitPrice: real) returns (r: Result<real, LedgerError>)
      modifies this
      ensures r == Closes(old(Contents()), id, exitPrice)
      ensures Contents() == WithClosed(old(Contents()), id, exitPrice)
    {
      if id !in positions {
        return Failure(UnknownPosition);
      }
      if positions[id].closed.Some? {
        return Failure(AlreadyClosed);
      }
      var pnl := Pnl(positions[id], exitPrice);
      positions := positions[id := positions[id].(closed := Some(Closing(exitPrice, pnl)))];
      return Success(pnl);
    }
  }
}
