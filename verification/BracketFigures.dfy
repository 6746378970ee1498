/** What a bracket leaves in the ledger in figures: ids, quantities, prices and statuses from the decision and the
    exchange's answers alone. */
module BracketFigures {
  import opened Common
  import opened Market
  import opened Sizing
  import opened Ledgers
  import opened Brackets
  import opened BracketProperties

  /** The asked level, or with a tick size the grid point less than one tick from it on the entry's side. */
  ghost predicate SnappedToward(level: real, asked: real, entry: real, tick: real) {
    && (tick <= 0.0 ==> level == asked)
    && (tick > 0.0 && asked > 0.0 ==>
          && OnGrid(level, tick)
          && (asked > entry ==> asked - tick < level <= asked)
          && (asked <= entry ==> asked <= level < asked + tick))
  }

  lemma RoundedIsSnapped(f: Filters, asked: real, entry: real)
    ensures SnappedToward(RoundPriceToward(f, asked, entry), asked, entry, f.tickSize)
  {
    if f.tickSize > 0.0 && asked > 0.0 {
      RoundPriceTowardMeaning(f, asked, entry);
    }
  }

  /** The entry was sent, acknowledged, and bought or sold something. */
  predicate EntryFilled(a: Answers) {
    !a.armedAtEntry && a.entry.Acked? && a.entry.executedQty > 0.0
  }

  function IdOf(d: Decision, side: OrderSide, tag: Tag): OrderId {
    Atlas(d.strategyId, d.barTime, side, tag)
  }

  /** The order sides that enter and leave: a long buys to enter, a short sells. */
  function EnterWith(side: Side): OrderSide {
    match side
    case Long => Buy
    case Short => Sell
  }

  function LeaveWith(side: Side): OrderSide {
    match side
    case Long => Sell
    case Short => Buy
  }

  /** Both exits were acknowledged by the ids ATLAS chose. */
  predicate ExitsReported(d: Decision, a: Answers) {
    && a.oco.LegReports?
    && IdOf(d, LeaveWith(d.side), StopTag) in a.oco.legs && IdOf(d, LeaveWith(d.side), TargetTag) in a.oco.legs
  }

  /** The entry was reversed: exits refused, and a market order the other way acknowledged. */
  predicate WasReversed(d: Decision, a: Answers) {
    EntryFilled(a) && !ExitsReported(d, a) && !a.armedAtReversal && a.reversal.Acked?
  }

  // ---------------------------------------------------------------- the position

  /** A position as opened: the decision's, of the filled quantity, at the price paid, with both levels snapped
      toward it. */
  ghost predicate OpenedInFigures(d: Decision, entry: Wire, p: PositionRow)
    requires entry.Acked?
  {
    && p.strategyId == d.strategyId && p.symbol == d.symbol && p.side == d.side && p.quantity == entry.executedQty
    && PaidPrice(p.entryPrice, entry, d.referencePrice)
    && SnappedToward(p.stopPrice, d.stopPrice, p.entryPrice, d.filters.tickSize)
    && SnappedToward(p.targetPrice, d.targetPrice, p.entryPrice, d.filters.tickSize)
  }

  /** A reversal's close: the price it got, else the entry price, and the signed result. */
  predicate ClosedInFigures(reversal: Wire, p: PositionRow)
    requires reversal.Acked?
  {
    && p.closed.Some?
    && PaidPrice(p.closed.value.exitPrice, reversal, p.entryPrice)
    && GainOf(p.side, p.quantity, p.entryPrice, p.closed.value.exitPrice, p.closed.value.realisedPnl)
  }

  lemma OpenedIsInFigures(d: Decision, a: Answers)
    requires EntryReply(a).Ack?
    ensures a.entry.Acked? && OpenedInFigures(d, a.entry, NewPosition(d, a))
  {
    hide PaidPrice, FilledAt, RoundPriceToward, SnappedToward;
    FilledAtIsPaid(a.entry, d.referencePrice);
    RoundedIsSnapped(d.filters, d.stopPrice, EntryPrice(d, a));
    RoundedIsSnapped(d.filters, d.targetPrice, EntryPrice(d, a));
  }

  /** A bracket opens its position exactly when the entry filled something: at the price paid, or the reference price
      when no value was reported; and closes it exactly when it was reversed: at the price got, or the entry price. */
  lemma PositionInFigures(b: Book, d: Decision, a: Answers)
    requires Fresh(b, d)
    ensures var after := StepsOn(b, BracketSteps(d, a)).positions;
      && (d.positionId in after <==> EntryFilled(a))
      && (forall p :: p in after && p != d.positionId ==> p in b.positions && after[p] == b.positions[p])
      && (EntryFilled(a) ==>
            && OpenedInFigures(d, a.entry, after[d.positionId])
            && (after[d.positionId].closed.Some? <==> WasReversed(d, a))
            && (WasReversed(d, a) ==> ClosedInFigures(a.reversal, after[d.positionId])))
  {
    hide StepsOn, BracketSteps, PaidPrice, FilledAt, NewPosition, SnappedToward, StopOrder, TargetOrder, EntryOrder,
         ReversalOrder, StopLevel, TargetLevel, EntryPrice, Pnl, GainOf;
    BracketLeavesItsOutcome(b, d, a);
    if EntryFilled(a) {
      var p := NewPosition(d, a);
      OpenedIsInFigures(d, a);
      NewPositionPrice(d, a);
      if WasReversed(d, a) {
        FilledAtIsPaid(a.reversal, p.entryPrice);
        PnlIsGain(p, FilledAt(a.reversal.executedQty, a.reversal.filledValue, p.entryPrice));
      }
    }
  }

  lemma NewPositionPrice(d: Decision, a: Answers)
    requires EntryReply(a).Ack?
    ensures NewPosition(d, a).entryPrice == EntryPrice(d, a)
    ensures NewPosition(d, a).stopPrice == StopLevel(d, a)
    ensures NewPosition(d, a).targetPrice == TargetLevel(d, a)
    ensures NewPosition(d, a).closed.None?
  {
  }

  // ---------------------------------------------------------------- the orders

  /** The status a single order is left with: never sent, as answered, refused, or possibly resting. */
  predicate SettledBy(status: Status, armed: bool, ifArmed: Status, wire: Wire) {
    if armed then status == ifArmed
    else
      match wire
      case Acked(answered, _, _) => status == answered
      case Refused(hasStatus) => status == if hasStatus then Status.Rejected else Submitted
  }

  /** The status of an exit: as its leg was reported, refused, or possibly resting. */
  predicate ExitSettledBy(status: Status, oco: OcoWire, id: OrderId, reported: bool) {
    match oco
    case LegReports(legs) => status == if reported && id in legs then legs[id] else Submitted
    case UnusableReply => status == Submitted
    case OcoRefused(hasStatus) => status == if hasStatus then Status.Rejected else Submitted
  }

  /** The entry's row: of the decision's quantity, linked when a position was opened. */
  predicate EntryInFigures(d: Decision, a: Answers, orders: map<OrderId, OrderRow>) {
    var id := IdOf(d, EnterWith(d.side), EntryTag);
    && id in orders
    && (var row := orders[id];
        && row == OrderRow(d.strategyId, d.symbol, EnterWith(d.side), Entry, d.quantity, None, row.status,
                           if EntryFilled(a) then Some(d.positionId) else None)
        && SettledBy(row.status, a.armedAtEntry, NotSent, a.entry))
  }

  /** An exit's row: of what filled, at the position's own level, linked to it. */
  predicate ExitInFigures(d: Decision, a: Answers, orders: map<OrderId, OrderRow>, tag: Tag, role: OrderRole,
                          quantity: real, level: real) {
    var id := IdOf(d, LeaveWith(d.side), tag);
    && id in orders
    && (var row := orders[id];
        && row == OrderRow(d.strategyId, d.symbol, LeaveWith(d.side), role, quantity, Some(level), row.status,
                           Some(d.positionId))
        && ExitSettledBy(row.status, a.oco, id, ExitsReported(d, a)))
  }

  /** The reversal's row: a market order for what filled, the other way. */
  predicate ReversalInFigures(d: Decision, a: Answers, orders: map<OrderId, OrderRow>, quantity: real) {
    var id := IdOf(d, LeaveWith(d.side), ReversalTag);
    && id in orders
    && (var row := orders[id];
        && row == OrderRow(d.strategyId, d.symbol, LeaveWith(d.side), Entry, quantity, None, row.status,
                           Some(d.positionId))
        && SettledBy(row.status, a.armedAtReversal, Submitted, a.reversal))
  }

  lemma IdsInFigures(d: Decision)
    ensures EntryId(d) == IdOf(d, EnterWith(d.side), EntryTag)
    ensures StopId(d) == IdOf(d, LeaveWith(d.side), StopTag)
    ensures TargetId(d) == IdOf(d, LeaveWith(d.side), TargetTag)
    ensures ReversalId(d) == IdOf(d, LeaveWith(d.side), ReversalTag)
    ensures EntrySide(d.side) == EnterWith(d.side) && ExitSide(d.side) == LeaveWith(d.side)
  {
  }

  lemma ReplyInFigures(armed: bool, ifArmed: Status, wire: Wire)
    ensures var reply := Place(Entry, armed, wire);
      SettledBy(if reply.SwitchRefused? then ifArmed else StatusAfter(reply), armed, ifArmed, wire)
  {
  }

  lemma ExitReplyInFigures(d: Decision, a: Answers)
    ensures ExitReply(d, a).OcoAck? <==> ExitsReported(d, a)
    ensures var reply := ExitReply(d, a);
      var left := if reply.OcoRejection? && reply.hasStatus then Status.Rejected else Submitted;
      && ExitSettledBy(if reply.OcoAck? then reply.stopStatus else left, a.oco, StopId(d), ExitsReported(d, a))
      && ExitSettledBy(if reply.OcoAck? then reply.targetStatus else left, a.oco, TargetId(d), ExitsReported(d, a))
  {
  }

  /** The rows of an entry that filled, the exits' statuses as given. */
  lemma AnsweredRows(b: Book, d: Decision, a: Answers, stopStatus: Status, targetStatus: Status)
    requires EntryFilled(a)
    requires ExitSettledBy(stopStatus, a.oco, StopId(d), ExitsReported(d, a))
    requires ExitSettledBy(targetStatus, a.oco, TargetId(d), ExitsReported(d, a))
    ensures var orders, p := Answered(b, d, a, stopStatus, targetStatus).orders, NewPosition(d, a);
      && EntryInFigures(d, a, orders)
      && ExitInFigures(d, a, orders, StopTag, StopLoss, p.quantity, p.stopPrice)
      && ExitInFigures(d, a, orders, TargetTag, TakeProfit, p.quantity, p.targetPrice)
      && orders.Keys == b.orders.Keys + {EntryId(d), StopId(d), TargetId(d)}
      && forall id :: id in b.orders && id !in {EntryId(d), StopId(d), TargetId(d)} ==> orders[id] == b.orders[id]
  {
    hide StopLevel, TargetLevel, EntryPrice, ExitSettledBy, ExitsReported;
    IdsInFigures(d);
    ReplyInFigures(a.armedAtEntry, NotSent, a.entry);
  }

  lemma UnfilledRows(b: Book, d: Decision, a: Answers)
    requires !EntryFilled(a)
    ensures EntryInFigures(d, a, b.orders[EntryId(d) := EntryOrder(d).(status := StatusAfter(EntryReply(a)))])
  {
    IdsInFigures(d);
    ReplyInFigures(a.armedAtEntry, NotSent, a.entry);
  }

  /** A reversal adds its own row and no other. */
  lemma ReversedRows(b: Book, d: Decision, a: Answers, exits: Status)
    requires EntryFilled(a)
    ensures var orders := Reversed(b, d, a, exits).orders;
      && ReversalInFigures(d, a, orders, NewPosition(d, a).quantity)
      && orders.Keys == Answered(b, d, a, exits, exits).orders.Keys + {ReversalId(d)}
      && forall id :: id in Answered(b, d, a, exits, exits).orders && id != ReversalId(d) ==>
           orders[id] == Answered(b, d, a, exits, exits).orders[id]
  {
    hide StopLevel, TargetLevel, EntryPrice, FilledAt, Pnl, Answered, SettledBy;
    IdsInFigures(d);
    ReplyInFigures(a.armedAtReversal, Submitted, a.reversal);
  }

  /** The ledger of an entry that filled, by what became of its exits. */
  lemma FilledLeaves(b: Book, d: Decision, a: Answers)
    requires Fresh(b, d) && EntryFilled(a)
    ensures var after := StepsOn(b, BracketSteps(d, a));
      && d.positionId in after.positions && after.positions[d.positionId].quantity == NewPosition(d, a).quantity
      && after.positions[d.positionId].stopPrice == NewPosition(d, a).stopPrice
      && after.positions[d.positionId].targetPrice == NewPosition(d, a).targetPrice
    ensures var after, reply := StepsOn(b, BracketSteps(d, a)), ExitReply(d, a);
      var left := if reply.OcoRejection? && reply.hasStatus then Status.Rejected else Submitted;
      after.orders == if reply.OcoAck? then Answered(b, d, a, reply.stopStatus, reply.targetStatus).orders
                      else Reversed(b, d, a, left).orders
  {
    hide StepsOn, BracketSteps, FilledAt, NewPosition, StopOrder, TargetOrder, EntryOrder, ReversalOrder, StopLevel,
         TargetLevel, EntryPrice, Pnl;
    BracketLeavesItsOutcome(b, d, a);
  }

  /** Every order of a bracket, from the decision and the answers: the entry; with a position, its stop and its target;
      and a reversal when the exits were refused. All others are left as they were. */
  lemma OrdersInFigures(b: Book, d: Decision, a: Answers)
    requires Fresh(b, d)
    ensures var after := StepsOn(b, BracketSteps(d, a));
      var leave := LeaveWith(d.side);
      && EntryInFigures(d, a, after.orders)
      && after.orders.Keys == b.orders.Keys + {IdOf(d, EnterWith(d.side), EntryTag)}
         + (if EntryFilled(a) then {IdOf(d, leave, StopTag), IdOf(d, leave, TargetTag)} else {})
         + (if EntryFilled(a) && !ExitsReported(d, a) then {IdOf(d, leave, ReversalTag)} else {})
      && (forall id :: id in b.orders ==> after.orders[id] == b.orders[id])
      && (EntryFilled(a) ==>
            && d.positionId in after.positions
            && (var p := after.positions[d.positionId];
                && ExitInFigures(d, a, after.orders, StopTag, StopLoss, p.quantity, p.stopPrice)
                && ExitInFigures(d, a, after.orders, TargetTag, TakeProfit, p.quantity, p.targetPrice)
                && (!ExitsReported(d, a) ==> ReversalInFigures(d, a, after.orders, p.quantity))))
  {
    hide StepsOn, BracketSteps, Answered, Reversed, NewPosition, EntryInFigures, ExitInFigures, ReversalInFigures,
         ExitSettledBy, ExitsReported, PlaceOco, EntryOrder;
    IdsInFigures(d);
    if EntryFilled(a) {
      var reply := ExitReply(d, a);
      var left := if reply.OcoRejection? && reply.hasStatus then Status.Rejected else Submitted;
      var stop := if reply.OcoAck? then reply.stopStatus else left;
      var target := if reply.OcoAck? then reply.targetStatus else left;
      ExitReplyInFigures(d, a);
      FilledLeaves(b, d, a);
      AnsweredRows(b, d, a, stop, target);
      if reply.OcoRejection? {
        ReversedRows(b, d, a, left);
        RowsKept(d, a, Answered(b, d, a, left, left).orders, StepsOn(b, BracketSteps(d, a)).orders);
      }
    } else {
      UnfilledRows(b, d, a);
      BracketLeavesItsOutcome(b, d, a);
    }
  }

  /** What is said of the entry's and the exits' rows survives adding a reversal. */
  lemma RowsKept(d: Decision, a: Answers, before: map<OrderId, OrderRow>, after: map<OrderId, OrderRow>)
    requires forall id :: id in before && id != ReversalId(d) ==> id in after && after[id] == before[id]
    ensures EntryInFigures(d, a, before) ==> EntryInFigures(d, a, after)
    ensures forall tag, role, quantity, level :: tag != ReversalTag ==>
              ExitInFigures(d, a, before, tag, role, quantity, level) ==>
                ExitInFigures(d, a, after, tag, role, quantity, level)
  {
    hide ExitSettledBy, SettledBy, ExitsReported, EntryFilled;
  }
}
