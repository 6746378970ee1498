/** The outcomes of a bracket are exhaustive, and each says exactly what the ledger then holds. */
module BracketProperties {
  import opened Common
  import opened Sizing
  import opened Ledgers
  import opened Brackets

  /** A decision not attempted before, with a freshly drawn position identity. */
  predicate Fresh(b: Book, d: Decision) {
    && EntryId(d) !in b.orders && StopId(d) !in b.orders && TargetId(d) !in b.orders && ReversalId(d) !in b.orders
    && d.positionId !in b.positions
  }

  /** The status a placed order's row is left with by a placement that did not come back with an ack. */
  function StatusAfter(reply: Reply): Status {
    match reply
    case SwitchRefused => NotSent
    case Rejection(hasStatus) => if hasStatus then Status.Rejected else Submitted
    case Ack(status, _, _) => status
  }

  function LinkedRow(row: OrderRow, d: Decision, status: Status): OrderRow {
    row.(status := status, positionId := Some(d.positionId))
  }

  lemma SettleStep(b: Book, id: OrderId, reply: Reply)
    requires id in b.orders && b.orders[id].status == Submitted && !reply.Ack?
    ensures StepsOn(b, FailureSteps(id, reply))
         == b.(orders := b.orders[id := b.orders[id].(status := StatusAfter(reply))])
  {
    var steps := FailureSteps(id, reply);
    if steps != [] {
      OneStep(b, steps[0]);
    } else {
      assert b.orders[id := b.orders[id].(status := Submitted)] == b.orders;
    }
  }

  lemma AfterEntry(b: Book, d: Decision, a: Answers)
    requires Fresh(b, d)
    ensures StepsOn(b, EntrySteps(d, a))
         == b.(orders := b.orders[EntryId(d) := EntryOrder(d).(status := StatusAfter(EntryReply(a)))])
  {
    hide EntryReply;
    var id := EntryId(d);
    var placing := [RecordStep(id, EntryOrder(d)), SendStep([id])];
    TwoSteps(b, placing[0], placing[1]);
    var sent := StepsOn(b, placing);
    if EntryReply(a).Ack? {
      OneStep(sent, StatusStep(id, EntryReply(a).status));
      StepsConcat(b, placing, [StatusStep(id, EntryReply(a).status)]);
    } else {
      SettleStep(sent, id, EntryReply(a));
      StepsConcat(b, placing, FailureSteps(id, EntryReply(a)));
    }
  }

  /** The ledger once the position is open and both exits are recorded and linked, before they are answered. */
  function Protected(b: Book, d: Decision, a: Answers): Book
    requires EntryReply(a).Ack?
  {
    Book(b.orders[EntryId(d) := LinkedRow(EntryOrder(d), d, EntryReply(a).status)]
                 [StopId(d) := LinkedRow(StopOrder(d, a), d, Submitted)]
                 [TargetId(d) := LinkedRow(TargetOrder(d, a), d, Submitted)],
         b.fills,
         b.positions[d.positionId := NewPosition(d, a)])
  }

  lemma OrdersStartSubmitted(d: Decision, a: Answers)
    requires EntryReply(a).Ack?
    ensures StopOrder(d, a).status == TargetOrder(d, a).status == ReversalOrder(d, a).status == Submitted
  {
  }

  /** The ledger once the position is open and linked to its entry. */
  function OpenedBook(b: Book, d: Decision, a: Answers): Book
    requires EntryReply(a).Ack?
  {
    Book(b.orders[EntryId(d) := LinkedRow(EntryOrder(d), d, EntryReply(a).status)], b.fills,
         b.positions[d.positionId := NewPosition(d, a)])
  }

  lemma AfterOpening(b: Book, d: Decision, a: Answers)
    requires Fresh(b, d) && EntryReply(a).Ack?
    ensures StepsOn(StepsOn(b, EntrySteps(d, a)), OpenSteps(d, a)) == OpenedBook(b, d, a)
  {
    hide EntryReply, NewPosition, EntryOrder;
    AfterEntry(b, d, a);
    TwoSteps(StepsOn(b, EntrySteps(d, a)), OpenStep(d.positionId, NewPosition(d, a)),
             LinkStep(EntryId(d), d.positionId));
  }

  lemma AfterProtection(b: Book, d: Decision, a: Answers)
    requires Fresh(b, d) && EntryReply(a).Ack?
    ensures StepsOn(StepsOn(StepsOn(b, EntrySteps(d, a)), OpenSteps(d, a)), ProtectSteps(d, a)) == Protected(b, d, a)
  {
    hide EntryReply, StopOrder, TargetOrder, NewPosition, EntryOrder, EntrySteps, OpenSteps;
    OrdersStartSubmitted(d, a);
    AfterOpening(b, d, a);
    var linked := OpenedBook(b, d, a);
    var first := [RecordStep(StopId(d), StopOrder(d, a)), LinkStep(StopId(d), d.positionId)];
    var second := [RecordStep(TargetId(d), TargetOrder(d, a)), LinkStep(TargetId(d), d.positionId)];
    var last := [SendStep([StopId(d), TargetId(d)])];
    TwoSteps(linked, first[0], first[1]);
    var stopped := StepsOn(linked, first);
    TwoSteps(stopped, second[0], second[1]);
    OneStep(StepsOn(stopped, second), last[0]);
    StepsConcat(stopped, second, last);
    StepsConcat(linked, first, second + last);
  }

  /** The exits' rows once the pair has been answered. */
  function Answered(b: Book, d: Decision, a: Answers, stopStatus: Status, targetStatus: Status): Book
    requires EntryReply(a).Ack?
  {
    Protected(b, d, a).(orders :=
      b.orders[EntryId(d) := LinkedRow(EntryOrder(d), d, EntryReply(a).status)]
              [StopId(d) := LinkedRow(StopOrder(d, a), d, stopStatus)]
              [TargetId(d) := LinkedRow(TargetOrder(d, a), d, targetStatus)])
  }

  lemma AfterExitFailure(b: Book, d: Decision, a: Answers, hasStatus: bool)
    requires Fresh(b, d) && EntryReply(a).Ack?
    ensures var left := if hasStatus then Status.Rejected else Submitted;
      StepsOn(StepsOn(Protected(b, d, a), FailureSteps(StopId(d), Rejection(hasStatus))),
              FailureSteps(TargetId(d), Rejection(hasStatus)))
      == Answered(b, d, a, left, left)
  {
    hide EntryReply, StopOrder, TargetOrder, NewPosition, EntryOrder, FailureSteps;
    var p := Protected(b, d, a);
    SettleStep(p, StopId(d), Rejection(hasStatus));
    SettleStep(StepsOn(p, FailureSteps(StopId(d), Rejection(hasStatus))), TargetId(d), Rejection(hasStatus));
  }

  /** The ledger after a reversal was placed and answered: an ack closes the position at the reversal's price. */
  function Reversed(b: Book, d: Decision, a: Answers, exits: Status): Book
    requires EntryReply(a).Ack?
  {
    var base := Answered(b, d, a, exits, exits);
    var reply := ReversalReply(a);
    var status := if reply.SwitchRefused? then Submitted else StatusAfter(reply);
    var orders := base.orders[ReversalId(d) := LinkedRow(ReversalOrder(d, a), d, status)];
    if reply.Ack? then
      var exitPrice := FilledAt(reply.executedQty, reply.filledValue, EntryPrice(d, a));
      var row := NewPosition(d, a);
      Book(orders, b.fills,
           b.positions[d.positionId := row.(closed := Some(Closing(exitPrice, Pnl(row, exitPrice))))])
    else base.(orders := orders)
  }

  lemma AfterReversal(b: Book, d: Decision, a: Answers, exits: Status)
    requires Fresh(b, d) && EntryReply(a).Ack?
    ensures StepsOn(Answered(b, d, a, exits, exits), ReversalSteps(d, a)) == Reversed(b, d, a, exits)
  {
    hide EntryReply, ReversalReply, StopOrder, TargetOrder, EntryOrder, ReversalOrder, FilledAt, EntryPrice, Pnl,
         StopLevel, TargetLevel;
    var base, id, reply := Answered(b, d, a, exits, exits), ReversalId(d), ReversalReply(a);
    var placing := [RecordStep(id, ReversalOrder(d, a)), LinkStep(id, d.positionId), SendStep([id])];
    ThreeSteps(base, placing[0], placing[1], placing[2]);
    OrdersStartSubmitted(d, a);
    var sent := StepsOn(base, placing);
    match reply
    case SwitchRefused =>
      StepsConcat(base, placing, []);
    case Rejection(_) =>
      SettleStep(sent, id, reply);
      StepsConcat(base, placing, FailureSteps(id, reply));
    case Ack(status, executedQty, filledValue) =>
      var close := CloseStep(d.positionId, FilledAt(executedQty, filledValue, EntryPrice(d, a)));
      TwoSteps(sent, StatusStep(id, status), close);
      StepsConcat(base, placing, [StatusStep(id, status), close]);
      var row := Reversed(b, d, a, exits).positions[d.positionId];
      assert b.positions[d.positionId := NewPosition(d, a)][d.positionId := row]
          == Reversed(b, d, a, exits).positions;
  }

  /** What each outcome leaves in the ledger. */
  predicate Leaves(b: Book, after: Book, d: Decision, a: Answers) {
    match BracketOutcome(d, a)
    case EntryHalted =>
      after == b.(orders := b.orders[EntryId(d) := EntryOrder(d).(status := NotSent)])
    case EntryFailed =>
      after == b.(orders := b.orders[EntryId(d) := EntryOrder(d).(status := StatusAfter(EntryReply(a)))])
    case EntryUnfilled =>
      after == b.(orders := b.orders[EntryId(d) := EntryOrder(d).(status := EntryReply(a).status)])
    case BracketOpened(entryPrice, stopPrice, targetPrice) =>
      && a.entry.Acked? && PaidPrice(entryPrice, a.entry, d.referencePrice)
      && after == Answered(b, d, a, ExitReply(d, a).stopStatus, ExitReply(d, a).targetStatus)
      && after.positions[d.positionId] == PositionRow(d.strategyId, d.symbol, d.side, EntryReply(a).executedQty,
                                                      entryPrice, stopPrice, targetPrice, None)
    case _ =>
      after == Reversed(b, d, a, if ExitReply(d, a).hasStatus then Status.Rejected else Submitted)
  }

  /** Every bracket ends in one of its outcomes, with exactly the ledger that outcome describes; a position it opens is
      recorded at the price paid. */
  lemma BracketLeavesItsOutcome(b: Book, d: Decision, a: Answers)
    requires Fresh(b, d)
    ensures Leaves(b, StepsOn(b, BracketSteps(d, a)), d, a)
  {
    hide PaidPrice, EntrySteps, OpenSteps, ProtectSteps, ReversalSteps, FailureSteps, EntryPrice, StopLevel,
         TargetLevel, StopOrder, TargetOrder, EntryOrder, Answered, Protected, Reversed;
    var entry := EntrySteps(d, a);
    AfterEntry(b, d, a);
    if EntryReply(a).Ack? && EntryReply(a).executedQty > 0.0 {
      var entered := StepsOn(b, entry);
      var opening, protect, exits := OpenSteps(d, a), ProtectSteps(d, a), ExitSteps(d, a);
      StepsConcat(b, entry, opening + (protect + exits));
      StepsConcat(entered, opening, protect + exits);
      StepsConcat(StepsOn(entered, opening), protect, exits);
      AfterProtection(b, d, a);
      AfterExits(b, d, a);
    } else {
      StepsConcat(b, entry, []);
    }
  }

  lemma AfterExits(b: Book, d: Decision, a: Answers)
    requires Fresh(b, d) && EntryReply(a).Ack? && EntryReply(a).executedQty > 0.0
    ensures Leaves(b, StepsOn(Protected(b, d, a), ExitSteps(d, a)), d, a)
  {
    OpenedAtPaid(d, a);
    hide PaidPrice, ReversalSteps, FailureSteps, EntryPrice, StopLevel, TargetLevel, StopOrder, TargetOrder,
         EntryOrder, Reversed, ExitReply, EntryReply;
    match ExitReply(d, a)
    case OcoAck(stopStatus, targetStatus) =>
      TwoSteps(Protected(b, d, a), StatusStep(StopId(d), stopStatus), StatusStep(TargetId(d), targetStatus));
    case OcoRejection(hasStatus) =>
      var p := Protected(b, d, a);
      var left := if hasStatus then Status.Rejected else Submitted;
      var first, second := FailureSteps(StopId(d), Rejection(hasStatus)),
                           FailureSteps(TargetId(d), Rejection(hasStatus));
      StepsConcat(p, first, second + ReversalSteps(d, a));
      StepsConcat(StepsOn(p, first), second, ReversalSteps(d, a));
      AfterExitFailure(b, d, a, hasStatus);
      AfterReversal(b, d, a, left);
  }

  // ---------------------------------------------------------------- in the caller's terms

  function OpenPositions(b: Book): set<nat> {
    set p | p in b.positions && b.positions[p].closed.None?
  }

  /** A normal return leaves exactly one more open position, protected by a stop and a target of the filled
      quantity linked to it; a refused, halted or unfilled entry leaves none; a reversal leaves it closed; and
      an unprotected or halted failure leaves exactly one open. */
  lemma OpenPositionsByOutcome(b: Book, d: Decision, a: Answers)
    requires Fresh(b, d)
    ensures var after := StepsOn(b, BracketSteps(d, a));
      var outcome := BracketOutcome(d, a);
      && after.fills == b.fills
      && (forall p :: p in b.positions ==> p in after.positions && after.positions[p] == b.positions[p])
      && OpenPositions(after)
         == OpenPositions(b)
            + (if outcome.BracketOpened? || outcome.LeftUnprotected? || outcome.HaltedUnprotected?
               then {d.positionId} else {})
      && (outcome.EntryReversed? ==> d.positionId in after.positions && after.positions[d.positionId].closed.Some?)
      && (outcome.EntryHalted? <==> a.armedAtEntry)
      && (outcome.LeftUnprotected? || outcome.HaltedUnprotected? ==>
            && ExitReply(d, a).OcoRejection?
            && StopId(d) in after.orders && TargetId(d) in after.orders
            && after.orders[StopId(d)].positionId == after.orders[TargetId(d)].positionId == Some(d.positionId)
            && after.orders[StopId(d)].status == after.orders[TargetId(d)].status
               == if ExitReply(d, a).hasStatus then Status.Rejected else Submitted)
      && (outcome.BracketOpened? ==>
            && StopId(d) in after.orders && TargetId(d) in after.orders
            && after.orders[StopId(d)].role == StopLoss && after.orders[TargetId(d)].role == TakeProfit
            && after.orders[StopId(d)].positionId == after.orders[TargetId(d)].positionId == Some(d.positionId)
            && after.orders[StopId(d)].quantity == after.orders[TargetId(d)].quantity
               == after.positions[d.positionId].quantity > 0.0
            && after.orders[StopId(d)].price == Some(after.positions[d.positionId].stopPrice)
            && after.orders[TargetId(d)].price == Some(after.positions[d.positionId].targetPrice))
  {
    hide StepsOn, BracketSteps, EntryPrice, StopLevel, TargetLevel, FilledAt, Pnl;
    BracketLeavesItsOutcome(b, d, a);
  }

  /** The exits of an opened bracket sit on the tick grid, less than one tick from the asked level, moved
      toward the entry price. */
  lemma ExitsOnGridTowardEntry(d: Decision, a: Answers)
    requires BracketOutcome(d, a).BracketOpened?
    requires d.filters.tickSize > 0.0 && d.stopPrice > 0.0 && d.targetPrice > 0.0
    ensures var o := BracketOutcome(d, a);
      && OnGrid(o.stopPrice, d.filters.tickSize) && OnGrid(o.targetPrice, d.filters.tickSize)
      && (d.stopPrice > o.entryPrice ==> d.stopPrice - d.filters.tickSize < o.stopPrice <= d.stopPrice)
      && (d.stopPrice <= o.entryPrice ==> d.stopPrice <= o.stopPrice < d.stopPrice + d.filters.tickSize)
      && (d.targetPrice > o.entryPrice ==> d.targetPrice - d.filters.tickSize < o.targetPrice <= d.targetPrice)
      && (d.targetPrice <= o.entryPrice ==> d.targetPrice <= o.targetPrice < d.targetPrice + d.filters.tickSize)
  {
    var entryPrice := BracketOutcome(d, a).entryPrice;
    RoundPriceTowardMeaning(d.filters, d.stopPrice, entryPrice);
    RoundPriceTowardMeaning(d.filters, d.targetPrice, entryPrice);
  }
}
