/** Bracketed entry: record before sending, open and link after the fill, protect with one order pair, and
    reverse the entry when protection fails. */
module Brackets {
  import opened Common
  import opened Market
  import opened Sizing
  import opened Ledgers

  /** One entry decision. `positionId` is the identity drawn for the position if it opens. */
  datatype Decision = Decision(
    strategyId: string,
    barTime: int,
    symbol: string,
    side: Side,
    quantity: real,
    stopPrice: real,
    referencePrice: real,
    targetPrice: real,
    filters: Filters,
    positionId: nat)

  function EntrySide(side: Side): OrderSide {
    if side == Long then Buy else Sell
  }

  function ExitSide(side: Side): OrderSide {
    if side == Long then Sell else Buy
  }

  function EntryId(d: Decision): OrderId {
    Atlas(d.strategyId, d.barTime, EntrySide(d.side), EntryTag)
  }

  function StopId(d: Decision): OrderId {
    Atlas(d.strategyId, d.barTime, ExitSide(d.side), StopTag)
  }

  function TargetId(d: Decision): OrderId {
    Atlas(d.strategyId, d.barTime, ExitSide(d.side), TargetTag)
  }

  function ReversalId(d: Decision): OrderId {
    Atlas(d.strategyId, d.barTime, ExitSide(d.side), ReversalTag)
  }

  // ---------------------------------------------------------------- what the exchange may answer

  /** The exchange's answer to one order; a refusal may or may not carry an HTTP status. */
  datatype Wire = Acked(status: Status, executedQty: real, filledValue: Option<real>) | Refused(hasStatus: bool)

  /** What the broker hands back: the wire's answer, or its own refusal to send. */
  datatype Reply =
    | Ack(status: Status, executedQty: real, filledValue: Option<real>)
    | Rejection(hasStatus: bool)
    | SwitchRefused

  /** The broker checks the kill switch before any order that opens or increases exposure, and never for a
      protective one. */
  function Place(role: OrderRole, armed: bool, wire: Wire): Reply {
    if role == Entry && armed then SwitchRefused
    else
      match wire
      case Acked(status, executedQty, filledValue) => Ack(status, executedQty, filledValue)
      case Refused(hasStatus) => Rejection(hasStatus)
  }

  datatype OcoWire = LegReports(legs: map<OrderId, Status>) | UnusableReply | OcoRefused(hasStatus: bool)

  datatype OcoReply = OcoAck(stopStatus: Status, targetStatus: Status) | OcoRejection(hasStatus: bool)

  /** The two legs are found by the ids ATLAS chose; a reply missing either is a rejection without a status. */
  function PlaceOco(wire: OcoWire, stop: OrderId, target: OrderId): OcoReply {
    match wire
    case UnusableReply => OcoRejection(false)
    case OcoRefused(hasStatus) => OcoRejection(hasStatus)
    case LegReports(legs) =>
      if stop in legs && target in legs then OcoAck(legs[stop], legs[target]) else OcoRejection(false)
  }

  /** Everything the outside answers during one bracket. */
  datatype Answers = Answers(
    armedAtEntry: bool,
    entry: Wire,
    oco: OcoWire,
    armedAtReversal: bool,
    reversal: Wire)

  function EntryReply(a: Answers): Reply {
    Place(Entry, a.armedAtEntry, a.entry)
  }

  function ExitReply(d: Decision, a: Answers): OcoReply {
    PlaceOco(a.oco, StopId(d), TargetId(d))
  }

  /** A reversal is a market entry order the other way, so the switch gates it too. */
  function ReversalReply(a: Answers): Reply {
    Place(Entry, a.armedAtReversal, a.reversal)
  }

  // ---------------------------------------------------------------- prices and rows

  /** The price actually paid per unit when the exchange reports one, else the fallback. */
  function FilledAt(executedQty: real, filledValue: Option<real>, fallback: real): real {
    if filledValue.Some? && executedQty > 0.0 && filledValue.value > 0.0 then filledValue.value / executedQty
    else fallback
  }

  /** What was paid per unit when a positive value was reported for what filled, and the fallback otherwise. */
  predicate PaidPrice(price: real, wire: Wire, fallback: real)
    requires wire.Acked?
  {
    if wire.filledValue.Some? && wire.filledValue.value > 0.0 && wire.executedQty > 0.0 then
      price * wire.executedQty == wire.filledValue.value
    else price == fallback
  }

  lemma FilledAtIsPaid(wire: Wire, fallback: real)
    requires wire.Acked?
    ensures PaidPrice(FilledAt(wire.executedQty, wire.filledValue, fallback), wire, fallback)
  {
    if wire.filledValue.Some? && wire.filledValue.value > 0.0 && wire.executedQty > 0.0 {
      var price := wire.filledValue.value / wire.executedQty;
      assert price * wire.executedQty == wire.filledValue.value;
    }
  }

  function EntryPrice(d: Decision, a: Answers): real
    requires EntryReply(a).Ack?
  {
    FilledAt(EntryReply(a).executedQty, EntryReply(a).filledValue, d.referencePrice)
  }

  function StopLevel(d: Decision, a: Answers): real
    requires EntryReply(a).Ack?
  {
    RoundPriceToward(d.filters, d.stopPrice, EntryPrice(d, a))
  }

  function TargetLevel(d: Decision, a: Answers): real
    requires EntryReply(a).Ack?
  {
    RoundPriceToward(d.filters, d.targetPrice, EntryPrice(d, a))
  }

  function NewOrder(d: Decision, side: OrderSide, role: OrderRole, quantity: real, price: Option<real>): OrderRow {
    OrderRow(d.strategyId, d.symbol, side, role, quantity, price, Submitted, None)
  }

  function EntryOrder(d: Decision): OrderRow {
    NewOrder(d, EntrySide(d.side), Entry, d.quantity, None)
  }

  function StopOrder(d: Decision, a: Answers): OrderRow
    requires EntryReply(a).Ack?
  {
    NewOrder(d, ExitSide(d.side), StopLoss, EntryReply(a).executedQty, Some(StopLevel(d, a)))
  }

  function TargetOrder(d: Decision, a: Answers): OrderRow
    requires EntryReply(a).Ack?
  {
    NewOrder(d, ExitSide(d.side), TakeProfit, EntryReply(a).executedQty, Some(TargetLevel(d, a)))
  }

  function ReversalOrder(d: Decision, a: Answers): OrderRow
    requires EntryReply(a).Ack?
  {
    NewOrder(d, ExitSide(d.side), Entry, EntryReply(a).executedQty, None)
  }

  function NewPosition(d: Decision, a: Answers): PositionRow
    requires EntryReply(a).Ack?
  {
    PositionRow(d.strategyId, d.symbol, d.side, EntryReply(a).executedQty, EntryPrice(d, a), StopLevel(d, a),
                TargetLevel(d, a), None)
  }

  // ---------------------------------------------------------------- the steps of a bracket

  /** The individually committed steps: six on the ledger and the transmission of orders. */
  datatype Step =
    | RecordStep(id: OrderId, row: OrderRow)
    | StatusStep(id: OrderId, status: Status)
    | LinkStep(id: OrderId, position: nat)
    | OpenStep(position: nat, details: PositionRow)
    | CloseStep(position: nat, exitPrice: real)
    | SendStep(ids: seq<OrderId>)

  function StepOn(b: Book, s: Step): Book {
    match s
    case RecordStep(id, row) => WithOrder(b, id, row)
    case StatusStep(id, status) => WithStatus(b, id, status)
    case LinkStep(id, position) => WithLink(b, id, position)
    case OpenStep(position, details) => WithPosition(b, position, details)
    case CloseStep(position, exitPrice) => WithClosed(b, position, exitPrice)
    case SendStep(_) => b
  }

  function StepsOn(b: Book, steps: seq<Step>): Book
    decreases steps
  {
    if steps == [] then b else StepsOn(StepOn(b, steps[0]), steps[1..])
  }

  /** What a failed placement says about where the order is: a switch refusal never left, a refusal carrying a
      status means it does not exist, and otherwise it may, so its row stays as submitted. */
  function FailureSteps(id: OrderId, reply: Reply): seq<Step> {
    if reply.SwitchRefused? then [StatusStep(id, NotSent)]
    else if reply.Rejection? && reply.hasStatus then [StatusStep(id, Status.Rejected)]
    else []
  }

  function EntrySteps(d: Decision, a: Answers): seq<Step> {
    [RecordStep(EntryId(d), EntryOrder(d)), SendStep([EntryId(d)])]
    + if EntryReply(a).Ack? then [StatusStep(EntryId(d), EntryReply(a).status)]
      else FailureSteps(EntryId(d), EntryReply(a))
  }

  function OpenSteps(d: Decision, a: Answers): seq<Step>
    requires EntryReply(a).Ack?
  {
    [OpenStep(d.positionId, NewPosition(d, a)), LinkStep(EntryId(d), d.positionId)]
  }

  function ProtectSteps(d: Decision, a: Answers): seq<Step>
    requires EntryReply(a).Ack?
  {
    [RecordStep(StopId(d), StopOrder(d, a)), LinkStep(StopId(d), d.positionId)]
    + ([RecordStep(TargetId(d), TargetOrder(d, a)), LinkStep(TargetId(d), d.positionId)]
       + [SendStep([StopId(d), TargetId(d)])])
  }

  function ReversalSteps(d: Decision, a: Answers): seq<Step>
    requires EntryReply(a).Ack?
  {
    [RecordStep(ReversalId(d), ReversalOrder(d, a)), LinkStep(ReversalId(d), d.positionId), SendStep([ReversalId(d)])]
    + match ReversalReply(a)
      case SwitchRefused => []
      case Rejection(_) => FailureSteps(ReversalId(d), ReversalReply(a))
      case Ack(status, executedQty, filledValue) =>
        [StatusStep(ReversalId(d), status),
         CloseStep(d.positionId, FilledAt(executedQty, filledValue, EntryPrice(d, a)))]
  }

  function ExitSteps(d: Decision, a: Answers): seq<Step>
    requires EntryReply(a).Ack?
  {
    match ExitReply(d, a)
    case OcoAck(stopStatus, targetStatus) =>
      [StatusStep(StopId(d), stopStatus), StatusStep(TargetId(d), targetStatus)]
    case OcoRejection(hasStatus) =>
      var reply := Rejection(hasStatus);
      FailureSteps(StopId(d), reply) + (FailureSteps(TargetId(d), reply) + ReversalSteps(d, a))
  }

  /** The whole bracket. */
  function BracketSteps(d: Decision, a: Answers): seq<Step> {
    EntrySteps(d, a)
    + if EntryReply(a).Ack? && EntryReply(a).executedQty > 0.0 then
        OpenSteps(d, a) + (ProtectSteps(d, a) + ExitSteps(d, a))
      else []
  }

  datatype Outcome =
    | BracketOpened(entryPrice: real, stopPrice: real, targetPrice: real)
    | EntryFailed
    | EntryHalted
    | EntryUnfilled
    | EntryReversed
    | LeftUnprotected
    | HaltedUnprotected

  function BracketOutcome(d: Decision, a: Answers): Outcome {
    match EntryReply(a)
    case SwitchRefused => EntryHalted
    case Rejection(_) => EntryFailed
    case Ack(status, executedQty, filledValue) =>
      if executedQty <= 0.0 then EntryUnfilled
      else
        match ExitReply(d, a)
        case OcoAck(_, _) => BracketOpened(EntryPrice(d, a), StopLevel(d, a), TargetLevel(d, a))
        case OcoRejection(_) =>
          match ReversalReply(a)
          case SwitchRefused => HaltedUnprotected
          case Rejection(_) => LeftUnprotected
          case Ack(_, _, _) => EntryReversed
  }

  lemma {:induction false} StepsConcat(b: Book, s: seq<Step>, t: seq<Step>)
    ensures StepsOn(b, s + t) == StepsOn(StepsOn(b, s), t)
    decreases s
  {
    if s == [] {
      assert s + t == t;
    } else {
      StepsConcat(StepOn(b, s[0]), s[1..], t);
      assert (s + t)[1..] == s[1..] + t;
    }
  }

  lemma OneStep(b: Book, s: Step)
    ensures StepsOn(b, [s]) == StepOn(b, s)
  {
    assert [s][1..] == [];
  }

  lemma TwoSteps(b: Book, s: Step, t: Step)
    ensures StepsOn(b, [s, t]) == StepOn(StepOn(b, s), t)
  {
    hide StepOn;
    assert [s, t][1..] == [t];
    OneStep(StepOn(b, s), t);
  }

  lemma ThreeSteps(b: Book, s: Step, t: Step, u: Step)
    ensures StepsOn(b, [s, t, u]) == StepOn(StepOn(StepOn(b, s), t), u)
  {
    hide StepOn;
    assert [s, t, u][1..] == [t, u];
    TwoSteps(StepOn(b, s), t, u);
  }

  // ---------------------------------------------------------------- the operation

  /** Writes what a failed placement means into the ledger. */
  method RecordFailure(ledger: Ledger, id: OrderId, reply: Reply)
    modifies ledger
    ensures ledger.Contents() == StepsOn(old(ledger.Contents()), FailureSteps(id, reply))
  {
    if reply.SwitchRefused? {
      OneStep(ledger.Contents(), StatusStep(id, NotSent));
      ledger.UpdateOrderStatus(id, NotSent);
    } else if reply.Rejection? && reply.hasStatus {
      OneStep(ledger.Contents(), StatusStep(id, Status.Rejected));
      ledger.UpdateOrderStatus(id, Status.Rejected);
    }
  }

  method PlaceEntry(ledger: Ledger, d: Decision, a: Answers) returns (reply: Reply)
    modifies ledger
    ensures reply == EntryReply(a)
    ensures ledger.Contents() == StepsOn(old(ledger.Contents()), EntrySteps(d, a))
  {
    ghost var before := ledger.Contents();
    var id := EntryId(d);
    ledger.RecordOrder(id, EntryOrder(d));
    reply := Place(Entry, a.armedAtEntry, a.entry);
    TwoSteps(before, RecordStep(id, EntryOrder(d)), SendStep([id]));
    ghost var sent := ledger.Contents();
    if reply.Ack? {
      OneStep(sent, StatusStep(id, reply.status));
      ledger.UpdateOrderStatus(id, reply.status);
      StepsConcat(before, [RecordStep(id, EntryOrder(d)), SendStep([id])], [StatusStep(id, reply.status)]);
    } else {
      RecordFailure(ledger, id, reply);
      StepsConcat(before, [RecordStep(id, EntryOrder(d)), SendStep([id])], FailureSteps(id, reply));
    }
  }

  method OpenAndProtect(ledger: Ledger, d: Decision, a: Answers)
    requires EntryReply(a).Ack? && d.positionId !in ledger.positions
    modifies ledger
    ensures ledger.Contents() == StepsOn(StepsOn(old(ledger.Contents()), OpenSteps(d, a)), ProtectSteps(d, a))
  {
    hide StopOrder, TargetOrder, NewPosition;
    ghost var before := ledger.Contents();
    ledger.OpenPosition(d.positionId, NewPosition(d, a));
    ledger.LinkOrderToPosition(EntryId(d), d.positionId);
    TwoSteps(before, OpenStep(d.positionId, NewPosition(d, a)), LinkStep(EntryId(d), d.positionId));
    ghost var linked := ledger.Contents();
    ledger.RecordOrder(StopId(d), StopOrder(d, a));
    ledger.LinkOrderToPosition(StopId(d), d.positionId);
    TwoSteps(linked, RecordStep(StopId(d), StopOrder(d, a)), LinkStep(StopId(d), d.positionId));
    ghost var stopped := ledger.Contents();
    ledger.RecordOrder(TargetId(d), TargetOrder(d, a));
    ledger.LinkOrderToPosition(TargetId(d), d.positionId);
    TwoSteps(stopped, RecordStep(TargetId(d), TargetOrder(d, a)), LinkStep(TargetId(d), d.positionId));
    OneStep(ledger.Contents(), SendStep([StopId(d), TargetId(d)]));
    var first := [RecordStep(StopId(d), StopOrder(d, a)), LinkStep(StopId(d), d.positionId)];
    var second := [RecordStep(TargetId(d), TargetOrder(d, a)), LinkStep(TargetId(d), d.positionId)];
    var last := [SendStep([StopId(d), TargetId(d)])];
    StepsConcat(stopped, second, last);
    StepsConcat(linked, first, second + last);
  }

  method ReverseEntry(ledger: Ledger, d: Decision, a: Answers) returns (reply: Reply)
    requires EntryReply(a).Ack?
    modifies ledger
    ensures reply == ReversalReply(a)
    ensures ledger.Contents() == StepsOn(old(ledger.Contents()), ReversalSteps(d, a))
  {
    hide ReversalOrder, FilledAt, EntryPrice;
    ghost var before := ledger.Contents();
    var id := ReversalId(d);
    ledger.RecordOrder(id, ReversalOrder(d, a));
    ledger.LinkOrderToPosition(id, d.positionId);
    reply := Place(Entry, a.armedAtReversal, a.reversal);
    ghost var placing := [RecordStep(id, ReversalOrder(d, a)), LinkStep(id, d.positionId), SendStep([id])];
    ThreeSteps(before, placing[0], placing[1], placing[2]);
    ghost var sent := ledger.Contents();
    match reply
    case SwitchRefused =>
      StepsConcat(before, placing, []);
    case Rejection(_) =>
      RecordFailure(ledger, id, reply);
      StepsConcat(before, placing, FailureSteps(id, reply));
    case Ack(status, executedQty, filledValue) =>
      var exitPrice := FilledAt(executedQty, filledValue, EntryPrice(d, a));
      ledger.UpdateOrderStatus(id, status);
      var pnl := ledger.ClosePosition(d.positionId, exitPrice);
      TwoSteps(sent, StatusStep(id, status), CloseStep(d.positionId, exitPrice));
      StepsConcat(before, placing, [StatusStep(id, status), CloseStep(d.positionId, exitPrice)]);
  }

  /** One bracket against the given answers: the ledger ends as its steps leave it. */
  method OpenBracketedPosition(ledger: Ledger, d: Decision, a: Answers) returns (outcome: Outcome)
    requires d.positionId !in ledger.positions
    modifies ledger
    ensures ledger.Contents() == StepsOn(old(ledger.Contents()), BracketSteps(d, a))
    ensures outcome == BracketOutcome(d, a)
    ensures outcome.BracketOpened? ==> a.entry.Acked? && PaidPrice(outcome.entryPrice, a.entry, d.referencePrice)
  {
    OpenedAtPaid(d, a);
    hide PaidPrice, EntrySteps, OpenSteps, ProtectSteps, ReversalSteps, FailureSteps, EntryPrice, StopLevel,
         TargetLevel;
    ghost var before := ledger.Contents();
    EntryKeepsPositions(before, d, a);
    var entry := PlaceEntry(ledger, d, a);
    ghost var entered := ledger.Contents();
    if !entry.Ack? || entry.executedQty <= 0.0 {
      StepsConcat(before, EntrySteps(d, a), []);
      return match entry
             case SwitchRefused => EntryHalted
             case Rejection(_) => EntryFailed
             case Ack(_, _, _) => EntryUnfilled;
    }
    OpenAndProtect(ledger, d, a);
    ghost var protected := ledger.Contents();
    StepsConcat(before, EntrySteps(d, a), OpenSteps(d, a) + (ProtectSteps(d, a) + ExitSteps(d, a)));
    StepsConcat(entered, OpenSteps(d, a), ProtectSteps(d, a) + ExitSteps(d, a));
    StepsConcat(StepsOn(entered, OpenSteps(d, a)), ProtectSteps(d, a), ExitSteps(d, a));
    var exits := PlaceOco(a.oco, StopId(d), TargetId(d));
    match exits
    case OcoAck(stopStatus, targetStatus) =>
      ledger.UpdateOrderStatus(StopId(d), stopStatus);
      ledger.UpdateOrderStatus(TargetId(d), targetStatus);
      TwoSteps(protected, StatusStep(StopId(d), stopStatus), StatusStep(TargetId(d), targetStatus));
      return BracketOpened(EntryPrice(d, a), StopLevel(d, a), TargetLevel(d, a));
    case OcoRejection(hasStatus) =>
      RecordFailure(ledger, StopId(d), Rejection(hasStatus));
      ghost var failed := ledger.Contents();
      RecordFailure(ledger, TargetId(d), Rejection(hasStatus));
      ghost var rest := FailureSteps(TargetId(d), Rejection(hasStatus));
      StepsConcat(protected, FailureSteps(StopId(d), Rejection(hasStatus)), rest + ReversalSteps(d, a));
      StepsConcat(failed, rest, ReversalSteps(d, a));
      var reversal := ReverseEntry(ledger, d, a);
      return match reversal
             case SwitchRefused => HaltedUnprotected
             case Rejection(_) => LeftUnprotected
             case Ack(_, _, _) => EntryReversed;
  }

  lemma OpenedAtPaid(d: Decision, a: Answers)
    ensures EntryReply(a).Ack? ==> a.entry.Acked? && PaidPrice(EntryPrice(d, a), a.entry, d.referencePrice)
  {
    hide PaidPrice, FilledAt;
    if EntryReply(a).Ack? {
      FilledAtIsPaid(a.entry, d.referencePrice);
    }
  }

  lemma EntryKeepsPositions(b: Book, d: Decision, a: Answers)
    ensures StepsOn(b, EntrySteps(d, a)).positions == b.positions
  {
    var id := EntryId(d);
    var placing := [RecordStep(id, EntryOrder(d)), SendStep([id])];
    TwoSteps(b, placing[0], placing[1]);
    var settling := if EntryReply(a).Ack? then [StatusStep(id, EntryReply(a).status)]
      else FailureSteps(id, EntryReply(a));
    StepsConcat(b, placing, settling);
    if settling != [] {
      OneStep(StepsOn(b, placing), settling[0]);
    }
  }
}
