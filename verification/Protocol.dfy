/** The execution protocol as a state machine: brackets committed step by step, an exchange that moves on its
    own, deliveries of fills, reconciliations, and a crash between any two steps. */
module Protocol {
  import opened Common
  import opened Ledgers
  import opened Ingest
  import opened IngestProperties
  import opened Reconcile
  import opened Brackets

  /** The ledger, the orders resting at the exchange, the steps the running bracket has left, and which of its
      orders will come to rest when sent. */
  datatype World = World(book: Book, exchange: Remote, program: seq<Step>, lands: Remote)

  const START: World := World(Book(map[], [], map[]), map[], [], map[])

  /** A resting order is reported under one of the exchange's two open statuses. */
  predicate RestingStatus(s: Status) {
    s == New || s == PartiallyFilled
  }

  /** An answer that is no proof of absence: an ack says so with an open status, a refusal carrying a status or
      the broker's own refusal means the order does not exist. */
  predicate MayRest(reply: Reply) {
    match reply
    case Ack(status, _, _) => IsOpen(status)
    case Rejection(hasStatus) => !hasStatus
    case SwitchRefused => false
  }

  predicate MayRestExit(reply: OcoReply, stop: bool) {
    match reply
    case OcoAck(stopStatus, targetStatus) => IsOpen(if stop then stopStatus else targetStatus)
    case OcoRejection(hasStatus) => !hasStatus
  }

  /** The exchange's answers are truthful about which of this attempt's orders come to rest: a refusal that
      carries a status, or an answer that says an order is over, means that the order sent did not. */
  predicate Truthful(d: Decision, a: Answers, lands: Remote) {
    && (forall id :: id in lands ==> RestingStatus(lands[id]))
    && (EntryId(d) in lands ==> MayRest(EntryReply(a)))
    && (ReversalId(d) in lands ==> MayRest(ReversalReply(a)))
    && (StopId(d) in lands ==> MayRestExit(ExitReply(d, a), true))
    && (TargetId(d) in lands ==> MayRestExit(ExitReply(d, a), false))
  }

  /** An answer that denies an order still resting from an earlier attempt, as the refusal of a duplicate does. */
  predicate Collides(resting: set<OrderId>, d: Decision, a: Answers) {
    || (EntryId(d) in resting && !MayRest(EntryReply(a)))
    || (ReversalId(d) in resting && !MayRest(ReversalReply(a)))
    || (StopId(d) in resting && !MayRestExit(ExitReply(d, a), true))
    || (TargetId(d) in resting && !MayRestExit(ExitReply(d, a), false))
  }

  // ---------------------------------------------------------------- which decisions may be attempted

  /** No row of this order says that it is over. */
  predicate Untaken(b: Book, id: OrderId) {
    id in b.orders ==> IsOpen(b.orders[id].status)
  }

  /** None of the decision's recorded orders is over: it was never attempted, or its rows are all open. */
  predicate RowsOpen(b: Book, d: Decision) {
    Untaken(b, EntryId(d)) && Untaken(b, StopId(d)) && Untaken(b, TargetId(d)) && Untaken(b, ReversalId(d))
  }

  /** None of the decision's orders rests at the exchange. */
  predicate NoneRests(resting: set<OrderId>, d: Decision) {
    EntryId(d) !in resting && StopId(d) !in resting && TargetId(d) !in resting && ReversalId(d) !in resting
  }

  /** What a caller can see before an attempt: open rows in the ledger, and nothing of it among the open orders. */
  predicate Attemptable(b: Book, resting: set<OrderId>, d: Decision) {
    RowsOpen(b, d) && NoneRests(resting, d)
  }

  /** Exits recorded by an earlier attempt have not filled what the entry now buys. */
  predicate ExitsUnfilled(b: Book, d: Decision, a: Answers) {
    EntryReply(a).Ack? && EntryReply(a).executedQty > 0.0 ==>
      && FilledQuantity(b.fills, StopId(d)) < EntryReply(a).executedQty
      && FilledQuantity(b.fills, TargetId(d)) < EntryReply(a).executedQty
  }

  /** What is asked of a bracket besides: a freshly drawn position identity, truthful answers, and exits that have
      not already filled. */
  predicate Answerable(b: Book, d: Decision, a: Answers, lands: Remote) {
    d.positionId !in b.positions && Truthful(d, a, lands) && ExitsUnfilled(b, d, a)
  }

  /** A bracket begins over open rows, with answers that deny none of its orders still resting: in particular
      whenever none of them rests. */
  predicate MayBegin(b: Book, resting: set<OrderId>, d: Decision, a: Answers, lands: Remote) {
    RowsOpen(b, d) && Answerable(b, d, a, lands) && !Collides(resting, d, a)
  }

  lemma AttemptableMayBegin(b: Book, resting: set<OrderId>, d: Decision, a: Answers, lands: Remote)
    requires Attemptable(b, resting, d) && Answerable(b, d, a, lands)
    ensures MayBegin(b, resting, d, a, lands)
  {
    hide Truthful, MayRest, MayRestExit, ExitsUnfilled;
  }

  datatype Event =
    | Begin(d: Decision, a: Answers, lands: Remote)
    | Advance
    | Crash
    | OrderMoves(id: OrderId, to: Option<Status>)
    | ForeignOrder(name: string, status: Status)
    | Deliver(report: Report)
    | ReconcileNow

  function Landed(exchange: Remote, lands: Remote, ids: seq<OrderId>): Remote {
    exchange + (map id | id in lands && id in ids :: lands[id])
  }

  /** One event; an event that is not enabled changes nothing. Brackets, deliveries and reconciliations run one
      at a time, as in the single execution process. */
  function Next(w: World, e: Event): World {
    match e
    case Begin(d, a, lands) =>
      if w.program == [] && MayBegin(w.book, AtlasResting(w.exchange), d, a, lands) then
        w.(program := BracketSteps(d, a), lands := lands)
      else w
    case Advance =>
      if w.program == [] then w
      else
        var step := w.program[0];
        World(StepOn(w.book, step),
              if step.SendStep? then Landed(w.exchange, w.lands, step.ids) else w.exchange,
              w.program[1..], w.lands)
    case Crash => w.(program := [])
    case OrderMoves(id, to) =>
      if id !in w.exchange then w
      else if to.None? then w.(exchange := w.exchange - {id})
      else if RestingStatus(to.value) then w.(exchange := w.exchange[id := to.value])
      else w
    case ForeignOrder(name, status) =>
      if ClaimedByAtlas(Foreign(name)) then w else w.(exchange := w.exchange[Foreign(name) := status])
    case Deliver(report) =>
      if w.program == [] && (report.parsed.Some? ==> report.parsed.value.quantity > 0.0)
      then w.(book := Delivered(w.book, report)) else w
    case ReconcileNow => if w.program == [] then w.(book := Settled(w.book, w.exchange)) else w
  }

  function Execute(events: seq<Event>): World {
    if events == [] then START else Next(Execute(events[..|events| - 1]), events[|events| - 1])
  }

  // ---------------------------------------------------------------- the invariant

  function AtlasResting(exchange: Remote): set<OrderId> {
    set id | id in exchange && ClaimedByAtlas(id)
  }

  /** Every ATLAS order resting at the exchange has a local row under an open status. */
  predicate Tracked(book: Book, exchange: Remote) {
    forall id :: id in AtlasResting(exchange) ==>
      id in book.orders && IsOpen(book.orders[id].status) && RestingStatus(exchange[id])
  }

  /** Entries and reversals are not protective orders. */
  predicate RoleFits(id: OrderId, row: OrderRow) {
    id.Atlas? && (id.tag.EntryTag? || id.tag.ReversalTag? ==> !IsExit(row))
  }

  /** The tables fit together: only ATLAS orders in their roles, fills of recorded orders, exits of existing
      positions, and no open position whose exit has filled it away. */
  ghost predicate BookOk(b: Book) {
    && (forall id :: id in b.orders ==> RoleFits(id, b.orders[id]))
    && (forall i :: 0 <= i < |b.fills| ==> b.fills[i].orderId in b.orders)
    && (forall id :: id in b.orders && b.orders[id].positionId.Some? ==> b.orders[id].positionId.value in b.positions)
    && OpenMeansHeld(b)
  }

  /** What a step needs of the ledger and of the orders that may be resting. */
  predicate StepOk(b: Book, resting: set<OrderId>, lands: Remote, s: Step) {
    match s
    case RecordStep(id, row) => id in b.orders || (RoleFits(id, row) && row.status == Submitted && row.positionId.None?)
    case StatusStep(id, status) => IsOpen(status) || id !in resting
    case LinkStep(id, p) =>
      && id in b.orders && p in b.positions
      && (IsExit(b.orders[id]) ==> FilledQuantity(b.fills, id) < b.positions[p].quantity)
    case OpenStep(p, row) => p !in b.positions && row.closed.None?
    case CloseStep(_, _) => true
    case SendStep(ids) => forall id :: id in ids && id in lands ==>
      id in b.orders && IsOpen(b.orders[id].status) && RestingStatus(lands[id])
  }

  function RestingAfter(resting: set<OrderId>, lands: Remote, s: Step): set<OrderId> {
    if s.SendStep? then resting + (set id | id in s.ids && id in lands) else resting
  }

  /** Every remaining step will find what it needs. */
  predicate Safe(b: Book, resting: set<OrderId>, lands: Remote, program: seq<Step>)
    decreases program
  {
    program == []
    || (&& StepOk(b, resting, lands, program[0])
        && Safe(StepOn(b, program[0]), RestingAfter(resting, lands, program[0]), lands, program[1..]))
  }

  ghost predicate Invariant(w: World) {
    && BookOk(w.book)
    && Tracked(w.book, w.exchange)
    && Safe(w.book, AtlasResting(w.exchange), w.lands, w.program)
  }

  // ---------------------------------------------------------------- safe programs

  /** Fewer resting orders make a program no less safe. */
  lemma {:induction false} SafeWithFewer(b: Book, resting: set<OrderId>, fewer: set<OrderId>, lands: Remote,
                                         program: seq<Step>)
    requires Safe(b, resting, lands, program) && fewer <= resting
    ensures Safe(b, fewer, lands, program)
    decreases program
  {
    hide StepOn;
    if program != [] {
      SafeWithFewer(StepOn(b, program[0]), RestingAfter(resting, lands, program[0]),
                    RestingAfter(fewer, lands, program[0]), lands, program[1..]);
    }
  }

  function RestingAfterAll(resting: set<OrderId>, lands: Remote, program: seq<Step>): set<OrderId>
    decreases program
  {
    if program == [] then resting
    else RestingAfterAll(RestingAfter(resting, lands, program[0]), lands, program[1..])
  }

  lemma {:induction false} SafeConcat(b: Book, resting: set<OrderId>, lands: Remote, s: seq<Step>, t: seq<Step>)
    requires Safe(b, resting, lands, s)
    requires Safe(StepsOn(b, s), RestingAfterAll(resting, lands, s), lands, t)
    ensures Safe(b, resting, lands, s + t)
    decreases s
  {
    hide StepOn, StepOk, RestingAfter;
    if s == [] {
      assert s + t == t;
    } else {
      SafeConcat(StepOn(b, s[0]), RestingAfter(resting, lands, s[0]), lands, s[1..], t);
      assert (s + t)[0] == s[0] && (s + t)[1..] == s[1..] + t;
    }
  }

  lemma {:induction false} NoFillsOfUnknown(fills: seq<Fill>, id: OrderId)
    requires forall i :: 0 <= i < |fills| ==> fills[i].orderId != id
    ensures FilledQuantity(fills, id) == 0.0
  {
    if fills != [] {
      NoFillsOfUnknown(fills[..|fills| - 1], id);
    }
  }

  /** A step whose needs are met keeps the tables in order. */
  lemma StepKeepsBookOk(b: Book, resting: set<OrderId>, lands: Remote, s: Step)
    requires BookOk(b) && StepOk(b, resting, lands, s)
    ensures BookOk(StepOn(b, s))
  {
    hide Pnl;
    var after := StepOn(b, s);
    forall p | OpenIn(after, p)
      ensures NoExitFilled(after, p)
    {
      forall id | Protects(after, id, p)
        ensures FilledQuantity(after.fills, id) < after.positions[p].quantity
      {
        if s.LinkStep? && s.id == id {
        } else if s.OpenStep? && s.position == p {
          assert false;
        } else {
          assert Protects(b, id, p) && OpenIn(b, p);
          assert NoExitFilled(b, p);
        }
      }
    }
  }

  /** And keeps every resting order tracked. */
  lemma StepKeepsTracked(w: World)
    requires w.program != [] && Tracked(w.book, w.exchange)
    requires StepOk(w.book, AtlasResting(w.exchange), w.lands, w.program[0])
    ensures Tracked(Next(w, Advance).book, Next(w, Advance).exchange)
    ensures AtlasResting(Next(w, Advance).exchange) <= RestingAfter(AtlasResting(w.exchange), w.lands, w.program[0])
  {
    hide IsOpen, RestingStatus;
    var s, after := w.program[0], Next(w, Advance);
    assert IsOpen(Submitted) by { SubmittedIsOpen(); }
    forall id | id in AtlasResting(after.exchange)
      ensures id in after.book.orders && IsOpen(after.book.orders[id].status) && RestingStatus(after.exchange[id])
      ensures id in RestingAfter(AtlasResting(w.exchange), w.lands, s)
    {
      if id in w.exchange {
        assert id in AtlasResting(w.exchange);
      }
    }
  }

  lemma SubmittedIsOpen()
    ensures IsOpen(Submitted)
  {
  }

  // ---------------------------------------------------------------- a bracket is a safe program

  lemma SafeOne(b: Book, resting: set<OrderId>, lands: Remote, s: Step)
    requires StepOk(b, resting, lands, s)
    ensures Safe(b, resting, lands, [s])
    ensures RestingAfterAll(resting, lands, [s]) == RestingAfter(resting, lands, s)
  {
    hide StepOk, StepOn, RestingAfter;
    assert [s][1..] == [];
  }

  lemma SafeTwo(b: Book, resting: set<OrderId>, lands: Remote, s: Step, t: Step)
    requires StepOk(b, resting, lands, s)
    requires StepOk(StepOn(b, s), RestingAfter(resting, lands, s), lands, t)
    ensures Safe(b, resting, lands, [s, t])
    ensures RestingAfterAll(resting, lands, [s, t]) == RestingAfter(RestingAfter(resting, lands, s), lands, t)
  {
    hide StepOk, StepOn, RestingAfter;
    assert [s, t][1..] == [t];
    SafeOne(StepOn(b, s), RestingAfter(resting, lands, s), lands, t);
  }

  /** Nothing but the rows of `ids` may differ. */
  ghost predicate SameElse(b: Book, after: Book, ids: set<OrderId>) {
    && after.fills == b.fills
    && forall id :: id !in ids ==>
         (id in after.orders <==> id in b.orders) && (id in b.orders ==> after.orders[id] == b.orders[id])
  }

  /** The row is there, open, and in its role. */
  predicate Placed(b: Book, id: OrderId) {
    id in b.orders && IsOpen(b.orders[id].status)
  }

  predicate RolesFit(b: Book) {
    forall id :: id in b.orders ==> RoleFits(id, b.orders[id])
  }

  function LandedOf(lands: Remote, id: OrderId): set<OrderId> {
    if id in lands then {id} else {}
  }

  lemma RestingAfterSend(resting: set<OrderId>, lands: Remote, id: OrderId)
    ensures RestingAfter(resting, lands, SendStep([id])) == resting + LandedOf(lands, id)
  {
  }

  lemma RestingAfterPair(resting: set<OrderId>, lands: Remote, a: OrderId, b: OrderId)
    ensures RestingAfter(resting, lands, SendStep([a, b])) == resting + LandedOf(lands, a) + LandedOf(lands, b)
  {
  }

  /** Recording what a failed placement says is safe when a landed order can only have failed ambiguously. */
  lemma SafeFailure(b: Book, resting: set<OrderId>, lands: Remote, id: OrderId, reply: Reply)
    requires !reply.Ack? && (id in resting ==> MayRest(reply))
    ensures Safe(b, resting, lands, FailureSteps(id, reply))
    ensures RestingAfterAll(resting, lands, FailureSteps(id, reply)) == resting
  {
    if FailureSteps(id, reply) != [] {
      SafeOne(b, resting, lands, FailureSteps(id, reply)[0]);
    }
  }

  /** Recording an order that no row says is over, or keeping its open row. */
  lemma RecordPlaces(b: Book, id: OrderId, row: OrderRow)
    requires Untaken(b, id) && row.status == Submitted && RolesFit(b) && RoleFits(id, row)
    ensures var after := WithOrder(b, id, row);
      Placed(after, id) && RolesFit(after) && SameElse(b, after, {id}) && after.positions == b.positions
  {
    hide RoleFits;
  }

  /** Recording and sending one order. */
  lemma SafePlace(b: Book, resting: set<OrderId>, lands: Remote, id: OrderId, row: OrderRow)
    requires Untaken(b, id) && row.status == Submitted && row.positionId.None? && RolesFit(b) && RoleFits(id, row)
    requires id in lands ==> RestingStatus(lands[id])
    ensures var placing := [RecordStep(id, row), SendStep([id])];
      && Safe(b, resting, lands, placing)
      && RestingAfterAll(resting, lands, placing) == resting + LandedOf(lands, id)
      && StepsOn(b, placing) == WithOrder(b, id, row)
  {
    hide IsOpen, RestingStatus, RoleFits, RolesFit;
    RecordPlaces(b, id, row);
    RestingAfterSend(resting, lands, id);
    SafeTwo(b, resting, lands, RecordStep(id, row), SendStep([id]));
    TwoSteps(b, RecordStep(id, row), SendStep([id]));
  }

  lemma SafeEntry(b: Book, resting: set<OrderId>, d: Decision, a: Answers, lands: Remote)
    requires Untaken(b, EntryId(d)) && RolesFit(b) && Truthful(d, a, lands) && !Collides(resting, d, a)
    ensures Safe(b, resting, lands, EntrySteps(d, a))
    ensures RestingAfterAll(resting, lands, EntrySteps(d, a)) == resting + LandedOf(lands, EntryId(d))
    ensures var entered := StepsOn(b, EntrySteps(d, a));
      && SameElse(b, entered, {EntryId(d)}) && entered.positions == b.positions
      && EntryId(d) in entered.orders && RolesFit(entered)
  {
    hide EntryReply, ExitReply, ReversalReply, MayRestExit, IsOpen, RolesFit;
    var id, reply := EntryId(d), EntryReply(a);
    var placing := [RecordStep(id, EntryOrder(d)), SendStep([id])];
    var recorded, now := WithOrder(b, id, EntryOrder(d)), resting + LandedOf(lands, id);
    SafePlace(b, resting, lands, id, EntryOrder(d));
    RecordPlaces(b, id, EntryOrder(d));
    var settling := if reply.Ack? then [StatusStep(id, reply.status)] else FailureSteps(id, reply);
    if reply.Ack? {
      AckedMayRest(reply);
      SafeOne(recorded, now, lands, settling[0]);
    } else {
      SafeFailure(recorded, now, lands, id, reply);
    }
    SettlingKeeps(recorded, id, settling);
    hide MayRest;
    SafeConcat(b, resting, lands, placing, settling);
    RestingConcat(resting, lands, placing, settling);
    StepsConcat(b, placing, settling);
    assert placing + settling == EntrySteps(d, a);
  }

  /** Restating one order's status, or nothing. */
  lemma SettlingKeeps(b: Book, id: OrderId, settling: seq<Step>)
    requires id in b.orders && RolesFit(b)
    requires settling == [] || (|settling| == 1 && settling[0].StatusStep? && settling[0].id == id)
    ensures var after := StepsOn(b, settling);
      SameElse(b, after, {id}) && after.positions == b.positions && id in after.orders && RolesFit(after)
  {
    if settling != [] {
      OneStep(b, settling[0]);
      assert settling == [settling[0]];
    }
  }

  lemma {:induction false} RestingConcat(resting: set<OrderId>, lands: Remote, s: seq<Step>, t: seq<Step>)
    ensures RestingAfterAll(resting, lands, s + t) == RestingAfterAll(RestingAfterAll(resting, lands, s), lands, t)
    decreases s
  {
    hide RestingAfter;
    if s == [] {
      assert s + t == t;
    } else {
      RestingConcat(RestingAfter(resting, lands, s[0]), lands, s[1..], t);
      assert (s + t)[0] == s[0] && (s + t)[1..] == s[1..] + t;
    }
  }

  /** Opening the position and linking the entry to it. */
  lemma SafeOpen(b: Book, resting: set<OrderId>, d: Decision, a: Answers, lands: Remote)
    requires EntryReply(a).Ack? && EntryId(d) in b.orders && RolesFit(b) && d.positionId !in b.positions
    ensures Safe(b, resting, lands, OpenSteps(d, a))
    ensures RestingAfterAll(resting, lands, OpenSteps(d, a)) == resting
    ensures var held := StepsOn(b, OpenSteps(d, a));
      && SameElse(b, held, {EntryId(d)}) && RolesFit(held)
      && d.positionId in held.positions && held.positions[d.positionId].quantity == EntryReply(a).executedQty
  {
    hide EntryReply, EntryPrice, StopLevel, TargetLevel;
    var open, link := OpenStep(d.positionId, NewPosition(d, a)), LinkStep(EntryId(d), d.positionId);
    assert RoleFits(EntryId(d), b.orders[EntryId(d)]);
    SafeTwo(b, resting, lands, open, link);
    TwoSteps(b, open, link);
  }

  /** Recording and linking one exit order of a position it has not filled. */
  lemma SafeExitOrder(b: Book, resting: set<OrderId>, lands: Remote, id: OrderId, row: OrderRow, p: nat)
    requires Untaken(b, id) && RolesFit(b) && RoleFits(id, row) && row.status == Submitted && row.positionId.None?
    requires p in b.positions && FilledQuantity(b.fills, id) < b.positions[p].quantity
    ensures Safe(b, resting, lands, [RecordStep(id, row), LinkStep(id, p)])
    ensures RestingAfterAll(resting, lands, [RecordStep(id, row), LinkStep(id, p)]) == resting
    ensures var after := StepsOn(b, [RecordStep(id, row), LinkStep(id, p)]);
      Placed(after, id) && RolesFit(after) && SameElse(b, after, {id}) && after.positions == b.positions
  {
    RecordPlaces(b, id, row);
    SafeTwo(b, resting, lands, RecordStep(id, row), LinkStep(id, p));
    TwoSteps(b, RecordStep(id, row), LinkStep(id, p));
  }

  /** Both exits recorded and linked, before the pair is sent. */
  lemma SafeRecordExits(b: Book, resting: set<OrderId>, d: Decision, a: Answers, lands: Remote)
    requires Untaken(b, StopId(d)) && Untaken(b, TargetId(d)) && RolesFit(b)
    requires EntryReply(a).Ack? && EntryReply(a).executedQty > 0.0 && ExitsUnfilled(b, d, a)
    requires d.positionId in b.positions && b.positions[d.positionId].quantity == EntryReply(a).executedQty
    ensures Safe(b, resting, lands, RecordExitSteps(d, a))
    ensures RestingAfterAll(resting, lands, RecordExitSteps(d, a)) == resting
    ensures var after := StepsOn(b, RecordExitSteps(d, a));
      && Placed(after, StopId(d)) && Placed(after, TargetId(d)) && RolesFit(after)
      && SameElse(b, after, {StopId(d), TargetId(d)}) && after.positions == b.positions
  {
    hide EntryReply, EntryPrice, StopLevel, TargetLevel, RolesFit, IsOpen;
    var p := d.positionId;
    var first := [RecordStep(StopId(d), StopOrder(d, a)), LinkStep(StopId(d), p)];
    var second := [RecordStep(TargetId(d), TargetOrder(d, a)), LinkStep(TargetId(d), p)];
    SafeExitOrder(b, resting, lands, StopId(d), StopOrder(d, a), p);
    var stopped := StepsOn(b, first);
    SafeExitOrder(stopped, resting, lands, TargetId(d), TargetOrder(d, a), p);
    SafeConcat(b, resting, lands, first, second);
    RestingConcat(resting, lands, first, second);
    StepsConcat(b, first, second);
  }

  function RecordExitSteps(d: Decision, a: Answers): seq<Step>
    requires EntryReply(a).Ack?
  {
    [RecordStep(StopId(d), StopOrder(d, a)), LinkStep(StopId(d), d.positionId)]
    + [RecordStep(TargetId(d), TargetOrder(d, a)), LinkStep(TargetId(d), d.positionId)]
  }

  lemma SafeProtect(b: Book, resting: set<OrderId>, d: Decision, a: Answers, lands: Remote)
    requires Untaken(b, StopId(d)) && Untaken(b, TargetId(d)) && RolesFit(b)
    requires forall id :: id in lands ==> RestingStatus(lands[id])
    requires EntryReply(a).Ack? && EntryReply(a).executedQty > 0.0 && ExitsUnfilled(b, d, a)
    requires d.positionId in b.positions && b.positions[d.positionId].quantity == EntryReply(a).executedQty
    ensures Safe(b, resting, lands, ProtectSteps(d, a))
    ensures RestingAfterAll(resting, lands, ProtectSteps(d, a))
         == resting + LandedOf(lands, StopId(d)) + LandedOf(lands, TargetId(d))
    ensures var after := StepsOn(b, ProtectSteps(d, a));
      && Placed(after, StopId(d)) && Placed(after, TargetId(d)) && RolesFit(after)
      && SameElse(b, after, {StopId(d), TargetId(d)}) && after.positions == b.positions
  {
    hide EntryReply, StopOrder, TargetOrder, RolesFit, IsOpen, ExitsUnfilled, RestingStatus;
    var recording, send := RecordExitSteps(d, a), SendStep([StopId(d), TargetId(d)]);
    assert ProtectSteps(d, a) == recording + [send];
    hide RecordExitSteps, ProtectSteps;
    SafeRecordExits(b, resting, d, a, lands);
    var both := StepsOn(b, recording);
    RestingAfterPair(resting, lands, StopId(d), TargetId(d));
    SafeOne(both, resting, lands, send);
    OneStep(both, send);
    SafeConcat(b, resting, lands, recording, [send]);
    RestingConcat(resting, lands, recording, [send]);
    StepsConcat(b, recording, [send]);
  }

  /** Recording, linking and sending the reversal. */
  lemma SafePlaceReversal(b: Book, resting: set<OrderId>, lands: Remote, id: OrderId, row: OrderRow, p: nat)
    requires Untaken(b, id) && RolesFit(b) && p in b.positions
    requires id.Atlas? && id.tag.ReversalTag? && row.status == Submitted && row.positionId.None? && !IsExit(row)
    requires forall id :: id in lands ==> RestingStatus(lands[id])
    ensures var placing := [RecordStep(id, row), LinkStep(id, p), SendStep([id])];
      && Safe(b, resting, lands, placing)
      && RestingAfterAll(resting, lands, placing) == resting + LandedOf(lands, id)
      && id in StepsOn(b, placing).orders
  {
    hide IsOpen, RestingStatus;
    var front, send := [RecordStep(id, row), LinkStep(id, p)], SendStep([id]);
    RecordPlaces(b, id, row);
    SafeTwo(b, resting, lands, front[0], front[1]);
    TwoSteps(b, front[0], front[1]);
    var linked := StepsOn(b, front);
    RestingAfterSend(resting, lands, id);
    SafeOne(linked, resting, lands, send);
    OneStep(linked, send);
    SafeConcat(b, resting, lands, front, [send]);
    RestingConcat(resting, lands, front, [send]);
    StepsConcat(b, front, [send]);
    assert front + [send] == [RecordStep(id, row), LinkStep(id, p), SendStep([id])];
  }

  lemma SafeReversal(b: Book, resting: set<OrderId>, d: Decision, a: Answers, lands: Remote)
    requires EntryReply(a).Ack? && Untaken(b, ReversalId(d)) && RolesFit(b) && d.positionId in b.positions
    requires forall id :: id in lands ==> RestingStatus(lands[id])
    requires ReversalId(d) in resting || ReversalId(d) in lands ==> MayRest(ReversalReply(a))
    ensures Safe(b, resting, lands, ReversalSteps(d, a))
  {
    hide EntryReply, ReversalReply, EntryPrice, FilledAt, RolesFit, IsOpen, RestingStatus, Safe;
    var id, reply := ReversalId(d), ReversalReply(a);
    var placing := [RecordStep(id, ReversalOrder(d, a)), LinkStep(id, d.positionId), SendStep([id])];
    SafePlaceReversal(b, resting, lands, id, ReversalOrder(d, a), d.positionId);
    var placed, now := StepsOn(b, placing), resting + LandedOf(lands, id);
    match reply
    case SwitchRefused =>
      assert ReversalSteps(d, a) == placing;
    case Rejection(_) =>
      SafeFailure(placed, now, lands, id, reply);
      SafeConcat(b, resting, lands, placing, FailureSteps(id, reply));
    case Ack(status, executedQty, filledValue) =>
      var close := CloseStep(d.positionId, FilledAt(executedQty, filledValue, EntryPrice(d, a)));
      AckedMayRest(reply);
      SafeTwo(placed, now, lands, StatusStep(id, status), close);
      SafeConcat(b, resting, lands, placing, [StatusStep(id, status), close]);
  }

  lemma AckedMayRest(reply: Reply)
    requires reply.Ack?
    ensures MayRest(reply) <==> IsOpen(reply.status)
  {
  }

  lemma SafeExits(b: Book, resting: set<OrderId>, d: Decision, a: Answers, lands: Remote)
    requires Placed(b, StopId(d)) && Placed(b, TargetId(d)) && Untaken(b, ReversalId(d)) && RolesFit(b)
    requires d.positionId in b.positions && EntryReply(a).Ack?
    requires Truthful(d, a, lands) && !Collides(resting, d, a)
    ensures Safe(b, resting, lands, ExitSteps(d, a))
  {
    hide EntryReply, ReversalReply, ReversalSteps, MayRest, IsOpen, RolesFit;
    match ExitReply(d, a)
    case OcoAck(stopStatus, targetStatus) =>
      SafeTwo(b, resting, lands, StatusStep(StopId(d), stopStatus), StatusStep(TargetId(d), targetStatus));
    case OcoRejection(hasStatus) =>
      var reply := Rejection(hasStatus);
      var first, second := FailureSteps(StopId(d), reply), FailureSteps(TargetId(d), reply);
      assert MayRest(reply) <==> !hasStatus by { AmbiguousMayRest(hasStatus); }
      SafeFailure(b, resting, lands, StopId(d), reply);
      SettlingKeeps(b, StopId(d), first);
      var failed := StepsOn(b, first);
      SafeFailure(failed, resting, lands, TargetId(d), reply);
      SettlingKeeps(failed, TargetId(d), second);
      SafeReversal(StepsOn(failed, second), resting, d, a, lands);
      SafeConcat(failed, resting, lands, second, ReversalSteps(d, a));
      SafeConcat(b, resting, lands, first, second + ReversalSteps(d, a));
  }

  lemma AmbiguousMayRest(hasStatus: bool)
    ensures MayRest(Rejection(hasStatus)) <==> !hasStatus
  {
  }

  /** Orders that landed are among those the answers speak of. */
  lemma LandedDoNotCollide(resting: set<OrderId>, d: Decision, a: Answers, lands: Remote, id: OrderId)
    requires Truthful(d, a, lands) && !Collides(resting, d, a)
    ensures !Collides(resting + LandedOf(lands, id), d, a)
  {
    hide RestingStatus, MayRest, MayRestExit;
  }

  /** What follows an entry that filled. */
  lemma SafeAfterFill(b: Book, resting: set<OrderId>, d: Decision, a: Answers, lands: Remote)
    requires EntryId(d) in b.orders && Untaken(b, StopId(d)) && Untaken(b, TargetId(d)) && Untaken(b, ReversalId(d))
    requires RolesFit(b) && Answerable(b, d, a, lands) && !Collides(resting, d, a)
    requires EntryReply(a).Ack? && EntryReply(a).executedQty > 0.0
    ensures Safe(b, resting, lands, OpenSteps(d, a) + (ProtectSteps(d, a) + ExitSteps(d, a)))
  {
    var opening, protect, exits := OpenSteps(d, a), ProtectSteps(d, a), ExitSteps(d, a);
    hide OpenSteps, ProtectSteps, ExitSteps, Truthful, Collides, MayRest, EntryReply, LandedOf, RolesFit, IsOpen;
    SafeOpen(b, resting, d, a, lands);
    var held := StepsOn(b, opening);
    SafeProtect(held, resting, d, a, lands);
    LandedDoNotCollide(resting, d, a, lands, StopId(d));
    LandedDoNotCollide(resting + LandedOf(lands, StopId(d)), d, a, lands, TargetId(d));
    var now := resting + LandedOf(lands, StopId(d)) + LandedOf(lands, TargetId(d));
    SafeExits(StepsOn(held, protect), now, d, a, lands);
    SafeConcat(held, resting, lands, protect, exits);
    SafeConcat(b, resting, lands, opening, protect + exits);
  }

  /** A bracket that may begin never leaves a resting order untracked, at any of its steps. */
  lemma BracketIsSafe(b: Book, resting: set<OrderId>, d: Decision, a: Answers, lands: Remote)
    requires RolesFit(b) && MayBegin(b, resting, d, a, lands)
    ensures Safe(b, resting, lands, BracketSteps(d, a))
  {
    hide EntrySteps, OpenSteps, ProtectSteps, ExitSteps, Truthful, Collides, MayRest, EntryReply, RolesFit, IsOpen;
    var entry := EntrySteps(d, a);
    SafeEntry(b, resting, d, a, lands);
    if EntryReply(a).Ack? && EntryReply(a).executedQty > 0.0 {
      LandedDoNotCollide(resting, d, a, lands, EntryId(d));
      SafeAfterFill(StepsOn(b, entry), resting + LandedOf(lands, EntryId(d)), d, a, lands);
      SafeConcat(b, resting, lands, entry, OpenSteps(d, a) + (ProtectSteps(d, a) + ExitSteps(d, a)));
    } else {
      SafeConcat(b, resting, lands, entry, []);
    }
  }

  // ---------------------------------------------------------------- every run

  lemma {:induction false} DeliverKeepsInvariant(w: World, r: Report)
    requires Invariant(w)
    ensures Invariant(Next(w, Deliver(r)))
  {
    hide OpenMeansHeld, Delivered, Seen;
    if w.program == [] && (r.parsed.Some? ==> r.parsed.value.quantity > 0.0) {
      DeliveryKeepsOpenMeansHeld(w.book, r);
      DeliveredShape(w.book, r);
      var after := Delivered(w.book, r);
      forall i | 0 <= i < |after.fills|
        ensures after.fills[i].orderId in after.orders
      {
        if i == |w.book.fills| {
          assert after.fills[i] == FillOf(r);
        }
      }
    }
  }

  lemma ReconcileKeepsInvariant(w: World)
    requires Invariant(w)
    ensures Invariant(Next(w, ReconcileNow))
  {
    if w.program == [] {
      var after := Settled(w.book, w.exchange);
      forall p | OpenIn(after, p)
        ensures NoExitFilled(after, p)
      {
        assert OpenIn(w.book, p);
        assert forall id :: Protects(after, id, p) ==> Protects(w.book, id, p);
      }
      assert forall id :: id in AtlasResting(w.exchange) ==> id in w.book.orders;
    }
  }

  lemma MoveKeepsInvariant(w: World, e: Event)
    requires Invariant(w) && (e.OrderMoves? || e.ForeignOrder? || e.Crash?)
    ensures Invariant(Next(w, e))
  {
    hide BookOk;
    var after := Next(w, e);
    assert AtlasResting(after.exchange) <= AtlasResting(w.exchange);
    if !e.Crash? {
      SafeWithFewer(w.book, AtlasResting(w.exchange), AtlasResting(after.exchange), w.lands, w.program);
    }
  }

  lemma AdvanceKeepsInvariant(w: World)
    requires Invariant(w)
    ensures Invariant(Next(w, Advance))
  {
    hide BookOk, Tracked, StepOn, StepOk, RestingAfter;
    if w.program != [] {
      var s, after := w.program[0], Next(w, Advance);
      StepKeepsBookOk(w.book, AtlasResting(w.exchange), w.lands, s);
      StepKeepsTracked(w);
      SafeWithFewer(after.book, RestingAfter(AtlasResting(w.exchange), w.lands, s), AtlasResting(after.exchange),
                    w.lands, after.program);
    }
  }

  lemma BeginKeepsInvariant(w: World, d: Decision, a: Answers, lands: Remote)
    requires Invariant(w)
    ensures Invariant(Next(w, Begin(d, a, lands)))
  {
    hide OpenMeansHeld, MayBegin, BracketSteps;
    if w.program == [] && MayBegin(w.book, AtlasResting(w.exchange), d, a, lands) {
      BracketIsSafe(w.book, AtlasResting(w.exchange), d, a, lands);
    }
  }

  /** The invariant holds after every run: any brackets that may begin, any movement of the exchange, any deliveries
      and reconciliations, and a crash between any two steps. */
  lemma {:induction false} EveryRunKeepsInvariant(events: seq<Event>)
    ensures Invariant(Execute(events))
  {
    hide Next, BookOk, Tracked;
    if events == [] {
      StartIsOk();
    } else {
      EveryRunKeepsInvariant(events[..|events| - 1]);
      var w, e := Execute(events[..|events| - 1]), events[|events| - 1];
      match e
      case Begin(d, a, lands) => BeginKeepsInvariant(w, d, a, lands);
      case Advance => AdvanceKeepsInvariant(w);
      case Deliver(r) => DeliverKeepsInvariant(w, r);
      case ReconcileNow => ReconcileKeepsInvariant(w);
      case Crash => MoveKeepsInvariant(w, e);
      case OrderMoves(_, _) => MoveKeepsInvariant(w, e);
      case ForeignOrder(_, _) => MoveKeepsInvariant(w, e);
    }
  }

  lemma StartIsOk()
    ensures Invariant(START)
  {
  }

  /** So reconciliation, whenever it runs, finds no ATLAS order the ledger does not hold open, never halts the
      account over its own orders, and run again on the same snapshot repairs nothing. */
  lemma ReconciliationAlwaysClean(events: seq<Event>)
    ensures var w := Execute(events);
      var after := SettledOrders(w.book.orders, w.exchange);
      && Unrecorded(w.book.orders, w.exchange) == {}
      && Repaired(after, w.exchange) == {} && Unrecorded(after, w.exchange) == {}
  {
    EveryRunKeepsInvariant(events);
    var w := Execute(events);
    forall id | id in w.exchange && ClaimedByAtlas(id)
      ensures id in LocalOpen(w.book.orders) && IsOpen(w.exchange[id])
    {
      assert id in AtlasResting(w.exchange);
    }
    SecondReconcileCleanIff(w.book.orders, w.exchange);
  }

  /** And a position is open only while none of its exits has filled it away. */
  lemma OpenPositionsAreHeld(events: seq<Event>, p: nat)
    requires OpenIn(Execute(events).book, p)
    ensures NoExitFilled(Execute(events).book, p)
  {
    EveryRunKeepsInvariant(events);
  }

  // ---------------------------------------------------------------- a decision whose row is over

  /** A decision with a row that is over is where the guarantee stops: its entry was recorded, the process died before
      sending it, and reconciliation closed the row. Replayed, the row is not reopened, so when the entry is
      then sent and no answer arrives, an order resting at the exchange has no open local row. */
  lemma ReplayCanLoseTrack(b: Book, d: Decision, a: Answers)
    requires EntryId(d) !in b.orders
    requires !a.armedAtEntry && a.entry == Refused(false)
    ensures var settled := Settled(StepsOn(b, [RecordStep(EntryId(d), EntryOrder(d))]), map[]);
      var replayed := StepsOn(settled, BracketSteps(d, a));
      EntryId(d) in Unrecorded(replayed.orders, map[EntryId(d) := New])
  {
    var id := EntryId(d);
    OneStep(b, RecordStep(id, EntryOrder(d)));
    var settled := Settled(StepsOn(b, [RecordStep(id, EntryOrder(d))]), map[]);
    assert settled.orders[id].status == ReconciledClosed;
    TwoSteps(settled, RecordStep(id, EntryOrder(d)), SendStep([id]));
    assert BracketSteps(d, a) == [RecordStep(id, EntryOrder(d)), SendStep([id])];
  }
}
