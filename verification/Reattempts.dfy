/** Attempting a decision again: exactly when a bracket keeps every resting order tracked. */
module Reattempts {
  import opened Common
  import opened Ledgers
  import opened Ingest
  import opened IngestProperties
  import opened Reconcile
  import opened Brackets
  import opened BracketProperties
  import opened Protocol

  /** Resting orders are tracked now and after each remaining step: wherever the bracket is cut short. */
  predicate TrackedThroughout(w: World)
    decreases |w.program|
  {
    Tracked(w.book, w.exchange) && (w.program == [] || TrackedThroughout(Next(w, Advance)))
  }

  lemma {:induction false} SafeIsTracked(w: World)
    requires Tracked(w.book, w.exchange) && Safe(w.book, AtlasResting(w.exchange), w.lands, w.program)
    ensures TrackedThroughout(w)
    decreases |w.program|
  {
    hide Tracked, StepOk, StepOn, RestingAfter;
    if w.program != [] {
      var after := Next(w, Advance);
      StepKeepsTracked(w);
      SafeWithFewer(after.book, RestingAfter(AtlasResting(w.exchange), w.lands, w.program[0]),
                    AtlasResting(after.exchange), w.lands, after.program);
      SafeIsTracked(after);
    }
  }

  /** An order sent over a row that is over, and not restated before, ends up resting without an open row. */
  lemma {:induction false} SentOverClosedRow(w: World, n: nat, id: OrderId)
    requires n < |w.program| && w.program[n].SendStep? && id in w.program[n].ids && id in w.lands && id.Atlas?
    requires id in w.book.orders && !IsOpen(w.book.orders[id].status)
    requires forall i :: 0 <= i < n ==> !(w.program[i].StatusStep? && w.program[i].id == id)
    ensures !TrackedThroughout(w)
    decreases n
  {
    hide IsOpen, RestingStatus, Pnl;
    var after := Next(w, Advance);
    if n == 0 {
      assert id in AtlasResting(after.exchange);
      assert !Tracked(after.book, after.exchange);
    } else {
      SentOverClosedRow(after, n - 1, id);
    }
  }

  /** Whatever truthful answers the bracket of `d` gets, every resting order stays tracked at every step. */
  ghost predicate KeepsTrack(b: Book, exchange: Remote, d: Decision) {
    forall a: Answers, lands: Remote ::
      Answerable(b, d, a, lands) ==>
        TrackedThroughout(World(b, exchange, BracketSteps(d, a), lands))
  }

  /** Nothing is heard of the entry, or of anything after it. */
  const SILENT := Answers(false, Refused(false), UnusableReply, false, Refused(false))

  /** The entry fills `quantity` and nothing is heard of anything after it. */
  function FilledThenSilent(quantity: real): Answers {
    SILENT.(entry := Acked(New, quantity, None))
  }

  lemma SilenceIsTruthful(d: Decision, quantity: real, id: OrderId)
    ensures Truthful(d, SILENT, map[id := New])
    ensures Truthful(d, FilledThenSilent(quantity), map[id := New])
  {
  }

  /** More than either exit has filled. */
  function EnoughToBuy(b: Book, d: Decision): real {
    MaxOf(0.0, MaxOf(FilledQuantity(b.fills, StopId(d)), FilledQuantity(b.fills, TargetId(d)))) + 1.0
  }

  lemma EntrySentFirst(d: Decision)
    ensures var steps := BracketSteps(d, SILENT);
      |steps| > 1 && steps[1] == SendStep([EntryId(d)]) && steps[0].RecordStep?
  {
  }

  /** Where the exits and the reversal are sent when the entry fills and nothing is heard after. */
  lemma ExitsSentLater(d: Decision, quantity: real)
    requires quantity > 0.0
    ensures var steps := BracketSteps(d, FilledThenSilent(quantity));
      && |steps| == 13
      && steps[9] == SendStep([StopId(d), TargetId(d)]) && steps[12] == SendStep([ReversalId(d)])
      && forall i :: 0 <= i < 13 && steps[i].StatusStep? ==> steps[i].id == EntryId(d)
  {
    hide EntryOrder, StopOrder, TargetOrder, ReversalOrder, NewPosition;
    var a := FilledThenSilent(quantity);
    var entry, opening, protect, exits := EntrySteps(d, a), OpenSteps(d, a), ProtectSteps(d, a), ExitSteps(d, a);
    assert |entry| == 3 && |opening| == 2 && |protect| == 5 && |exits| == 3;
    var steps := BracketSteps(d, a);
    assert steps == entry + (opening + (protect + exits));
    assert steps[9] == protect[4] && steps[12] == exits[2];
    assert forall i :: 0 <= i < 3 ==> steps[i] == entry[i];
    forall i | 3 <= i < 13
      ensures !steps[i].StatusStep?
    {
      if i < 5 {
        assert steps[i] == opening[i - 3];
      } else if i < 10 {
        assert steps[i] == protect[i - 5];
      } else {
        assert steps[i] == exits[i - 10];
      }
    }
  }

  /** An order of the decision whose row is over can be lost: some truthful answers and some crash leave it
      resting at the exchange without an open row. */
  lemma TakenOrderIsLost(b: Book, exchange: Remote, d: Decision)
    requires d.positionId !in b.positions && !RowsOpen(b, d)
    ensures !KeepsTrack(b, exchange, d)
  {
    hide Truthful, BracketSteps, IsOpen;
    var quantity := EnoughToBuy(b, d);
    if !Untaken(b, EntryId(d)) {
      SilenceIsTruthful(d, quantity, EntryId(d));
      EntrySentFirst(d);
      var lands := map[EntryId(d) := New];
      SentOverClosedRow(World(b, exchange, BracketSteps(d, SILENT), lands), 1, EntryId(d));
      assert Answerable(b, d, SILENT, lands);
    } else {
      var id, n := if !Untaken(b, StopId(d)) then StopId(d)
                   else if !Untaken(b, TargetId(d)) then TargetId(d)
                   else ReversalId(d),
                   if Untaken(b, StopId(d)) && Untaken(b, TargetId(d)) then 12 else 9;
      var a, lands := FilledThenSilent(quantity), map[id := New];
      SilenceIsTruthful(d, quantity, id);
      ExitsSentLater(d, quantity);
      SentOverClosedRow(World(b, exchange, BracketSteps(d, a), lands), n, id);
      assert Answerable(b, d, a, lands);
    }
  }

  // ---------------------------------------------------------------- orders that still rest

  /** A resting order whose row is closed ends up untracked. */
  lemma {:induction false} DeniedWhileResting(w: World, n: nat, id: OrderId)
    requires n < |w.program| && w.program[n].StatusStep? && w.program[n].id == id && !IsOpen(w.program[n].status)
    requires id in w.exchange && id.Atlas?
    ensures !TrackedThroughout(w)
    decreases n
  {
    hide IsOpen, RestingStatus, Pnl;
    var after := Next(w, Advance);
    assert id in AtlasResting(after.exchange);
    if n == 0 {
      assert !Tracked(after.book, after.exchange);
    } else {
      DeniedWhileResting(after, n - 1, id);
    }
  }

  /** The entry's resend is refused with a status. */
  const REFUSED := SILENT.(entry := Refused(true))

  /** The entry fills, and the exit pair is refused with a status. */
  function FilledThenRefused(quantity: real): Answers {
    FilledThenSilent(quantity).(oco := OcoRefused(true))
  }

  /** The entry fills, the pair is not heard of, and the reversal is refused with a status. */
  function FilledThenStuck(quantity: real): Answers {
    FilledThenSilent(quantity).(reversal := Refused(true))
  }

  lemma RefusalsAreTruthful(d: Decision, quantity: real)
    ensures Truthful(d, REFUSED, map[])
    ensures Truthful(d, FilledThenRefused(quantity), map[])
    ensures Truthful(d, FilledThenStuck(quantity), map[])
  {
  }

  lemma EntryDenied(d: Decision)
    ensures var steps := BracketSteps(d, REFUSED);
      |steps| == 3 && steps[2] == StatusStep(EntryId(d), Status.Rejected)
  {
  }

  lemma ExitsDenied(d: Decision, quantity: real)
    requires quantity > 0.0
    ensures var steps := BracketSteps(d, FilledThenRefused(quantity));
      && |steps| == 15
      && steps[10] == StatusStep(StopId(d), Status.Rejected) && steps[11] == StatusStep(TargetId(d), Status.Rejected)
  {
    hide EntryOrder, StopOrder, TargetOrder, ReversalOrder, NewPosition;
    var a := FilledThenRefused(quantity);
    var entry, opening, protect, exits := EntrySteps(d, a), OpenSteps(d, a), ProtectSteps(d, a), ExitSteps(d, a);
    assert |entry| == 3 && |opening| == 2 && |protect| == 5 && |exits| == 5;
    assert BracketSteps(d, a) == entry + (opening + (protect + exits));
    assert BracketSteps(d, a)[10] == exits[0] && BracketSteps(d, a)[11] == exits[1];
  }

  lemma ReversalDenied(d: Decision, quantity: real)
    requires quantity > 0.0
    ensures var steps := BracketSteps(d, FilledThenStuck(quantity));
      |steps| == 14 && steps[13] == StatusStep(ReversalId(d), Status.Rejected)
  {
    hide EntryOrder, StopOrder, TargetOrder, ReversalOrder, NewPosition;
    var a := FilledThenStuck(quantity);
    var entry, opening, protect, exits := EntrySteps(d, a), OpenSteps(d, a), ProtectSteps(d, a), ExitSteps(d, a);
    assert |entry| == 3 && |opening| == 2 && |protect| == 5 && |exits| == 4;
    assert BracketSteps(d, a) == entry + (opening + (protect + exits));
    assert BracketSteps(d, a)[13] == exits[3];
  }

  lemma RejectedIsClosed()
    ensures !IsOpen(Status.Rejected)
  {
  }

  /** An order that still rests from an earlier attempt can be lost: refusing its resend as a duplicate closes its
      row. */
  lemma RestingOrderIsLost(b: Book, exchange: Remote, d: Decision)
    requires d.positionId !in b.positions && !NoneRests(AtlasResting(exchange), d)
    ensures !KeepsTrack(b, exchange, d)
  {
    hide Truthful, BracketSteps, IsOpen, FilledThenRefused, FilledThenStuck;
    var quantity := EnoughToBuy(b, d);
    RefusalsAreTruthful(d, quantity);
    RejectedIsClosed();
    if EntryId(d) in exchange {
      EntryDenied(d);
      DeniedWhileResting(World(b, exchange, BracketSteps(d, REFUSED), map[]), 2, EntryId(d));
      assert Answerable(b, d, REFUSED, map[]);
    } else if ReversalId(d) in exchange {
      var a := FilledThenStuck(quantity);
      ReversalDenied(d, quantity);
      DeniedWhileResting(World(b, exchange, BracketSteps(d, a), map[]), 13, ReversalId(d));
      assert Answerable(b, d, a, map[]) by { FilledAnswers(quantity); }
    } else {
      var a := FilledThenRefused(quantity);
      var id, n := if StopId(d) in exchange then StopId(d) else TargetId(d), if StopId(d) in exchange then 10 else 11;
      ExitsDenied(d, quantity);
      DeniedWhileResting(World(b, exchange, BracketSteps(d, a), map[]), n, id);
      assert Answerable(b, d, a, map[]) by { FilledAnswers(quantity); }
    }
  }

  lemma FilledAnswers(quantity: real)
    ensures EntryReply(FilledThenRefused(quantity)) == EntryReply(FilledThenStuck(quantity)) == Ack(New, quantity, None)
  {
  }

  /** The colliding resend: the entry's row is open, its order rests, and the exchange refuses the duplicate with a
      status. The row is then closed over a resting order, which no reconciliation can match. */
  lemma RefusedResendIsLost(b: Book, d: Decision, a: Answers)
    requires RowsOpen(b, d) && !a.armedAtEntry && a.entry == Refused(true)
    ensures Truthful(d, a, map[]) && Collides({EntryId(d)}, d, a)
    ensures EntryId(d) in Unrecorded(StepsOn(b, BracketSteps(d, a)).orders, map[EntryId(d) := New])
  {
    var id := EntryId(d);
    var steps := [RecordStep(id, EntryOrder(d)), SendStep([id]), StatusStep(id, Status.Rejected)];
    assert BracketSteps(d, a) == steps;
    ThreeSteps(b, steps[0], steps[1], steps[2]);
  }

  /** A bracket keeps every resting order tracked, whatever truthful answers it gets and wherever it is cut
      short, if and only if none of its four orders has a row that says it is over and none still rests. */
  lemma KeepsTrackIff(b: Book, exchange: Remote, d: Decision)
    requires Tracked(b, exchange) && RolesFit(b) && d.positionId !in b.positions
    ensures KeepsTrack(b, exchange, d) <==> Attemptable(b, AtlasResting(exchange), d)
  {
    hide Tracked, RowsOpen, NoneRests, Answerable, BracketSteps, RolesFit;
    if Attemptable(b, AtlasResting(exchange), d) {
      forall a: Answers, lands: Remote | Answerable(b, d, a, lands)
        ensures TrackedThroughout(World(b, exchange, BracketSteps(d, a), lands))
      {
        AttemptableMayBegin(b, AtlasResting(exchange), d, a, lands);
        BracketIsSafe(b, AtlasResting(exchange), d, a, lands);
        SafeIsTracked(World(b, exchange, BracketSteps(d, a), lands));
      }
    } else if !RowsOpen(b, d) {
      TakenOrderIsLost(b, exchange, d);
    } else {
      RestingOrderIsLost(b, exchange, d);
    }
  }

  /** A decision never attempted is attemptable, and its exits have filled nothing. */
  lemma FreshIsAttemptable(b: Book, exchange: Remote, d: Decision, a: Answers)
    requires Fresh(b, d) && Tracked(b, exchange) && forall i :: 0 <= i < |b.fills| ==> b.fills[i].orderId in b.orders
    ensures Attemptable(b, AtlasResting(exchange), d) && ExitsUnfilled(b, d, a)
  {
    NoFillsOfUnknown(b.fills, StopId(d));
    NoFillsOfUnknown(b.fills, TargetId(d));
  }

  /** After an entry of which nothing was heard, the resting entry is unreconcilable exactly when its row was
      over before. */
  lemma SilentEntryLostIff(b: Book, d: Decision, a: Answers)
    requires !a.armedAtEntry && a.entry == Refused(false)
    ensures EntryId(d) in Unrecorded(StepsOn(b, BracketSteps(d, a)).orders, map[EntryId(d) := New])
            <==> !Untaken(b, EntryId(d))
  {
    var id := EntryId(d);
    TwoSteps(b, RecordStep(id, EntryOrder(d)), SendStep([id]));
    assert BracketSteps(d, a) == [RecordStep(id, EntryOrder(d)), SendStep([id])];
  }

  /** Such rows come about: an entry recorded, a crash before it was sent, and a reconciliation that closed its
      row leave a decision that is not attemptable. */
  lemma CrashAndReconciliationTake(b: Book, d: Decision)
    requires EntryId(d) !in b.orders
    ensures !RowsOpen(Settled(StepsOn(b, [RecordStep(EntryId(d), EntryOrder(d))]), map[]), d)
  {
    OneStep(b, RecordStep(EntryId(d), EntryOrder(d)));
  }

  // ---------------------------------------------------------------- why exits must not have filled

  /** Once both exits are linked, the new position is held exactly when neither had filled its quantity before. */
  lemma HeldOnceProtectedIff(b: Book, d: Decision, a: Answers)
    requires BookOk(b) && RowsOpen(b, d) && d.positionId !in b.positions
    requires EntryReply(a).Ack? && EntryReply(a).executedQty > 0.0
    requires (StopId(d) in b.orders ==> IsExit(b.orders[StopId(d)]))
             && (TargetId(d) in b.orders ==> IsExit(b.orders[TargetId(d)]))
    ensures var after := StepsOn(StepsOn(StepsOn(b, EntrySteps(d, a)), OpenSteps(d, a)), RecordExitSteps(d, a));
      d.positionId in after.positions && (NoExitFilled(after, d.positionId) <==> ExitsUnfilled(b, d, a))
  {
    hide EntrySteps, OpenSteps, RecordExitSteps, BookOk, RowsOpen, EntryReply, IsOpen;
    var entered := StepsOn(b, EntrySteps(d, a));
    EnteredFacts(b, d, a);
    var held := StepsOn(entered, OpenSteps(d, a));
    HeldFacts(entered, d, a);
    ExitsLinkedFacts(held, d, a);
    var after := StepsOn(held, RecordExitSteps(d, a));
    assert Protects(after, StopId(d), d.positionId) && Protects(after, TargetId(d), d.positionId);
    assert forall id :: Protects(after, id, d.positionId) ==> id == StopId(d) || id == TargetId(d);
  }

  /** Both exits are linked to the position, and no other row changes. */
  lemma ExitsLinkedFacts(b: Book, d: Decision, a: Answers)
    requires EntryReply(a).Ack?
    requires (StopId(d) in b.orders ==> IsExit(b.orders[StopId(d)]))
             && (TargetId(d) in b.orders ==> IsExit(b.orders[TargetId(d)]))
    ensures var after := StepsOn(b, RecordExitSteps(d, a));
      && SameElse(b, after, {StopId(d), TargetId(d)}) && after.positions == b.positions
      && Protects(after, StopId(d), d.positionId) && Protects(after, TargetId(d), d.positionId)
  {
    hide EntryReply, EntryPrice, StopLevel, TargetLevel;
    var p := d.positionId;
    var first := [RecordStep(StopId(d), StopOrder(d, a)), LinkStep(StopId(d), p)];
    var second := [RecordStep(TargetId(d), TargetOrder(d, a)), LinkStep(TargetId(d), p)];
    StepsConcat(b, first, second);
    ExitLinkedFacts(b, StopId(d), StopOrder(d, a), p);
    ExitLinkedFacts(StepsOn(b, first), TargetId(d), TargetOrder(d, a), p);
  }

  lemma ExitLinkedFacts(b: Book, id: OrderId, row: OrderRow, p: nat)
    requires IsExit(row) && (id in b.orders ==> IsExit(b.orders[id]))
    ensures var after := StepsOn(b, [RecordStep(id, row), LinkStep(id, p)]);
      SameElse(b, after, {id}) && after.positions == b.positions && Protects(after, id, p)
  {
    TwoSteps(b, RecordStep(id, row), LinkStep(id, p));
  }

  lemma EnteredFacts(b: Book, d: Decision, a: Answers)
    requires BookOk(b) && RowsOpen(b, d) && d.positionId !in b.positions && EntryReply(a).Ack?
    ensures var entered := StepsOn(b, EntrySteps(d, a));
      && EntryId(d) in entered.orders && !IsExit(entered.orders[EntryId(d)])
      && SameElse(b, entered, {EntryId(d)}) && entered.positions == b.positions
      && forall id :: id in entered.orders ==> entered.orders[id].positionId != Some(d.positionId)
  {
    hide EntryReply, IsOpen, OpenMeansHeld;
    var id := EntryId(d);
    ThreeSteps(b, RecordStep(id, EntryOrder(d)), SendStep([id]), StatusStep(id, EntryReply(a).status));
    assert EntrySteps(d, a) == [RecordStep(id, EntryOrder(d)), SendStep([id]), StatusStep(id, EntryReply(a).status)];
  }

  lemma HeldFacts(b: Book, d: Decision, a: Answers)
    requires EntryReply(a).Ack? && EntryId(d) in b.orders && !IsExit(b.orders[EntryId(d)])
    requires forall id :: id in b.orders ==> b.orders[id].positionId != Some(d.positionId)
    ensures var held := StepsOn(b, OpenSteps(d, a));
      && SameElse(b, held, {EntryId(d)}) && EntryId(d) in held.orders && !IsExit(held.orders[EntryId(d)])
      && d.positionId in held.positions && held.positions[d.positionId].quantity == EntryReply(a).executedQty
  {
    hide EntryReply, EntryPrice, StopLevel, TargetLevel;
    TwoSteps(b, OpenStep(d.positionId, NewPosition(d, a)), LinkStep(EntryId(d), d.positionId));
  }
}
