/** A position without its protective orders: exactly when a crash leaves one, and that nothing repairs it. */
module Unprotected {
  import opened Common
  import opened Ledgers
  import opened IngestProperties
  import opened Reconcile
  import opened Brackets

  /** The exit pair is among the orders these steps transmit. */
  predicate ExitsSent(d: Decision, steps: seq<Step>) {
    exists i :: 0 <= i < |steps| && steps[i].SendStep? && StopId(d) in steps[i].ids
  }

  predicate EntryFilled(a: Answers) {
    EntryReply(a).Ack? && EntryReply(a).executedQty > 0.0
  }

  /** Steps that neither open nor close the position. */
  predicate Leaves(p: nat, steps: seq<Step>) {
    forall i :: 0 <= i < |steps| ==>
      !(steps[i].OpenStep? && steps[i].position == p) && !(steps[i].CloseStep? && steps[i].position == p)
  }

  lemma {:induction false} OpennessKept(b: Book, p: nat, steps: seq<Step>)
    requires Leaves(p, steps)
    ensures OpenIn(StepsOn(b, steps), p) <==> OpenIn(b, p)
    decreases steps
  {
    hide Pnl;
    if steps != [] {
      OpennessKept(StepOn(b, steps[0]), p, steps[1..]);
    }
  }

  /** The shape of a bracket whose entry filled: opened at the fourth step, its exits sent at the tenth. */
  lemma FilledShape(d: Decision, a: Answers)
    requires EntryFilled(a)
    ensures var steps := BracketSteps(d, a);
      && |steps| >= 10
      && steps[3] == OpenStep(d.positionId, NewPosition(d, a))
      && steps[9] == SendStep([StopId(d), TargetId(d)])
      && (forall i :: 0 <= i < 9 ==> i != 3 ==> !steps[i].OpenStep? && !steps[i].CloseStep?)
      && forall i :: 0 <= i < 9 && steps[i].SendStep? ==> steps[i].ids == [EntryId(d)]
  {
    hide EntryReply, EntryOrder, StopOrder, TargetOrder, NewPosition, ExitSteps;
    var entry, opening, protect, exits := EntrySteps(d, a), OpenSteps(d, a), ProtectSteps(d, a), ExitSteps(d, a);
    assert |entry| == 3 && |opening| == 2 && |protect| == 5;
    var steps := BracketSteps(d, a);
    assert steps == entry + (opening + (protect + exits));
    forall i | 0 <= i < 10
      ensures steps[i] == if i < 3 then entry[i] else if i < 5 then opening[i - 3] else protect[i - 5]
    {
    }
  }

  lemma UnfilledShape(d: Decision, a: Answers)
    requires !EntryFilled(a)
    ensures forall i :: 0 <= i < |BracketSteps(d, a)| ==>
              !BracketSteps(d, a)[i].OpenStep? && !BracketSteps(d, a)[i].CloseStep?
  {
    hide EntryOrder;
  }

  /** Cut short after `n` steps, a bracket leaves its position open with the exits never sent exactly when the
      entry filled and the crash falls after the opening and before the transmission of the pair. */
  lemma UnprotectedIff(b: Book, d: Decision, a: Answers, n: nat)
    requires d.positionId !in b.positions && n <= |BracketSteps(d, a)|
    ensures var done := BracketSteps(d, a)[..n];
      OpenIn(StepsOn(b, done), d.positionId) && !ExitsSent(d, done) <==> EntryFilled(a) && 4 <= n <= 9
  {
    hide BracketSteps, EntryFilled;
    var steps, p := BracketSteps(d, a), d.positionId;
    var done := steps[..n];
    if !EntryFilled(a) {
      UnfilledShape(d, a);
      OpennessKept(b, p, done);
    } else {
      FilledShape(d, a);
      if n < 4 {
        OpennessKept(b, p, done);
      } else if n <= 9 {
        OpenedAtFour(b, d, a, done);
      } else {
        assert done[9] == steps[9];
      }
    }
  }

  lemma OpenedAtFour(b: Book, d: Decision, a: Answers, done: seq<Step>)
    requires EntryFilled(a) && 4 <= |done| <= 9 && done[3] == OpenStep(d.positionId, NewPosition(d, a))
    requires forall i :: 0 <= i < |done| ==> i != 3 ==> !done[i].OpenStep? && !done[i].CloseStep?
    ensures OpenIn(StepsOn(b, done), d.positionId)
  {
    hide NewPosition;
    var before, open, rest := done[..3], done[3], done[4..];
    assert done == before + ([open] + rest);
    StepsConcat(b, before, [open] + rest);
    var held := StepOn(StepsOn(b, before), open);
    assert OpenIn(held, d.positionId) by { NewPositionIsOpen(d, a); }
    assert ([open] + rest)[1..] == rest;
    OpennessKept(held, d.positionId, rest);
  }

  lemma NewPositionIsOpen(d: Decision, a: Answers)
    requires EntryReply(a).Ack?
    ensures NewPosition(d, a).closed.None?
  {
  }

  /** Reconciliation does not repair it: the position stays open, and an exit that was recorded but never sent has
      its row closed. */
  lemma ReconciliationLeavesItUnprotected(b: Book, d: Decision, a: Answers, n: nat, remote: Remote)
    requires d.positionId !in b.positions && EntryFilled(a) && 4 <= n <= 9
    requires n <= |BracketSteps(d, a)| && StopId(d) !in remote && TargetId(d) !in remote
    ensures var after := Settled(StepsOn(b, BracketSteps(d, a)[..n]), remote);
      && OpenIn(after, d.positionId)
      && (StopId(d) in after.orders ==> !IsOpen(after.orders[StopId(d)].status))
      && (TargetId(d) in after.orders ==> !IsOpen(after.orders[TargetId(d)].status))
  {
    hide BracketSteps, EntryFilled;
    UnprotectedIff(b, d, a, n);
  }
}
