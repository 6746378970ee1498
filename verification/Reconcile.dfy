/** Reconciliation: local open orders are repaired from the exchange's snapshot, and what the exchange knows
    and the ledger does not arms the kill switch. */
module Reconcile {
  import opened Common
  import opened Ledgers
  import Ks = KillSwitch

  /** One entry of an open-orders snapshot; entries without a client order id are ignored. */
  datatype RemoteOrder = RemoteOrder(id: Option<OrderId>, status: Status)

  type Remote = map<OrderId, Status>

  /** The snapshot by client order id; the last entry of an id stands. */
  function RemoteOf(snapshot: seq<RemoteOrder>): Remote {
    if snapshot == [] then map[]
    else
      var rest, last := RemoteOf(snapshot[..|snapshot| - 1]), snapshot[|snapshot| - 1];
      if last.id.Some? then rest[last.id.value := last.status] else rest
  }

  function LocalOpen(orders: map<OrderId, OrderRow>): set<OrderId> {
    set id | id in orders && IsOpen(orders[id].status)
  }

  /** The status reconciliation leaves an order with. */
  function SettledStatus(status: Status, id: OrderId, remote: Remote): Status {
    if !IsOpen(status) then status
    else if id !in remote then ReconciledClosed
    else remote[id]
  }

  function SettledOrders(orders: map<OrderId, OrderRow>, remote: Remote): map<OrderId, OrderRow> {
    map id | id in orders :: orders[id].(status := SettledStatus(orders[id].status, id, remote))
  }

  /** Only the orders in `done` have been settled so far. */
  ghost function PartlySettled(orders: map<OrderId, OrderRow>, done: set<OrderId>,
                               remote: Remote): map<OrderId, OrderRow>
  {
    map id | id in orders ::
      if id in done then orders[id].(status := SettledStatus(orders[id].status, id, remote)) else orders[id]
  }

  lemma NoneSettled(orders: map<OrderId, OrderRow>, remote: Remote)
    ensures PartlySettled(orders, {}, remote) == orders
  {
  }

  lemma SettleNext(orders: map<OrderId, OrderRow>, done: set<OrderId>, id: OrderId, remote: Remote)
    requires id in LocalOpen(orders) && id !in done
    ensures id in orders && id in LocalOpen(PartlySettled(orders, done, remote))
    ensures id in PartlySettled(orders, done, remote) && PartlySettled(orders, done, remote)[id] == orders[id]
    ensures PartlySettled(orders, done + {id}, remote)
         == PartlySettled(orders, done, remote)
              [id := orders[id].(status := SettledStatus(orders[id].status, id, remote))]
    ensures id in Repaired(orders, remote) <==> SettledStatus(orders[id].status, id, remote) != orders[id].status
  {
    hide SettledStatus;
  }

  lemma AllSettled(orders: map<OrderId, OrderRow>, remote: Remote)
    ensures PartlySettled(orders, LocalOpen(orders), remote) == SettledOrders(orders, remote)
    ensures Repaired(orders, remote) <= LocalOpen(orders)
  {
  }

  function Settled(b: Book, remote: Remote): Book {
    b.(orders := SettledOrders(b.orders, remote))
  }

  function Repaired(orders: map<OrderId, OrderRow>, remote: Remote): set<OrderId> {
    set id | id in LocalOpen(orders) && SettledStatus(orders[id].status, id, remote) != orders[id].status
  }

  /** ATLAS orders the exchange reports open and the ledger does not hold open. */
  function Unrecorded(orders: map<OrderId, OrderRow>, remote: Remote): set<OrderId> {
    set id | id in remote && id !in LocalOpen(orders) && ClaimedByAtlas(id)
  }

  // ---------------------------------------------------------------- the reason an arm must carry

  function Decimal(n: nat): string {
    var digit := [("0123456789")[n % 10]];
    if n < 10 then digit else Decimal(n / 10) + digit
  }

  /** The ids as a list is printed: quoted, separated by comma and space. */
  function Listed(ids: seq<OrderId>, name: OrderId -> string): string {
    if ids == [] then ""
    else
      var last := "'" + name(ids[|ids| - 1]) + "'";
      if |ids| == 1 then last else Listed(ids[..|ids| - 1], name) + ", " + last
  }

  function Reason(ids: seq<OrderId>, name: OrderId -> string): string {
    "exchange reports " + Decimal(|ids|) + " ATLAS order(s) with no local record: [" + Listed(ids, name) + "]"
  }

  /** Ids that fill the exchange's 36-character limit, as those ATLAS makes do. */
  predicate FullLength(ids: seq<OrderId>, name: OrderId -> string) {
    forall i :: 0 <= i < |ids| ==> |name(ids[i])| == 36
  }

  lemma {:induction false} ListedLength(ids: seq<OrderId>, name: OrderId -> string)
    requires ids != [] && FullLength(ids, name)
    ensures |Listed(ids, name)| == 40 * |ids| - 2
  {
    if |ids| > 1 {
      ListedLength(ids[..|ids| - 1], name);
    }
  }

  lemma DecimalLength(n: nat)
    ensures |Decimal(n)| >= 1
    ensures n < 10 ==> |Decimal(n)| == 1
    ensures 10 <= n < 100 ==> |Decimal(n)| == 2
  {
  }

  /** The reason fits the record exactly up to eleven unrecorded orders. */
  lemma ReasonFitsIff(ids: seq<OrderId>, name: OrderId -> string)
    requires ids != [] && FullLength(ids, name)
    ensures |Reason(ids, name)| <= 500 <==> |ids| <= 11
    ensures |Reason(ids, name)| >= 1
  {
    ListedLength(ids, name);
    DecimalLength(|ids|);
  }

  // ---------------------------------------------------------------- the operation

  datatype ReconcileReport = ReconcileReport(matched: nat, repaired: set<OrderId>, unreconcilable: seq<OrderId>)

  datatype ReconcileError = ArmRefused(report: ReconcileReport)

  /** How far the walk over the open orders has come, and what it has found. */
  predicate Progress(orders: map<OrderId, OrderRow>, remote: Remote, todo: set<OrderId>, done: set<OrderId>,
                     matched: nat, repaired: set<OrderId>)
  {
    && todo !! done && todo + done == LocalOpen(orders)
    && repaired == done * Repaired(orders, remote)
    && matched == |done - Repaired(orders, remote)|
  }

  lemma NoProgress(orders: map<OrderId, OrderRow>, remote: Remote)
    ensures Progress(orders, remote, LocalOpen(orders), {}, 0, {})
  {
    hide LocalOpen, Repaired;
  }

  lemma MoreProgress(orders: map<OrderId, OrderRow>, remote: Remote, todo: set<OrderId>, done: set<OrderId>,
                     matched: nat, repaired: set<OrderId>, id: OrderId)
    requires Progress(orders, remote, todo, done, matched, repaired) && id in todo
    ensures id in LocalOpen(orders) && id !in done
    ensures if id in Repaired(orders, remote)
            then Progress(orders, remote, todo - {id}, done + {id}, matched, repaired + {id})
            else Progress(orders, remote, todo - {id}, done + {id}, matched + 1, repaired)
  {
    hide LocalOpen, Repaired;
    var changing := Repaired(orders, remote);
    assert todo - {id} + (done + {id}) == todo + done;
    SplitOff(done, changing, id);
  }

  lemma SplitOff(done: set<OrderId>, changing: set<OrderId>, id: OrderId)
    requires id !in done
    ensures id in changing ==>
              (done + {id}) * changing == done * changing + {id} && done + {id} - changing == done - changing
    ensures id !in changing ==>
              (done + {id}) * changing == done * changing && |done + {id} - changing| == |done - changing| + 1
  {
    if id !in changing {
      assert done + {id} - changing == done - changing + {id};
    }
  }

  lemma FullProgress(orders: map<OrderId, OrderRow>, remote: Remote, done: set<OrderId>, matched: nat,
                     repaired: set<OrderId>)
    requires Progress(orders, remote, {}, done, matched, repaired) && Repaired(orders, remote) <= LocalOpen(orders)
    ensures done == LocalOpen(orders) && repaired == Repaired(orders, remote)
            && matched == |LocalOpen(orders) - repaired|
  {
    hide LocalOpen, Repaired;
    assert {} + done == done;
    assert done * Repaired(orders, remote) == Repaired(orders, remote);
  }

  class Reconciler<J> {
    const ledger: Ledger
    const killSwitch: Ks.KillSwitch<J>
    const name: OrderId -> string

    constructor (ledger: Ledger, killSwitch: Ks.KillSwitch<J>, name: OrderId -> string)
      ensures this.ledger == ledger && this.killSwitch == killSwitch && this.name == name
    {
      this.ledger, this.killSwitch, this.name := ledger, killSwitch, name;
    }

    /** Closes, corrects or confirms one order the ledger holds open. */
    method RepairOne(id: OrderId, remote: Remote) returns (changed: bool)
      requires id in LocalOpen(ledger.orders)
      modifies ledger
      ensures var status := old(ledger.orders)[id].status;
        && ledger.Contents() == WithStatus(old(ledger.Contents()), id, SettledStatus(status, id, remote))
        && (changed <==> SettledStatus(status, id, remote) != status)
    {
      var status := ledger.orders[id].status;
      if id !in remote {
        ledger.UpdateOrderStatus(id, ReconciledClosed);
        return true;
      }
      if remote[id] != status {
        ledger.UpdateOrderStatus(id, remote[id]);
        return true;
      }
      assert ledger.orders == ledger.orders[id := ledger.orders[id].(status := status)];
      return false;
    }

    method RepairOpenOrders(remote: Remote) returns (matched: nat, repaired: set<OrderId>)
      modifies ledger
      ensures ledger.Contents() == Settled(old(ledger.Contents()), remote)
      ensures repaired == Repaired(old(ledger.orders), remote)
      ensures matched == |LocalOpen(old(ledger.orders)) - repaired|
    {
      hide SettledStatus, PartlySettled, Repaired, LocalOpen, Progress;
      ghost var before := ledger.orders;
      var todo := LocalOpen(ledger.orders);
      matched, repaired := 0, {};
      ghost var done: set<OrderId> := {};
      NoneSettled(before, remote);
      NoProgress(before, remote);
      while todo != {}
        invariant ledger.fills == old(ledger.fills) && ledger.positions == old(ledger.positions)
        invariant ledger.orders == PartlySettled(before, done, remote)
        invariant Progress(before, remote, todo, done, matched, repaired)
        decreases |todo|
      {
        var id :| id in todo;
        MoreProgress(before, remote, todo, done, matched, repaired, id);
        SettleNext(before, done, id, remote);
        var changed := RepairOne(id, remote);
        if changed {
          repaired := repaired + {id};
        } else {
          matched := matched + 1;
        }
        todo, done := todo - {id}, done + {id};
      }
      AllSettled(before, remote);
      FullProgress(before, remote, done, matched, repaired);
    }

    method CollectUnrecorded(local: set<OrderId>, remote: Remote) returns (ids: seq<OrderId>)
      ensures forall id :: id in ids <==> id in remote && id !in local && ClaimedByAtlas(id)
      ensures forall i, j :: 0 <= i < j < |ids| ==> ids[i] != ids[j]
    {
      ids := [];
      var todo := remote.Keys - local;
      ghost var done: set<OrderId> := {};
      while todo != {}
        invariant todo !! done && todo + done == remote.Keys - local
        invariant forall id :: id in ids <==> id in done && ClaimedByAtlas(id)
        invariant forall i, j :: 0 <= i < j < |ids| ==> ids[i] != ids[j]
        decreases |todo|
      {
        var id :| id in todo;
        if ClaimedByAtlas(id) {
          ids := ids + [id];
        }
        todo, done := todo - {id}, done + {id};
      }
    }

    /** Repairs the ledger, then halts the account if the exchange holds orders the ledger does not. The error
        is the exception that leaves the method when the arm's record cannot be built. */
    method Reconcile(snapshot: seq<RemoteOrder>, at: string) returns (r: Result<ReconcileReport, ReconcileError>)
      modifies ledger, killSwitch, killSwitch.audit
      ensures ledger.Contents() == Settled(old(ledger.Contents()), RemoteOf(snapshot))
      ensures var report := if r.Success? then r.value else r.error.report;
        && report.repaired == Repaired(old(ledger.orders), RemoteOf(snapshot))
        && report.matched == |LocalOpen(old(ledger.orders)) - report.repaired|
        && (forall id :: id in report.unreconcilable <==> id in Unrecorded(old(ledger.orders), RemoteOf(snapshot)))
        && (forall i, j :: 0 <= i < j < |report.unreconcilable| ==>
              report.unreconcilable[i] != report.unreconcilable[j])
        && (r.Failure? <==> report.unreconcilable != [] && |Reason(report.unreconcilable, name)| > 500)
        && (FullLength(report.unreconcilable, name) ==> (r.Failure? <==> |report.unreconcilable| > 11))
        && (report.unreconcilable != [] && r.Success? ==> killSwitch.IsArmed())
        && (report.unreconcilable == [] || r.Failure? ==> killSwitch.State() == old(killSwitch.State()))
    {
      var remote := RemoteOf(snapshot);
      var local := LocalOpen(ledger.orders);
      var matched, repaired := RepairOpenOrders(remote);
      var unreconcilable := CollectUnrecorded(local, remote);
      var report := ReconcileReport(matched, repaired, unreconcilable);
      if unreconcilable != [] {
        if FullLength(unreconcilable, name) {
          ReasonFitsIff(unreconcilable, name);
        }
        var armed := killSwitch.Arm(Ks.ReconciliationFailure, Reason(unreconcilable, name), "execution", at);
        if armed.Failure? {
          return Failure(ArmRefused(report));
        }
      }
      return Success(report);
    }
  }

  // ---------------------------------------------------------------- reconciling twice

  /** A snapshot in which every order the ledger holds open is reported under an open status. */
  predicate ReportsOpenStatuses(orders: map<OrderId, OrderRow>, remote: Remote) {
    forall id :: id in remote && id in LocalOpen(orders) && ClaimedByAtlas(id) ==> IsOpen(remote[id])
  }

  /** After a reconciliation that found nothing unrecorded, reconciling again with the same snapshot repairs
      nothing and finds nothing unrecorded exactly when the snapshot reports open statuses only. */
  lemma SecondReconcileCleanIff(orders: map<OrderId, OrderRow>, remote: Remote)
    requires Unrecorded(orders, remote) == {}
    requires forall id :: id in orders ==> ClaimedByAtlas(id)
    ensures var after := SettledOrders(orders, remote);
      Repaired(after, remote) == {} && Unrecorded(after, remote) == {} <==> ReportsOpenStatuses(orders, remote)
  {
    var after := SettledOrders(orders, remote);
    forall id | id in LocalOpen(after)
      ensures id in remote && after[id].status == remote[id]
    {
      assert id in orders && IsOpen(orders[id].status);
    }
    assert Repaired(after, remote) == {};
    if ReportsOpenStatuses(orders, remote) {
      forall id | id in remote && ClaimedByAtlas(id)
        ensures id in LocalOpen(after)
      {
        assert id !in Unrecorded(orders, remote);
      }
    } else {
      var id :| id in remote && id in LocalOpen(orders) && ClaimedByAtlas(id) && !IsOpen(remote[id]);
      assert id in Unrecorded(after, remote);
    }
  }
}
