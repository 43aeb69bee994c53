/** The payments service: the table and the keys in flight, changed by its methods. */
module PaymentService {
  import opened Wrappers
  import opened Calendar
  import opened PaymentEffects
  import opened PaymentReplay
  import opened Payments

  class PaymentsService {
    var rows: seq<Payment>
    var inFlightReplayKeys: set<string>
    const estate: Estate
    const spell: Spelling

    constructor (estate: Estate, spell: Spelling)
      ensures this.estate == estate && this.spell == spell && rows == [] && inFlightReplayKeys == {}
    {
      this.estate, this.spell, rows, inFlightReplayKeys := estate, spell, [], {};
    }

    // ---- Recording a payment ----

    /** A call that nothing interrupts: it records the payment exactly when the submission passes the
        screening, its key is free and neither check finds a duplicate; its key is always given back. */
    method Create(request: Request, caller: Caller) returns (r: Result<Payment>)
      modifies this
      ensures inFlightReplayKeys == old(inFlightReplayKeys)
      ensures Screen(estate, request, caller).Err? ==> r == Screen(estate, request, caller)
      ensures r.Err? ==> rows == old(rows)
      ensures r.Ok? ==> r == Screen(estate, request, caller) && rows == old(rows) + [r.value]
      ensures r.Ok? <==> var screened := Screen(estate, request, caller);
                         && screened.Ok?
                         && ReplayKey(spell, screened.value) !in old(inFlightReplayKeys)
                         && !ReferenceTaken(old(rows), screened.value)
                         && !RecentlyPaid(old(rows), screened.value)
      ensures Screen(estate, request, caller).Ok? && r.Err? ==> r == Err(Conflict)
    {
      var screened := Screen(estate, request, caller);
      if screened.Err? {
        return screened;
      }
      var payment := screened.value;
      var replayKey := ReplayKey(spell, payment);
      if replayKey in inFlightReplayKeys {
        return Err(Conflict);
      }
      inFlightReplayKeys := inFlightReplayKeys + {replayKey};
      if HasReference(payment) && ReferenceTaken(rows, payment) {
        r := Err(Conflict);
      } else if RecentlyPaid(rows, payment) {
        r := Err(Conflict);
      } else {
        rows := rows + [payment];
        r := Ok(payment);
      }
      inFlightReplayKeys := inFlightReplayKeys - {replayKey};
    }

    // ---- Settling and sweeping ----

    method FindById(id: nat, caller: Caller) returns (r: Result<Payment>)
      ensures r.Ok? <==> && id < |rows| && !rows[id].deleted
                         && (caller.Owner? || (caller.Manager? && rows[id].propertyId in estate.managers
                                               && estate.managers[rows[id].propertyId] == caller.id))
      ensures caller.OtherRole? ==> r == Err(Forbidden)
      ensures !caller.OtherRole? && !Reaches(estate, rows, caller, id) ==> r == Err(NotFound)
      ensures Reaches(estate, rows, caller, id) ==> r == Ok(rows[id])
    {
      if caller.OtherRole? {
        return Err(Forbidden);
      }
      if !Reaches(estate, rows, caller, id) {
        return Err(NotFound);
      }
      r := Ok(rows[id]);
    }

    /** Saving an entity over its row: columns left undefined keep what they hold. */
    method Save(id: nat, payment: Payment)
      requires id < |rows|
      modifies this`rows
      ensures rows == old(rows)[id := payment.(
                        paymentMethod := Written(payment.paymentMethod, old(rows)[id].paymentMethod),
                        transactionReference := Written(payment.transactionReference,
                                                        old(rows)[id].transactionReference))]
    {
      var stored := payment;
      if payment.paymentMethod.None? {
        stored := stored.(paymentMethod := rows[id].paymentMethod);
      }
      if payment.transactionReference.None? {
        stored := stored.(transactionReference := rows[id].transactionReference);
      }
      rows := rows[id := stored];
    }

    method MarkAsPaid(id: nat, caller: Caller, now: int, paymentMethod: Option<string>, reference: Option<string>)
      returns (r: Result<Payment>)
      modifies this`rows
      ensures rows == Apply(estate, old(rows), MarkPaid(caller, id, now, paymentMethod, reference))
      ensures r.Ok? <==> Reaches(estate, old(rows), caller, id)
      ensures r.Ok? ==> r.value == rows[id].(paymentMethod := paymentMethod, transactionReference := reference)
      ensures r.Ok? ==> OnlyRow(old(rows), rows, id) && Settled(old(rows)[id], rows[id], now, paymentMethod)
    {
      var found := FindById(id, caller);
      if found.Err? {
        return found;
      }
      var payment := found.value;
      payment := payment.(status := PAID);
      payment := payment.(paymentDate := now);
      payment := payment.(paymentMethod := paymentMethod);
      payment := payment.(transactionReference := reference);
      payment := payment.(remainingBalance := 0);
      payment := payment.(isPartialPayment := false);
      Save(id, payment);
      r := Ok(payment);
    }

    method RecordPartialPayment(id: nat, caller: Caller, amount: int, now: int, paymentMethod: Option<string>)
      returns (r: Result<Payment>)
      modifies this`rows
      ensures rows == Apply(estate, old(rows), Partial(caller, id, amount, now, paymentMethod))
      ensures r.Ok? <==> Reaches(estate, old(rows), caller, id)
      ensures r.Ok? ==> r.value == rows[id].(paymentMethod := paymentMethod)
    {
      var found := FindById(id, caller);
      if found.Err? {
        return found;
      }
      var payment := found.value;
      payment := payment.(amount := payment.amount + amount);
      payment := payment.(remainingBalance := Max(0, payment.remainingBalance - amount));
      payment := payment.(status := if payment.remainingBalance <= 0 then PAID else PARTIAL);
      payment := payment.(isPartialPayment := payment.remainingBalance > 0);
      payment := payment.(paymentMethod := paymentMethod);
      payment := payment.(paymentDate := now);
      Save(id, payment);
      r := Ok(payment);
    }

    method BatchMarkAsPaid(ids: seq<nat>, caller: Caller, now: int, paymentMethod: Option<string>)
      returns (r: Result<()>)
      modifies this`rows
      ensures caller.OtherRole? ==> r == Err(Forbidden)
      ensures rows == Apply(estate, old(rows), BatchPaid(caller, ids, now, paymentMethod))
      ensures !caller.OtherRole? && (forall i :: i in ids ==> !Reaches(estate, old(rows), caller, i))
              ==> r == Err(NotFound)
      ensures r.Ok? ==> exists i :: i in ids && Reaches(estate, old(rows), caller, i)
      ensures forall i :: 0 <= i < |rows| ==>
                if i in ids && Reaches(estate, old(rows), caller, i)
                then Settled(old(rows)[i], rows[i], now, paymentMethod) else rows[i] == old(rows)[i]
    {
      if caller.OtherRole? {
        assert rows == BatchTable(estate, rows, caller, ids, now, paymentMethod);
        return Err(Forbidden);
      }
      if !exists i :: i in ids && Reaches(estate, rows, caller, i) {
        assert rows == BatchTable(estate, rows, caller, ids, now, paymentMethod);
        return Err(NotFound);
      }
      var i := 0;
      while i < |rows|
        invariant 0 <= i <= |rows| == |old(rows)|
        invariant forall j :: 0 <= j < i ==>
                    rows[j] == if j in ids && Reaches(estate, old(rows), caller, j)
                               then PaidRow(old(rows)[j], now, paymentMethod) else old(rows)[j]
        invariant forall j :: i <= j < |rows| ==> rows[j] == old(rows)[j]
      {
        var payment := rows[i];
        if i in ids && Reaches(estate, rows, caller, i) {
          payment := payment.(status := PAID);
          payment := payment.(paymentDate := now);
          payment := payment.(paymentMethod := paymentMethod);
          payment := payment.(remainingBalance := 0);
          payment := payment.(isPartialPayment := false);
        }
        Save(i, payment);
        i := i + 1;
      }
      assert rows == BatchTable(estate, old(rows), caller, ids, now, paymentMethod);
      r := Ok(());
    }

    /** The properties with a live row that a manager manages. */
    method ManagedProperties(managerId: string) returns (propertyIds: set<string>)
      ensures forall propertyId :: propertyId in propertyIds
                <==> Manages(estate, Manager(managerId), propertyId) && HasLiveRow(rows, propertyId)
    {
      propertyIds := {};
      for i := 0 to |rows|
        invariant forall propertyId :: propertyId in propertyIds
                    <==> Manages(estate, Manager(managerId), propertyId) && HasLiveRow(rows[..i], propertyId)
      {
        var p := rows[i];
        LiveRowsOneMore(rows, i);
        if !p.deleted && Manages(estate, Manager(managerId), p.propertyId) {
          propertyIds := propertyIds + {p.propertyId};
        }
      }
      assert rows[..|rows|] == rows;
    }

    /** The condition of the update statement. */
    static predicate Hit(p: Payment, everywhere: bool, propertyIds: set<string>, today: int) {
      (everywhere || p.propertyId in propertyIds) && Lapsed(p, today)
    }

    /** The update statement: every lapsed row, or those of the given properties; the number of rows affected. */
    method MarkOverdue(everywhere: bool, propertyIds: set<string>, today: int) returns (affected: int)
      modifies this`rows
      ensures |rows| == |old(rows)|
      ensures forall i :: 0 <= i < |rows| ==>
                rows[i] == if Hit(old(rows)[i], everywhere, propertyIds, today)
                           then old(rows)[i].(status := OVERDUE) else old(rows)[i]
      ensures affected == SumOf(old(rows), (p: Payment) => Hit(p, everywhere, propertyIds, today), (p: Payment) => 1)
    {
      affected := 0;
      ghost var hit := (p: Payment) => Hit(p, everywhere, propertyIds, today);
      var i := 0;
      while i < |rows|
        invariant 0 <= i <= |rows| == |old(rows)|
        invariant forall j :: 0 <= j < i ==>
                    rows[j] == if hit(old(rows)[j]) then old(rows)[j].(status := OVERDUE) else old(rows)[j]
        invariant forall j :: i <= j < |rows| ==> rows[j] == old(rows)[j]
        invariant affected == SumOf(old(rows)[..i], hit, (p: Payment) => 1)
      {
        SumOfOneMore(old(rows), hit, (p: Payment) => 1, i);
        if Hit(rows[i], everywhere, propertyIds, today) {
          rows := rows[i := rows[i].(status := OVERDUE)];
          affected := affected + 1;
        }
        i := i + 1;
      }
      assert old(rows)[..|rows|] == old(rows);
    }

    method UpdateOverdueStatuses(caller: Caller, today: int) returns (r: Result<int>)
      modifies this`rows
      ensures rows == Apply(estate, old(rows), Sweep(caller, today))
      ensures r == if caller.OtherRole? then Err(Forbidden) else Ok(CountLapsed(estate, old(rows), caller, today))
    {
      if caller.OtherRole? {
        assert rows == SweepTable(estate, rows, caller, today);
        return Err(Forbidden);
      }
      var managerPropertyIds: set<string> := {};
      if caller.Manager? {
        managerPropertyIds := ManagedProperties(caller.id);
      }
      var affected := MarkOverdue(caller.Owner?, managerPropertyIds, today);
      assert rows == SweepTable(estate, old(rows), caller, today);
      SumAgrees(old(rows), (p: Payment) => Hit(p, caller.Owner?, managerPropertyIds, today), (p: Payment) => 1,
                (p: Payment) => Sweeps(estate, old(rows), caller, p.propertyId) && Lapsed(p, today), (p: Payment) => 1);
      r := Ok(affected);
    }

    method EnsureMonthlyPayments(month: int, year: int, caller: Caller, propertyId: Option<string>)
      returns (r: Result<()>)
      modifies this`rows
      ensures r == if caller.OtherRole? then Err(Forbidden) else Ok(())
      ensures rows == if caller.OtherRole? then old(rows)
                      else GenerateTable(estate, old(rows), caller, month, year, propertyId)
    {
      if caller.OtherRole? {
        return Err(Forbidden);
      }
      var pendingPayments: seq<Payment> := [];
      for i := 0 to |estate.tenants|
        invariant rows == old(rows)
        invariant pendingPayments == MissingRows(estate, rows, caller, month, year, propertyId, i)
      {
        var tenant := estate.tenants[i];
        if RentsHere(estate, caller, propertyId, tenant) && !HasMonthRow(rows, tenant.id, month, year) {
          pendingPayments := pendingPayments + [GeneratedRow(tenant, month, year)];
        }
      }
      rows := rows + pendingPayments;
      r := Ok(());
    }

    method RefreshPaymentLifecycle(caller: Caller, today: int, month: int, year: int, propertyId: Option<string>)
      returns (r: Result<()>)
      modifies this`rows
      ensures r == if caller.OtherRole? then Err(Forbidden) else Ok(())
      ensures rows == if caller.OtherRole? then old(rows)
                      else Apply(estate, old(rows), Refresh(caller, today, month, year, propertyId))
    {
      r := EnsureMonthlyPayments(month, year, caller, propertyId);
      if r.Err? {
        return r;
      }
      var _ := UpdateOverdueStatuses(caller, today);
    }

    method GetMonthSummary(month: int, year: int, caller: Caller, today: int, propertyId: Option<string>)
      returns (r: Result<Summary>)
      modifies this`rows
      ensures caller.OtherRole? ==> r == Err(Forbidden) && rows == old(rows)
      ensures !caller.OtherRole? ==>
                && rows == Apply(estate, old(rows), Refresh(caller, today, month, year, propertyId))
                && r == Ok(MonthSummary(estate, rows, caller, month, year, propertyId))
    {
      if caller.OtherRole? {
        return Err(Forbidden);
      }
      var _ := RefreshPaymentLifecycle(caller, today, month, year, propertyId);
      r := Ok(MonthSummary(estate, rows, caller, month, year, propertyId));
    }

    method RemovePayment(id: nat, caller: Caller) returns (r: Result<()>)
      modifies this`rows
      ensures rows == Apply(estate, old(rows), Remove(caller, id))
      ensures r.Ok? <==> MayRemove(estate, old(rows), caller, id)
      ensures r.Ok? ==> id < |old(rows)| && !old(rows)[id].deleted && rows[id].deleted && OnlyRow(old(rows), rows, id)
      ensures r == Err(NotFound) <==> id >= |old(rows)| || old(rows)[id].deleted
      ensures r.Err? ==> rows == old(rows) && (r == Err(NotFound) || r == Err(Forbidden))
    {
      if id >= |rows| || rows[id].deleted {
        return Err(NotFound);
      }
      if !MayRemove(estate, rows, caller, id) {
        return Err(Forbidden);
      }
      rows := rows[id := rows[id].(deleted := true)];
      r := Ok(());
    }
  }

  lemma LiveRowsOneMore(rows: seq<Payment>, i: nat)
    requires i < |rows|
    ensures forall propertyId :: HasLiveRow(rows[..i + 1], propertyId)
              <==> HasLiveRow(rows[..i], propertyId) || (!rows[i].deleted && rows[i].propertyId == propertyId)
  {
    forall propertyId
      ensures HasLiveRow(rows[..i + 1], propertyId)
              <==> HasLiveRow(rows[..i], propertyId) || (!rows[i].deleted && rows[i].propertyId == propertyId)
    {
      if HasLiveRow(rows[..i], propertyId) {
        var j :| 0 <= j < i && !rows[..i][j].deleted && rows[..i][j].propertyId == propertyId;
        assert rows[..i + 1][j] == rows[..i][j];
      } else if !rows[i].deleted && rows[i].propertyId == propertyId {
        assert rows[..i + 1][i] == rows[i];
      }
    }
  }

  lemma {:induction false} SumOfOneMore<T(!new)>(items: seq<T>, chosen: T -> bool, value: T -> int, i: nat)
    requires i < |items|
    ensures SumOf(items[..i + 1], chosen, value)
            == SumOf(items[..i], chosen, value) + if chosen(items[i]) then value(items[i]) else 0
    decreases i
  {
    if i == 0 {
      assert items[..1][1..] == [] && items[..0] == [];
    } else {
      SumOfOneMore(items[1..], chosen, value, i - 1);
      assert items[..i + 1][1..] == items[1..][..i] && items[..i][1..] == items[1..][..i - 1];
    }
  }
}
