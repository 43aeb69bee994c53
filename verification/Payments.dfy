/** The payment table: its rows and the operations that change them. */
module Payments {
  import opened Wrappers
  import opened Calendar

  datatype PaymentStatus = PENDING | PARTIAL | PAID | OVERDUE

  /** A payment row. Money is in cents, due dates are days, payment dates are milliseconds. A row is
      named by its position in the table; rows are never taken out, only marked deleted. */
  datatype Payment = Payment(
    tenantId: string, propertyId: string, amount: int, remainingBalance: int, status: PaymentStatus,
    isPartialPayment: bool, paymentDate: int, dueDate: int, month: int, year: int,
    paymentMethod: Option<string>, transactionReference: Option<string>, deleted: bool)

  datatype Tenant = Tenant(id: string, propertyId: string, monthlyRent: int, rentDueDay: int, active: bool)

  /** What the ledger reads but never writes: who manages which property, and the tenants. */
  datatype Estate = Estate(managers: map<string, string>, tenants: seq<Tenant>)

  /** Tenant ids are primary keys. */
  ghost predicate DistinctTenants(w: Estate) {
    forall i, j :: 0 <= i < j < |w.tenants| ==> w.tenants[i].id != w.tenants[j].id
  }

  const MS_PER_DAY := 24 * 60 * 60 * 1000

  // ---- Rows ----

  function GeneratedRow(t: Tenant, month: int, year: int): Payment {
    var dueDate := DueDate(year, month, t.rentDueDay);
    Payment(t.id, t.propertyId, t.monthlyRent, t.monthlyRent, PENDING, false, dueDate * MS_PER_DAY, dueDate,
            month, year, None, None, false)
  }

  function RecordedRow(t: Tenant, amount: int, paymentDate: int, dueDate: int, month: int, year: int,
                       paymentMethod: Option<string>, reference: Option<string>): Payment {
    var remaining := t.monthlyRent - amount;
    Payment(t.id, t.propertyId, amount, Max(0, remaining), if remaining <= 0 then PAID else PARTIAL, remaining > 0,
            paymentDate, dueDate, month, year, paymentMethod, reference, false)
  }

  /** What a save leaves in an optional column: a value that was not given is undefined, and undefined is
      not written. */
  function Written<T>(given: Option<T>, stored: Option<T>): Option<T> {
    if given.None? then stored else given
  }

  function PaidRow(p: Payment, now: int, paymentMethod: Option<string>): Payment {
    p.(status := PAID, paymentDate := now, paymentMethod := Written(paymentMethod, p.paymentMethod),
       remainingBalance := 0, isPartialPayment := false)
  }

  function PartlyPaidRow(p: Payment, amount: int, now: int, paymentMethod: Option<string>): Payment {
    var remaining := Max(0, p.remainingBalance - amount);
    p.(amount := p.amount + amount, remainingBalance := remaining, status := if remaining <= 0 then PAID else PARTIAL,
       isPartialPayment := remaining > 0, paymentMethod := Written(paymentMethod, p.paymentMethod), paymentDate := now)
  }

  predicate Lapsed(p: Payment, today: int) {
    p.dueDate < today && (p.status == PENDING || p.status == PARTIAL)
  }

  function SweptRow(p: Payment, today: int): Payment {
    if Lapsed(p, today) then p.(status := OVERDUE) else p
  }

  // ---- Scope ----

  predicate Manages(w: Estate, caller: Caller, propertyId: string) {
    caller.Owner? || (caller.Manager? && propertyId in w.managers && w.managers[propertyId] == caller.id)
  }

  predicate Reaches(w: Estate, rows: seq<Payment>, caller: Caller, id: nat) {
    id < |rows| && !rows[id].deleted && Manages(w, caller, rows[id].propertyId)
  }

  /** The properties a sweep touches: all of them for the owner; for a manager, those with a live row. */
  predicate Sweeps(w: Estate, rows: seq<Payment>, caller: Caller, propertyId: string) {
    caller.Owner? || (caller.Manager? && Manages(w, caller, propertyId) && HasLiveRow(rows, propertyId))
  }

  predicate HasLiveRow(rows: seq<Payment>, propertyId: string) {
    exists j :: 0 <= j < |rows| && !rows[j].deleted && rows[j].propertyId == propertyId
  }

  predicate RentsHere(w: Estate, caller: Caller, propertyId: Option<string>, t: Tenant) {
    t.active && (propertyId.Some? ==> t.propertyId == propertyId.value) && Manages(w, caller, t.propertyId)
  }

  predicate IsMonthRow(p: Payment, month: int, year: int) {
    !p.deleted && p.month == month && p.year == year
  }

  predicate HasMonthRow(rows: seq<Payment>, tenantId: string, month: int, year: int) {
    exists i :: 0 <= i < |rows| && IsMonthRow(rows[i], month, year) && rows[i].tenantId == tenantId
  }

  // ---- Operations on the table ----

  function SweepTable(w: Estate, rows: seq<Payment>, caller: Caller, today: int): seq<Payment> {
    seq(|rows|, i requires 0 <= i < |rows| =>
      if Sweeps(w, rows, caller, rows[i].propertyId) then SweptRow(rows[i], today) else rows[i])
  }

  /** The rows added for the first n tenants: one for each in scope that has none this month. */
  function MissingRows(w: Estate, rows: seq<Payment>, caller: Caller, month: int, year: int,
                       propertyId: Option<string>, n: nat): seq<Payment>
    requires n <= |w.tenants|
  {
    if n == 0 then [] else
      var t := w.tenants[n - 1];
      MissingRows(w, rows, caller, month, year, propertyId, n - 1)
      + if RentsHere(w, caller, propertyId, t) && !HasMonthRow(rows, t.id, month, year)
        then [GeneratedRow(t, month, year)] else []
  }

  function GenerateTable(w: Estate, rows: seq<Payment>, caller: Caller, month: int, year: int,
                         propertyId: Option<string>): seq<Payment> {
    rows + MissingRows(w, rows, caller, month, year, propertyId, |w.tenants|)
  }

  function RefreshTable(w: Estate, rows: seq<Payment>, caller: Caller, today: int, month: int, year: int,
                        propertyId: Option<string>): seq<Payment> {
    SweepTable(w, GenerateTable(w, rows, caller, month, year, propertyId), caller, today)
  }

  function BatchTable(w: Estate, rows: seq<Payment>, caller: Caller, ids: seq<nat>, now: int,
                      paymentMethod: Option<string>): seq<Payment> {
    seq(|rows|, i requires 0 <= i < |rows| =>
      if i in ids && Reaches(w, rows, caller, i) then PaidRow(rows[i], now, paymentMethod) else rows[i])
  }

  /** Deleting asks for the manager of the tenant's property, not of the row's. */
  predicate MayRemove(w: Estate, rows: seq<Payment>, caller: Caller, id: nat) {
    && id < |rows| && !rows[id].deleted
    && (caller.Owner? || (caller.Manager? && exists t :: t in w.tenants && t.id == rows[id].tenantId
                                                        && Manages(w, caller, t.propertyId)))
  }

  datatype Op =
    | Record(tenant: Tenant, amount: int, paymentDate: int, dueDate: int, month: int, year: int,
             reference: Option<string>)
    | MarkPaid(caller: Caller, id: nat, now: int, paymentMethod: Option<string>, reference: Option<string>)
    | Partial(caller: Caller, id: nat, amount: int, now: int, paymentMethod: Option<string>)
    | BatchPaid(caller: Caller, ids: seq<nat>, now: int, paymentMethod: Option<string>)
    | Sweep(caller: Caller, today: int)
    | Refresh(caller: Caller, today: int, month: int, year: int, propertyId: Option<string>)
    | Remove(caller: Caller, id: nat)

  function Apply(w: Estate, rows: seq<Payment>, op: Op): seq<Payment> {
    match op
    case Record(t, amount, paymentDate, dueDate, month, year, reference) =>
      if amount > 0 then rows + [RecordedRow(t, amount, paymentDate, dueDate, month, year, None, reference)] else rows
    case MarkPaid(caller, id, now, paymentMethod, reference) =>
      if Reaches(w, rows, caller, id)
      then rows[id := PaidRow(rows[id], now, paymentMethod).(
                        transactionReference := Written(reference, rows[id].transactionReference))] else rows
    case Partial(caller, id, amount, now, paymentMethod) =>
      if Reaches(w, rows, caller, id) then rows[id := PartlyPaidRow(rows[id], amount, now, paymentMethod)] else rows
    case BatchPaid(caller, ids, now, paymentMethod) => BatchTable(w, rows, caller, ids, now, paymentMethod)
    case Sweep(caller, today) => SweepTable(w, rows, caller, today)
    case Refresh(caller, today, month, year, propertyId) =>
      RefreshTable(w, rows, caller, today, month, year, propertyId)
    case Remove(caller, id) =>
      if MayRemove(w, rows, caller, id) then rows[id := rows[id].(deleted := true)] else rows
  }

  function Run(w: Estate, rows: seq<Payment>, ops: seq<Op>): seq<Payment>
    decreases |ops|
  {
    if ops == [] then rows else Run(w, Apply(w, rows, ops[0]), ops[1..])
  }

  // ---- The month summary ----

  datatype Summary = Summary(
    totalExpected: int, totalCollected: int, totalPending: int, totalOverdue: int,
    paidCount: int, pendingCount: int, overdueCount: int)

  /** Adds up a value over the rows that satisfy a condition. */
  function SumOf<T>(items: seq<T>, chosen: T -> bool, value: T -> int): int {
    if items == [] then 0
    else (if chosen(items[0]) then value(items[0]) else 0) + SumOf(items[1..], chosen, value)
  }

  lemma {:induction false} SumAgrees<T(!new)>(items: seq<T>, f: T -> bool, v: T -> int, g: T -> bool, u: T -> int)
    requires forall i :: 0 <= i < |items| ==> f(items[i]) == g(items[i])
    requires forall i :: 0 <= i < |items| && f(items[i]) ==> v(items[i]) == u(items[i])
    ensures SumOf(items, f, v) == SumOf(items, g, u)
  {
    if items == [] {
    } else {
      assert forall i :: 0 <= i < |items[1..]| ==> items[1..][i] == items[i + 1];
      SumAgrees(items[1..], f, v, g, u);
    }
  }

  lemma {:induction false} SumOfReplace<T(!new)>(items: seq<T>, k: nat, x: T, chosen: T -> bool, value: T -> int)
    requires k < |items|
    ensures SumOf(items[k := x], chosen, value)
            == SumOf(items, chosen, value) - (if chosen(items[k]) then value(items[k]) else 0)
               + if chosen(x) then value(x) else 0
    decreases k
  {
    if k == 0 {
      assert items[0 := x][1..] == items[1..];
    } else {
      assert items[k := x][1..] == items[1..][k - 1 := x];
      SumOfReplace(items[1..], k - 1, x, chosen, value);
    }
  }

  lemma {:induction false} SumOfNone<T(!new)>(items: seq<T>, f: T -> bool, v: T -> int)
    requires forall i :: 0 <= i < |items| ==> !f(items[i])
    ensures SumOf(items, f, v) == 0
  {
    if items == [] {
    } else {
      assert forall i :: 0 <= i < |items[1..]| ==> items[1..][i] == items[i + 1];
      SumOfNone(items[1..], f, v);
    }
  }

  predicate InSummary(w: Estate, caller: Caller, month: int, year: int, propertyId: Option<string>, p: Payment) {
    IsMonthRow(p, month, year) && (propertyId.Some? ==> p.propertyId == propertyId.value)
    && Manages(w, caller, p.propertyId)
  }

  function MonthSummary(w: Estate, rows: seq<Payment>, caller: Caller, month: int, year: int,
                        propertyId: Option<string>): Summary {
    var paid := (p: Payment) => InSummary(w, caller, month, year, propertyId, p) && p.status == PAID;
    var pending := (p: Payment) => InSummary(w, caller, month, year, propertyId, p)
                                   && (p.status == PENDING || p.status == PARTIAL);
    var overdue := (p: Payment) => InSummary(w, caller, month, year, propertyId, p) && p.status == OVERDUE;
    Summary(SumOf(w.tenants, (t: Tenant) => RentsHere(w, caller, propertyId, t), (t: Tenant) => t.monthlyRent),
            SumOf(rows, paid, (p: Payment) => p.amount),
            SumOf(rows, pending, (p: Payment) => p.remainingBalance),
            SumOf(rows, overdue, (p: Payment) => p.remainingBalance),
            SumOf(rows, paid, (p: Payment) => 1),
            SumOf(rows, pending, (p: Payment) => 1),
            SumOf(rows, overdue, (p: Payment) => 1))
  }

  function CountLapsed(w: Estate, rows: seq<Payment>, caller: Caller, today: int): int {
    SumOf(rows, (p: Payment) => Sweeps(w, rows, caller, p.propertyId) && Lapsed(p, today), (p: Payment) => 1)
  }
}
