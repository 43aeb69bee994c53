/** The tenant's rent summary, which derives overdue status at reading time, and its agreement with
    the sweep that stores the status. */
module TenantPortal {
  import opened Wrappers
  import opened Calendar
  import opened PaymentLedger
  import opened Payments

  datatype RentView = RentView(dueDate: int, status: PaymentStatus, amountDue: int)

  predicate IsRowOf(p: Payment, tenantId: string, month: int, year: int) {
    IsMonthRow(p, month, year) && p.tenantId == tenantId
  }

  /** The row the query returns: the latest payment date; of equal dates, the first in the table. */
  ghost predicate IsLatest(rows: seq<Payment>, tenantId: string, month: int, year: int, i: nat) {
    && i < |rows| && IsRowOf(rows[i], tenantId, month, year)
    && forall j :: 0 <= j < |rows| && IsRowOf(rows[j], tenantId, month, year) ==>
         && rows[j].paymentDate <= rows[i].paymentDate
         && (rows[j].paymentDate == rows[i].paymentDate ==> i <= j)
  }

  function Latest(rows: seq<Payment>, tenantId: string, month: int, year: int): (found: Option<nat>)
    ensures found.None? <==> forall j :: 0 <= j < |rows| ==> !IsRowOf(rows[j], tenantId, month, year)
    ensures found.Some? ==> IsLatest(rows, tenantId, month, year, found.value)
  {
    if rows == [] then None else
      var last := |rows| - 1;
      var earlier := Latest(rows[..last], tenantId, month, year);
      if IsRowOf(rows[last], tenantId, month, year)
         && (earlier.None? || rows[earlier.value].paymentDate < rows[last].paymentDate)
      then Some(last) else earlier
  }

  lemma LatestIsUnique(rows: seq<Payment>, tenantId: string, month: int, year: int, i: nat)
    requires IsLatest(rows, tenantId, month, year, i)
    ensures Latest(rows, tenantId, month, year) == Some(i)
  {
  }

  predicate Unpaid(p: Payment) {
    p.status == PENDING || p.status == PARTIAL
  }

  /** JavaScript's `a || b` on numbers. */
  function OrElse(a: int, b: int): int {
    if a != 0 then a else b
  }

  function ViewOfRow(p: Payment, pastDue: bool, rent: int, dueDate: int): RentView {
    RentView(dueDate, if Unpaid(p) && pastDue then OVERDUE else p.status,
             if p.status == PAID then 0 else OrElse(OrElse(p.remainingBalance, p.amount), rent))
  }

  /** What a tenant sees on a day of the given month. */
  function View(t: Tenant, rows: seq<Payment>, today: int, month: int, year: int): RentView {
    var dueDate := DueDate(year, month, t.rentDueDay);
    var pastDue := dueDate < today;
    match Latest(rows, t.id, month, year)
    case Some(i) => ViewOfRow(rows[i], pastDue, t.monthlyRent, dueDate)
    case None => RentView(dueDate, if pastDue then OVERDUE else PENDING, t.monthlyRent)
  }

  method GetRentSummary(t: Tenant, rows: seq<Payment>, today: int) returns (r: RentView)
    ensures r == View(t, rows, today, MonthOf(today) % 12 + 1, MonthOf(today) / 12)
  {
    var targetMonth := MonthOf(today) % 12 + 1;
    var targetYear := MonthOf(today) / 12;
    var dueDate := DueDate(targetYear, targetMonth, t.rentDueDay);
    var found := Latest(rows, t.id, targetMonth, targetYear);
    var isPastDue := dueDate < today;
    var status := PENDING;
    var amountDue := t.monthlyRent;
    if found.Some? {
      var payment := rows[found.value];
      var remainingBalance := payment.remainingBalance;
      status := payment.status;
      amountDue := OrElse(OrElse(remainingBalance, payment.amount), amountDue);
      if Unpaid(payment) && isPastDue {
        status := OVERDUE;
      }
      if payment.status == PAID {
        amountDue := 0;
      }
    } else if isPastDue {
      status := OVERDUE;
    }
    r := RentView(dueDate, status, amountDue);
  }

  // ---- Agreement with the stored status ----

  lemma {:induction false} NewRowsOf(w: Estate, rows: seq<Payment>, caller: Caller, month: int, year: int,
                                     t: Tenant, n: nat)
    requires DistinctTenants(w) && t in w.tenants && n <= |w.tenants|
    ensures forall p :: p in MissingRows(w, rows, caller, month, year, None, n) && p.tenantId == t.id ==>
              p == GeneratedRow(t, month, year) && !HasMonthRow(rows, t.id, month, year)
  {
    if n == 0 {
    } else {
      NewRowsOf(w, rows, caller, month, year, t, n - 1);
      var last := w.tenants[n - 1];
      var k :| 0 <= k < |w.tenants| && w.tenants[k] == t;
      assert last.id == t.id ==> last == t;
      assert GeneratedRow(last, month, year).tenantId == last.id;
    }
  }

  /** The rows of a tenant after generation: those it had, or the one made for it. */
  lemma GeneratedRowsOf(w: Estate, rows: seq<Payment>, caller: Caller, month: int, year: int, t: Tenant)
    requires DistinctTenants(w) && t in w.tenants
    ensures var generated := GenerateTable(w, rows, caller, month, year, None);
            && |rows| <= |generated|
            && (forall j :: 0 <= j < |rows| ==> generated[j] == rows[j])
            && (forall j :: |rows| <= j < |generated| && generated[j].tenantId == t.id ==>
                  generated[j] == GeneratedRow(t, month, year) && !HasMonthRow(rows, t.id, month, year))
  {
    var added := MissingRows(w, rows, caller, month, year, None, |w.tenants|);
    var generated := GenerateTable(w, rows, caller, month, year, None);
    NewRowsOf(w, rows, caller, month, year, t, |w.tenants|);
    assert forall j :: |rows| <= j < |generated| ==> generated[j] in added;
  }

  lemma {:induction false} NewRowFor(w: Estate, rows: seq<Payment>, caller: Caller, month: int, year: int,
                                     k: nat, n: nat)
    requires k < n <= |w.tenants|
    requires RentsHere(w, caller, None, w.tenants[k]) && !HasMonthRow(rows, w.tenants[k].id, month, year)
    ensures GeneratedRow(w.tenants[k], month, year) in MissingRows(w, rows, caller, month, year, None, n)
  {
    if k < n - 1 {
      NewRowFor(w, rows, caller, month, year, k, n - 1);
    }
  }

  /** With a row for the month already there, a refresh leaves the same row the latest and only sweeps it. */
  lemma RefreshKeepsLatest(w: Estate, rows: seq<Payment>, caller: Caller, today: int, month: int, year: int,
                           t: Tenant, i: nat)
    requires DistinctTenants(w) && t in w.tenants
    requires IsLatest(rows, t.id, month, year, i) && Manages(w, caller, rows[i].propertyId)
    ensures var after := RefreshTable(w, rows, caller, today, month, year, None);
            IsLatest(after, t.id, month, year, i) && after[i] == SweptRow(rows[i], today)
  {
    var generated := GenerateTable(w, rows, caller, month, year, None);
    GeneratedRowsOf(w, rows, caller, month, year, t);
    assert HasMonthRow(rows, t.id, month, year);
    assert HasLiveRow(generated, rows[i].propertyId) by { assert generated[i] == rows[i]; }
    SweepKeepsLatest(w, generated, caller, today, t.id, month, year, i);
  }

  lemma SweepKeepsLatest(w: Estate, rows: seq<Payment>, caller: Caller, today: int, tenantId: string, month: int,
                         year: int, i: nat)
    requires IsLatest(rows, tenantId, month, year, i) && Sweeps(w, rows, caller, rows[i].propertyId)
    ensures var after := SweepTable(w, rows, caller, today);
            IsLatest(after, tenantId, month, year, i) && after[i] == SweptRow(rows[i], today)
  {
    var after := SweepTable(w, rows, caller, today);
    assert forall j :: 0 <= j < |after| ==> after[j] == rows[j].(status := after[j].status);
  }

  /** Without one, the refresh creates it, and the sweep that follows treats it like any other row. */
  lemma RefreshCreatesRow(w: Estate, rows: seq<Payment>, caller: Caller, today: int, month: int, year: int, t: Tenant)
    requires DistinctTenants(w) && t in w.tenants && RentsHere(w, caller, None, t)
    requires Latest(rows, t.id, month, year).None?
    ensures var after := RefreshTable(w, rows, caller, today, month, year, None);
            var i := Latest(after, t.id, month, year);
            i.Some? && after[i.value] == SweptRow(GeneratedRow(t, month, year), today)
  {
    var added := MissingRows(w, rows, caller, month, year, None, |w.tenants|);
    var generated := GenerateTable(w, rows, caller, month, year, None);
    GeneratedRowsOf(w, rows, caller, month, year, t);
    var k :| 0 <= k < |w.tenants| && w.tenants[k] == t;
    NewRowFor(w, rows, caller, month, year, k, |w.tenants|);
    var a :| 0 <= a < |added| && added[a] == GeneratedRow(t, month, year);
    assert generated[|rows| + a] == GeneratedRow(t, month, year);
    var i := Latest(generated, t.id, month, year).value;
    assert generated[i] == GeneratedRow(t, month, year);
    SweepKeepsLatest(w, generated, caller, today, t.id, month, year, i);
    LatestIsUnique(SweepTable(w, generated, caller, today), t.id, month, year, i);
  }

  /** The one way the two can disagree: the row's own due date has passed, the clamped one has not. */
  predicate DueDateRunsAhead(t: Tenant, rows: seq<Payment>, today: int, month: int, year: int) {
    var found := Latest(rows, t.id, month, year);
    && found.Some? && Lapsed(rows[found.value], today)
    && today <= DueDate(year, month, t.rentDueDay)
  }

  /** Reading lazily agrees with having swept first, unless the row's due date runs ahead: whoever may
      refresh the tenant's property, the view of the day is the same before the refresh and after it. */
  lemma LazyViewIsEagerView(w: Estate, rows: seq<Payment>, caller: Caller, today: int, month: int, year: int, t: Tenant)
    requires DistinctTenants(w) && t in w.tenants && RentsHere(w, caller, None, t)
    requires var found := Latest(rows, t.id, month, year);
             found.Some? ==> Manages(w, caller, rows[found.value].propertyId)
    ensures View(t, RefreshTable(w, rows, caller, today, month, year, None), today, month, year)
            == View(t, rows, today, month, year)
            <==> !DueDateRunsAhead(t, rows, today, month, year)
  {
    var after := RefreshTable(w, rows, caller, today, month, year, None);
    var found := Latest(rows, t.id, month, year);
    if found.Some? {
      RefreshKeepsLatest(w, rows, caller, today, month, year, t, found.value);
      LatestIsUnique(after, t.id, month, year, found.value);
    } else {
      RefreshCreatesRow(w, rows, caller, today, month, year, t);
    }
  }

  /** Rows that carry the clamped due date, as generated ones do, never run ahead. */
  lemma ClampedRowsAgree(w: Estate, rows: seq<Payment>, caller: Caller, today: int, month: int, year: int, t: Tenant)
    requires DistinctTenants(w) && t in w.tenants && RentsHere(w, caller, None, t)
    requires var found := Latest(rows, t.id, month, year);
             found.Some? ==> Manages(w, caller, rows[found.value].propertyId)
                             && rows[found.value].dueDate == DueDate(year, month, t.rentDueDay)
    ensures View(t, RefreshTable(w, rows, caller, today, month, year, None), today, month, year)
            == View(t, rows, today, month, year)
  {
    LazyViewIsEagerView(w, rows, caller, today, month, year, t);
  }

  /** A payment recorded in part with a due date before the clamped one makes them differ: on a day between
      the two the tenant reads PARTIAL before the refresh and OVERDUE after it. */
  lemma EarlierDueDateDiffers(w: Estate, caller: Caller, t: Tenant, amount: int, paymentDate: int, dueDate: int,
                              today: int, month: int, year: int)
    requires DistinctTenants(w) && t in w.tenants && RentsHere(w, caller, None, t)
    requires 0 < amount < t.monthlyRent && dueDate < today <= DueDate(year, month, t.rentDueDay)
    ensures var rows := Apply(w, [], Record(t, amount, paymentDate, dueDate, month, year, None));
            && View(t, rows, today, month, year).status == PARTIAL
            && View(t, RefreshTable(w, rows, caller, today, month, year, None), today, month, year).status == OVERDUE
  {
    var rows := Apply(w, [], Record(t, amount, paymentDate, dueDate, month, year, None));
    assert IsLatest(rows, t.id, month, year, 0);
    LatestIsUnique(rows, t.id, month, year, 0);
    RefreshKeepsLatest(w, rows, caller, today, month, year, t, 0);
    LatestIsUnique(RefreshTable(w, rows, caller, today, month, year, None), t.id, month, year, 0);
  }

  // ---- What the view shows ----

  /** For a row whose status follows its balance, the amount due is its balance; a pending or partly paid row
      shows as overdue exactly when the clamped due date has passed, and any other status shows as stored. */
  lemma ViewShowsBalance(t: Tenant, rows: seq<Payment>, today: int, month: int, year: int, i: nat)
    requires IsLatest(rows, t.id, month, year, i) && Consistent(rows[i])
    ensures var v := View(t, rows, today, month, year);
            && v.amountDue == rows[i].remainingBalance
            && v.dueDate == DueDate(year, month, t.rentDueDay)
            && v.status == (if (rows[i].status == PENDING || rows[i].status == PARTIAL) && v.dueDate < today
                            then OVERDUE else rows[i].status)
  {
    LatestIsUnique(rows, t.id, month, year, i);
  }

  /** For any row: nothing when paid, else its balance; a balance of zero falls back on the amount, and an
      amount of zero on the rent. */
  lemma AmountDueIs(t: Tenant, rows: seq<Payment>, today: int, month: int, year: int, i: nat)
    requires IsLatest(rows, t.id, month, year, i)
    ensures var p, due := rows[i], View(t, rows, today, month, year).amountDue;
            && (p.status == PAID ==> due == 0)
            && (p.status != PAID && p.remainingBalance != 0 ==> due == p.remainingBalance)
            && (p.status != PAID && p.remainingBalance == 0 && p.amount != 0 ==> due == p.amount)
            && (p.status != PAID && p.remainingBalance == 0 && p.amount == 0 ==> due == t.monthlyRent)
  {
    LatestIsUnique(rows, t.id, month, year, i);
  }

  /** Without a row the tenant owes the rent, pending until the due date has passed and overdue after it. */
  lemma ViewWithoutRow(t: Tenant, rows: seq<Payment>, today: int, month: int, year: int)
    requires forall j :: 0 <= j < |rows| ==> !IsRowOf(rows[j], t.id, month, year)
    ensures var v := View(t, rows, today, month, year);
            && v.amountDue == t.monthlyRent && v.dueDate == DueDate(year, month, t.rentDueDay)
            && v.status == (if v.dueDate < today then OVERDUE else PENDING)
  {
    assert Latest(rows, t.id, month, year).None?;
  }
}
