/** The month summary conserves money: what is collected, pending and overdue is what was expected. */
module MonthConservation {
  import opened Payments
  import opened PaymentLedger
  import opened Wrappers

  // ---- The invariant of a month that is generated and settled in full ----

  /** A row of the month stands for the whole rent of one active tenant at its property. */
  predicate RowOfTenant(p: Payment, t: Tenant) {
    && p.tenantId == t.id && p.propertyId == t.propertyId && t.active
    && p.amount == t.monthlyRent
    && (p.status != PAID ==> p.remainingBalance == t.monthlyRent)
  }

  ghost predicate Backed(w: Estate, p: Payment, month: int, year: int) {
    IsMonthRow(p, month, year) ==> exists t :: t in w.tenants && RowOfTenant(p, t)
  }

  ghost predicate MonthSound(w: Estate, rows: seq<Payment>, month: int, year: int) {
    && (forall i :: 0 <= i < |rows| ==> Backed(w, rows[i], month, year))
    && OneRowEach(rows, month, year)
  }

  ghost predicate OneRowEach(rows: seq<Payment>, month: int, year: int) {
    forall i, j :: 0 <= i < j < |rows| && IsMonthRow(rows[i], month, year) && IsMonthRow(rows[j], month, year)
                   ==> rows[i].tenantId != rows[j].tenantId
  }

  /** Settling in full, sweeping, deleting, refreshing, and recording what fits the month. */
  predicate FullAmounts(w: Estate, rows: seq<Payment>, op: Op, month: int, year: int) {
    !op.Partial? && (op.Record? ==> op.tenant in w.tenants && RecordFits(rows, op, month, year))
  }

  /** A recorded payment fits a month when it is refused, belongs to another month, or is the whole rent of
      an active tenant that has no live row in the month. */
  predicate RecordFits(rows: seq<Payment>, op: Op, month: int, year: int)
    requires op.Record?
  {
    || op.amount <= 0
    || !(op.month == month && op.year == year)
    || (op.tenant.active && op.amount == op.tenant.monthlyRent && !HasMonthRow(rows, op.tenant.id, month, year))
  }

  /** Every operation of a run is such a one in the state it meets. */
  predicate FullAmountsRun(w: Estate, rows: seq<Payment>, ops: seq<Op>, month: int, year: int)
    decreases |ops|
  {
    ops == []
    || (FullAmounts(w, rows, ops[0], month, year) && FullAmountsRun(w, Apply(w, rows, ops[0]), ops[1..], month, year))
  }

  // ---- Every such operation keeps the month sound ----

  /** A row changed by one of these operations keeps tenant, property, month and amount. */
  predicate Follows(before: Payment, after: Payment) {
    && after.tenantId == before.tenantId && after.propertyId == before.propertyId
    && after.month == before.month && after.year == before.year && after.amount == before.amount
    && (before.deleted ==> after.deleted)
    && (after.status != PAID ==> after.remainingBalance == before.remainingBalance && before.status != PAID)
  }

  lemma FollowersStaySound(w: Estate, rows: seq<Payment>, after: seq<Payment>, month: int, year: int)
    requires MonthSound(w, rows, month, year)
    requires |after| == |rows| && forall i :: 0 <= i < |rows| ==> Follows(rows[i], after[i])
    ensures MonthSound(w, after, month, year)
  {
    forall i | 0 <= i < |after| ensures Backed(w, after[i], month, year) {
      if IsMonthRow(after[i], month, year) {
        assert Backed(w, rows[i], month, year);
        var t :| t in w.tenants && RowOfTenant(rows[i], t);
        assert RowOfTenant(after[i], t);
      }
    }
    forall i, j | 0 <= i < j < |after| && IsMonthRow(after[i], month, year) && IsMonthRow(after[j], month, year)
      ensures after[i].tenantId != after[j].tenantId
    {
      assert IsMonthRow(rows[i], month, year) && IsMonthRow(rows[j], month, year);
    }
  }

  lemma {:induction false} GeneratingKeepsSound(w: Estate, rows: seq<Payment>, caller: Caller, forMonth: int,
                                                forYear: int, propertyId: Option<string>, month: int, year: int, n: nat)
    requires MonthSound(w, rows, month, year) && DistinctTenants(w) && n <= |w.tenants|
    ensures MonthSound(w, rows + MissingRows(w, rows, caller, forMonth, forYear, propertyId, n), month, year)
    ensures forall i :: |rows| <= i < |rows + MissingRows(w, rows, caller, forMonth, forYear, propertyId, n)| ==>
              var p := (rows + MissingRows(w, rows, caller, forMonth, forYear, propertyId, n))[i];
              && IsMonthRow(p, forMonth, forYear)
              && exists k :: 0 <= k < n && w.tenants[k].id == p.tenantId
  {
    if n == 0 {
    } else {
      var t := w.tenants[n - 1];
      var before := rows + MissingRows(w, rows, caller, forMonth, forYear, propertyId, n - 1);
      GeneratingKeepsSound(w, rows, caller, forMonth, forYear, propertyId, month, year, n - 1);
      if RentsHere(w, caller, propertyId, t) && !HasMonthRow(rows, t.id, forMonth, forYear) {
        assert rows + MissingRows(w, rows, caller, forMonth, forYear, propertyId, n)
               == before + [GeneratedRow(t, forMonth, forYear)];
        forall i | 0 <= i < |before| && IsMonthRow(before[i], forMonth, forYear)
          ensures before[i].tenantId != t.id
        {
          if i < |rows| {
            assert before[i] == rows[i];
          }
        }
        AddingKeepsSound(w, before, t, forMonth, forYear, month, year);
      } else {
        assert rows + MissingRows(w, rows, caller, forMonth, forYear, propertyId, n) == before;
      }
    }
  }

  lemma AddingKeepsSound(w: Estate, rows: seq<Payment>, t: Tenant, forMonth: int, forYear: int, month: int, year: int)
    requires MonthSound(w, rows, month, year) && t in w.tenants && t.active
    requires forall i :: 0 <= i < |rows| && IsMonthRow(rows[i], forMonth, forYear) ==> rows[i].tenantId != t.id
    ensures MonthSound(w, rows + [GeneratedRow(t, forMonth, forYear)], month, year)
  {
    var p := GeneratedRow(t, forMonth, forYear);
    assert RowOfTenant(p, t);
    var after := rows + [p];
    forall i | 0 <= i < |after| ensures Backed(w, after[i], month, year) {
      if i < |rows| {
        assert after[i] == rows[i];
      }
    }
  }

  lemma AppendingKeepsSound(w: Estate, rows: seq<Payment>, p: Payment, month: int, year: int)
    requires MonthSound(w, rows, month, year)
    ensures MonthSound(w, rows + [p], month, year)
            <==> (IsMonthRow(p, month, year)
                  ==> Backed(w, p, month, year) && !HasMonthRow(rows, p.tenantId, month, year))
  {
    var after := rows + [p];
    assert after[|rows|] == p;
    if IsMonthRow(p, month, year) && HasMonthRow(rows, p.tenantId, month, year) {
      var i :| 0 <= i < |rows| && IsMonthRow(rows[i], month, year) && rows[i].tenantId == p.tenantId;
      assert after[i] == rows[i] && after[|rows|] == p;
      assert !OneRowEach(after, month, year);
    }
    if IsMonthRow(p, month, year) ==> Backed(w, p, month, year) && !HasMonthRow(rows, p.tenantId, month, year) {
      forall i | 0 <= i < |after| ensures Backed(w, after[i], month, year) {
        assert i < |rows| ==> after[i] == rows[i];
      }
    }
  }

  /** Recording a listed tenant's payment keeps the month sound exactly when it fits the month. */
  lemma RecordKeepsSoundIff(w: Estate, rows: seq<Payment>, op: Op, month: int, year: int)
    requires MonthSound(w, rows, month, year) && DistinctTenants(w) && op.Record? && op.tenant in w.tenants
    ensures MonthSound(w, Apply(w, rows, op), month, year) <==> RecordFits(rows, op, month, year)
  {
    var t := op.tenant;
    var p := RecordedRow(t, op.amount, op.paymentDate, op.dueDate, op.month, op.year, None, op.reference);
    AppendingKeepsSound(w, rows, p, month, year);
    if Backed(w, p, month, year) && IsMonthRow(p, month, year) {
      var other :| other in w.tenants && RowOfTenant(p, other);
      OneTenantAnId(w, other, t);
    }
    if t.active && op.amount == t.monthlyRent {
      assert RowOfTenant(p, t);
    }
  }

  lemma OneTenantAnId(w: Estate, a: Tenant, b: Tenant)
    requires DistinctTenants(w) && a in w.tenants && b in w.tenants && a.id == b.id
    ensures a == b
  {
    var i :| 0 <= i < |w.tenants| && w.tenants[i] == a;
    var j :| 0 <= j < |w.tenants| && w.tenants[j] == b;
  }

  lemma StepKeepsSound(w: Estate, rows: seq<Payment>, op: Op, month: int, year: int)
    requires MonthSound(w, rows, month, year) && DistinctTenants(w) && FullAmounts(w, rows, op, month, year)
    ensures MonthSound(w, Apply(w, rows, op), month, year)
  {
    if op.Refresh? {
      var generated := GenerateTable(w, rows, op.caller, op.month, op.year, op.propertyId);
      GeneratingKeepsSound(w, rows, op.caller, op.month, op.year, op.propertyId, month, year, |w.tenants|);
      FollowersStaySound(w, generated, SweepTable(w, generated, op.caller, op.today), month, year);
    } else if op.Record? {
      RecordKeepsSoundIff(w, rows, op, month, year);
    } else {
      FollowersStaySound(w, rows, Apply(w, rows, op), month, year);
    }
  }

  lemma {:induction false} RunsKeepSound(w: Estate, rows: seq<Payment>, ops: seq<Op>, month: int, year: int)
    requires MonthSound(w, rows, month, year) && DistinctTenants(w) && FullAmountsRun(w, rows, ops, month, year)
    ensures MonthSound(w, Run(w, rows, ops), month, year)
    decreases |ops|
  {
    if ops == [] {
    } else {
      StepKeepsSound(w, rows, ops[0], month, year);
      RunsKeepSound(w, Apply(w, rows, ops[0]), ops[1..], month, year);
    }
  }

  // ---- A refresh leaves nobody out ----

  lemma {:induction false} MissingRowsFill(w: Estate, rows: seq<Payment>, caller: Caller, month: int, year: int,
                                           propertyId: Option<string>, n: nat, k: nat)
    requires k < n <= |w.tenants| && RentsHere(w, caller, propertyId, w.tenants[k])
    ensures HasMonthRow(rows + MissingRows(w, rows, caller, month, year, propertyId, n), w.tenants[k].id, month, year)
  {
    var t := w.tenants[k];
    var after := rows + MissingRows(w, rows, caller, month, year, propertyId, n);
    if k < n - 1 {
      MissingRowsFill(w, rows, caller, month, year, propertyId, n - 1, k);
      var before := rows + MissingRows(w, rows, caller, month, year, propertyId, n - 1);
      var i :| 0 <= i < |before| && IsMonthRow(before[i], month, year) && before[i].tenantId == t.id;
      assert after[i] == before[i];
    } else if HasMonthRow(rows, t.id, month, year) {
      var i :| 0 <= i < |rows| && IsMonthRow(rows[i], month, year) && rows[i].tenantId == t.id;
      assert after[i] == rows[i];
    } else {
      assert after[|after| - 1] == GeneratedRow(t, month, year);
    }
  }

  lemma RefreshFills(w: Estate, rows: seq<Payment>, caller: Caller, today: int, month: int, year: int,
                     propertyId: Option<string>, k: nat)
    requires k < |w.tenants| && RentsHere(w, caller, propertyId, w.tenants[k])
    ensures HasMonthRow(RefreshTable(w, rows, caller, today, month, year, propertyId), w.tenants[k].id, month, year)
  {
    MissingRowsFill(w, rows, caller, month, year, propertyId, |w.tenants|, k);
    var generated := GenerateTable(w, rows, caller, month, year, propertyId);
    var i :| 0 <= i < |generated| && IsMonthRow(generated[i], month, year) && generated[i].tenantId == w.tenants[k].id;
    assert IsMonthRow(SweepTable(w, generated, caller, today)[i], month, year);
  }

  // ---- Counting rows tenant by tenant ----

  /** What a row stands for in the summary: money received when paid, money owed otherwise. */
  function Worth(p: Payment): int {
    if p.status == PAID then p.amount else p.remainingBalance
  }

  lemma {:induction false} SumSplits<T(!new)>(items: seq<T>, f: T -> bool, a: T -> bool, b: T -> bool, v: T -> int)
    requires forall i :: 0 <= i < |items| ==> (f(items[i]) <==> a(items[i]) || b(items[i]))
    requires forall i :: 0 <= i < |items| ==> !(a(items[i]) && b(items[i]))
    ensures SumOf(items, f, v) == SumOf(items, a, v) + SumOf(items, b, v)
  {
    if items == [] {
    } else {
      assert forall i :: 0 <= i < |items[1..]| ==> items[1..][i] == items[i + 1];
      SumSplits(items[1..], f, a, b, v);
    }
  }

  lemma {:induction false} SumOfOne<T(!new)>(items: seq<T>, f: T -> bool, v: T -> int, k: nat)
    requires k < |items| && f(items[k])
    requires forall i :: 0 <= i < |items| && i != k ==> !f(items[i])
    ensures SumOf(items, f, v) == v(items[k])
  {
    var rest := items[1..];
    assert forall i :: 0 <= i < |rest| ==> rest[i] == items[i + 1];
    if k == 0 {
      SumOfNone(rest, f, v);
    } else {
      SumOfOne(rest, f, v, k - 1);
    }
  }

  /** The rows of the summary that belong to one of the tenants from position k on. */
  ghost predicate FromTenants(w: Estate, caller: Caller, month: int, year: int, propertyId: Option<string>,
                              k: nat, p: Payment) {
    InSummary(w, caller, month, year, propertyId, p)
    && exists j :: k <= j < |w.tenants| && w.tenants[j].id == p.tenantId
  }

  ghost predicate OfTenant(w: Estate, caller: Caller, month: int, year: int, propertyId: Option<string>,
                           k: nat, p: Payment)
    requires k < |w.tenants|
  {
    InSummary(w, caller, month, year, propertyId, p) && w.tenants[k].id == p.tenantId
  }

  /** Summing a value over rows equals summing over tenants what each tenant's only row is worth. */
  lemma {:induction false} RowsMatchTenants(w: Estate, rows: seq<Payment>, caller: Caller, month: int, year: int,
                                            propertyId: Option<string>, k: nat, value: Payment -> int,
                                            due: Tenant -> int)
    requires MonthSound(w, rows, month, year) && DistinctTenants(w) && k <= |w.tenants|
    requires forall j :: 0 <= j < |w.tenants| && RentsHere(w, caller, propertyId, w.tenants[j])
                         ==> HasMonthRow(rows, w.tenants[j].id, month, year)
    requires forall p: Payment, t: Tenant :: RowOfTenant(p, t) ==> value(p) == due(t)
    ensures SumOf(rows, p => FromTenants(w, caller, month, year, propertyId, k, p), value)
            == SumOf(w.tenants[k..], (t: Tenant) => RentsHere(w, caller, propertyId, t), due)
    decreases |w.tenants| - k
  {
    var from := p => FromTenants(w, caller, month, year, propertyId, k, p);
    if k == |w.tenants| {
      SumOfNone(rows, from, value);
    } else {
      var rest := p => FromTenants(w, caller, month, year, propertyId, k + 1, p);
      var own := p => OfTenant(w, caller, month, year, propertyId, k, p);
      RowsMatchTenants(w, rows, caller, month, year, propertyId, k + 1, value, due);
      SumSplits(rows, from, own, rest, value);
      OwnRowWorth(w, rows, caller, month, year, propertyId, k, value, due);
      assert w.tenants[k..][0] == w.tenants[k] && w.tenants[k..][1..] == w.tenants[k + 1..];
    }
  }

  lemma OwnRowWorth(w: Estate, rows: seq<Payment>, caller: Caller, month: int, year: int,
                    propertyId: Option<string>, k: nat, value: Payment -> int, due: Tenant -> int)
    requires MonthSound(w, rows, month, year) && DistinctTenants(w) && k < |w.tenants|
    requires RentsHere(w, caller, propertyId, w.tenants[k]) ==> HasMonthRow(rows, w.tenants[k].id, month, year)
    requires forall p: Payment, t: Tenant :: RowOfTenant(p, t) ==> value(p) == due(t)
    ensures SumOf(rows, p => OfTenant(w, caller, month, year, propertyId, k, p), value)
            == if RentsHere(w, caller, propertyId, w.tenants[k]) then due(w.tenants[k]) else 0
  {
    var t := w.tenants[k];
    var own := p => OfTenant(w, caller, month, year, propertyId, k, p);
    forall i | 0 <= i < |rows| && IsMonthRow(rows[i], month, year) && rows[i].tenantId == t.id
      ensures RowOfTenant(rows[i], t)
    {
      assert Backed(w, rows[i], month, year);
      var other :| other in w.tenants && RowOfTenant(rows[i], other);
      assert other == t;
    }
    if RentsHere(w, caller, propertyId, t) {
      var i :| 0 <= i < |rows| && IsMonthRow(rows[i], month, year) && rows[i].tenantId == t.id;
      SumOfOne(rows, own, value, i);
    } else {
      SumOfNone(rows, own, value);
    }
  }

  /** The three totals of a summary are together the worth of its rows. */
  lemma {:induction false} TotalsAreWorth(w: Estate, rows: seq<Payment>, caller: Caller, month: int, year: int,
                                          propertyId: Option<string>)
    ensures var s := MonthSummary(w, rows, caller, month, year, propertyId);
            var all := (p: Payment) => InSummary(w, caller, month, year, propertyId, p);
            && s.totalCollected + s.totalPending + s.totalOverdue == SumOf(rows, all, Worth)
            && s.paidCount + s.pendingCount + s.overdueCount == SumOf(rows, all, (p: Payment) => 1)
  {
    if rows == [] {
    } else {
      TotalsAreWorth(w, rows[1..], caller, month, year, propertyId);
    }
  }

  lemma SummaryOfSoundMonth(w: Estate, rows: seq<Payment>, caller: Caller, month: int, year: int,
                            propertyId: Option<string>)
    requires MonthSound(w, rows, month, year) && DistinctTenants(w)
    requires forall j :: 0 <= j < |w.tenants| && RentsHere(w, caller, propertyId, w.tenants[j])
                         ==> HasMonthRow(rows, w.tenants[j].id, month, year)
    ensures Conserved(w, MonthSummary(w, rows, caller, month, year, propertyId), caller, propertyId)
  {
    var all := (p: Payment) => InSummary(w, caller, month, year, propertyId, p);
    var from := p => FromTenants(w, caller, month, year, propertyId, 0, p);
    var one := (p: Payment) => 1;
    forall i | 0 <= i < |rows| ensures all(rows[i]) == from(rows[i]) {
      if all(rows[i]) {
        assert Backed(w, rows[i], month, year);
      }
    }
    TotalsAreWorth(w, rows, caller, month, year, propertyId);
    SumAgrees(rows, all, Worth, from, Worth);
    SumAgrees(rows, all, one, from, one);
    assert w.tenants[0..] == w.tenants;
    RowsMatchTenants(w, rows, caller, month, year, propertyId, 0, Worth, (t: Tenant) => t.monthlyRent);
    RowsMatchTenants(w, rows, caller, month, year, propertyId, 0, one, (t: Tenant) => 1);
  }

  // ---- The main result ----

  /** Money and heads are conserved: the totals add up to the rent expected from the tenants in scope,
      and the counts to their number. */
  predicate Conserved(w: Estate, s: Summary, caller: Caller, propertyId: Option<string>) {
    var inScope := (t: Tenant) => RentsHere(w, caller, propertyId, t);
    && s.totalCollected + s.totalPending + s.totalOverdue == s.totalExpected
    && s.paidCount + s.pendingCount + s.overdueCount == SumOf(w.tenants, inScope, (t: Tenant) => 1)
    && s.totalExpected == SumOf(w.tenants, inScope, (t: Tenant) => t.monthlyRent)
  }

  /** From a month without rows, after any sequence of payments in full, batch payments, sweeps, deletions
      and refreshes by anybody, and of recorded payments that fit the month, the summary anybody asks for
      conserves money and heads. */
  lemma SummaryConserves(w: Estate, rows: seq<Payment>, ops: seq<Op>, caller: Caller, today: int, month: int, year: int,
                         propertyId: Option<string>)
    requires DistinctTenants(w)
    requires forall i :: 0 <= i < |rows| ==> !IsMonthRow(rows[i], month, year)
    requires FullAmountsRun(w, rows, ops, month, year)
    ensures var refreshed := RefreshTable(w, Run(w, rows, ops), caller, today, month, year, propertyId);
            Conserved(w, MonthSummary(w, refreshed, caller, month, year, propertyId), caller, propertyId)
  {
    var current := Run(w, rows, ops);
    RunsKeepSound(w, rows, ops, month, year);
    StepKeepsSound(w, current, Refresh(caller, today, month, year, propertyId), month, year);
    var refreshed := RefreshTable(w, current, caller, today, month, year, propertyId);
    forall j | 0 <= j < |w.tenants| && RentsHere(w, caller, propertyId, w.tenants[j])
      ensures HasMonthRow(refreshed, w.tenants[j].id, month, year)
    {
      RefreshFills(w, current, caller, today, month, year, propertyId, j);
    }
    SummaryOfSoundMonth(w, refreshed, caller, month, year, propertyId);
  }

  // ---- Recorded and partial payments can unbalance it ----

  lemma {:induction false} SumOfAppend<T(!new)>(items: seq<T>, x: T, f: T -> bool, v: T -> int)
    ensures SumOf(items + [x], f, v) == SumOf(items, f, v) + if f(x) then v(x) else 0
  {
    if items == [] {
      assert items + [x] == [x] && [x][1..] == [];
    } else {
      assert (items + [x])[1..] == items[1..] + [x];
      SumOfAppend(items[1..], x, f, v);
    }
  }

  /** Recording a payment leaves a summary that balances balanced exactly when no row comes into it: one
      more row is one head too many. */
  lemma RecordUnbalances(w: Estate, rows: seq<Payment>, op: Op, caller: Caller, month: int, year: int,
                         propertyId: Option<string>)
    requires op.Record? && op.amount > 0
    requires Conserved(w, MonthSummary(w, rows, caller, month, year, propertyId), caller, propertyId)
    ensures var after := Apply(w, rows, op);
            Conserved(w, MonthSummary(w, after, caller, month, year, propertyId), caller, propertyId)
            <==> !InSummary(w, caller, month, year, propertyId, after[|rows|])
  {
    var all := (p: Payment) => InSummary(w, caller, month, year, propertyId, p);
    var after := Apply(w, rows, op);
    TotalsAreWorth(w, rows, caller, month, year, propertyId);
    TotalsAreWorth(w, after, caller, month, year, propertyId);
    SumOfAppend(rows, after[|rows|], all, Worth);
    SumOfAppend(rows, after[|rows|], all, (p: Payment) => 1);
  }

  /** A partial payment takes the sum received out of what is pending without adding it to what is
      collected, a final one adds it on top of the whole rent, and one on a paid row on top of what was
      paid: a balanced summary stays balanced only when the payment is for nothing, or takes back from a
      paid row exactly what was paid. */
  lemma PartialUnbalances(w: Estate, rows: seq<Payment>, op: Op, caller: Caller, month: int, year: int,
                          propertyId: Option<string>)
    requires op.Partial? && Reaches(w, rows, op.caller, op.id)
    requires InSummary(w, caller, month, year, propertyId, rows[op.id])
    requires var p := rows[op.id];
             (Consistent(p) && p.amount > 0) || (p.amount == 0 && p.remainingBalance == 0)
    requires Conserved(w, MonthSummary(w, rows, caller, month, year, propertyId), caller, propertyId)
    ensures Conserved(w, MonthSummary(w, Apply(w, rows, op), caller, month, year, propertyId), caller, propertyId)
            <==> op.amount == 0 || (rows[op.id].status == PAID && op.amount == -rows[op.id].amount)
  {
    var all := (p: Payment) => InSummary(w, caller, month, year, propertyId, p);
    var after := PartlyPaidRow(rows[op.id], op.amount, op.now, op.paymentMethod);
    TotalsAreWorth(w, rows, caller, month, year, propertyId);
    TotalsAreWorth(w, Apply(w, rows, op), caller, month, year, propertyId);
    SumOfReplace(rows, op.id, after, all, Worth);
    SumOfReplace(rows, op.id, after, all, (p: Payment) => 1);
  }
}
