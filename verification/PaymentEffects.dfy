/** What each payment operation does to the table, field by field, and to each figure of a month summary. */
module PaymentEffects {
  import opened Calendar
  import opened PaymentLedger
  import opened Payments
  import opened Wrappers

  // ---- Rows ----

  /** The two rows differ at most in how they were settled. */
  predicate SameDebt(before: Payment, after: Payment) {
    && after.tenantId == before.tenantId && after.propertyId == before.propertyId && after.dueDate == before.dueDate
    && after.month == before.month && after.year == before.year && after.deleted == before.deleted
  }

  /** Settled in full at a moment; what was not given stays as it was. */
  predicate Settled(before: Payment, after: Payment, now: int, paymentMethod: Option<string>) {
    && after.status == PAID && after.remainingBalance == 0 && !after.isPartialPayment && after.paymentDate == now
    && after.paymentMethod == (if paymentMethod.Some? then paymentMethod else before.paymentMethod)
    && after.amount == before.amount && SameDebt(before, after)
  }

  ghost predicate OnlyRow(before: seq<Payment>, after: seq<Payment>, id: nat) {
    |after| == |before| && forall i :: 0 <= i < |before| && i != id ==> after[i] == before[i]
  }

  /** Marking a reachable row paid settles it and touches no other row; an unreachable one stays as it is. */
  lemma MarkPaidSettles(w: Estate, rows: seq<Payment>, op: Op)
    requires op.MarkPaid?
    ensures var after := Apply(w, rows, op);
            if Reaches(w, rows, op.caller, op.id) then
              && OnlyRow(rows, after, op.id)
              && Settled(rows[op.id], after[op.id], op.now, op.paymentMethod)
              && after[op.id].transactionReference
                 == (if op.reference.Some? then op.reference else rows[op.id].transactionReference)
            else after == rows
  {
  }

  /** A batch settles exactly the reachable rows of its list. */
  lemma BatchSettles(w: Estate, rows: seq<Payment>, op: Op)
    requires op.BatchPaid?
    ensures var after := Apply(w, rows, op);
            && |after| == |rows|
            && forall i :: 0 <= i < |rows| ==>
                 if i in op.ids && Reaches(w, rows, op.caller, i) then
                   && Settled(rows[i], after[i], op.now, op.paymentMethod)
                   && after[i].transactionReference == rows[i].transactionReference
                 else after[i] == rows[i]
  {
  }

  /** A partial payment adds to the amount, takes from the balance down to zero, and leaves the row paid or
      partly paid accordingly. */
  lemma PartialPaysOff(w: Estate, rows: seq<Payment>, op: Op)
    requires op.Partial? && Reaches(w, rows, op.caller, op.id)
    ensures var before, after := rows[op.id], Apply(w, rows, op);
            && OnlyRow(rows, after, op.id) && SameDebt(before, after[op.id])
            && after[op.id].amount == before.amount + op.amount
            && after[op.id].remainingBalance
               == (if op.amount < before.remainingBalance then before.remainingBalance - op.amount else 0)
            && after[op.id].status == (if after[op.id].remainingBalance > 0 then PARTIAL else PAID)
            && (after[op.id].isPartialPayment <==> after[op.id].remainingBalance > 0)
            && after[op.id].paymentDate == op.now
            && after[op.id].paymentMethod == (if op.paymentMethod.Some? then op.paymentMethod else before.paymentMethod)
            && after[op.id].transactionReference == before.transactionReference
  {
  }

  /** A sweep turns a row overdue exactly when it is pending or partly paid, past its due date and of a swept
      property, and changes nothing else. */
  lemma SweepMarks(w: Estate, rows: seq<Payment>, op: Op, i: nat)
    requires op.Sweep? && i < |rows|
    ensures var after := Apply(w, rows, op);
            && |after| == |rows| && after[i] == rows[i].(status := after[i].status)
            && after[i].status ==
                 if (rows[i].status == PENDING || rows[i].status == PARTIAL) && rows[i].dueDate < op.today
                    && (op.caller.Owner?
                        || (op.caller.Manager? && HasLiveRow(rows, rows[i].propertyId)
                            && rows[i].propertyId in w.managers && w.managers[rows[i].propertyId] == op.caller.id))
                 then OVERDUE else rows[i].status
  {
  }

  /** Removing a payment only marks it deleted. */
  lemma RemoveMarksDeleted(w: Estate, rows: seq<Payment>, op: Op)
    requires op.Remove? && MayRemove(w, rows, op.caller, op.id)
    ensures var after := Apply(w, rows, op);
            OnlyRow(rows, after, op.id) && after[op.id].deleted && after[op.id].(deleted := false) == rows[op.id]
  {
  }

  /** Every row a generation adds is one tenant's whole rent, pending, due on the clamped day of the month. */
  lemma {:induction false} GeneratedRowsAreRents(w: Estate, rows: seq<Payment>, caller: Caller, month: int, year: int,
                                                 propertyId: Option<string>, n: nat, p: Payment)
    requires n <= |w.tenants| && p in MissingRows(w, rows, caller, month, year, propertyId, n)
    ensures exists k :: 0 <= k < n && IsRentOf(p, w.tenants[k], month, year)
                        && RentsHere(w, caller, propertyId, w.tenants[k])
  {
    DueDateStaysInMonth(year, month, w.tenants[n - 1].rentDueDay);
    if p in MissingRows(w, rows, caller, month, year, propertyId, n - 1) {
      GeneratedRowsAreRents(w, rows, caller, month, year, propertyId, n - 1, p);
    } else {
      assert IsRentOf(p, w.tenants[n - 1], month, year);
    }
  }

  predicate IsRentOf(p: Payment, t: Tenant, month: int, year: int) {
    && p.tenantId == t.id && p.propertyId == t.propertyId && p.amount == t.monthlyRent
    && p.remainingBalance == t.monthlyRent && p.status == PENDING && !p.isPartialPayment && !p.deleted
    && p.month == month && p.year == year
    && MonthOf(p.dueDate) == 12 * year + month - 1 && DayOfMonth(p.dueDate) == ClampedDay(year, month, t.rentDueDay)
    && p.paymentDate == p.dueDate * MS_PER_DAY && p.paymentMethod == None && p.transactionReference == None
  }

  /** Once paid, a row is paid in every later state, whoever does what. */
  lemma {:induction false} PaidStaysPaid(w: Estate, rows: seq<Payment>, ops: seq<Op>, id: nat)
    requires id < |rows| && rows[id].status == PAID && rows[id].remainingBalance == 0 && AllProper(ops)
    ensures id < |Run(w, rows, ops)|
    ensures Run(w, rows, ops)[id].status == PAID && Run(w, rows, ops)[id].remainingBalance == 0
    decreases |ops|
  {
    if ops == [] {
    } else {
      PaidStaysPaid(w, Apply(w, rows, ops[0]), ops[1..], id);
    }
  }

  lemma MarkedPaidStaysPaid(w: Estate, rows: seq<Payment>, op: Op, ops: seq<Op>)
    requires op.MarkPaid? && Reaches(w, rows, op.caller, op.id) && AllProper(ops)
    ensures op.id < |Run(w, Apply(w, rows, op), ops)|
    ensures Run(w, Apply(w, rows, op), ops)[op.id].status == PAID
    ensures Run(w, Apply(w, rows, op), ops)[op.id].remainingBalance == 0
  {
    MarkPaidSettles(w, rows, op);
    PaidStaysPaid(w, Apply(w, rows, op), ops, op.id);
  }

  // ---- The figures of a summary ----

  datatype Place = Collected | Pending | Overdue

  /** Where a row of the summary is counted. */
  function PlaceOf(p: Payment): Place {
    match p.status
    case PAID => Collected
    case PENDING => Pending
    case PARTIAL => Pending
    case OVERDUE => Overdue
  }

  function TotalAt(s: Summary, place: Place): int {
    match place
    case Collected => s.totalCollected
    case Pending => s.totalPending
    case Overdue => s.totalOverdue
  }

  function CountAt(s: Summary, place: Place): int {
    match place
    case Collected => s.paidCount
    case Pending => s.pendingCount
    case Overdue => s.overdueCount
  }

  /** What a row adds to its place. */
  function ValueAt(p: Payment, place: Place): int {
    if place == Collected then p.amount else p.remainingBalance
  }

  function One(p: Payment): int {
    1
  }

  function Scope(w: Estate, caller: Caller, month: int, year: int, propertyId: Option<string>): Payment -> bool {
    (p: Payment) => InSummary(w, caller, month, year, propertyId, p)
  }

  function At(scope: Payment -> bool, place: Place): Payment -> bool {
    (p: Payment) => scope(p) && PlaceOf(p) == place
  }

  function Value(place: Place): Payment -> int {
    (p: Payment) => ValueAt(p, place)
  }

  /** Every figure of a summary is a sum over the rows in scope that have their place there. */
  lemma FigureIsSum(w: Estate, rows: seq<Payment>, caller: Caller, month: int, year: int, propertyId: Option<string>,
                    place: Place)
    ensures var s := MonthSummary(w, rows, caller, month, year, propertyId);
            var there := At(Scope(w, caller, month, year, propertyId), place);
            && TotalAt(s, place) == SumOf(rows, there, Value(place))
            && CountAt(s, place) == SumOf(rows, there, One)
  {
    var there := At(Scope(w, caller, month, year, propertyId), place);
    var one := (p: Payment) => 1;
    match place
    case Collected =>
      var paid := (p: Payment) => InSummary(w, caller, month, year, propertyId, p) && p.status == PAID;
      SumAgrees(rows, paid, (p: Payment) => p.amount, there, Value(place));
      SumAgrees(rows, paid, one, there, One);
    case Pending =>
      var pending := (p: Payment) => InSummary(w, caller, month, year, propertyId, p)
                                     && (p.status == PENDING || p.status == PARTIAL);
      SumAgrees(rows, pending, (p: Payment) => p.remainingBalance, there, Value(place));
      SumAgrees(rows, pending, one, there, One);
    case Overdue =>
      var overdue := (p: Payment) => InSummary(w, caller, month, year, propertyId, p) && p.status == OVERDUE;
      SumAgrees(rows, overdue, (p: Payment) => p.remainingBalance, there, Value(place));
      SumAgrees(rows, overdue, one, there, One);
  }

  /** When all rows in scope are of one place, that place holds their whole sum and number, the others nothing. */
  lemma OnePlaceHoldsAll(w: Estate, rows: seq<Payment>, caller: Caller, month: int, year: int,
                         propertyId: Option<string>, all: Place, place: Place)
    requires forall i :: 0 <= i < |rows| && InSummary(w, caller, month, year, propertyId, rows[i])
               ==> PlaceOf(rows[i]) == all
    ensures var s := MonthSummary(w, rows, caller, month, year, propertyId);
            var scope := Scope(w, caller, month, year, propertyId);
            && TotalAt(s, place) == (if place == all then SumOf(rows, scope, Value(all)) else 0)
            && CountAt(s, place) == (if place == all then SumOf(rows, scope, One) else 0)
  {
    var scope := Scope(w, caller, month, year, propertyId);
    FigureIsSum(w, rows, caller, month, year, propertyId, place);
    if place == all {
      SumAgrees(rows, At(scope, place), Value(place), scope, Value(all));
      SumAgrees(rows, At(scope, place), One, scope, One);
    } else {
      SumOfNone(rows, At(scope, place), Value(place));
      SumOfNone(rows, At(scope, place), One);
    }
  }

  /** Settling a row of the summary takes its balance and its head out of the place it was in and adds its
      amount and one head to what is collected; settling any other row moves nothing. */
  lemma SettlingMoves(w: Estate, rows: seq<Payment>, op: Op, caller: Caller, month: int, year: int,
                      propertyId: Option<string>, place: Place)
    requires op.MarkPaid? && Reaches(w, rows, op.caller, op.id)
    ensures var before := MonthSummary(w, rows, caller, month, year, propertyId);
            var after := MonthSummary(w, Apply(w, rows, op), caller, month, year, propertyId);
            var p := rows[op.id];
            var inScope := InSummary(w, caller, month, year, propertyId, p);
            && TotalAt(after, place)
               == TotalAt(before, place) - (if inScope && PlaceOf(p) == place then ValueAt(p, place) else 0)
                  + (if inScope && place == Collected then p.amount else 0)
            && CountAt(after, place)
               == CountAt(before, place) - (if inScope && PlaceOf(p) == place then 1 else 0)
                  + (if inScope && place == Collected then 1 else 0)
            && after.totalExpected == before.totalExpected
  {
    var there := At(Scope(w, caller, month, year, propertyId), place);
    var after := Apply(w, rows, op);
    MarkPaidSettles(w, rows, op);
    assert after == rows[op.id := after[op.id]];
    FigureIsSum(w, rows, caller, month, year, propertyId, place);
    FigureIsSum(w, after, caller, month, year, propertyId, place);
    SumOfReplace(rows, op.id, after[op.id], there, Value(place));
    SumOfReplace(rows, op.id, after[op.id], there, One);
  }

  lemma {:induction false} SumOfMarked(before: seq<Payment>, after: seq<Payment>, scope: Payment -> bool,
                                       marks: Payment -> bool, both: Payment -> bool, place: Place,
                                       value: Payment -> int)
    requires |before| == |after|
    requires forall i :: 0 <= i < |before| ==>
               after[i] == if marks(before[i]) then before[i].(status := OVERDUE) else before[i]
    requires forall p :: marks(p) ==> PlaceOf(p) == Pending
    requires forall p :: both(p) == (scope(p) && marks(p))
    requires forall p :: scope(p) == scope(p.(status := OVERDUE))
    requires forall p :: value(p) == value(p.(status := OVERDUE))
    ensures SumOf(after, At(scope, place), value)
            == SumOf(before, At(scope, place), value)
               + (if place == Overdue then SumOf(before, both, value)
                  else if place == Pending then -SumOf(before, both, value) else 0)
  {
    if before == [] {
    } else {
      assert forall i :: 0 <= i < |before[1..]| ==> before[1..][i] == before[i + 1] && after[1..][i] == after[i + 1];
      SumOfMarked(before[1..], after[1..], scope, marks, both, place, value);
      assert value(after[0]) == value(before[0]) && scope(after[0]) == scope(before[0]);
    }
  }

  /** The rows of a summary that a sweep marks. */
  function Swept(w: Estate, rows: seq<Payment>, sweeper: Caller, today: int, scope: Payment -> bool): Payment -> bool {
    (p: Payment) => scope(p) && Sweeps(w, rows, sweeper, p.propertyId) && Lapsed(p, today)
  }

  /** A sweep moves exactly the balances and the heads of the lapsed rows in scope from pending to overdue. */
  lemma SweepMoves(w: Estate, rows: seq<Payment>, sweeper: Caller, today: int, caller: Caller, month: int, year: int,
                   propertyId: Option<string>, place: Place)
    ensures var before := MonthSummary(w, rows, caller, month, year, propertyId);
            var after := MonthSummary(w, Apply(w, rows, Sweep(sweeper, today)), caller, month, year, propertyId);
            var swept := Swept(w, rows, sweeper, today, Scope(w, caller, month, year, propertyId));
            var balances, heads := SumOf(rows, swept, Value(Pending)), SumOf(rows, swept, One);
            && TotalAt(after, place)
               == TotalAt(before, place)
                  + (if place == Overdue then balances else if place == Pending then -balances else 0)
            && CountAt(after, place)
               == CountAt(before, place) + (if place == Overdue then heads else if place == Pending then -heads else 0)
            && after.totalExpected == before.totalExpected
  {
    var scope := Scope(w, caller, month, year, propertyId);
    var swept := Swept(w, rows, sweeper, today, scope);
    var marks := (p: Payment) => Sweeps(w, rows, sweeper, p.propertyId) && Lapsed(p, today);
    var after := Apply(w, rows, Sweep(sweeper, today));
    FigureIsSum(w, rows, caller, month, year, propertyId, place);
    FigureIsSum(w, after, caller, month, year, propertyId, place);
    SumOfMarked(rows, after, scope, marks, swept, place, Value(place));
    SumOfMarked(rows, after, scope, marks, swept, place, One);
    if place != Collected {
      SumAgrees(rows, swept, Value(place), swept, Value(Pending));
    }
  }

  /** A row comes into a summary when it is live, of the month, of the property asked for if any, and of a
      property in the caller's reach. */
  lemma ScopeIs(w: Estate, caller: Caller, month: int, year: int, propertyId: Option<string>, p: Payment)
    ensures Scope(w, caller, month, year, propertyId)(p)
            <==> && !p.deleted && p.month == month && p.year == year
                 && (propertyId.Some? ==> propertyId.value == p.propertyId)
                 && (caller.Owner? || (caller.Manager? && p.propertyId in w.managers
                                       && w.managers[p.propertyId] == caller.id))
  {
  }

  /** A tenant counts as expected when it is active, of the property asked for if any, and in the caller's reach. */
  lemma ExpectedIs(w: Estate, rows: seq<Payment>, caller: Caller, month: int, year: int, propertyId: Option<string>,
                   expected: Tenant -> bool)
    requires forall t :: expected(t)
               <==> && t.active && (propertyId.Some? ==> propertyId.value == t.propertyId)
                    && (caller.Owner? || (caller.Manager? && t.propertyId in w.managers
                                          && w.managers[t.propertyId] == caller.id))
    ensures MonthSummary(w, rows, caller, month, year, propertyId).totalExpected
            == SumOf(w.tenants, expected, (t: Tenant) => t.monthlyRent)
  {
    SumAgrees(w.tenants, (t: Tenant) => RentsHere(w, caller, propertyId, t), (t: Tenant) => t.monthlyRent, expected,
              (t: Tenant) => t.monthlyRent);
  }

  /** Removing a row takes it out of every figure it was in. */
  lemma RemovingMoves(w: Estate, rows: seq<Payment>, op: Op, caller: Caller, month: int, year: int,
                      propertyId: Option<string>, place: Place)
    requires op.Remove? && MayRemove(w, rows, op.caller, op.id)
    ensures var before := MonthSummary(w, rows, caller, month, year, propertyId);
            var after := MonthSummary(w, Apply(w, rows, op), caller, month, year, propertyId);
            var p := rows[op.id];
            var there := InSummary(w, caller, month, year, propertyId, p) && PlaceOf(p) == place;
            && TotalAt(after, place) == TotalAt(before, place) - (if there then ValueAt(p, place) else 0)
            && CountAt(after, place) == CountAt(before, place) - (if there then 1 else 0)
  {
    var there := At(Scope(w, caller, month, year, propertyId), place);
    var after := Apply(w, rows, op);
    FigureIsSum(w, rows, caller, month, year, propertyId, place);
    FigureIsSum(w, after, caller, month, year, propertyId, place);
    SumOfReplace(rows, op.id, after[op.id], there, Value(place));
    SumOfReplace(rows, op.id, after[op.id], there, One);
  }

  /** Who may remove a live row: the owner, and the manager of the property its tenant rents at. */
  lemma MayRemoveIff(w: Estate, rows: seq<Payment>, caller: Caller, id: nat, t: Tenant)
    requires DistinctTenants(w) && id < |rows| && t in w.tenants && t.id == rows[id].tenantId
    ensures MayRemove(w, rows, caller, id)
            <==> && !rows[id].deleted
                 && (caller.Owner? || (caller.Manager? && t.propertyId in w.managers
                                       && w.managers[t.propertyId] == caller.id))
  {
    if other :| other in w.tenants && other.id == rows[id].tenantId && Manages(w, caller, other.propertyId) {
      var i :| 0 <= i < |w.tenants| && w.tenants[i] == other;
      var j :| 0 <= j < |w.tenants| && w.tenants[j] == t;
    }
  }
}
