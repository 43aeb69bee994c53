/** What every run of the payment operations keeps true of a row. */
module PaymentLedger {
  import opened Wrappers
  import opened Calendar
  import opened Payments

  /** The balance tells the status: paid exactly when nothing remains, partial only with a partial
      payment on record, and a partial payment on record only while something remains. */
  predicate Consistent(p: Payment) {
    && p.remainingBalance >= 0
    && (p.status == PAID <==> p.remainingBalance == 0)
    && (p.status == PARTIAL ==> p.isPartialPayment)
    && (p.isPartialPayment ==> p.remainingBalance > 0)
  }

  ghost predicate AllConsistent(rows: seq<Payment>) {
    forall i :: 0 <= i < |rows| ==> Consistent(rows[i])
  }

  /** Partial payments are positive. */
  predicate Proper(op: Op) {
    op.Partial? ==> op.amount > 0
  }

  ghost predicate AllProper(ops: seq<Op>) {
    forall i :: 0 <= i < |ops| ==> Proper(ops[i])
  }

  ghost predicate PositiveRents(w: Estate) {
    forall t :: t in w.tenants ==> t.monthlyRent > 0
  }

  /** A recorded row is always consistent, and what was paid and what remains make up the rent unless more
      was paid; a generated row is consistent exactly when the rent is positive, because with no rent it is
      pending with nothing left to pay. */
  lemma NewRowsConsistent(t: Tenant, amount: int, paymentDate: int, dueDate: int, month: int, year: int,
                          paymentMethod: Option<string>, reference: Option<string>)
    ensures Consistent(RecordedRow(t, amount, paymentDate, dueDate, month, year, paymentMethod, reference))
    ensures Consistent(GeneratedRow(t, month, year)) <==> t.monthlyRent > 0
    ensures var p := RecordedRow(t, amount, paymentDate, dueDate, month, year, paymentMethod, reference);
            p.amount == amount && amount + p.remainingBalance == Max(t.monthlyRent, amount)
  {
  }

  lemma {:induction false} MissingRowsConsistent(w: Estate, rows: seq<Payment>, caller: Caller, month: int, year: int,
                                                 propertyId: Option<string>, n: nat)
    requires PositiveRents(w) && n <= |w.tenants|
    ensures AllConsistent(MissingRows(w, rows, caller, month, year, propertyId, n))
  {
    if n == 0 {
    } else {
      MissingRowsConsistent(w, rows, caller, month, year, propertyId, n - 1);
      assert w.tenants[n - 1] in w.tenants;
    }
  }

  /** One operation keeps every row consistent, keeps the table's rows in place and never takes a row
      out of PAID. */
  lemma StepKeepsLedger(w: Estate, rows: seq<Payment>, op: Op)
    requires AllConsistent(rows) && Proper(op) && PositiveRents(w)
    ensures AllConsistent(Apply(w, rows, op))
    ensures |rows| <= |Apply(w, rows, op)|
    ensures forall i :: 0 <= i < |rows| && rows[i].status == PAID ==> Apply(w, rows, op)[i].status == PAID
  {
    if op.Refresh? {
      MissingRowsConsistent(w, rows, op.caller, op.month, op.year, op.propertyId, |w.tenants|);
    }
  }

  /** Over any run of recorded, generated, settled, partly paid, swept and deleted rows. */
  lemma {:induction false} RunsKeepLedger(w: Estate, rows: seq<Payment>, ops: seq<Op>)
    requires AllConsistent(rows) && AllProper(ops) && PositiveRents(w)
    ensures AllConsistent(Run(w, rows, ops))
    ensures |rows| <= |Run(w, rows, ops)|
    ensures forall i :: 0 <= i < |rows| && rows[i].status == PAID ==> Run(w, rows, ops)[i].status == PAID
    decreases |ops|
  {
    if ops == [] {
    } else {
      StepKeepsLedger(w, rows, ops[0]);
      RunsKeepLedger(w, Apply(w, rows, ops[0]), ops[1..]);
    }
  }

  // ---- Partial payments add up ----

  function Sum(amounts: seq<int>): int {
    if amounts == [] then 0 else amounts[0] + Sum(amounts[1..])
  }

  /** The operations a row meets while it is being paid off: partial payments and sweeps. */
  predicate PaysOrSweeps(op: Op) {
    op.Partial? || op.Sweep? || op.Refresh?
  }

  /** The partial payments that reach a row, in the order they arrive. */
  function Received(w: Estate, rows: seq<Payment>, ops: seq<Op>, id: nat): seq<int>
    decreases |ops|
  {
    if ops == [] then []
    else
      (if ops[0].Partial? && ops[0].id == id && Reaches(w, rows, ops[0].caller, id) then [ops[0].amount] else [])
      + Received(w, Apply(w, rows, ops[0]), ops[1..], id)
  }

  /** What receiving a total does to a row. */
  predicate PaidOffBy(before: Payment, after: Payment, total: int) {
    && after.amount == before.amount + total
    && after.remainingBalance == Max(0, before.remainingBalance - total)
    && (after.status == PAID <==> before.remainingBalance <= total)
    && total >= 0
  }

  /** However partial payments and sweeps interleave, the row's amount grows by their sum and its
      balance falls by it, stopping at zero. */
  lemma {:induction false} PartialsAddUp(w: Estate, rows: seq<Payment>, ops: seq<Op>, id: nat)
    requires id < |rows| && Consistent(rows[id]) && AllProper(ops)
    requires forall i :: 0 <= i < |ops| ==> PaysOrSweeps(ops[i])
    ensures id < |Run(w, rows, ops)|
    ensures PaidOffBy(rows[id], Run(w, rows, ops)[id], Sum(Received(w, rows, ops, id)))
    decreases |ops|
  {
    if ops == [] {
    } else {
      var next := Apply(w, rows, ops[0]);
      var received := if ops[0].Partial? && ops[0].id == id && Reaches(w, rows, ops[0].caller, id)
                      then [ops[0].amount] else [];
      RowStep(w, rows, ops[0], id);
      PartialsAddUp(w, next, ops[1..], id);
      SumAppends(received, Received(w, next, ops[1..], id));
    }
  }

  lemma RowStep(w: Estate, rows: seq<Payment>, op: Op, id: nat)
    requires id < |rows| && Consistent(rows[id]) && Proper(op) && PaysOrSweeps(op)
    ensures var next := Apply(w, rows, op);
            var paid := if op.Partial? && op.id == id && Reaches(w, rows, op.caller, id) then op.amount else 0;
            && id < |next| && Consistent(next[id])
            && next[id].amount == rows[id].amount + paid
            && next[id].remainingBalance == Max(0, rows[id].remainingBalance - paid)
  {
  }

  lemma SumAppends(a: seq<int>, b: seq<int>)
    requires |a| <= 1
    ensures Sum(a + b) == Sum(a) + Sum(b)
  {
    if a != [] {
      assert (a + b)[1..] == b;
    } else {
      assert a + b == b;
    }
  }

  lemma {:induction false} SumWithout(amounts: seq<int>, i: nat)
    requires i < |amounts|
    ensures Sum(amounts) == amounts[i] + Sum(amounts[..i] + amounts[i + 1..])
  {
    if i > 0 {
      SumWithout(amounts[1..], i - 1);
      assert amounts[1..][..i - 1] + amounts[1..][i..] == (amounts[..i] + amounts[i + 1..])[1..];
    } else {
      assert amounts[..0] + amounts[1..] == amounts[1..];
    }
  }

  lemma MultisetWithout(amounts: seq<int>, i: nat)
    requires i < |amounts|
    ensures multiset(amounts[..i] + amounts[i + 1..]) == multiset(amounts) - multiset{amounts[i]}
  {
    assert amounts == amounts[..i] + [amounts[i]] + amounts[i + 1..];
  }

  lemma {:induction false} SumIgnoresOrder(a: seq<int>, b: seq<int>)
    requires multiset(a) == multiset(b)
    ensures Sum(a) == Sum(b)
    decreases |a|
  {
    if a == [] {
      assert |multiset(b)| == 0;
    } else {
      assert a[0] in multiset(b);
      var i :| 0 <= i < |b| && b[i] == a[0];
      var rest := b[..i] + b[i + 1..];
      SumWithout(b, i);
      MultisetWithout(a, 0);
      MultisetWithout(b, i);
      assert a[..0] + a[0 + 1..] == a[1..];
      SumIgnoresOrder(a[1..], rest);
    }
  }

  /** Two runs that deliver the same partial payments, in any order and with any sweeps between them,
      leave the row with the same amount and balance, and agree on whether it is paid. */
  lemma {:induction false} PartialsInAnyOrder(w: Estate, rows: seq<Payment>, ops1: seq<Op>, ops2: seq<Op>, id: nat)
    requires id < |rows| && Consistent(rows[id]) && AllProper(ops1) && AllProper(ops2)
    requires forall i :: 0 <= i < |ops1| ==> PaysOrSweeps(ops1[i])
    requires forall i :: 0 <= i < |ops2| ==> PaysOrSweeps(ops2[i])
    requires multiset(Received(w, rows, ops1, id)) == multiset(Received(w, rows, ops2, id))
    ensures id < |Run(w, rows, ops1)| && id < |Run(w, rows, ops2)|
    ensures PaidOffBy(rows[id], Run(w, rows, ops1)[id], Sum(Received(w, rows, ops2, id)))
    ensures PaidOffBy(rows[id], Run(w, rows, ops2)[id], Sum(Received(w, rows, ops2, id)))
  {
    PartialsAddUp(w, rows, ops1, id);
    PartialsAddUp(w, rows, ops2, id);
    SumIgnoresOrder(Received(w, rows, ops1, id), Received(w, rows, ops2, id));
  }
}
