/** Recording a payment once: the in-flight keys, the two duplicate checks, and how calls interleave. */
module PaymentReplay {
  import opened Wrappers
  import opened Calendar
  import opened Payments

  const REPLAY_WINDOW_MS := 1000
  const MAX_PAYMENT_AMOUNT := 9_999_999_999

  /** What a caller submits. An unreadable payment date is None. */
  datatype Request = Request(tenantId: string, amount: int, paymentDate: Option<int>, dueDate: int,
                             paymentMethod: Option<string>, reference: Option<string>)

  // ---- Keys ----

  predicate IsSpace(c: char) {
    || '\t' <= c <= '\r' || c == ' ' || c == '\U{A0}' || c == '\U{FEFF}' || c == '\U{1680}'
    || '\U{2000}' <= c <= '\U{200A}' || c == '\U{2028}' || c == '\U{2029}' || c == '\U{202F}'
    || c == '\U{205F}' || c == '\U{3000}'
  }

  function Trim(s: string): string {
    if s != "" && IsSpace(s[0]) then Trim(s[1..])
    else if s != "" && IsSpace(s[|s| - 1]) then Trim(s[..|s| - 1])
    else s
  }

  predicate HasReference(p: Payment) {
    p.transactionReference.Some? && p.transactionReference.value != ""
  }

  predicate HasNonblankReference(p: Payment) {
    p.transactionReference.Some? && Trim(p.transactionReference.value) != ""
  }

  /** How tenant, amount and date are spelled as one string; the results hold for any spelling. */
  type Spelling = (string, int, int) -> string

  function ReplayKey(spell: Spelling, p: Payment): string {
    if HasNonblankReference(p) then Trim(p.transactionReference.value)
    else spell(p.tenantId, p.amount, p.paymentDate)
  }

  // ---- The two checks ----

  predicate SameReference(p: Payment, stored: Payment) {
    !stored.deleted && HasReference(p) && stored.transactionReference == p.transactionReference
  }

  predicate WithinWindow(p: Payment, stored: Payment) {
    !stored.deleted && stored.tenantId == p.tenantId && stored.amount == p.amount
    && p.paymentDate - REPLAY_WINDOW_MS <= stored.paymentDate <= p.paymentDate + REPLAY_WINDOW_MS
  }

  predicate ReferenceTaken(table: seq<Payment>, p: Payment) {
    exists i :: 0 <= i < |table| && SameReference(p, table[i])
  }

  predicate RecentlyPaid(table: seq<Payment>, p: Payment) {
    exists i :: 0 <= i < |table| && WithinWindow(p, table[i])
  }

  /** Two submissions of one payment: the same nonblank reference, or no reference on either and the
      same tenant, amount and date. */
  predicate SameSubmission(a: Payment, b: Payment) {
    || (HasNonblankReference(a) && a.transactionReference == b.transactionReference)
    || (!HasReference(a) && !HasReference(b)
        && a.tenantId == b.tenantId && a.amount == b.amount && a.paymentDate == b.paymentDate)
  }

  // ---- One call on its own ----

  function FindTenant(tenants: seq<Tenant>, id: string): (found: Option<Tenant>)
    ensures found.Some? ==> found.value in tenants && found.value.id == id
    ensures found.None? ==> forall t :: t in tenants ==> t.id != id
  {
    if tenants == [] then None
    else if tenants[0].id == id then Some(tenants[0])
    else FindTenant(tenants[1..], id)
  }

  /** The refusals before any key is taken, in the order they are tried. */
  function Screen(w: Estate, request: Request, caller: Caller): Result<Payment> {
    if request.amount <= 0 then Err(BadRequest)
    else if request.amount > MAX_PAYMENT_AMOUNT then Err(BadRequest)
    else if request.paymentDate.None? then Err(BadRequest)
    else
      var tenant := FindTenant(w.tenants, request.tenantId);
      if tenant.None? then Err(NotFound)
      else if caller.Manager? && !Manages(w, caller, tenant.value.propertyId) then Err(Forbidden)
      else if caller.OtherRole? then Err(Forbidden)
      else
        var month := MonthOf(request.paymentDate.value / MS_PER_DAY);
        Ok(RecordedRow(tenant.value, request.amount, request.paymentDate.value, request.dueDate,
                       month % 12 + 1, month / 12, request.paymentMethod, request.reference))
  }

  // ---- Interleaved calls ----

  /** Where a call stands between two awaits. Saving: the insert has been asked for and the key given
      back, but the row is not in the table yet. */
  datatype Phase = Waiting | Admitted | ReferenceClear | DateClear | Saving | Saved | Refused

  datatype Call = Call(payment: Payment, phase: Phase)

  datatype State = State(calls: map<nat, Call>, inFlight: set<string>, table: seq<Payment>)

  datatype Action = Start(call: nat) | CheckReference(call: nat) | CheckDate(call: nat) | CallSave(call: nat)
                  | Settle(call: nat) | Fail(call: nat)

  predicate Holds(c: Call) {
    c.phase == Admitted || c.phase == ReferenceClear || c.phase == DateClear
  }

  function MoveTo(s: State, call: nat, phase: Phase): map<nat, Call>
    requires call in s.calls
  {
    s.calls[call := s.calls[call].(phase := phase)]
  }

  /** Leaving through the `finally` block. */
  function Release(spell: Spelling, s: State, call: nat, phase: Phase): State
    requires call in s.calls
  {
    s.(calls := MoveTo(s, call, phase), inFlight := s.inFlight - {ReplayKey(spell, s.calls[call].payment)})
  }

  /** One step of one call. With `prompt`, a save takes effect when it is called; without, when it settles. */
  function Step(spell: Spelling, prompt: bool, s: State, a: Action): State {
    if a.call !in s.calls then s else
      var c := s.calls[a.call];
      match a
      case Start(_) =>
        if c.phase != Waiting then s
        else if ReplayKey(spell, c.payment) in s.inFlight then s.(calls := MoveTo(s, a.call, Refused))
        else s.(calls := MoveTo(s, a.call, Admitted), inFlight := s.inFlight + {ReplayKey(spell, c.payment)})
      case CheckReference(_) =>
        if c.phase != Admitted then s
        else if ReferenceTaken(s.table, c.payment) then Release(spell, s, a.call, Refused)
        else s.(calls := MoveTo(s, a.call, ReferenceClear))
      case CheckDate(_) =>
        if c.phase != ReferenceClear then s
        else if RecentlyPaid(s.table, c.payment) then Release(spell, s, a.call, Refused)
        else s.(calls := MoveTo(s, a.call, DateClear))
      case CallSave(_) =>
        if c.phase != DateClear then s
        else if prompt then Release(spell, s, a.call, Saved).(table := s.table + [c.payment])
        else Release(spell, s, a.call, Saving)
      case Settle(_) =>
        if c.phase != Saving then s
        else s.(calls := MoveTo(s, a.call, Saved), table := s.table + [c.payment])
      case Fail(_) =>
        if Holds(c) then Release(spell, s, a.call, Refused)
        else if c.phase == Saving then s.(calls := MoveTo(s, a.call, Refused))
        else s
  }

  function RunCalls(spell: Spelling, prompt: bool, s: State, actions: seq<Action>): State
    decreases |actions|
  {
    if actions == [] then s else RunCalls(spell, prompt, Step(spell, prompt, s, actions[0]), actions[1..])
  }

  /** Calls that have not begun, with live payments to insert, and no key taken. */
  ghost predicate Initial(s: State) {
    s.inFlight == {} && forall k :: k in s.calls ==> s.calls[k].phase == Waiting && !s.calls[k].payment.deleted
  }

  // ---- Keys are held by one call and always given back ----

  /** The keys in flight are exactly those of the calls between entry and exit, no two alike. */
  ghost predicate KeysHeld(spell: Spelling, s: State) {
    && (forall k :: k in s.calls && Holds(s.calls[k]) ==> ReplayKey(spell, s.calls[k].payment) in s.inFlight)
    && (forall key :: key in s.inFlight ==>
          exists k :: k in s.calls && Holds(s.calls[k]) && ReplayKey(spell, s.calls[k].payment) == key)
    && (forall j, k :: j in s.calls && k in s.calls && j != k && Holds(s.calls[j]) && Holds(s.calls[k])
          ==> ReplayKey(spell, s.calls[j].payment) != ReplayKey(spell, s.calls[k].payment))
  }

  lemma AdmittingKeepsKeys(spell: Spelling, s: State, call: nat, key: string)
    requires KeysHeld(spell, s) && call in s.calls && !Holds(s.calls[call])
    requires key == ReplayKey(spell, s.calls[call].payment) && key !in s.inFlight
    ensures KeysHeld(spell, s.(calls := MoveTo(s, call, Admitted), inFlight := s.inFlight + {key}))
  {
    var next := s.(calls := MoveTo(s, call, Admitted), inFlight := s.inFlight + {key});
    assert Holds(next.calls[call]) && next.calls[call].payment == s.calls[call].payment;
    forall other | other in s.inFlight
      ensures exists k :: k in next.calls && Holds(next.calls[k]) && ReplayKey(spell, next.calls[k].payment) == other
    {
      var k :| k in s.calls && Holds(s.calls[k]) && ReplayKey(spell, s.calls[k].payment) == other;
      assert next.calls[k] == s.calls[k];
    }
  }

  lemma MovingKeepsKeys(spell: Spelling, s: State, call: nat, phase: Phase)
    requires KeysHeld(spell, s) && call in s.calls
    requires Holds(s.calls[call]) == Holds(s.calls[call].(phase := phase))
    ensures KeysHeld(spell, s.(calls := MoveTo(s, call, phase)))
  {
    var next := s.(calls := MoveTo(s, call, phase));
    forall key | key in next.inFlight
      ensures exists k :: k in next.calls && Holds(next.calls[k]) && ReplayKey(spell, next.calls[k].payment) == key
    {
      var k :| k in s.calls && Holds(s.calls[k]) && ReplayKey(spell, s.calls[k].payment) == key;
      assert Holds(next.calls[k]) && next.calls[k].payment == s.calls[k].payment;
    }
  }

  lemma ReleasingKeepsKeys(spell: Spelling, s: State, call: nat, phase: Phase)
    requires KeysHeld(spell, s) && call in s.calls && Holds(s.calls[call])
    requires !Holds(s.calls[call].(phase := phase))
    ensures KeysHeld(spell, Release(spell, s, call, phase))
  {
    var next := Release(spell, s, call, phase);
    forall key | key in next.inFlight
      ensures exists k :: k in next.calls && Holds(next.calls[k]) && ReplayKey(spell, next.calls[k].payment) == key
    {
      var k :| k in s.calls && Holds(s.calls[k]) && ReplayKey(spell, s.calls[k].payment) == key;
      assert k != call && next.calls[k] == s.calls[k];
    }
  }

  lemma StepKeepsKeys(spell: Spelling, prompt: bool, s: State, a: Action)
    requires KeysHeld(spell, s)
    ensures KeysHeld(spell, Step(spell, prompt, s, a))
  {
    var next := Step(spell, prompt, s, a);
    if next != s {
      var phase := next.calls[a.call].phase;
      match a
      case Start(_) =>
        if phase == Admitted {
          AdmittingKeepsKeys(spell, s, a.call, ReplayKey(spell, s.calls[a.call].payment));
        } else {
          MovingKeepsKeys(spell, s, a.call, Refused);
        }
      case Settle(_) => MovingKeepsKeys(spell, s, a.call, Saved);
      case CallSave(_) => ReleasingKeepsKeys(spell, s, a.call, phase);
      case _ =>
        if phase == Refused && Holds(s.calls[a.call]) {
          ReleasingKeepsKeys(spell, s, a.call, Refused);
        } else {
          MovingKeepsKeys(spell, s, a.call, phase);
        }
    }
  }

  lemma {:induction false} RunsKeepKeys(spell: Spelling, prompt: bool, s: State, actions: seq<Action>)
    requires KeysHeld(spell, s)
    ensures KeysHeld(spell, RunCalls(spell, prompt, s, actions))
    decreases |actions|
  {
    if actions == [] {
    } else {
      StepKeepsKeys(spell, prompt, s, actions[0]);
      RunsKeepKeys(spell, prompt, Step(spell, prompt, s, actions[0]), actions[1..]);
    }
  }

  // ---- When a payment is recorded twice ----

  /** A call past the check that guards its submission: the reference check when it has a nonblank
      reference, the date check when it has none. */
  predicate PastItsCheck(c: Call) {
    || c.phase == DateClear || c.phase == Saving || c.phase == Saved
    || (c.phase == ReferenceClear && HasNonblankReference(c.payment))
  }

  /** An action that takes a call through that check. */
  predicate TakesItsCheck(c: Call, a: Action) {
    if HasNonblankReference(c.payment) then a.CheckReference? && c.phase == Admitted
    else a.CheckDate? && c.phase == ReferenceClear
  }

  /** A call takes its check while call k is still saving the same submission. */
  predicate Overtakes(s: State, a: Action, k: nat) {
    && a.call in s.calls && k in s.calls && k != a.call && TakesItsCheck(s.calls[a.call], a)
    && s.calls[k].phase == Saving && SameSubmission(s.calls[a.call].payment, s.calls[k].payment)
  }

  /** The pairs of a run in which the first call overtook the second. */
  function Overtakings(spell: Spelling, prompt: bool, s: State, actions: seq<Action>): set<(nat, nat)>
    decreases |actions|
  {
    if actions == [] then {}
    else OvertakenBy(s, actions[0]) + Overtakings(spell, prompt, Step(spell, prompt, s, actions[0]), actions[1..])
  }

  function OvertakenBy(s: State, a: Action): set<(nat, nat)> {
    set k | k in s.calls && Overtakes(s, a, k) :: (a.call, k)
  }

  lemma SameSubmissionSameKey(spell: Spelling, a: Payment, b: Payment)
    requires SameSubmission(a, b)
    ensures ReplayKey(spell, a) == ReplayKey(spell, b)
    ensures SameSubmission(b, a)
    ensures HasNonblankReference(a) == HasNonblankReference(b)
  {
    assert Trim("") == "";
  }

  lemma CheckedIsNew(s: State, c: Call)
    requires !c.payment.deleted
    ensures HasNonblankReference(c.payment) && !ReferenceTaken(s.table, c.payment) ==>
              forall i :: 0 <= i < |s.table| && !s.table[i].deleted ==> !SameSubmission(c.payment, s.table[i])
    ensures !HasReference(c.payment) && !RecentlyPaid(s.table, c.payment) ==>
              forall i :: 0 <= i < |s.table| && !s.table[i].deleted ==> !SameSubmission(c.payment, s.table[i])
  {
    assert Trim("") == "";
  }

  /** A reference of spaces alone takes part in no submission. */
  lemma BlankReferences(p: Payment)
    ensures HasReference(p) && !HasNonblankReference(p) ==> forall q :: !SameSubmission(p, q) && !SameSubmission(q, p)
    ensures HasNonblankReference(p) ==> HasReference(p)
  {
    assert Trim("") == "";
  }

  // What every step keeps. The table is the rows up to `from` and then one row for each saved call.

  ghost predicate Live(s: State) {
    forall k :: k in s.calls ==> !s.calls[k].payment.deleted
  }

  /** The rows from a position on belong to the saved calls, in the order of `owners`. */
  ghost predicate Owned(s: State, from: nat, owners: seq<nat>) {
    && |s.table| == from + |owners|
    && (forall i :: 0 <= i < |owners| ==>
          && owners[i] in s.calls && s.calls[owners[i]].phase == Saved
          && s.table[from + i] == s.calls[owners[i]].payment)
    && (forall i, j :: 0 <= i < j < |owners| ==> owners[i] != owners[j])
    && (forall k :: k in s.calls && s.calls[k].phase == Saved ==> k in owners)
  }

  /** No call past its check repeats a live row from before the run. */
  ghost predicate EarlierRowsNew(s: State, from: nat) {
    forall k, i :: k in s.calls && PastItsCheck(s.calls[k]) && 0 <= i < from && i < |s.table| && !s.table[i].deleted
      ==> !SameSubmission(s.calls[k].payment, s.table[i])
  }

  /** Of two calls past their checks with one submission, one has overtaken the other. */
  ghost predicate PairsKnown(s: State, pairs: set<(nat, nat)>) {
    forall j, k :: j in s.calls && k in s.calls && j != k && PastItsCheck(s.calls[j]) && PastItsCheck(s.calls[k])
                   && SameSubmission(s.calls[j].payment, s.calls[k].payment)
      ==> (j, k) in pairs || (k, j) in pairs
  }

  /** A step touches no other call, and only a save touches the table. */
  lemma StepFrame(spell: Spelling, prompt: bool, s: State, a: Action)
    ensures var next := Step(spell, prompt, s, a);
            && next.calls.Keys == s.calls.Keys
            && (forall k :: k in s.calls && k != a.call ==> next.calls[k] == s.calls[k])
            && (a.call in s.calls ==> next.calls[a.call].payment == s.calls[a.call].payment)
            && (if a.call in s.calls && s.calls[a.call].phase != Saved && next.calls[a.call].phase == Saved
                then next.table == s.table + [s.calls[a.call].payment] else next.table == s.table)
            && (a.call in s.calls && s.calls[a.call].phase == Saved ==> next.calls[a.call].phase == Saved)
  {
  }

  /** Getting past its check, a call has taken it and found nothing in the table, with its key in hand. */
  lemma NewlyPast(spell: Spelling, prompt: bool, s: State, a: Action)
    requires a.call in s.calls && !s.calls[a.call].payment.deleted
    requires !PastItsCheck(s.calls[a.call]) && PastItsCheck(Step(spell, prompt, s, a).calls[a.call])
    ensures TakesItsCheck(s.calls[a.call], a) && Holds(s.calls[a.call])
    ensures forall i :: 0 <= i < |s.table| && !s.table[i].deleted
              ==> !SameSubmission(s.calls[a.call].payment, s.table[i])
  {
    CheckedIsNew(s, s.calls[a.call]);
    BlankReferences(s.calls[a.call].payment);
  }

  lemma StepKeepsOwned(spell: Spelling, prompt: bool, s: State, a: Action, from: nat, owners: seq<nat>)
    returns (after: seq<nat>)
    requires Owned(s, from, owners)
    ensures Owned(Step(spell, prompt, s, a), from, after)
  {
    StepFrame(spell, prompt, s, a);
    var next := Step(spell, prompt, s, a);
    after := if a.call in s.calls && s.calls[a.call].phase != Saved && next.calls[a.call].phase == Saved
             then owners + [a.call] else owners;
  }

  lemma StepKeepsEarlierRowsNew(spell: Spelling, prompt: bool, s: State, a: Action, from: nat)
    requires EarlierRowsNew(s, from) && Live(s) && from <= |s.table|
    ensures EarlierRowsNew(Step(spell, prompt, s, a), from)
  {
    StepFrame(spell, prompt, s, a);
    if a.call in s.calls && !PastItsCheck(s.calls[a.call]) && PastItsCheck(Step(spell, prompt, s, a).calls[a.call]) {
      NewlyPast(spell, prompt, s, a);
    }
  }

  /** Two calls of one submission cannot both hold their key; a saved one is in the table; so if a call
      gets past its check, every call of its submission past its own is still saving. */
  lemma OthersAreSaving(spell: Spelling, prompt: bool, s: State, a: Action, from: nat, owners: seq<nat>, k: nat)
    requires KeysHeld(spell, s) && Live(s) && Owned(s, from, owners)
    requires a.call in s.calls && k in s.calls && k != a.call
    requires !PastItsCheck(s.calls[a.call]) && PastItsCheck(Step(spell, prompt, s, a).calls[a.call])
    requires PastItsCheck(s.calls[k]) && SameSubmission(s.calls[a.call].payment, s.calls[k].payment)
    ensures Overtakes(s, a, k)
  {
    NewlyPast(spell, prompt, s, a);
    SameSubmissionSameKey(spell, s.calls[a.call].payment, s.calls[k].payment);
    if s.calls[k].phase == Saved {
      SavedIsNotNew(s, from, owners, k, s.calls[a.call].payment);
    }
  }

  lemma SavedIsNotNew(s: State, from: nat, owners: seq<nat>, k: nat, p: Payment)
    requires Live(s) && Owned(s, from, owners) && k in s.calls && s.calls[k].phase == Saved
    requires forall i :: 0 <= i < |s.table| && !s.table[i].deleted ==> !SameSubmission(p, s.table[i])
    ensures !SameSubmission(p, s.calls[k].payment)
  {
    var i :| 0 <= i < |owners| && owners[i] == k;
    assert s.table[from + i] == s.calls[k].payment;
  }

  lemma StepKeepsPairs(spell: Spelling, prompt: bool, s: State, a: Action, from: nat, owners: seq<nat>,
                       pairs: set<(nat, nat)>)
    requires KeysHeld(spell, s) && Live(s) && Owned(s, from, owners) && PairsKnown(s, pairs)
    ensures PairsKnown(Step(spell, prompt, s, a), pairs + OvertakenBy(s, a))
  {
    var next := Step(spell, prompt, s, a);
    StepFrame(spell, prompt, s, a);
    forall j, k | j in s.calls && k in s.calls && j != k && PastItsCheck(next.calls[j]) && PastItsCheck(next.calls[k])
                  && SameSubmission(next.calls[j].payment, next.calls[k].payment)
      ensures (j, k) in pairs + OvertakenBy(s, a) || (k, j) in pairs + OvertakenBy(s, a)
    {
      if j == a.call && !PastItsCheck(s.calls[j]) {
        OthersAreSaving(spell, prompt, s, a, from, owners, k);
      } else if k == a.call && !PastItsCheck(s.calls[k]) {
        SameSubmissionSameKey(spell, s.calls[j].payment, s.calls[k].payment);
        OthersAreSaving(spell, prompt, s, a, from, owners, j);
      }
    }
  }

  ghost predicate Tidy(spell: Spelling, s: State, from: nat, owners: seq<nat>, pairs: set<(nat, nat)>) {
    KeysHeld(spell, s) && Live(s) && Owned(s, from, owners) && EarlierRowsNew(s, from) && PairsKnown(s, pairs)
  }

  lemma StepKeepsTidy(spell: Spelling, prompt: bool, s: State, a: Action, from: nat, owners: seq<nat>,
                      pairs: set<(nat, nat)>)
    returns (after: seq<nat>)
    requires Tidy(spell, s, from, owners, pairs)
    ensures Tidy(spell, Step(spell, prompt, s, a), from, after, pairs + OvertakenBy(s, a))
  {
    StepKeepsKeys(spell, prompt, s, a);
    StepKeepsLive(spell, prompt, s, a);
    StepKeepsEarlierRowsNew(spell, prompt, s, a, from);
    StepKeepsPairs(spell, prompt, s, a, from, owners, pairs);
    after := StepKeepsOwned(spell, prompt, s, a, from, owners);
  }

  lemma StepKeepsLive(spell: Spelling, prompt: bool, s: State, a: Action)
    requires Live(s)
    ensures Live(Step(spell, prompt, s, a))
  {
    StepFrame(spell, prompt, s, a);
  }

  lemma UnionOfThree<T>(a: set<T>, b: set<T>, c: set<T>)
    ensures a + b + c == a + (b + c)
  {
  }

  /** Over a run: the saved calls own the rows, and one of any two with the same submission overtook the other. */
  lemma {:induction false} RunsKeepTidy(spell: Spelling, prompt: bool, s: State, actions: seq<Action>, from: nat,
                                        owners: seq<nat>, pairs: set<(nat, nat)>)
    returns (after: seq<nat>)
    requires Tidy(spell, s, from, owners, pairs)
    ensures Tidy(spell, RunCalls(spell, prompt, s, actions), from, after,
                 pairs + Overtakings(spell, prompt, s, actions))
    decreases |actions|
  {
    if actions == [] {
      after := owners;
      assert pairs + {} == pairs;
    } else {
      var now := OvertakenBy(s, actions[0]);
      var next := Step(spell, prompt, s, actions[0]);
      var owned := StepKeepsTidy(spell, prompt, s, actions[0], from, owners, pairs);
      after := RunsKeepTidy(spell, prompt, next, actions[1..], from, owned, pairs + now);
      UnionOfThree(pairs, now, Overtakings(spell, prompt, next, actions[1..]));
    }
  }

  /** Overtaking is between two calls of one submission. */
  lemma {:induction false} OvertakingsAreSame(spell: Spelling, prompt: bool, s: State, actions: seq<Action>,
                                              j: nat, k: nat)
    requires (j, k) in Overtakings(spell, prompt, s, actions)
    ensures var end := RunCalls(spell, prompt, s, actions);
            j != k && j in end.calls && k in end.calls && SameSubmission(end.calls[j].payment, end.calls[k].payment)
    decreases |actions|
  {
    var next := Step(spell, prompt, s, actions[0]);
    if (j, k) in OvertakenBy(s, actions[0]) {
      StepFrame(spell, prompt, s, actions[0]);
      PaymentsStay(spell, prompt, next, actions[1..], j);
      PaymentsStay(spell, prompt, next, actions[1..], k);
    } else {
      OvertakingsAreSame(spell, prompt, next, actions[1..], j, k);
    }
  }

  lemma {:induction false} PaymentsStay(spell: Spelling, prompt: bool, s: State, actions: seq<Action>, k: nat)
    requires k in s.calls
    ensures k in RunCalls(spell, prompt, s, actions).calls
    ensures RunCalls(spell, prompt, s, actions).calls[k].payment == s.calls[k].payment
    decreases |actions|
  {
    if actions == [] {
    } else {
      StepFrame(spell, prompt, s, actions[0]);
      PaymentsStay(spell, prompt, Step(spell, prompt, s, actions[0]), actions[1..], k);
    }
  }

  /** From a position on, no row repeats a live row before it. */
  ghost predicate NoRepeats(table: seq<Payment>, from: nat) {
    forall i, j :: 0 <= i < j < |table| && from <= j && !table[i].deleted ==> !SameSubmission(table[j], table[i])
  }

  /** A call overtook another and both have saved their row. */
  predicate BothSaved(end: State, pair: (nat, nat)) {
    && pair.0 in end.calls && end.calls[pair.0].phase == Saved
    && pair.1 in end.calls && end.calls[pair.1].phase == Saved
  }

  lemma SavedTwice(s: State, from: nat, owners: seq<nat>, j: nat, k: nat)
    requires Live(s) && Owned(s, from, owners) && j != k && BothSaved(s, (j, k))
    requires SameSubmission(s.calls[j].payment, s.calls[k].payment)
    requires SameSubmission(s.calls[k].payment, s.calls[j].payment)
    ensures !NoRepeats(s.table, from)
  {
    var a :| 0 <= a < |owners| && owners[a] == j;
    var b :| 0 <= b < |owners| && owners[b] == k;
    assert s.table[from + a] == s.calls[j].payment && s.table[from + b] == s.calls[k].payment;
  }

  lemma RepeatIsKnown(spell: Spelling, s: State, from: nat, owners: seq<nat>, pairs: set<(nat, nat)>)
    returns (pair: (nat, nat))
    requires Owned(s, from, owners) && EarlierRowsNew(s, from) && PairsKnown(s, pairs)
    requires !NoRepeats(s.table, from)
    ensures pair in pairs && BothSaved(s, pair)
  {
    var i, j :| 0 <= i < j < |s.table| && from <= j && !s.table[i].deleted && SameSubmission(s.table[j], s.table[i]);
    var second := owners[j - from];
    assert s.table[from + (j - from)] == s.calls[second].payment;
    if i >= from {
      var first := owners[i - from];
      assert s.table[from + (i - from)] == s.calls[first].payment;
      pair := if (second, first) in pairs then (second, first) else (first, second);
    } else {
      assert false;
    }
  }

  /** Which runs record a payment twice: from calls that have not begun, whether a save takes effect at
      once or later, the table repeats a submission exactly when some call took its check while another
      call was still saving the same submission and both of them have saved their row. */
  lemma RepeatsIffOvertaken(spell: Spelling, prompt: bool, s: State, actions: seq<Action>)
    requires Initial(s)
    ensures var end := RunCalls(spell, prompt, s, actions);
            !NoRepeats(end.table, |s.table|)
            <==> exists pair :: pair in Overtakings(spell, prompt, s, actions) && BothSaved(end, pair)
  {
    var end, pairs := RunCalls(spell, prompt, s, actions), Overtakings(spell, prompt, s, actions);
    var owners := RunsKeepTidy(spell, prompt, s, actions, |s.table|, [], {});
    assert {} + pairs == pairs;
    if pair :| pair in pairs && BothSaved(end, pair) {
      OvertakingsAreSame(spell, prompt, s, actions, pair.0, pair.1);
      SameSubmissionSameKey(spell, end.calls[pair.0].payment, end.calls[pair.1].payment);
      SavedTwice(end, |s.table|, owners, pair.0, pair.1);
    }
    if !NoRepeats(end.table, |s.table|) {
      var pair := RepeatIsKnown(spell, end, |s.table|, owners, pairs);
    }
  }

  lemma {:induction false} PromptSavesAreNotOvertaken(spell: Spelling, s: State, actions: seq<Action>)
    requires forall k :: k in s.calls ==> s.calls[k].phase != Saving
    ensures Overtakings(spell, true, s, actions) == {}
    decreases |actions|
  {
    if actions == [] {
    } else {
      PromptSavesAreNotOvertaken(spell, Step(spell, true, s, actions[0]), actions[1..]);
    }
  }

  /** When a save takes effect as it is called, every interleaving of any number of calls keeps one
      holder a key and inserts no submission a second time. */
  lemma PromptSavesNeverRepeat(spell: Spelling, s: State, actions: seq<Action>)
    requires Initial(s)
    ensures var end := RunCalls(spell, true, s, actions);
            KeysHeld(spell, end) && NoRepeats(end.table, |s.table|)
  {
    PromptSavesAreNotOvertaken(spell, s, actions);
    RunsKeepKeys(spell, true, s, actions);
    RepeatsIffOvertaken(spell, true, s, actions);
  }

  /** One way to get there: once a call has passed both checks while the same submission is still being
      saved, letting the two finish inserts it twice. */
  lemma OvertakingRepeats(spell: Spelling, s: State, first: nat, second: nat)
    requires first in s.calls && second in s.calls && first != second
    requires s.calls[first].phase == Saving && s.calls[second].phase == DateClear
    requires !s.calls[first].payment.deleted
    requires SameSubmission(s.calls[second].payment, s.calls[first].payment)
    ensures !NoRepeats(RunCalls(spell, false, s, [CallSave(second), Settle(first), Settle(second)]).table, |s.table|)
  {
    var a := Step(spell, false, s, CallSave(second));
    var b := Step(spell, false, a, Settle(first));
    var c := Step(spell, false, b, Settle(second));
    assert [CallSave(second), Settle(first), Settle(second)][1..] == [Settle(first), Settle(second)];
    assert [Settle(first), Settle(second)][1..] == [Settle(second)];
    assert RunCalls(spell, false, c, []) == c;
    assert RunCalls(spell, false, b, [Settle(second)]) == c;
    assert c.table[|s.table|] == s.calls[first].payment && c.table[|s.table| + 1] == s.calls[second].payment;
  }

  /** Two calls for one payment reach that state when the second starts after the first has given its
      key back and before its row is in the table. */
  lemma SecondCallCanOvertake(spell: Spelling, payment: Payment)
    requires !payment.deleted && SameSubmission(payment, payment)
    ensures Initial(TwoCalls(payment))
    ensures !NoRepeats(RunCalls(spell, false, RunCalls(spell, false, TwoCalls(payment), Overlap()),
                                [CallSave(2), Settle(1), Settle(2)]).table, 0)
  {
    OverlapReached(spell, payment);
    OvertakingRepeats(spell, RunCalls(spell, false, TwoCalls(payment), Overlap()), 1, 2);
  }

  function TwoCalls(payment: Payment): State {
    State(map[1 := Call(payment, Waiting), 2 := Call(payment, Waiting)], {}, [])
  }

  function Overlap(): seq<Action> {
    [Start(1), CheckReference(1), CheckDate(1)] + ([CallSave(1)] + [Start(2), CheckReference(2), CheckDate(2)])
  }

  lemma OverlapReached(spell: Spelling, payment: Payment)
    ensures var s := RunCalls(spell, false, TwoCalls(payment), Overlap());
            s.table == [] && s.calls == map[1 := Call(payment, Saving), 2 := Call(payment, DateClear)]
  {
    var s := TwoCalls(payment);
    ThreeChecks(spell, s, payment, 1);
    var s1 := State(s.calls[1 := Call(payment, DateClear)], {ReplayKey(spell, payment)}, []);
    var s2 := State(s.calls[1 := Call(payment, Saving)], {}, []);
    assert Step(spell, false, s1, CallSave(1)) == s2;
    assert RunCalls(spell, false, s1, [CallSave(1)]) == s2;
    ThreeChecks(spell, s2, payment, 2);
    RunsCompose(spell, s, [Start(1), CheckReference(1), CheckDate(1)],
                [CallSave(1)] + [Start(2), CheckReference(2), CheckDate(2)]);
    RunsCompose(spell, s1, [CallSave(1)], [Start(2), CheckReference(2), CheckDate(2)]);
  }

  lemma {:induction false} RunsCompose(spell: Spelling, s: State, a: seq<Action>, b: seq<Action>)
    ensures RunCalls(spell, false, s, a + b) == RunCalls(spell, false, RunCalls(spell, false, s, a), b)
    decreases |a|
  {
    if a == [] {
      assert a + b == b;
    } else {
      assert (a + b)[1..] == a[1..] + b;
      RunsCompose(spell, Step(spell, false, s, a[0]), a[1..], b);
    }
  }

  lemma ThreeChecks(spell: Spelling, s: State, payment: Payment, call: nat)
    requires s.table == [] && s.inFlight == {} && call in s.calls && s.calls[call] == Call(payment, Waiting)
    ensures RunCalls(spell, false, s, [Start(call), CheckReference(call), CheckDate(call)])
            == State(s.calls[call := Call(payment, DateClear)], {ReplayKey(spell, payment)}, [])
  {
    var a := Step(spell, false, s, Start(call));
    var b := Step(spell, false, a, CheckReference(call));
    var c := Step(spell, false, b, CheckDate(call));
    assert [Start(call), CheckReference(call), CheckDate(call)][1..] == [CheckReference(call), CheckDate(call)];
    assert [CheckReference(call), CheckDate(call)][1..] == [CheckDate(call)];
    assert RunCalls(spell, false, c, []) == c;
    assert RunCalls(spell, false, b, [CheckDate(call)]) == c;
  }

  /** An uninterrupted call of the service is the run of its own steps. */
  lemma UninterruptedRun(spell: Spelling, s: State, call: nat)
    requires call in s.calls && s.calls[call].phase == Waiting
    requires ReplayKey(spell, s.calls[call].payment) !in s.inFlight
    ensures var p := s.calls[call].payment;
            var end := RunCalls(spell, true, s, [Start(call), CheckReference(call), CheckDate(call), CallSave(call)]);
            && end.inFlight == s.inFlight
            && end.table == if ReferenceTaken(s.table, p) || RecentlyPaid(s.table, p) then s.table else s.table + [p]
  {
    var a := Step(spell, true, s, Start(call));
    var b := Step(spell, true, a, CheckReference(call));
    var c := Step(spell, true, b, CheckDate(call));
    var d := Step(spell, true, c, CallSave(call));
    assert [Start(call), CheckReference(call), CheckDate(call), CallSave(call)][1..]
           == [CheckReference(call), CheckDate(call), CallSave(call)];
    assert [CheckReference(call), CheckDate(call), CallSave(call)][1..] == [CheckDate(call), CallSave(call)];
    assert [CheckDate(call), CallSave(call)][1..] == [CallSave(call)];
    assert RunCalls(spell, true, d, []) == d;
    assert RunCalls(spell, true, c, [CallSave(call)]) == d;
    assert RunCalls(spell, true, b, [CheckDate(call), CallSave(call)]) == d;
  }

  // ---- What the screening, the keys and the checks come to ----

  predicate Readable(request: Request) {
    0 < request.amount <= 99_999_999_99 && request.paymentDate.Some?
  }

  predicate TenantListed(w: Estate, id: string) {
    exists t :: t in w.tenants && t.id == id
  }

  /** A submission passes exactly when its amount is positive and not too large, its date readable, its tenant
      listed, and the caller the owner or the manager of the tenant's property; it is refused for the first
      of these that fails. */
  lemma ScreenPassesIff(w: Estate, request: Request, caller: Caller, t: Tenant)
    requires DistinctTenants(w) && (TenantListed(w, request.tenantId) ==> t in w.tenants && t.id == request.tenantId)
    ensures var r := Screen(w, request, caller);
            var manages := caller.Manager? && t.propertyId in w.managers && w.managers[t.propertyId] == caller.id;
            && (r.Ok? <==> Readable(request) && TenantListed(w, request.tenantId) && (caller.Owner? || manages))
            && (r == Err(BadRequest) <==> !Readable(request))
            && (r == Err(NotFound) <==> Readable(request) && !TenantListed(w, request.tenantId))
            && (r.Err? ==> r == Err(BadRequest) || r == Err(NotFound) || r == Err(Forbidden))
  {
    FoundTenantIs(w, request.tenantId, t);
  }

  lemma FoundTenantIs(w: Estate, id: string, t: Tenant)
    requires DistinctTenants(w) && (TenantListed(w, id) ==> t in w.tenants && t.id == id)
    ensures FindTenant(w.tenants, id) == if TenantListed(w, id) then Some(t) else None
  {
    var found := FindTenant(w.tenants, id);
    if found.Some? {
      var i :| 0 <= i < |w.tenants| && w.tenants[i] == found.value;
      var j :| 0 <= j < |w.tenants| && w.tenants[j] == t;
    }
  }

  /** The row it gets: the tenant's, for the month its payment date falls in, with the rest of the rent as its
      balance. */
  lemma ScreenedRowIs(w: Estate, request: Request, caller: Caller, t: Tenant)
    requires DistinctTenants(w) && t in w.tenants && t.id == request.tenantId && Screen(w, request, caller).Ok?
    ensures var p := Screen(w, request, caller).value;
            && p.tenantId == t.id && p.propertyId == t.propertyId && p.amount == request.amount
            && Some(p.paymentDate) == request.paymentDate && p.dueDate == request.dueDate
            && 1 <= p.month <= 12 && MonthOf(p.paymentDate / MS_PER_DAY) == 12 * p.year + p.month - 1
            && p.paymentMethod == request.paymentMethod && p.transactionReference == request.reference && !p.deleted
            && p.remainingBalance == (if p.amount < t.monthlyRent then t.monthlyRent - p.amount else 0)
            && p.status == (if p.remainingBalance > 0 then PARTIAL else PAID)
            && (p.isPartialPayment <==> p.remainingBalance > 0)
  {
    assert TenantListed(w, request.tenantId);
    FoundTenantIs(w, request.tenantId, t);
    var month := MonthOf(request.paymentDate.value / MS_PER_DAY);
    assert month == 12 * (month / 12) + month % 12;
  }

  /** Trimming takes away spaces at both ends and nothing else, until neither end is a space. */
  lemma {:induction false} TrimIs(s: string) returns (i: nat, j: nat)
    ensures i <= j <= |s| && Trim(s) == s[i..j]
    ensures forall k :: 0 <= k < |s| && (k < i || j <= k) ==> IsSpace(s[k])
    ensures i == j || (!IsSpace(s[i]) && !IsSpace(s[j - 1]))
    decreases |s|
  {
    if s != "" && IsSpace(s[0]) {
      i, j := TrimIs(s[1..]);
      assert s[1..][i..j] == s[i + 1..j + 1];
      i, j := i + 1, j + 1;
    } else if s != "" && IsSpace(s[|s| - 1]) {
      i, j := TrimIs(s[..|s| - 1]);
      assert s[..|s| - 1][i..j] == s[i..j];
    } else {
      i, j := 0, |s|;
      assert s[0..|s|] == s;
    }
  }

  /** References share a key exactly when they are equal up to outer spaces; without a nonblank reference the
      key spells tenant, amount and date. */
  lemma KeysTellReferences(spell: Spelling, a: Payment, b: Payment)
    ensures HasNonblankReference(a) && HasNonblankReference(b) ==>
              (ReplayKey(spell, a) == ReplayKey(spell, b)
               <==> Trim(a.transactionReference.value) == Trim(b.transactionReference.value))
    ensures !HasNonblankReference(a) ==> ReplayKey(spell, a) == spell(a.tenantId, a.amount, a.paymentDate)
  {
  }

  /** A live row stops a submission exactly when it has the same nonempty reference, or the same tenant and
      amount and a payment date at most a second away. */
  lemma RowStops(table: seq<Payment>, stored: Payment, p: Payment)
    requires !stored.deleted
    ensures ReferenceTaken(table + [stored], p)
            <==> ReferenceTaken(table, p)
                 || (p.transactionReference.Some? && p.transactionReference.value != ""
                     && stored.transactionReference == p.transactionReference)
    ensures RecentlyPaid(table + [stored], p)
            <==> RecentlyPaid(table, p)
                 || (stored.tenantId == p.tenantId && stored.amount == p.amount
                     && stored.paymentDate - p.paymentDate <= 1000 && p.paymentDate - stored.paymentDate <= 1000)
  {
    var all := table + [stored];
    assert all[|table|] == stored && forall i :: 0 <= i < |table| ==> all[i] == table[i];
  }

  // ---- Entering and leaving ----

  /** A call enters exactly when its key is free, and takes it. */
  lemma EntryTakesKey(spell: Spelling, prompt: bool, s: State, call: nat)
    requires call in s.calls && s.calls[call].phase == Waiting
    ensures var key := ReplayKey(spell, s.calls[call].payment);
            var next := Step(spell, prompt, s, Start(call));
            && next.table == s.table
            && (if key in s.inFlight then next.calls[call].phase == Refused && next.inFlight == s.inFlight
                else next.calls[call].phase == Admitted && next.inFlight == s.inFlight + {key})
  {
  }

  /** Every way out gives the key back: a failure at any point, a check that finds a duplicate, and the save;
      after that the key is free for the next call. */
  lemma ExitsReleaseKey(spell: Spelling, prompt: bool, s: State, a: Action)
    requires KeysHeld(spell, s) && a.call in s.calls && Holds(s.calls[a.call])
    ensures var next := Step(spell, prompt, s, a);
            var key := ReplayKey(spell, s.calls[a.call].payment);
            && (Holds(next.calls[a.call]) <==> key in next.inFlight)
            && (a.Fail? || (a.CallSave? && s.calls[a.call].phase == DateClear) ==> key !in next.inFlight)
            && (a.Fail? ==> next.calls[a.call].phase == Refused && next.table == s.table)
            && (a.CheckReference? && s.calls[a.call].phase == Admitted ==>
                  (key in next.inFlight <==> !ReferenceTaken(s.table, s.calls[a.call].payment)))
            && (a.CheckDate? && s.calls[a.call].phase == ReferenceClear ==>
                  (key in next.inFlight <==> !RecentlyPaid(s.table, s.calls[a.call].payment)))
  {
  }

  /** A save under way ends in its row or in an error without one. */
  lemma SavesSettle(spell: Spelling, prompt: bool, s: State, call: nat)
    requires call in s.calls && s.calls[call].phase == Saving
    ensures var settled, failed := Step(spell, prompt, s, Settle(call)), Step(spell, prompt, s, Fail(call));
            && settled.calls[call].phase == Saved && settled.table == s.table + [s.calls[call].payment]
            && failed.calls[call].phase == Refused && failed.table == s.table
            && settled.inFlight == failed.inFlight == s.inFlight
  {
  }
}
