/** How many reminders an account gets in a month, however many sweeps run on each day. */
module ReminderMonths {
  import opened Wrappers
  import opened Calendar
  import opened DedupeKeys
  import opened FiniteSets
  import opened Reminders

  // ---- Runs of sweeps ----

  /** What one sweep finds due, account by account. */
  type Plans = seq<seq<LogRow>>

  /** The log after the first n sweeps. */
  function Run(log: seq<LogRow>, sweeps: seq<Plans>, n: nat): seq<LogRow>
    requires n <= |sweeps|
  {
    if n == 0 then log else Swept(Run(log, sweeps, n - 1), sweeps[n - 1], |sweeps[n - 1]|)
  }

  function SweepsOf(inputs: seq<Input>): (sweeps: seq<Plans>)
    ensures |sweeps| == |inputs|
  {
    seq(|inputs|, i requires 0 <= i < |inputs| => PlansOf(inputs[i]))
  }

  function RowsOf(log: seq<LogRow>): set<LogRow> {
    set row | row in log
  }

  function PlanRows(plans: Plans, n: nat): set<LogRow>
    requires n <= |plans|
  {
    if n == 0 then {} else PlanRows(plans, n - 1) + RowsOf(plans[n - 1])
  }

  /** Every message the first n sweeps found due, sent before or not. */
  function Planned(sweeps: seq<Plans>, n: nat): set<LogRow>
    requires n <= |sweeps|
  {
    if n == 0 then {} else Planned(sweeps, n - 1) + PlanRows(sweeps[n - 1], |sweeps[n - 1]|)
  }

  // ---- The log is the union of everything that was ever due ----

  /** Keys tell the rows of a set apart. */
  ghost predicate Telling(rows: set<LogRow>) {
    forall a, b :: a in rows && b in rows && a.dedupeKey == b.dedupeKey ==> a == b
  }

  ghost predicate DistinctRows(log: seq<LogRow>) {
    forall i, j :: 0 <= i < j < |log| ==> log[i] != log[j]
  }

  lemma KeyTakenIsLogged(all: set<LogRow>, log: seq<LogRow>, row: LogRow)
    requires Telling(all) && RowsOf(log) <= all && row in all
    ensures KeyTaken(log, row.dedupeKey) <==> row in log
  {
    if KeyTaken(log, row.dedupeKey) {
      var i :| 0 <= i < |log| && log[i].dedupeKey == row.dedupeKey;
      assert log[i] in RowsOf(log);
    }
  }

  lemma RowsOfOneMore(log: seq<LogRow>, row: LogRow)
    ensures RowsOf(log + [row]) == RowsOf(log) + {row}
  {
  }

  lemma {:induction false} DispatchedRows(all: set<LogRow>, log: seq<LogRow>, messages: seq<LogRow>, n: nat)
    requires n <= |messages| && Telling(all) && RowsOf(log) <= all && RowsOf(messages) <= all
    ensures RowsOf(Dispatched(log, messages, n)) == RowsOf(log) + RowsOf(messages[..n])
  {
    if n == 0 {
      assert RowsOf(messages[..0]) == {};
    } else {
      var before, row := Dispatched(log, messages, n - 1), messages[n - 1];
      DispatchedRows(all, log, messages, n - 1);
      assert messages[..n] == messages[..n - 1] + [row];
      RowsOfOneMore(messages[..n - 1], row);
      RowsOfOneMore(before, row);
      assert row in RowsOf(messages);
      assert RowsOf(messages[..n - 1]) <= RowsOf(messages);
      KeyTakenIsLogged(all, before, row);
      assert row in RowsOf(before) <==> row in before;
    }
  }

  lemma {:induction false} DispatchedDistinct(log: seq<LogRow>, messages: seq<LogRow>, n: nat)
    requires n <= |messages| && DistinctRows(log)
    ensures DistinctRows(Dispatched(log, messages, n))
  {
    if n == 0 {
    } else {
      DispatchedDistinct(log, messages, n - 1);
    }
  }

  lemma {:induction false} SweptRows(all: set<LogRow>, log: seq<LogRow>, plans: Plans, n: nat)
    requires n <= |plans| && Telling(all) && RowsOf(log) <= all && PlanRows(plans, n) <= all
    ensures RowsOf(Swept(log, plans, n)) == RowsOf(log) + PlanRows(plans, n)
  {
    if n == 0 {
    } else {
      SweptRows(all, log, plans, n - 1);
      var plan := plans[n - 1];
      DispatchedRows(all, Swept(log, plans, n - 1), plan, |plan|);
      assert plan[..|plan|] == plan;
    }
  }

  lemma {:induction false} SweptDistinct(log: seq<LogRow>, plans: Plans, n: nat)
    requires n <= |plans| && DistinctRows(log)
    ensures DistinctRows(Swept(log, plans, n))
  {
    if n == 0 {
    } else {
      SweptDistinct(log, plans, n - 1);
      DispatchedDistinct(Swept(log, plans, n - 1), plans[n - 1], |plans[n - 1]|);
    }
  }

  /** However the sweeps fall, the log ends up with what it had and what was ever due. */
  lemma {:induction false} RunIsUnion(all: set<LogRow>, log: seq<LogRow>, sweeps: seq<Plans>, n: nat)
    requires n <= |sweeps| && Telling(all) && RowsOf(log) <= all && Planned(sweeps, n) <= all
    ensures RowsOf(Run(log, sweeps, n)) == RowsOf(log) + Planned(sweeps, n)
  {
    if n == 0 {
    } else {
      RunIsUnion(all, log, sweeps, n - 1);
      SweptRows(all, Run(log, sweeps, n - 1), sweeps[n - 1], |sweeps[n - 1]|);
    }
  }

  lemma {:induction false} RunDistinct(log: seq<LogRow>, sweeps: seq<Plans>, n: nat)
    requires n <= |sweeps| && DistinctRows(log)
    ensures DistinctRows(Run(log, sweeps, n))
  {
    if n == 0 {
    } else {
      RunDistinct(log, sweeps, n - 1);
      SweptDistinct(Run(log, sweeps, n - 1), sweeps[n - 1], |sweeps[n - 1]|);
    }
  }

  // ---- Rows whose key spells what they say ----

  predicate Genuine(row: LogRow) {
    && ColonFree(row.accountId) && InIsoRange(row.dueDate)
    && row.dedupeKey == Key(row.accountId, row.dueDate, row.reminderType, row.channel)
  }

  ghost predicate AllGenuine(rows: set<LogRow>) {
    forall row :: row in rows ==> Genuine(row)
  }

  lemma GenuineRowsTell(rows: set<LogRow>)
    requires AllGenuine(rows)
    ensures Telling(rows)
  {
    forall a, b | a in rows && b in rows && a.dedupeKey == b.dedupeKey ensures a == b {
      SameKeySameRow(a, b);
    }
  }

  lemma SameKeySameRow(a: LogRow, b: LogRow)
    requires Genuine(a) && Genuine(b) && a.dedupeKey == b.dedupeKey
    ensures a == b
  {
    KeyInjective(a.accountId, a.dueDate, a.reminderType, a.channel, b.accountId, b.dueDate, b.reminderType, b.channel);
  }

  /** Account ids are colon-free, as UUIDs are, and no two accounts share one. */
  ghost predicate ProperIds(accounts: seq<Account>) {
    && (forall i :: 0 <= i < |accounts| ==> ColonFree(accounts[i].id))
    && (forall i, j :: 0 <= i < j < |accounts| ==> accounts[i].id != accounts[j].id)
  }

  ghost predicate ProperInputs(inputs: seq<Input>) {
    forall i :: 0 <= i < |inputs| ==> ProperIds(inputs[i].accounts)
  }

  /** The messages of an account are its own, for a day of the month the sweep read. */
  lemma PlanIsGenuine(input: Input, account: Account, row: LogRow)
    requires ColonFree(account.id) && row in Plan(input, account)
    ensures Genuine(row) && row.accountId == account.id && MonthOf(row.dueDate) == input.month
  {
    DueDateStaysInMonth(input.month / 12, input.month % 12 + 1, account.rentDueDay.value);
    assert input.month == 12 * (input.month / 12) + input.month % 12;
  }

  lemma {:induction false} InPlanRows(plans: Plans, n: nat, row: LogRow)
    requires n <= |plans|
    ensures row in PlanRows(plans, n) <==> exists i :: 0 <= i < n && row in plans[i]
  {
    if n == 0 {
    } else {
      InPlanRows(plans, n - 1, row);
    }
  }

  lemma {:induction false} InPlanned(sweeps: seq<Plans>, n: nat, row: LogRow)
    requires n <= |sweeps|
    ensures row in Planned(sweeps, n) <==> exists i :: 0 <= i < n && row in PlanRows(sweeps[i], |sweeps[i]|)
  {
    if n == 0 {
    } else {
      InPlanned(sweeps, n - 1, row);
    }
  }

  lemma PlannedIsGenuine(inputs: seq<Input>, sweeps: seq<Plans>, row: LogRow)
    requires ProperInputs(inputs) && sweeps == SweepsOf(inputs) && row in Planned(sweeps, |sweeps|)
    ensures Genuine(row)
  {
    InPlanned(sweeps, |sweeps|, row);
    var i :| 0 <= i < |sweeps| && row in PlanRows(sweeps[i], |sweeps[i]|);
    InPlanRows(sweeps[i], |sweeps[i]|, row);
    var j :| 0 <= j < |sweeps[i]| && row in sweeps[i][j];
    PlanIsGenuine(inputs[i], inputs[i].accounts[j], row);
  }

  lemma {:induction false} RunsTell(log: seq<LogRow>, inputs: seq<Input>)
    requires ProperInputs(inputs) && AllGenuine(RowsOf(log))
    ensures Telling(RowsOf(log) + Planned(SweepsOf(inputs), |inputs|))
  {
    var all := RowsOf(log) + Planned(SweepsOf(inputs), |inputs|);
    forall row | row in all ensures Genuine(row) {
      if row !in RowsOf(log) {
        PlannedIsGenuine(inputs, SweepsOf(inputs), row);
      }
    }
    GenuineRowsTell(all);
  }

  /** A log of genuine rows, no two alike, stays one; so no key is ever logged twice. */
  lemma {:induction false} RunsStayGenuine(log: seq<LogRow>, inputs: seq<Input>)
    requires ProperInputs(inputs) && AllGenuine(RowsOf(log)) && DistinctRows(log)
    ensures var after := Run(log, SweepsOf(inputs), |inputs|);
            && AllGenuine(RowsOf(after)) && DistinctRows(after)
            && forall i, j :: 0 <= i < j < |after| ==> after[i].dedupeKey != after[j].dedupeKey
  {
    var sweeps := SweepsOf(inputs);
    var after, all := Run(log, sweeps, |inputs|), RowsOf(log) + Planned(sweeps, |inputs|);
    RunsTell(log, inputs);
    RunIsUnion(all, log, sweeps, |inputs|);
    RunDistinct(log, sweeps, |inputs|);
    forall row | row in RowsOf(after) ensures Genuine(row) {
      if row !in RowsOf(log) {
        PlannedIsGenuine(inputs, sweeps, row);
      }
    }
    DistinctKeys(after, all);
  }

  lemma DistinctKeys(log: seq<LogRow>, all: set<LogRow>)
    requires Telling(all) && RowsOf(log) == all && DistinctRows(log)
    ensures forall i, j :: 0 <= i < j < |log| ==> log[i].dedupeKey != log[j].dedupeKey
  {
    forall i, j | 0 <= i < j < |log| ensures log[i].dedupeKey != log[j].dedupeKey {
      assert log[i] in RowsOf(log) && log[j] in RowsOf(log);
    }
  }

  // ---- The rows of one account for one due date ----

  predicate IsFor(row: LogRow, id: string, due: int) {
    row.accountId == id && row.dueDate == due
  }

  /** How many rows of a log are for an account and a due date. */
  function CountFor(log: seq<LogRow>, id: string, due: int): nat {
    if log == [] then 0
    else CountFor(log[..|log| - 1], id, due) + if IsFor(log[|log| - 1], id, due) then 1 else 0
  }

  function Own(rows: set<LogRow>, id: string, due: int): set<LogRow> {
    set row | row in rows && IsFor(row, id, due)
  }

  lemma OwnOneMore(rows: set<LogRow>, row: LogRow, id: string, due: int)
    requires row !in rows
    ensures |Own(rows + {row}, id, due)| == |Own(rows, id, due)| + if IsFor(row, id, due) then 1 else 0
  {
    var own := Own(rows, id, due);
    assert Own(rows + {row}, id, due) == if IsFor(row, id, due) then own + {row} else own;
  }

  lemma {:induction false} CountIsOwn(log: seq<LogRow>, id: string, due: int)
    requires DistinctRows(log)
    ensures CountFor(log, id, due) == |Own(RowsOf(log), id, due)|
  {
    if log == [] {
      assert Own(RowsOf(log), id, due) == {};
    } else {
      var init, last := log[..|log| - 1], log[|log| - 1];
      CountIsOwn(init, id, due);
      assert log == init + [last] && last !in init;
      RowsOfOneMore(init, last);
      OwnOneMore(RowsOf(init), last, id, due);
    }
  }

  /** The reminders of an account for one due date: its offsets, channels and the date. */
  datatype Rent = Rent(id: string, month: IsoMonth, dueDay: int, settings: Settings, hasEmail: bool) {
    function Due(): IsoDay {
      DueDateOf(month, dueDay)
    }

    predicate Calls(day: int) {
      GetReminderType(Due() - day, settings).Some?
    }

    function Rows(day: int): set<LogRow> {
      match GetReminderType(Due() - day, settings)
      case None => {}
      case Some(t) => RowsOf(Messages(id, Due(), t, Channels(settings, hasEmail)))
    }
  }

  /** The account keeps its settings in a sweep of the month and has not paid. */
  ghost predicate Keeps(input: Input, account: Account, rent: Rent) {
    && account.id == rent.id
    && account.user == Some(TenantUser(true, true, rent.hasEmail))
    && account.rentDueDay == Some(rent.dueDay)
    && SettingsFor(input, account) == rent.settings
    && (rent.settings.pushEnabled || rent.settings.emailEnabled)
    && (account.tenantId in LatestPaid(input.payments) ==> !LatestPaid(input.payments)[account.tenantId])
  }

  /** A sweep of the month finds the account among the active ones. */
  ghost predicate Steady(input: Input, rent: Rent) {
    exists a :: 0 <= a < |input.accounts| && Keeps(input, input.accounts[a], rent)
  }

  lemma SteadyPlan(input: Input, account: Account, rent: Rent)
    requires input.month == rent.month && Keeps(input, account, rent)
    ensures RowsOf(Plan(input, account)) == rent.Rows(input.today)
  {
  }

  lemma DueIsInMonth(rent: Rent)
    ensures MonthOf(rent.Due()) == rent.month
  {
    DueDateStaysInMonth(rent.month / 12, rent.month % 12 + 1, rent.dueDay);
    assert rent.month == 12 * (rent.month / 12) + rent.month % 12;
  }

  lemma OwnIsPlanned(input: Input, rent: Rent, row: LogRow)
    requires ProperIds(input.accounts) && (input.month == rent.month ==> Steady(input, rent))
    requires row in Own(PlanRows(PlansOf(input), |PlansOf(input)|), rent.id, rent.Due())
    ensures input.month == rent.month && row in rent.Rows(input.today)
  {
    var plans := PlansOf(input);
    DueIsInMonth(rent);
    InPlanRows(plans, |plans|, row);
    var i :| 0 <= i < |plans| && row in plans[i];
    PlanIsGenuine(input, input.accounts[i], row);
    var a :| 0 <= a < |input.accounts| && Keeps(input, input.accounts[a], rent);
    assert i == a;
    SteadyPlan(input, input.accounts[a], rent);
    assert row in RowsOf(plans[i]);
  }

  /** A sweep of the month plans the account's messages of that day; one of another month plans none for
      this due date. */
  lemma OwnOfSweep(input: Input, rent: Rent, row: LogRow)
    requires ProperIds(input.accounts) && (input.month == rent.month ==> Steady(input, rent))
    ensures row in Own(PlanRows(PlansOf(input), |PlansOf(input)|), rent.id, rent.Due())
            <==> input.month == rent.month && row in rent.Rows(input.today)
  {
    var plans := PlansOf(input);
    if row in Own(PlanRows(plans, |plans|), rent.id, rent.Due()) {
      OwnIsPlanned(input, rent, row);
    } else if input.month == rent.month && row in rent.Rows(input.today) {
      var a :| 0 <= a < |input.accounts| && Keeps(input, input.accounts[a], rent);
      SteadyPlan(input, input.accounts[a], rent);
      assert row in plans[a];
      InPlanRows(plans, |plans|, row);
    }
  }

  /** The days on which a sweep that read the month looked for reminders. */
  function Visited(inputs: seq<Input>, n: nat, month: int): set<int>
    requires n <= |inputs|
  {
    if n == 0 then {}
    else Visited(inputs, n - 1, month) + if inputs[n - 1].month == month then {inputs[n - 1].today} else {}
  }

  /** The account keeps its settings and does not pay in any sweep of the month. */
  ghost predicate SteadyRun(inputs: seq<Input>, rent: Rent) {
    forall i :: 0 <= i < |inputs| && inputs[i].month == rent.month ==> Steady(inputs[i], rent)
  }

  lemma {:induction false} OwnOfRun(inputs: seq<Input>, sweeps: seq<Plans>, n: nat, id: string, due: int, month: int,
                                    rows: int -> set<LogRow>, row: LogRow)
    requires n <= |inputs| == |sweeps|
    requires forall i :: 0 <= i < n ==>
      (row in Own(PlanRows(sweeps[i], |sweeps[i]|), id, due)
       <==> inputs[i].month == month && row in rows(inputs[i].today))
    ensures row in Own(Planned(sweeps, n), id, due)
            <==> exists day :: day in Visited(inputs, n, month) && row in rows(day)
  {
    if n == 0 {
    } else {
      OwnOfRun(inputs, sweeps, n - 1, id, due, month, rows, row);
      var today := inputs[n - 1].today;
      if inputs[n - 1].month == month && row in rows(today) {
        assert today in Visited(inputs, n, month);
      }
    }
  }

  // ---- As many rows as channels for each day that calls for a reminder ----

  function Called(rent: Rent, days: set<int>): set<int> {
    set day | day in days && rent.Calls(day)
  }

  lemma MessagesCount(id: string, due: IsoDay, reminder: ReminderType, channels: seq<Channel>)
    requires |channels| <= 1 || (|channels| == 2 && channels[0] != channels[1])
    ensures |RowsOf(Messages(id, due, reminder, channels))| == |channels|
  {
    var messages := Messages(id, due, reminder, channels);
    if |channels| == 1 {
      assert RowsOf(messages) == {messages[0]};
    } else if |channels| == 2 {
      assert RowsOf(messages) == {messages[0], messages[1]};
    }
  }

  lemma RowsCount(rent: Rent, day: int)
    requires rent.Calls(day)
    ensures |rent.Rows(day)| == |Channels(rent.settings, rent.hasEmail)|
  {
    MessagesCount(rent.id, rent.Due(), GetReminderType(rent.Due() - day, rent.settings).value,
                  Channels(rent.settings, rent.hasEmail));
  }

  /** A row names its reminder, and a reminder its day. */
  lemma RowsTellDays(rent: Rent, d: int, e: int, row: LogRow)
    requires row in rent.Rows(d) && row in rent.Rows(e)
    ensures d == e
  {
  }

  lemma RowsAreCalled(rent: Rent, day: int, row: LogRow)
    requires row in rent.Rows(day)
    ensures rent.Calls(day)
  {
  }

  lemma CalledRowsCount(rent: Rent, rows: int -> set<LogRow>, days: set<int>)
    requires forall d :: rows(d) == rent.Rows(d)
    ensures |Over(rows, Called(rent, days))|
            == |Channels(rent.settings, rent.hasEmail)| * |Called(rent, days)|
  {
    forall d, e, row | row in rows(d) && row in rows(e) ensures d == e {
      RowsTellDays(rent, d, e, row);
    }
    forall d | d in Called(rent, days) ensures |rows(d)| == |Channels(rent.settings, rent.hasEmail)| {
      RowsCount(rent, d);
    }
    UnionCount(rows, Called(rent, days), |Channels(rent.settings, rent.hasEmail)|);
  }

  lemma {:induction false} OwnOfRunRow(inputs: seq<Input>, sweeps: seq<Plans>, rent: Rent, rows: int -> set<LogRow>,
                                       row: LogRow)
    requires ProperInputs(inputs) && SteadyRun(inputs, rent) && sweeps == SweepsOf(inputs)
    requires forall d :: rows(d) == rent.Rows(d)
    ensures row in Own(Planned(sweeps, |inputs|), rent.id, rent.Due())
            <==> exists day :: day in Visited(inputs, |inputs|, rent.month) && row in rows(day)
  {
    var id, due := rent.id, rent.Due();
    forall i | 0 <= i < |inputs|
      ensures row in Own(PlanRows(sweeps[i], |sweeps[i]|), id, due)
              <==> inputs[i].month == rent.month && row in rows(inputs[i].today)
    {
      OwnOfSweep(inputs[i], rent, row);
    }
    OwnOfRun(inputs, sweeps, |inputs|, id, due, rent.month, rows, row);
  }

  /** Days that call for nothing add nothing. */
  lemma OverCalled(rent: Rent, rows: int -> set<LogRow>, days: set<int>, row: LogRow)
    requires forall d :: rows(d) == rent.Rows(d)
    ensures (exists day :: day in days && row in rows(day)) <==> row in Over(rows, Called(rent, days))
  {
    if day: int :| day in days && row in rows(day) {
      RowsAreCalled(rent, day, row);
      InOver(rows, Called(rent, days), day, row);
    }
  }

  lemma {:induction false} OwnOfRunIsCalled(inputs: seq<Input>, rent: Rent, rows: int -> set<LogRow>)
    requires ProperInputs(inputs) && SteadyRun(inputs, rent) && forall d :: rows(d) == rent.Rows(d)
    ensures Own(Planned(SweepsOf(inputs), |inputs|), rent.id, rent.Due())
            == Over(rows, Called(rent, Visited(inputs, |inputs|, rent.month)))
  {
    var own := Own(Planned(SweepsOf(inputs), |inputs|), rent.id, rent.Due());
    var days := Visited(inputs, |inputs|, rent.month);
    forall row ensures row in own <==> row in Over(rows, Called(rent, days)) {
      OwnOfRunRow(inputs, SweepsOf(inputs), rent, rows, row);
      OverCalled(rent, rows, days, row);
    }
  }

  /** However many sweeps run, and whatever other accounts and months they serve, the log gains for the
      account and due date one row for each channel and each day that calls for a reminder. */
  lemma {:induction false} RunCounts(log: seq<LogRow>, inputs: seq<Input>, rent: Rent)
    requires ProperInputs(inputs) && SteadyRun(inputs, rent)
    requires AllGenuine(RowsOf(log)) && DistinctRows(log) && CountFor(log, rent.id, rent.Due()) == 0
    ensures CountFor(Run(log, SweepsOf(inputs), |inputs|), rent.id, rent.Due())
            == |Channels(rent.settings, rent.hasEmail)| * |Called(rent, Visited(inputs, |inputs|, rent.month))|
  {
    var sweeps := SweepsOf(inputs);
    var planned := Planned(sweeps, |inputs|);
    RunsTell(log, inputs);
    RunIsUnion(RowsOf(log) + planned, log, sweeps, |inputs|);
    RunDistinct(log, sweeps, |inputs|);
    CountIsOwn(log, rent.id, rent.Due());
    CountIsOwn(Run(log, sweeps, |inputs|), rent.id, rent.Due());
    NoOwn(RowsOf(log), planned, rent.id, rent.Due());
    var rows := (d: int) => rent.Rows(d);
    OwnOfRunIsCalled(inputs, rent, rows);
    CalledRowsCount(rent, rows, Visited(inputs, |inputs|, rent.month));
  }

  lemma NoOwn(rows: set<LogRow>, more: set<LogRow>, id: string, due: int)
    requires |Own(rows, id, due)| == 0
    ensures Own(rows + more, id, due) == Own(more, id, due)
  {
    assert Own(rows, id, due) == {};
    forall row | row in Own(rows + more, id, due) ensures row in Own(more, id, due) {
      assert row !in Own(rows, id, due);
    }
  }

  // ---- A month of sweeps ----

  /** How many of the offsets are at most the limit. */
  function Fitting(offsets: seq<int>, limit: int): nat {
    if offsets == [] then 0
    else Fitting(offsets[..|offsets| - 1], limit) + if offsets[|offsets| - 1] <= limit then 1 else 0
  }

  function FittingSet(offsets: seq<int>, limit: int): set<int> {
    set n | n in offsets && n <= limit
  }

  lemma FittingOneLonger(init: seq<int>, last: int, limit: int)
    ensures FittingSet(init + [last], limit)
            == if last <= limit then FittingSet(init, limit) + {last} else FittingSet(init, limit)
  {
  }

  lemma NotFitting(init: seq<int>, last: int, limit: int)
    requires last !in init
    ensures |FittingSet(init, limit) + {last}| == |FittingSet(init, limit)| + 1
  {
  }

  lemma {:induction false} FittingCount(offsets: seq<int>, limit: int)
    requires Distinct(offsets)
    ensures |FittingSet(offsets, limit)| == Fitting(offsets, limit)
    decreases |offsets|
  {
    if |offsets| == 0 {
      assert FittingSet(offsets, limit) == {};
    } else {
      var init, last := offsets[..|offsets| - 1], offsets[|offsets| - 1];
      FittingCount(init, limit);
      NotFitting(init, last, limit);
      FittingOneLonger(init, last, limit);
      assert offsets == init + [last];
    }
  }

  /** The days that lie so many days before a due date. */
  function Earlier(due: int, offsets: set<int>): set<int> {
    Over((n: int) => {due - n}, offsets)
  }

  function Later(due: int, offsets: set<int>): set<int> {
    Over((n: int) => {due + n}, offsets)
  }

  lemma EarlierCount(due: int, offsets: seq<int>, limit: int)
    requires Distinct(offsets)
    ensures |Earlier(due, FittingSet(offsets, limit))| == Fitting(offsets, limit)
  {
    FittingCount(offsets, limit);
    UnionCount((n: int) => {due - n}, FittingSet(offsets, limit), 1);
  }

  lemma LaterCount(due: int, offsets: seq<int>, limit: int)
    requires Distinct(offsets)
    ensures |Later(due, FittingSet(offsets, limit))| == Fitting(offsets, limit)
  {
    FittingCount(offsets, limit);
    UnionCount((n: int) => {due + n}, FittingSet(offsets, limit), 1);
  }

  lemma InEarlier(due: int, offsets: seq<int>, limit: int, day: int)
    ensures day in Earlier(due, FittingSet(offsets, limit)) <==> due - day in offsets && due - day <= limit
  {
    if due - day in offsets && due - day <= limit {
      InOver((n: int) => {due - n}, FittingSet(offsets, limit), due - day, day);
    }
  }

  lemma InLater(due: int, offsets: seq<int>, limit: int, day: int)
    ensures day in Later(due, FittingSet(offsets, limit)) <==> day - due in offsets && day - due <= limit
  {
    if day - due in offsets && day - due <= limit {
      InOver((n: int) => {due + n}, FittingSet(offsets, limit), day - due, day);
    }
  }

  /** A day calls for a reminder when it is an offset before or after the due date, or the due date itself. */
  lemma CallsWhen(due: int, s: Settings, day: int)
    requires NormalSettings(s)
    ensures GetReminderType(due - day, s).Some?
            <==> due - day in s.beforeDueDays || (due == day && s.dueDayEnabled) || day - due in s.afterDueDays
  {
  }

  /** The days from first to last that call for a reminder, told by the offsets that fit. */
  lemma CalledCount(days: set<int>, due: int, s: Settings, first: int, last: int)
    requires NormalSettings(s) && first <= due <= last
    requires forall day :: day in days <==> first <= day <= last && GetReminderType(due - day, s).Some?
    ensures |days| == Fitting(s.beforeDueDays, due - first) + (if s.dueDayEnabled then 1 else 0)
                      + Fitting(s.afterDueDays, last - due)
  {
    var before := Earlier(due, FittingSet(s.beforeDueDays, due - first));
    var on: set<int> := if s.dueDayEnabled then {due} else {};
    var after := Later(due, FittingSet(s.afterDueDays, last - due));
    EarlierCount(due, s.beforeDueDays, due - first);
    LaterCount(due, s.afterDueDays, last - due);
    forall day
      ensures day in days <==> day in before || day in on || day in after
      ensures (day in before ==> day < due) && (day in after ==> day > due)
    {
      InEarlier(due, s.beforeDueDays, due - first, day);
      InLater(due, s.afterDueDays, last - due, day);
      CallsWhen(due, s, day);
    }
    CountThree(days, before, on, after);
  }

  /** Sweeps that read the month looked for reminders on every day from first to last, and on no other. */
  ghost predicate Covers(inputs: seq<Input>, month: int, first: int, last: int) {
    && (forall i :: 0 <= i < |inputs| && inputs[i].month == month ==> first <= inputs[i].today <= last)
    && (forall day :: first <= day <= last ==> VisitedOn(inputs, month, day))
  }

  ghost predicate VisitedOn(inputs: seq<Input>, month: int, day: int) {
    exists i :: 0 <= i < |inputs| && inputs[i].month == month && inputs[i].today == day
  }

  lemma {:induction false} InVisited(inputs: seq<Input>, n: nat, month: int, day: int)
    requires n <= |inputs|
    ensures day in Visited(inputs, n, month)
            <==> exists i :: 0 <= i < n && inputs[i].month == month && inputs[i].today == day
  {
    if n == 0 {
    } else {
      InVisited(inputs, n - 1, month, day);
    }
  }

  /** The reminders of an account over a span of days, so many before its due date and so many after it:
      for each channel, the offsets before the due date that lie in the span, the due date itself, and
      the offsets after it that do. */
  function SpanTotal(rent: Rent, daysBefore: int, daysAfter: int): nat {
    |Channels(rent.settings, rent.hasEmail)|
    * (Fitting(rent.settings.beforeDueDays, daysBefore)
       + (if rent.settings.dueDayEnabled then 1 else 0)
       + Fitting(rent.settings.afterDueDays, daysAfter))
  }

  /** The reminders of a month whose sweeps ran until so many days after its end. */
  function MonthTotal(rent: Rent, late: nat): nat {
    var year, month := rent.month / 12, rent.month % 12 + 1;
    var dueDay := ClampedDay(year, month, rent.dueDay);
    SpanTotal(rent, dueDay - 1, DaysInMonth(year, month) - dueDay + late)
  }

  lemma DueWithinMonth(month: int, dueDay: int)
    ensures var (y, m) := (month / 12, month % 12 + 1);
            && DueIn(month, dueDay) == MonthStart(month) + ClampedDay(y, m, dueDay) - 1
            && MonthStart(month) <= DueIn(month, dueDay) < MonthStart(month + 1)
            && MonthStart(month + 1) - MonthStart(month) == DaysInMonth(y, m)
  {
    assert month == 12 * (month / 12) + month % 12;
    DueDateStaysInMonth(month / 12, month % 12 + 1, dueDay);
    MonthOfIsTheMonth(DueIn(month, dueDay), month);
    DaysInMonthIsItsLength(month / 12, month % 12 + 1);
    MonthsOrdered(month, month + 1);
  }

  lemma SteadyIsNormal(input: Input, rent: Rent)
    requires Steady(input, rent)
    ensures NormalSettings(rent.settings)
  {
    var a :| 0 <= a < |input.accounts| && Keeps(input, input.accounts[a], rent);
    var account := input.accounts[a];
    SettingsAreNormal(if account.id in input.prefs then Some(input.prefs[account.id]) else None);
  }

  lemma CalledIsCovered(inputs: seq<Input>, rent: Rent, first: int, last: int, day: int)
    requires Covers(inputs, rent.month, first, last)
    ensures day in Called(rent, Visited(inputs, |inputs|, rent.month))
            <==> first <= day <= last && GetReminderType(rent.Due() - day, rent.settings).Some?
  {
    InVisited(inputs, |inputs|, rent.month, day);
    assert first <= day <= last ==> VisitedOn(inputs, rent.month, day);
  }

  /** The days that call for a reminder, when every day of a span holding the due date is visited. */
  lemma CoveredCount(inputs: seq<Input>, rent: Rent, first: int, last: int)
    requires NormalSettings(rent.settings) && first <= rent.Due() <= last && Covers(inputs, rent.month, first, last)
    ensures |Called(rent, Visited(inputs, |inputs|, rent.month))|
            == Fitting(rent.settings.beforeDueDays, rent.Due() - first)
               + (if rent.settings.dueDayEnabled then 1 else 0)
               + Fitting(rent.settings.afterDueDays, last - rent.Due())
  {
    var days := Called(rent, Visited(inputs, |inputs|, rent.month));
    forall day ensures day in days <==> first <= day <= last && GetReminderType(rent.Due() - day, rent.settings).Some? {
      CalledIsCovered(inputs, rent, first, last, day);
    }
    CalledCount(days, rent.Due(), rent.settings, first, last);
  }

  lemma CoveredIsNormal(inputs: seq<Input>, rent: Rent, day: int)
    requires SteadyRun(inputs, rent) && VisitedOn(inputs, rent.month, day)
    ensures NormalSettings(rent.settings)
  {
    var k :| 0 <= k < |inputs| && inputs[k].month == rent.month && inputs[k].today == day;
    SteadyIsNormal(inputs[k], rent);
  }

  lemma {:induction false} SpanCount(log: seq<LogRow>, inputs: seq<Input>, rent: Rent, first: int, last: int)
    requires ProperInputs(inputs) && SteadyRun(inputs, rent)
    requires AllGenuine(RowsOf(log)) && DistinctRows(log) && CountFor(log, rent.id, rent.Due()) == 0
    requires first <= rent.Due() <= last && Covers(inputs, rent.month, first, last)
    ensures CountFor(Run(log, SweepsOf(inputs), |inputs|), rent.id, rent.Due())
            == SpanTotal(rent, rent.Due() - first, last - rent.Due())
  {
    RunCounts(log, inputs, rent);
    CoveredIsNormal(inputs, rent, rent.Due());
    CoveredCount(inputs, rent, first, last);
  }

  /** The month count: with sweeps on every day of the month, the log gains exactly the month's reminders
      of the account, however many sweeps run on each day. `late` is 0 when no sweep runs past the end of
      the month. */
  lemma {:induction false} MonthCount(log: seq<LogRow>, inputs: seq<Input>, rent: Rent, first: int, last: int,
                                      late: nat)
    requires ProperInputs(inputs) && SteadyRun(inputs, rent)
    requires AllGenuine(RowsOf(log)) && DistinctRows(log) && CountFor(log, rent.id, rent.Due()) == 0
    requires first == MonthStart(rent.month) && last == MonthStart(rent.month + 1) - 1 + late
    requires Covers(inputs, rent.month, first, last)
    ensures CountFor(Run(log, SweepsOf(inputs), |inputs|), rent.id, rent.Due()) == MonthTotal(rent, late)
  {
    MonthTotalIsSpan(rent, first, last, late);
    SpanCount(log, inputs, rent, first, last);
  }

  lemma DueDistances(rent: Rent)
    ensures var year, month := rent.month / 12, rent.month % 12 + 1;
            && MonthStart(rent.month) <= rent.Due() < MonthStart(rent.month + 1)
            && rent.Due() - MonthStart(rent.month) == ClampedDay(year, month, rent.dueDay) - 1
            && MonthStart(rent.month + 1) - 1 - rent.Due()
               == DaysInMonth(year, month) - ClampedDay(year, month, rent.dueDay)
  {
    DueWithinMonth(rent.month, rent.dueDay);
  }

  lemma MonthTotalIsSpan(rent: Rent, first: int, last: int, late: nat)
    requires first == MonthStart(rent.month) && last == MonthStart(rent.month + 1) - 1 + late
    ensures first <= rent.Due() <= last
    ensures MonthTotal(rent, late) == SpanTotal(rent, rent.Due() - first, last - rent.Due())
  {
    DueDistances(rent);
  }

  lemma {:induction false} FittingOneMore(offsets: seq<int>, limit: int)
    requires Distinct(offsets)
    ensures Fitting(offsets, limit + 1) == Fitting(offsets, limit) + if limit + 1 in offsets then 1 else 0
  {
    if offsets == [] {
    } else {
      var init, last := offsets[..|offsets| - 1], offsets[|offsets| - 1];
      FittingOneMore(init, limit);
      assert offsets == init + [last];
      assert last !in init;
    }
  }

  /** A sweep that reads the month before midnight of its last day and today after it sends what the month
      should not hold, exactly when the first day of the next month is an offset after the due day. */
  lemma StraddlingAddsOne(rent: Rent)
    requires Distinct(rent.settings.afterDueDays)
    ensures var (y, m) := (rent.month / 12, rent.month % 12 + 1);
            var next := DaysInMonth(y, m) + 1 - ClampedDay(y, m, rent.dueDay);
            MonthTotal(rent, 1) == MonthTotal(rent, 0)
              + (if next in rent.settings.afterDueDays then |Channels(rent.settings, rent.hasEmail)| else 0)
  {
    var y, m := rent.month / 12, rent.month % 12 + 1;
    SpanOneMore(rent, ClampedDay(y, m, rent.dueDay) - 1, DaysInMonth(y, m) - ClampedDay(y, m, rent.dueDay));
  }

  lemma SpanOneMore(rent: Rent, daysBefore: int, daysAfter: int)
    requires Distinct(rent.settings.afterDueDays)
    ensures SpanTotal(rent, daysBefore, daysAfter + 1) == SpanTotal(rent, daysBefore, daysAfter)
              + (if daysAfter + 1 in rent.settings.afterDueDays then |Channels(rent.settings, rent.hasEmail)| else 0)
  {
    FittingOneMore(rent.settings.afterDueDays, daysAfter);
    OneMoreTimes(|Channels(rent.settings, rent.hasEmail)|,
                 Fitting(rent.settings.beforeDueDays, daysBefore) + (if rent.settings.dueDayEnabled then 1 else 0)
                 + Fitting(rent.settings.afterDueDays, daysAfter));
  }
}
