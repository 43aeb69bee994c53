/** Who is reminded of what: the accounts a sweep skips, and what every row it logs says. */
module ReminderRules {
  import opened Calendar
  import opened DedupeKeys
  import opened ReminderMonths
  import opened Reminders
  import opened Wrappers

  // ---- Settings, channels and payments in plain terms ----

  /** Without a stored preference everything is on, with the default offsets; with one, its switches hold. */
  lemma SettingsFollowPreference(input: Input, account: Account)
    ensures var s := SettingsFor(input, account);
            if account.id in input.prefs then
              var p := input.prefs[account.id];
              s.pushEnabled == p.pushEnabled && s.emailEnabled == p.emailEnabled && s.dueDayEnabled == p.dueDayEnabled
            else s == Settings(true, true, true, [7, 3, 1], [3, 7])
  {
  }

  predicate ChannelOn(s: Settings, hasEmail: bool, channel: Channel) {
    match channel
    case PUSH => s.pushEnabled
    case EMAIL => s.emailEnabled && hasEmail
  }

  lemma ChannelsAreOn(s: Settings, hasEmail: bool, channel: Channel)
    ensures channel in Channels(s, hasEmail) <==> ChannelOn(s, hasEmail, channel)
  {
  }

  /** The tenant's payment of the month that was updated last is paid. */
  ghost predicate HasPaid(payments: seq<MonthPayment>, tenantId: string) {
    exists i :: 0 <= i < |payments| && payments[i].tenantId == tenantId && payments[i].paid
                && forall j :: 0 <= j < i ==> payments[j].tenantId != tenantId
  }

  lemma {:induction false} LatestPaidIs(payments: seq<MonthPayment>, tenantId: string)
    ensures tenantId in LatestPaid(payments)
            <==> exists i :: 0 <= i < |payments| && payments[i].tenantId == tenantId
    ensures tenantId in LatestPaid(payments) && LatestPaid(payments)[tenantId] <==> HasPaid(payments, tenantId)
  {
    if payments == [] {
    } else {
      var last := |payments| - 1;
      var init := payments[..last];
      LatestPaidIs(init, tenantId);
      assert forall i :: 0 <= i < last ==> init[i] == payments[i];
      if HasPaid(init, tenantId) {
        var i :| 0 <= i < last && init[i].tenantId == tenantId && init[i].paid
                 && forall j :: 0 <= j < i ==> init[j].tenantId != tenantId;
        assert payments[i] == init[i];
      }
    }
  }

  // ---- Which messages are due ----

  /** The account gets nothing: user or tenant missing, user inactive or no tenant, both channels off, or the
      rent of the month paid. */
  ghost predicate Skipped(input: Input, account: Account) {
    || account.user.None? || account.rentDueDay.None?
    || !account.user.value.isTenant || !account.user.value.isActive
    || (!SettingsFor(input, account).pushEnabled && !SettingsFor(input, account).emailEnabled)
    || HasPaid(input.payments, account.tenantId)
  }

  /** A reminder says how far the due date is, and the settings ask for it. */
  predicate Fits(reminder: ReminderType, daysUntilDue: int, s: Settings) {
    match reminder
    case BeforeDue(n) => n > 0 && daysUntilDue == n && n in s.beforeDueDays
    case DueDay => daysUntilDue == 0 && s.dueDayEnabled
    case Overdue(n) => n > 0 && daysUntilDue + n == 0 && n in s.afterDueDays
  }

  /** A row an account is due in a sweep. */
  ghost predicate IsDue(input: Input, account: Account, row: LogRow) {
    && !Skipped(input, account)
    && row.accountId == account.id
    && row.dueDate == DueDateOf(input.month, account.rentDueDay.value)
    && Fits(row.reminderType, row.dueDate - input.today, SettingsFor(input, account))
    && ChannelOn(SettingsFor(input, account), account.user.value.hasEmail, row.channel)
    && row.dedupeKey == Key(row.accountId, row.dueDate, row.reminderType, row.channel)
  }

  lemma TypeFits(daysUntilDue: int, s: Settings, reminder: ReminderType)
    ensures GetReminderType(daysUntilDue, s) == Some(reminder) <==> Fits(reminder, daysUntilDue, s)
  {
  }

  lemma InMessages(id: string, due: IsoDay, reminder: ReminderType, channels: seq<Channel>, row: LogRow)
    ensures row in Messages(id, due, reminder, channels)
            <==> row.channel in channels && row == RowFor(id, due, reminder, row.channel)
  {
    var messages := Messages(id, due, reminder, channels);
    if row.channel in channels && row == RowFor(id, due, reminder, row.channel) {
      var i :| 0 <= i < |channels| && channels[i] == row.channel;
      assert messages[i] == row;
    }
  }

  /** A sweep finds exactly the due rows of an account. */
  lemma PlanIsDue(input: Input, account: Account, row: LogRow)
    ensures row in Plan(input, account) <==> IsDue(input, account, row)
  {
    LatestPaidIs(input.payments, account.tenantId);
    if !Skipped(input, account) {
      var s, due := SettingsFor(input, account), DueDateOf(input.month, account.rentDueDay.value);
      var reminder := GetReminderType(due - input.today, s);
      TypeFits(due - input.today, s, row.reminderType);
      ChannelsAreOn(s, account.user.value.hasEmail, row.channel);
      if reminder.Some? {
        InMessages(account.id, due, reminder.value, Channels(s, account.user.value.hasEmail), row);
        TypeFits(due - input.today, s, reminder.value);
      }
    }
  }

  // ---- What sweeps log ----

  lemma {:induction false} DispatchedComesFrom(log: seq<LogRow>, messages: seq<LogRow>, n: nat, row: LogRow)
    requires n <= |messages| && row in Dispatched(log, messages, n)
    ensures row in log || row in messages
  {
    if n == 0 {
    } else if row in Dispatched(log, messages, n - 1) {
      DispatchedComesFrom(log, messages, n - 1, row);
    }
  }

  lemma {:induction false} SweptComesFrom(log: seq<LogRow>, plans: Plans, n: nat, row: LogRow)
    requires n <= |plans| && row in Swept(log, plans, n)
    ensures row in log || exists a :: 0 <= a < |plans| && row in plans[a]
  {
    if n == 0 {
    } else if row in Swept(log, plans, n - 1) {
      SweptComesFrom(log, plans, n - 1, row);
    } else {
      DispatchedComesFrom(Swept(log, plans, n - 1), plans[n - 1], |plans[n - 1]|, row);
    }
  }

  /** Every row a sweep adds to the log is due to one of its accounts; so a skipped account, whose id no
      other account has, is sent nothing. */
  lemma GainedIsDue(log: seq<LogRow>, input: Input, row: LogRow)
    requires row in Swept(log, PlansOf(input), |PlansOf(input)|) && row !in log
    ensures exists a :: 0 <= a < |input.accounts| && IsDue(input, input.accounts[a], row)
  {
    var plans := PlansOf(input);
    SweptComesFrom(log, plans, |plans|, row);
    var a :| 0 <= a < |plans| && row in plans[a];
    PlanIsDue(input, input.accounts[a], row);
  }

  lemma SkippedIsSentNothing(log: seq<LogRow>, input: Input, a: nat, row: LogRow)
    requires a < |input.accounts| && Skipped(input, input.accounts[a])
    requires forall b :: 0 <= b < |input.accounts| && b != a ==> input.accounts[b].id != input.accounts[a].id
    requires row in Swept(log, PlansOf(input), |PlansOf(input)|) && row.accountId == input.accounts[a].id
    ensures row in log
  {
    if row !in log {
      GainedIsDue(log, input, row);
    }
  }

  /** Some sweep of a run found the row due to one of its accounts. */
  ghost predicate DueSometime(inputs: seq<Input>, row: LogRow) {
    exists i, a :: 0 <= i < |inputs| && 0 <= a < |inputs[i].accounts| && IsDue(inputs[i], inputs[i].accounts[a], row)
  }

  lemma PlannedIsDue(inputs: seq<Input>, row: LogRow)
    ensures row in Planned(SweepsOf(inputs), |inputs|) <==> DueSometime(inputs, row)
  {
    var sweeps := SweepsOf(inputs);
    InPlanned(sweeps, |sweeps|, row);
    if i :| 0 <= i < |sweeps| && row in PlanRows(sweeps[i], |sweeps[i]|) {
      InPlanRows(sweeps[i], |sweeps[i]|, row);
      var a :| 0 <= a < |sweeps[i]| && row in sweeps[i][a];
      PlanIsDue(inputs[i], inputs[i].accounts[a], row);
    }
    if i, a :| 0 <= i < |inputs| && 0 <= a < |inputs[i].accounts| && IsDue(inputs[i], inputs[i].accounts[a], row) {
      PlanIsDue(inputs[i], inputs[i].accounts[a], row);
      assert row in sweeps[i][a];
      InPlanRows(sweeps[i], |sweeps[i]|, row);
    }
  }

  /** After any run the log holds what it held and exactly the rows that some sweep found due: each names its
      account, the due date of the month the sweep read, how far off that was on the day, and a channel that
      was on. */
  lemma {:induction false} RunLogsExactlyDue(log: seq<LogRow>, inputs: seq<Input>, row: LogRow)
    requires ProperInputs(inputs) && AllGenuine(RowsOf(log))
    ensures row in Run(log, SweepsOf(inputs), |inputs|) <==> row in log || DueSometime(inputs, row)
  {
    var sweeps := SweepsOf(inputs);
    var all := RowsOf(log) + Planned(sweeps, |inputs|);
    RunsTell(log, inputs);
    RunIsUnion(all, log, sweeps, |inputs|);
    PlannedIsDue(inputs, row);
    var run := Run(log, sweeps, |inputs|);
    assert row in run <==> row in RowsOf(run);
  }

  /** An account that every sweep of a month skips gains no row for that month's due date. */
  lemma {:induction false} SkippedMonthGainsNothing(log: seq<LogRow>, inputs: seq<Input>, id: string, month: IsoMonth,
                                                    due: int)
    requires ProperInputs(inputs) && AllGenuine(RowsOf(log)) && DistinctRows(log) && MonthOf(due) == month
    requires forall i, a ::
               (0 <= i < |inputs| && 0 <= a < |inputs[i].accounts| && inputs[i].month == month
                && inputs[i].accounts[a].id == id) ==> Skipped(inputs[i], inputs[i].accounts[a])
    ensures CountFor(Run(log, SweepsOf(inputs), |inputs|), id, due) == CountFor(log, id, due)
  {
    var run := Run(log, SweepsOf(inputs), |inputs|);
    forall row | IsFor(row, id, due) ensures row in run <==> row in log {
      RunLogsExactlyDue(log, inputs, row);
      if DueSometime(inputs, row) {
        var i, a :| 0 <= i < |inputs| && 0 <= a < |inputs[i].accounts| && IsDue(inputs[i], inputs[i].accounts[a], row);
        DueInMonth(inputs[i], inputs[i].accounts[a], row);
        assert false;
      }
    }
    RunDistinct(log, SweepsOf(inputs), |inputs|);
    CountIsOwn(log, id, due);
    CountIsOwn(run, id, due);
    assert Own(RowsOf(run), id, due) == Own(RowsOf(log), id, due);
  }

  lemma DueInMonth(input: Input, account: Account, row: LogRow)
    requires IsDue(input, account, row)
    ensures MonthOf(row.dueDate) == input.month && row.accountId == account.id
  {
    DueDateStaysInMonth(input.month / 12, input.month % 12 + 1, account.rentDueDay.value);
    assert input.month == 12 * (input.month / 12) + input.month % 12;
  }
}
