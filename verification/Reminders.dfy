/** Rent reminders: which reminder a day calls for, the sweep that sends it once, and its bookkeeping. */
module Reminders {
  import opened Wrappers
  import opened Calendar
  import opened DedupeKeys

  // ---- Settings ----

  /** A stored number of days, which may fail to be a whole number. */
  datatype JsNumber = Whole(n: int) | NotWhole

  datatype Preference = Preference(pushEnabled: bool, emailEnabled: bool, dueDayEnabled: bool,
                                   beforeDueDays: seq<JsNumber>, afterDueDays: seq<JsNumber>)

  datatype Settings = Settings(pushEnabled: bool, emailEnabled: bool, dueDayEnabled: bool,
                               beforeDueDays: seq<int>, afterDueDays: seq<int>)

  const DEFAULT_BEFORE_DUE_DAYS := [7, 3, 1]
  const DEFAULT_AFTER_DUE_DAYS := [3, 7]

  /** The whole numbers from `limit` down to 1 that occur among the values. */
  function SafeDays(values: seq<JsNumber>, limit: nat): seq<int> {
    if limit == 0 then []
    else (if Whole(limit) in values then [limit as int] else []) + SafeDays(values, limit - 1)
  }

  function NormalizeDays(values: seq<JsNumber>, defaults: seq<int>): seq<int> {
    var unique := SafeDays(values, 30);
    if |unique| > 0 then unique else defaults
  }

  function MapPreferenceToSettings(pref: Option<Preference>): Settings {
    match pref
    case None => Settings(true, true, true, DEFAULT_BEFORE_DUE_DAYS, DEFAULT_AFTER_DUE_DAYS)
    case Some(p) =>
      Settings(p.pushEnabled, p.emailEnabled, p.dueDayEnabled,
               NormalizeDays(p.beforeDueDays, DEFAULT_BEFORE_DUE_DAYS),
               NormalizeDays(p.afterDueDays, DEFAULT_AFTER_DUE_DAYS))
  }

  ghost predicate Descending(days: seq<int>) {
    forall i, j :: 0 <= i < j < |days| ==> days[i] > days[j]
  }

  ghost predicate Distinct(days: seq<int>) {
    forall i, j :: 0 <= i < j < |days| ==> days[i] != days[j]
  }

  lemma LargerInFront(n: int, days: seq<int>)
    requires Descending(days) && forall d :: d in days ==> d < n
    ensures Descending([n] + days)
  {
    assert forall i :: 0 <= i < |days| ==> days[i] in days;
  }

  lemma {:induction false} SafeDaysAre(values: seq<JsNumber>, limit: nat)
    ensures Descending(SafeDays(values, limit))
    ensures forall n :: n in SafeDays(values, limit) <==> 1 <= n <= limit && Whole(n) in values
  {
    if limit == 0 {
    } else {
      SafeDaysAre(values, limit - 1);
      var rest, all := SafeDays(values, limit - 1), SafeDays(values, limit);
      if Whole(limit) in values {
        LargerInFront(limit, rest);
        assert all == [limit as int] + rest;
      } else {
        assert all == [] + rest == rest;
      }
    }
  }

  lemma {:induction false} DescendingUnique(a: seq<int>, b: seq<int>)
    requires Descending(a) && Descending(b) && forall n :: n in a <==> n in b
    ensures a == b
    decreases |a|
  {
    var head := if b == [] then 0 else b[0];
    assert head in b <==> head in a;
    if a == [] {
    } else {
      assert a[0] in b;
      var j :| 0 <= j < |b| && b[j] == a[0];
      var i :| 0 <= i < |a| && a[i] == head;
      assert a[0] == b[0];
      forall n ensures n in a[1..] <==> n in b[1..] {
        assert n in a[1..] <==> n in a && n != a[0];
        assert n in b[1..] <==> n in b && n != b[0];
      }
      DescendingUnique(a[1..], b[1..]);
      assert a == [a[0]] + a[1..] && b == [b[0]] + b[1..];
    }
  }

  /** Normalising keeps exactly the whole numbers from 1 to 30, each once, largest first, and nothing
      else would do; without any it falls back on the defaults. Doing it twice changes nothing. */
  lemma NormalizedDays(values: seq<JsNumber>, defaults: seq<int>, sorted: seq<int>)
    requires Descending(sorted)
    requires forall n :: n in sorted <==> 1 <= n <= 30 && Whole(n) in values
    ensures NormalizeDays(values, defaults) == if sorted == [] then defaults else sorted
    ensures var again := seq(|sorted|, i requires 0 <= i < |sorted| => Whole(sorted[i]));
            sorted != [] ==> NormalizeDays(again, defaults) == sorted
  {
    SafeDaysAre(values, 30);
    DescendingUnique(SafeDays(values, 30), sorted);
    var again := seq(|sorted|, i requires 0 <= i < |sorted| => Whole(sorted[i]));
    SafeDaysAre(again, 30);
    forall n ensures Whole(n) in again <==> n in sorted {
      if n in sorted {
        var i :| 0 <= i < |sorted| && sorted[i] == n;
        assert again[i] == Whole(n);
      }
    }
    DescendingUnique(SafeDays(again, 30), sorted);
  }

  /** Settings always list distinct positive offsets. */
  lemma SettingsAreNormal(pref: Option<Preference>)
    ensures NormalSettings(MapPreferenceToSettings(pref))
  {
    if pref.Some? {
      SafeDaysAre(pref.value.beforeDueDays, 30);
      SafeDaysAre(pref.value.afterDueDays, 30);
    }
  }

  ghost predicate NormalSettings(s: Settings) {
    && Distinct(s.beforeDueDays) && Distinct(s.afterDueDays)
    && (forall n :: n in s.beforeDueDays ==> n >= 1) && (forall n :: n in s.afterDueDays ==> n >= 1)
  }

  // ---- Which reminder a day calls for ----

  function GetReminderType(daysUntilDue: int, s: Settings): Option<ReminderType> {
    if daysUntilDue > 0 && daysUntilDue in s.beforeDueDays then Some(BeforeDue(daysUntilDue))
    else if daysUntilDue == 0 && s.dueDayEnabled then Some(DueDay)
    else if daysUntilDue < 0 && -daysUntilDue in s.afterDueDays then Some(Overdue(-daysUntilDue))
    else None
  }

  // ---- Accounts and the log ----

  datatype TenantUser = TenantUser(isTenant: bool, isActive: bool, hasEmail: bool)

  /** An active tenant account with its joined user and the rent due day of its tenant. */
  datatype Account = Account(id: string, tenantId: string, user: Option<TenantUser>, rentDueDay: Option<int>)

  datatype MonthPayment = MonthPayment(tenantId: string, paid: bool)

  /** Months and days whose ISO date has a four-digit year. */
  type IsoMonth = m: int | 0 <= m < 12 * 10000
  type IsoDay = d: int | InIsoRange(d) witness FirstIsoDay()

  function FirstIsoDay(): (d: int)
    ensures InIsoRange(d)
  {
    MonthsOrdered(0, 1);
    MonthOfIsTheMonth(MonthStart(0), 0);
    MonthStart(0)
  }

  datatype LogRow = LogRow(accountId: string, dueDate: int, reminderType: ReminderType, channel: Channel,
                           dedupeKey: string)

  function RowFor(accountId: string, dueDate: IsoDay, reminderType: ReminderType, channel: Channel): LogRow {
    LogRow(accountId, dueDate, reminderType, channel, Key(accountId, dueDate, reminderType, channel))
  }

  predicate KeyTaken(log: seq<LogRow>, key: string) {
    exists i :: 0 <= i < |log| && log[i].dedupeKey == key
  }

  /** What one sweep reads. The month comes from a clock reading before the queries, today from one after
      them. Payments are those of the month, last updated first. */
  datatype Input = Input(accounts: seq<Account>, prefs: map<string, Preference>, payments: seq<MonthPayment>,
                         month: IsoMonth, today: int)

  function DueDateOf(month: IsoMonth, dueDay: int): IsoDay {
    DueDateStaysInMonth(month / 12, month % 12 + 1, dueDay);
    DueIn(month, dueDay)
  }

  function Channels(s: Settings, hasEmail: bool): seq<Channel> {
    (if s.pushEnabled then [PUSH] else []) + (if s.emailEnabled && hasEmail then [EMAIL] else [])
  }

  /** The payment a tenant's reminder goes by: the one last updated. */
  function LatestPaid(payments: seq<MonthPayment>): map<string, bool> {
    if payments == [] then map[]
    else
      var earlier := LatestPaid(payments[..|payments| - 1]);
      var p := payments[|payments| - 1];
      if p.tenantId in earlier then earlier else earlier[p.tenantId := p.paid]
  }

  /** One message for each channel, with the log row it leaves. */
  function Messages(accountId: string, dueDate: IsoDay, reminderType: ReminderType, channels: seq<Channel>)
    : seq<LogRow>
  {
    seq(|channels|, i requires 0 <= i < |channels| => RowFor(accountId, dueDate, reminderType, channels[i]))
  }

  function SettingsFor(input: Input, account: Account): Settings {
    MapPreferenceToSettings(if account.id in input.prefs then Some(input.prefs[account.id]) else None)
  }

  /** The messages an account is due; none when it is skipped before dispatching. */
  function Plan(input: Input, account: Account): seq<LogRow> {
    if account.user.None? || account.rentDueDay.None? then []
    else if !account.user.value.isTenant || !account.user.value.isActive then []
    else
      var s := SettingsFor(input, account);
      if !s.pushEnabled && !s.emailEnabled then []
      else
        var dueDate := DueDateOf(input.month, account.rentDueDay.value);
        var reminderType := GetReminderType(dueDate - input.today, s);
        if reminderType.None? then []
        else
          var paid := LatestPaid(input.payments);
          if account.tenantId in paid && paid[account.tenantId] then []
          else Messages(account.id, dueDate, reminderType.value, Channels(s, account.user.value.hasEmail))
  }

  /** The log after the first n messages: each is sent and logged unless its key is there already. */
  function Dispatched(log: seq<LogRow>, messages: seq<LogRow>, n: nat): seq<LogRow>
    requires n <= |messages|
  {
    if n == 0 then log
    else
      var before := Dispatched(log, messages, n - 1);
      if KeyTaken(before, messages[n - 1].dedupeKey) then before else before + [messages[n - 1]]
  }

  /** The messages every account of a sweep is due. */
  function PlansOf(input: Input): (plans: seq<seq<LogRow>>)
    ensures |plans| == |input.accounts|
  {
    seq(|input.accounts|, i requires 0 <= i < |input.accounts| => Plan(input, input.accounts[i]))
  }

  /** The log after the plans of the first n accounts. */
  function Swept(log: seq<LogRow>, plans: seq<seq<LogRow>>, n: nat): seq<LogRow>
    requires n <= |plans|
  {
    if n == 0 then log else Dispatched(Swept(log, plans, n - 1), plans[n - 1], |plans[n - 1]|)
  }

  /** How many of the first n accounts were sent at least one message. */
  function Reached(log: seq<LogRow>, plans: seq<seq<LogRow>>, n: nat): nat
    requires n <= |plans|
  {
    if n == 0 then 0
    else Reached(log, plans, n - 1)
         + if |Swept(log, plans, n)| > |Swept(log, plans, n - 1)| then 1 else 0
  }

  datatype ProcessResult = ProcessResult(processedTenants: nat, dispatched: nat, skipped: nat)

  class RemindersService {
    var log: seq<LogRow>
    var isProcessing: bool

    constructor ()
      ensures log == [] && !isProcessing
    {
      log, isProcessing := [], false;
    }

    /** Sends on each channel whose key is not in the log yet, and logs it. */
    method DispatchReminder(account: Account, dueDate: IsoDay, reminderType: ReminderType, settings: Settings)
      returns (sentCount: nat)
      requires account.user.Some?
      modifies this`log
      ensures var channels := Channels(settings, account.user.value.hasEmail);
              var messages := Messages(account.id, dueDate, reminderType, channels);
              log == Dispatched(old(log), messages, |messages|)
      ensures sentCount == |log| - |old(log)|
    {
      sentCount := 0;
      var channels := [];
      if settings.pushEnabled {
        channels := channels + [PUSH];
      }
      if settings.emailEnabled && account.user.value.hasEmail {
        channels := channels + [EMAIL];
      }
      assert channels == Channels(settings, account.user.value.hasEmail);
      ghost var messages := Messages(account.id, dueDate, reminderType, channels);
      for i := 0 to |channels|
        invariant log == Dispatched(old(log), messages, i)
        invariant sentCount == |log| - |old(log)|
      {
        var row := RowFor(account.id, dueDate, reminderType, channels[i]);
        assert row == messages[i];
        if !KeyTaken(log, row.dedupeKey) {
          log := log + [row];
          sentCount := sentCount + 1;
        }
      }
    }

    method PaymentMap(payments: seq<MonthPayment>) returns (paymentMap: map<string, bool>)
      ensures paymentMap == LatestPaid(payments)
    {
      paymentMap := map[];
      for i := 0 to |payments|
        invariant paymentMap == LatestPaid(payments[..i])
      {
        assert payments[..i + 1][..i] == payments[..i];
        if payments[i].tenantId !in paymentMap {
          paymentMap := paymentMap[payments[i].tenantId := payments[i].paid];
        }
      }
      assert payments[..|payments|] == payments;
    }

    /** The body of the account loop; zero is a skip. */
    method ProcessAccount(input: Input, account: Account, paymentMap: map<string, bool>) returns (sent: nat)
      requires paymentMap == LatestPaid(input.payments)
      modifies this`log
      ensures var plan := Plan(input, account);
              log == Dispatched(old(log), plan, |plan|)
      ensures sent == |log| - |old(log)|
    {
      if account.user.None? || account.rentDueDay.None? {
        return 0;
      }
      if !account.user.value.isTenant || !account.user.value.isActive {
        return 0;
      }
      var settings := SettingsFor(input, account);
      if !settings.pushEnabled && !settings.emailEnabled {
        return 0;
      }
      var dueDate := DueDateOf(input.month, account.rentDueDay.value);
      var reminderType := GetReminderType(dueDate - input.today, settings);
      if reminderType.None? {
        return 0;
      }
      if account.tenantId in paymentMap && paymentMap[account.tenantId] {
        return 0;
      }
      sent := DispatchReminder(account, dueDate, reminderType.value, settings);
    }

    /** The account loop of a sweep, with its two counters. */
    method ProcessAccounts(input: Input, paymentMap: map<string, bool>) returns (dispatched: nat, skipped: nat)
      requires paymentMap == LatestPaid(input.payments)
      modifies this`log
      ensures log == Swept(old(log), PlansOf(input), |input.accounts|)
      ensures dispatched == |log| - |old(log)|
      ensures skipped == |input.accounts| - Reached(old(log), PlansOf(input), |input.accounts|)
    {
      dispatched, skipped := 0, 0;
      ghost var plans := PlansOf(input);
      for i := 0 to |input.accounts|
        invariant log == Swept(old(log), plans, i)
        invariant dispatched == |log| - |old(log)|
        invariant skipped == i - Reached(old(log), plans, i)
      {
        var sent := ProcessAccount(input, input.accounts[i], paymentMap);
        if sent == 0 {
          skipped := skipped + 1;
        } else {
          dispatched := dispatched + sent;
        }
      }
    }

    method ProcessDueReminders(input: Input) returns (r: ProcessResult)
      modifies this
      ensures isProcessing == old(isProcessing)
      ensures old(isProcessing) ==> r == ProcessResult(0, 0, 0) && log == old(log)
      ensures !old(isProcessing) ==>
                && log == Swept(old(log), PlansOf(input), |input.accounts|)
                && r.processedTenants == |input.accounts|
                && r.dispatched == |log| - |old(log)|
                && r.skipped == |input.accounts| - Reached(old(log), PlansOf(input), |input.accounts|)
    {
      if isProcessing {
        return ProcessResult(0, 0, 0);
      }
      isProcessing := true;
      var paymentMap := PaymentMap(input.payments);
      var dispatched, skipped := ProcessAccounts(input, paymentMap);
      isProcessing := false;
      r := ProcessResult(|input.accounts|, dispatched, skipped);
    }
  }

  // ---- Accounting of one sweep ----

  lemma {:induction false} DispatchGrows(log: seq<LogRow>, messages: seq<LogRow>, n: nat)
    requires n <= |messages|
    ensures log <= Dispatched(log, messages, n)
    ensures |Dispatched(log, messages, n)| <= |log| + n
    ensures forall i :: 0 <= i < n ==> KeyTaken(Dispatched(log, messages, n), messages[i].dedupeKey)
  {
    if n == 0 {
    } else {
      DispatchGrows(log, messages, n - 1);
      var before, after := Dispatched(log, messages, n - 1), Dispatched(log, messages, n);
      forall i | 0 <= i < n ensures KeyTaken(after, messages[i].dedupeKey) {
        if KeyTaken(before, messages[i].dedupeKey) {
          KeysStayTaken(before, after, messages[i].dedupeKey);
        } else {
          assert after[|before|] == messages[i];
        }
      }
    }
  }

  lemma KeysStayTaken(log: seq<LogRow>, more: seq<LogRow>, key: string)
    requires log <= more && KeyTaken(log, key)
    ensures KeyTaken(more, key)
  {
    var i :| 0 <= i < |log| && log[i].dedupeKey == key;
    assert more[i] == log[i];
  }

  lemma PlansAreShort(input: Input)
    ensures Short(PlansOf(input))
  {
  }

  /** No account is due more than two messages. */
  ghost predicate Short(plans: seq<seq<LogRow>>) {
    forall i :: 0 <= i < |plans| ==> |plans[i]| <= 2
  }

  /** A sweep only adds to the log; what it adds lies between the number of accounts reached and twice
      that number, one row for each message. */
  lemma {:induction false} SweepAccounting(log: seq<LogRow>, plans: seq<seq<LogRow>>, n: nat)
    requires n <= |plans| && Short(plans)
    ensures log <= Swept(log, plans, n)
    ensures |Swept(log, plans, n)| - |log| <= 2 * Reached(log, plans, n)
    ensures Reached(log, plans, n) <= |Swept(log, plans, n)| - |log|
    ensures Reached(log, plans, n) <= n
  {
    if n == 0 {
    } else {
      SweepAccounting(log, plans, n - 1);
      DispatchGrows(Swept(log, plans, n - 1), plans[n - 1], |plans[n - 1]|);
    }
  }

  /** The same for the sweep of any input: what it dispatches, in terms of the accounts it reached. */
  lemma {:induction false} SweepOfInputAccounting(log: seq<LogRow>, input: Input)
    ensures var n := |input.accounts|;
            var dispatched := |Swept(log, PlansOf(input), n)| - |log|;
            var reached := Reached(log, PlansOf(input), n);
            reached <= dispatched <= 2 * reached && reached <= n
  {
    PlansAreShort(input);
    SweepAccounting(log, PlansOf(input), |input.accounts|);
  }

  /** The keys of a list of messages are all in the log. */
  ghost predicate Settled(log: seq<LogRow>, messages: seq<LogRow>) {
    forall i :: 0 <= i < |messages| ==> KeyTaken(log, messages[i].dedupeKey)
  }

  lemma {:induction false} NothingToDispatch(log: seq<LogRow>, messages: seq<LogRow>, n: nat)
    requires n <= |messages| && Settled(log, messages)
    ensures Dispatched(log, messages, n) == log
  {
    if n == 0 {
    } else {
      NothingToDispatch(log, messages, n - 1);
    }
  }

  lemma {:induction false} SweepSettles(log: seq<LogRow>, plans: seq<seq<LogRow>>, n: nat, k: nat)
    requires k < n <= |plans|
    ensures Settled(Swept(log, plans, n), plans[k])
  {
    var before, after := Swept(log, plans, n - 1), Swept(log, plans, n);
    DispatchGrows(before, plans[n - 1], |plans[n - 1]|);
    if k < n - 1 {
      SweepSettles(log, plans, n - 1, k);
      forall i | 0 <= i < |plans[k]| ensures KeyTaken(after, plans[k][i].dedupeKey) {
        KeysStayTaken(before, after, plans[k][i].dedupeKey);
      }
    }
  }

  /** Repeating a sweep on unchanged data sends nothing, reaches nobody and leaves the log as it is. */
  lemma {:induction false} RepeatSendsNothing(log: seq<LogRow>, plans: seq<seq<LogRow>>, n: nat)
    requires n <= |plans|
    ensures var once := Swept(log, plans, |plans|);
            Swept(once, plans, n) == once && Reached(once, plans, n) == 0
  {
    if n == 0 {
    } else {
      RepeatSendsNothing(log, plans, n - 1);
      SweepSettles(log, plans, |plans|, n - 1);
      NothingToDispatch(Swept(log, plans, |plans|), plans[n - 1], |plans[n - 1]|);
    }
  }
}
