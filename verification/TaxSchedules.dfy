/** Tax schedules: the recurring due date, the sweep that advances it, and its reminders. */
module TaxSchedules {
  import opened Wrappers
  import opened Calendar

  datatype Frequency = MONTHLY | QUARTERLY | ANNUALLY

  /** A schedule row joined with the manager of its property. Dates are days. */
  datatype Schedule = Schedule(propertyId: string, frequency: Frequency, dueDay: int, isActive: bool,
                               nextDueDate: int, lastNotifiedDays: Option<int>)

  /** A reminder that went out: for which due date and how many days ahead of it. */
  datatype Notice = Notice(dueDate: int, daysAhead: int)

  function Period(frequency: Frequency): int {
    match frequency
    case MONTHLY => 1
    case QUARTERLY => 3
    case ANNUALLY => 12
  }

  function ClampDueDay(dueDay: int): int {
    Min(Max(dueDay, 1), 28)
  }

  // ---- Choosing and advancing the due date ----

  function CalculateNextDueDate(frequency: Frequency, dueDay: int, today: int): int {
    NextDueDateFrom(frequency, dueDay, today, MonthOf(today) / 12, MonthOf(today) % 12)
  }

  function NextDueDateFrom(frequency: Frequency, dueDay: int, today: int, year: int, month0: int): int {
    var clampedDay := ClampDueDay(dueDay);
    var next := JsDate(year, month0, clampedDay);
    if next <= today then
      match frequency
      case MONTHLY => JsDate(year, month0 + 1, clampedDay)
      case QUARTERLY => JsDate(year, month0 + 3, clampedDay)
      case ANNUALLY => JsDate(year + 1, month0, clampedDay)
    else next
  }

  function AdvanceDueDate(frequency: Frequency, current: int): int {
    var year, month0 := MonthOf(current) / 12, MonthOf(current) % 12;
    match frequency
    case MONTHLY => JsDate(year, month0 + 1, DayOfMonth(current))
    case QUARTERLY => JsDate(year, month0 + 3, DayOfMonth(current))
    case ANNUALLY => JsDate(year + 1, month0, DayOfMonth(current))
  }

  /** The due date after k advances. */
  function Progression(frequency: Frequency, start: int, k: nat): int {
    if k == 0 then start else AdvanceDueDate(frequency, Progression(frequency, start, k - 1))
  }

  function DateIn(month: int, day: int): int {
    MonthStart(month) + day - 1
  }

  lemma AdvanceIsPeriodLater(frequency: Frequency, current: int)
    ensures AdvanceDueDate(frequency, current)
            == DateIn(MonthOf(current) + Period(frequency), DayOfMonth(current))
    ensures AdvanceDueDate(frequency, current) >= current + 28
  {
    var month := MonthOf(current);
    assert 12 * (month / 12) + month % 12 == month;
    assert 12 * (month / 12 + 1) + month % 12 == month + 12;
    MonthsOrdered(month, month + Period(frequency));
  }

  lemma DateInReadsBack(month: int, day: int)
    requires 1 <= day <= 28
    ensures MonthOf(DateIn(month, day)) == month && DayOfMonth(DateIn(month, day)) == day
  {
    MonthsOrdered(month, month + 1);
    MonthOfIsTheMonth(DateIn(month, day), month);
  }

  lemma OnePeriodLater(frequency: Frequency, current: int)
    requires DayOfMonth(current) <= 28
    ensures MonthOf(AdvanceDueDate(frequency, current)) == MonthOf(current) + Period(frequency)
    ensures DayOfMonth(AdvanceDueDate(frequency, current)) == DayOfMonth(current)
  {
    AdvanceIsPeriodLater(frequency, current);
    MonthOfIsTheMonth(current, MonthOf(current));
    DateInReadsBack(MonthOf(current) + Period(frequency), DayOfMonth(current));
  }

  lemma OneMorePeriod(k: nat, period: int)
    ensures (k + 1) * period == k * period + period
  {
  }

  /** k advances move the date by exactly k periods and never change its day of the month. */
  lemma {:induction false} AdvancesAddPeriods(frequency: Frequency, start: int, k: nat)
    requires DayOfMonth(start) <= 28
    ensures MonthOf(Progression(frequency, start, k)) == MonthOf(start) + k * Period(frequency)
    ensures DayOfMonth(Progression(frequency, start, k)) == DayOfMonth(start)
  {
    if k == 0 {
    } else {
      AdvancesAddPeriods(frequency, start, k - 1);
      OnePeriodLater(frequency, Progression(frequency, start, k - 1));
      OneMorePeriod(k - 1, Period(frequency));
    }
  }

  lemma {:induction false} ProgressionIncreases(frequency: Frequency, start: int, j: nat, k: nat)
    requires j <= k
    ensures Progression(frequency, start, j) + 28 * (k - j) <= Progression(frequency, start, k)
    decreases k
  {
    if j < k {
      ProgressionIncreases(frequency, start, j, k - 1);
      AdvanceIsPeriodLater(frequency, Progression(frequency, start, k - 1));
    }
  }

  lemma {:induction false} ProgressionShifts(frequency: Frequency, start: int, k: nat)
    ensures Progression(frequency, AdvanceDueDate(frequency, start), k) == Progression(frequency, start, k + 1)
  {
    if k == 0 {
    } else {
      ProgressionShifts(frequency, start, k - 1);
    }
  }

  /** A created due date lies after today, on the clamped day, and is the first such date among the
      months a whole number of periods away from the current one; for monthly schedules, of all. */
  lemma CreatedDateIsNext(frequency: Frequency, dueDay: int, today: int)
    ensures var date := CalculateNextDueDate(frequency, dueDay, today);
            && date > today
            && DayOfMonth(date) == ClampDueDay(dueDay)
            && DayOfMonth(date) == (if dueDay < 1 then 1 else if dueDay > 28 then 28 else dueDay)
            && forall month :: month % Period(frequency) == MonthOf(today) % Period(frequency)
                               && DateIn(month, ClampDueDay(dueDay)) > today
                               ==> date <= DateIn(month, ClampDueDay(dueDay))
  {
    MonthOfIsTheMonth(today, MonthOf(today));
    CreatedFromMonth(frequency, dueDay, today, MonthOf(today));
  }

  lemma CreatedFromMonth(frequency: Frequency, dueDay: int, today: int, current: int)
    requires MonthStart(current) <= today < MonthStart(current + 1)
    ensures var date := NextDueDateFrom(frequency, dueDay, today, current / 12, current % 12);
            && date > today
            && DayOfMonth(date) == ClampDueDay(dueDay)
            && forall month :: month % Period(frequency) == current % Period(frequency)
                               && DateIn(month, ClampDueDay(dueDay)) > today
                               ==> date <= DateIn(month, ClampDueDay(dueDay))
  {
    var day := ClampDueDay(dueDay);
    NextInMonths(frequency, dueDay, today, current);
    DateInReadsBack(if DateIn(current, day) <= today then current + Period(frequency) else current, day);
    DatesInOrder(current + 1, current + Period(frequency), 1, day);
    forall month | month % Period(frequency) == current % Period(frequency) && DateIn(month, day) > today
      ensures DateIn(if DateIn(current, day) <= today then current + Period(frequency) else current, day)
              <= DateIn(month, day)
    {
      FirstAmongMonths(frequency, day, today, current, month);
    }
  }

  lemma FirstAmongMonths(frequency: Frequency, day: int, today: int, current: int, month: int)
    requires MonthStart(current) <= today && 1 <= day <= 28
    requires month % Period(frequency) == current % Period(frequency) && DateIn(month, day) > today
    ensures DateIn(if DateIn(current, day) <= today then current + Period(frequency) else current, day)
            <= DateIn(month, day)
  {
    WholePeriods(frequency, current, month);
    if month < current {
      MonthsOrdered(month, current);
    } else {
      DatesInOrder(current, month, day, day);
      DatesInOrder(current + Period(frequency), month, day, day);
    }
  }

  lemma NextInMonths(frequency: Frequency, dueDay: int, today: int, current: int)
    ensures var day := ClampDueDay(dueDay);
            NextDueDateFrom(frequency, dueDay, today, current / 12, current % 12)
            == DateIn(if DateIn(current, day) <= today then current + Period(frequency) else current, day)
  {
    var year, month0, day := current / 12, current % 12, ClampDueDay(dueDay);
    assert 12 * year + month0 == current;
    assert JsDate(year, month0, day) == DateIn(current, day);
    assert JsDate(year, month0 + 1, day) == DateIn(current + 1, day) by {
      assert 12 * year + (month0 + 1) == current + 1;
    }
    assert JsDate(year, month0 + 3, day) == DateIn(current + 3, day) by {
      assert 12 * year + (month0 + 3) == current + 3;
    }
    assert JsDate(year + 1, month0, day) == DateIn(current + 12, day) by {
      assert 12 * (year + 1) + month0 == current + 12;
    }
  }

  lemma WholePeriods(frequency: Frequency, a: int, b: int)
    requires a % Period(frequency) == b % Period(frequency)
    ensures b < a || b == a || b >= a + Period(frequency)
  {
  }

  lemma DatesInOrder(j: int, k: int, a: int, b: int)
    requires a <= b
    ensures j <= k ==> DateIn(j, a) <= DateIn(k, b)
  {
    if j < k {
      MonthsOrdered(j, k);
    }
  }

  // ---- One sweep over one schedule ----

  predicate IsReminderDay(daysUntilDue: int) {
    daysUntilDue == 5 || daysUntilDue == 3 || daysUntilDue == 1
  }

  predicate SendsNotice(s: Schedule, today: int, hasManager: bool) {
    && s.nextDueDate >= today
    && IsReminderDay(s.nextDueDate - today)
    && s.lastNotifiedDays != Some(s.nextDueDate - today)
    && hasManager
  }

  /** The row a sweep leaves. Advancing sets the entity's lastNotifiedDays to undefined, and a save writes
      no undefined value, so the stored number of the previous due date stays. */
  function SweepOne(s: Schedule, today: int, hasManager: bool): Schedule {
    if s.nextDueDate < today then
      s.(nextDueDate := AdvanceDueDate(s.frequency, s.nextDueDate))
    else if SendsNotice(s, today, hasManager) then
      s.(lastNotifiedDays := Some(s.nextDueDate - today))
    else s
  }

  // ---- The service ----

  datatype Sent = Sent(managerId: string, schedule: nat, notice: Notice)

  predicate InScope(managers: map<string, string>, caller: Option<Caller>, s: Schedule) {
    s.isActive
    && (caller.Some? && caller.value.Manager? ==>
          s.propertyId in managers && managers[s.propertyId] == caller.value.id)
  }

  function HasManager(managers: map<string, string>, s: Schedule): bool {
    s.propertyId in managers && managers[s.propertyId] != ""
  }

  function SweepRow(managers: map<string, string>, caller: Option<Caller>, today: int, s: Schedule): Schedule {
    if InScope(managers, caller, s) then SweepOne(s, today, HasManager(managers, s)) else s
  }

  function SentUpTo(managers: map<string, string>, caller: Option<Caller>, today: int,
                    schedules: seq<Schedule>, n: nat): seq<Sent>
    requires n <= |schedules|
  {
    if n == 0 then [] else
      var s := schedules[n - 1];
      SentUpTo(managers, caller, today, schedules, n - 1)
      + if InScope(managers, caller, s) && SendsNotice(s, today, HasManager(managers, s))
        then [Sent(managers[s.propertyId], n - 1, Notice(s.nextDueDate, s.nextDueDate - today))]
        else []
  }

  class TaxSchedulesService {
    var schedules: seq<Schedule>
    var managers: map<string, string>
    var sent: seq<Sent>

    constructor (managers: map<string, string>)
      ensures schedules == [] && sent == [] && this.managers == managers
    {
      schedules, sent, this.managers := [], [], managers;
    }

    method Create(propertyId: string, frequency: Frequency, dueDay: int, today: int, caller: Caller)
      returns (r: Result<Schedule>)
      modifies this`schedules
      ensures propertyId !in managers ==> r == Err(NotFound)
      ensures propertyId in managers && caller.Manager? && managers[propertyId] != caller.id ==> r == Err(Forbidden)
      ensures r.Err? ==> schedules == old(schedules)
                         && (propertyId !in managers || (caller.Manager? && managers[propertyId] != caller.id))
      ensures r.Ok? ==> schedules == old(schedules) + [r.value]
                        && r.value == Schedule(propertyId, frequency, dueDay, true,
                                               CalculateNextDueDate(frequency, dueDay, today), None)
                        && r.value.nextDueDate > today
    {
      if propertyId !in managers {
        return Err(NotFound);
      }
      if caller.Manager? && managers[propertyId] != caller.id {
        return Err(Forbidden);
      }
      CreatedDateIsNext(frequency, dueDay, today);
      var nextDueDate := CalculateNextDueDate(frequency, dueDay, today);
      var schedule := Schedule(propertyId, frequency, dueDay, true, nextDueDate, None);
      schedules := schedules + [schedule];
      r := Ok(schedule);
    }

    /** The body of the sweep for one schedule in scope. */
    method AdvanceOrNotify(schedule: Schedule, i: nat, today: int) returns (after: Schedule, notified: bool)
      modifies this`sent
      ensures after == SweepOne(schedule, today, HasManager(managers, schedule))
      ensures notified == SendsNotice(schedule, today, HasManager(managers, schedule))
      ensures sent == old(sent)
                      + if notified then [Sent(managers[schedule.propertyId], i,
                                               Notice(schedule.nextDueDate, schedule.nextDueDate - today))] else []
    {
      after, notified := schedule, false;
      var daysUntilDue := schedule.nextDueDate - today;
      if daysUntilDue < 0 {
        after := schedule.(nextDueDate := AdvanceDueDate(schedule.frequency, schedule.nextDueDate));
        return;
      }
      if IsReminderDay(daysUntilDue) && schedule.lastNotifiedDays != Some(daysUntilDue) {
        if HasManager(managers, schedule) {
          sent := sent + [Sent(managers[schedule.propertyId], i, Notice(schedule.nextDueDate, daysUntilDue))];
          after := schedule.(lastNotifiedDays := Some(daysUntilDue));
          notified := true;
        }
      }
    }

    method CheckAndSendNotifications(caller: Option<Caller>, today: int) returns (sentCount: Result<nat>)
      modifies this`schedules, this`sent
      ensures caller.Some? && caller.value.OtherRole? ==>
                sentCount == Err(Forbidden) && schedules == old(schedules) && sent == old(sent)
      ensures !(caller.Some? && caller.value.OtherRole?) ==>
                && |schedules| == |old(schedules)|
                && (forall i :: 0 <= i < |schedules| ==>
                      schedules[i] == SweepRow(managers, caller, today, old(schedules)[i]))
                && sent == old(sent) + SentUpTo(managers, caller, today, old(schedules), |old(schedules)|)
                && sentCount == Ok(|sent| - |old(sent)|)
    {
      if caller.Some? && caller.value.OtherRole? {
        return Err(Forbidden);
      }
      var count := 0;
      var i := 0;
      while i < |schedules|
        invariant 0 <= i <= |schedules| == |old(schedules)|
        invariant forall j :: 0 <= j < i ==> schedules[j] == SweepRow(managers, caller, today, old(schedules)[j])
        invariant forall j :: i <= j < |schedules| ==> schedules[j] == old(schedules)[j]
        invariant sent == old(sent) + SentUpTo(managers, caller, today, old(schedules), i)
        invariant count == |sent| - |old(sent)|
      {
        var schedule := schedules[i];
        if InScope(managers, caller, schedule) {
          var notified;
          schedule, notified := AdvanceOrNotify(schedule, i, today);
          if notified {
            count := count + 1;
          }
        }
        schedules := schedules[i := schedule];
        i := i + 1;
      }
      sentCount := Ok(count);
    }
  }

  // ---- Catching up: repeated sweeps on one day ----

  function SweepTimes(s: Schedule, today: int, hasManager: bool, n: nat): Schedule {
    if n == 0 then s else SweepOne(SweepTimes(s, today, hasManager, n - 1), today, hasManager)
  }

  /** How many periods have to be added before the due date is today or later. */
  function Missed(frequency: Frequency, due: int, today: int): nat
    decreases today - due
  {
    if due >= today then 0
    else
      AdvanceIsPeriodLater(frequency, due);
      1 + Missed(frequency, AdvanceDueDate(frequency, due), today)
  }

  /** The missed periods are exactly the dates of the progression before today. */
  lemma {:induction false} MissedIsLeast(frequency: Frequency, due: int, today: int, k: nat)
    ensures Progression(frequency, due, k) >= today <==> Missed(frequency, due, today) <= k
    decreases today - due
  {
    if due >= today {
      ProgressionIncreases(frequency, due, 0, k);
    } else {
      AdvanceIsPeriodLater(frequency, due);
      if k > 0 {
        MissedIsLeast(frequency, AdvanceDueDate(frequency, due), today, k - 1);
        ProgressionShifts(frequency, due, k - 1);
      }
    }
  }

  /** Sweeping again and again on one day advances once a sweep and stops after exactly the missed
      periods, at the first date of the progression that is today or later. */
  lemma {:induction false} CatchUpStopsExactly(s: Schedule, today: int, hasManager: bool, n: nat)
    ensures var missed := Missed(s.frequency, s.nextDueDate, today);
            && SweepTimes(s, today, hasManager, n).nextDueDate
               == Progression(s.frequency, s.nextDueDate, if n < missed then n else missed)
            && SweepTimes(s, today, hasManager, n).frequency == s.frequency
            && (forall k: nat :: Progression(s.frequency, s.nextDueDate, k) >= today <==> k >= missed)
  {
    CatchUpReaches(s, today, hasManager, n);
    forall k: nat
      ensures Progression(s.frequency, s.nextDueDate, k) >= today <==> k >= Missed(s.frequency, s.nextDueDate, today)
    {
      MissedIsLeast(s.frequency, s.nextDueDate, today, k);
    }
  }

  lemma {:induction false} CatchUpReaches(s: Schedule, today: int, hasManager: bool, n: nat)
    ensures var missed := Missed(s.frequency, s.nextDueDate, today);
            && SweepTimes(s, today, hasManager, n).nextDueDate
               == Progression(s.frequency, s.nextDueDate, if n < missed then n else missed)
            && SweepTimes(s, today, hasManager, n).frequency == s.frequency
  {
    if n == 0 {
    } else {
      var missed := Missed(s.frequency, s.nextDueDate, today);
      CatchUpReaches(s, today, hasManager, n - 1);
      MissedIsLeast(s.frequency, s.nextDueDate, today, if n - 1 < missed then n - 1 else missed);
    }
  }

  // ---- Notices over runs of sweeps ----

  /** One sweep that includes the schedule: the day, and whether its property has a manager. */
  datatype Visit = Visit(today: int, hasManager: bool)

  /** The clock never runs backwards and starts no earlier than `from`. */
  predicate InOrder(visits: seq<Visit>, from: int)
    decreases |visits|
  {
    visits == [] || (from <= visits[0].today && InOrder(visits[1..], visits[0].today))
  }

  function Notices(s: Schedule, visits: seq<Visit>): seq<Notice>
    decreases |visits|
  {
    if visits == [] then []
    else
      var v := visits[0];
      (if SendsNotice(s, v.today, v.hasManager) then [Notice(s.nextDueDate, s.nextDueDate - v.today)] else [])
      + Notices(SweepOne(s, v.today, v.hasManager), visits[1..])
  }

  function Count(log: seq<Notice>, n: Notice): nat {
    multiset(log)[n]
  }

  /** Whether a notice can no longer be sent once the clock has reached `from`. */
  predicate Spent(s: Schedule, from: int, n: Notice) {
    || n.dueDate < s.nextDueDate
    || (n.dueDate == s.nextDueDate
        && (s.nextDueDate - from < n.daysAhead
            || (s.nextDueDate - from == n.daysAhead && s.lastNotifiedDays == Some(n.daysAhead))))
  }

  /** Whatever the schedule's past and however many sweeps a day, a due date gets at most one notice
      for each number of days ahead, and only for 5, 3 and 1. */
  lemma {:induction false} NoticeAtMostOnce(s: Schedule, visits: seq<Visit>, from: int, n: Notice)
    requires InOrder(visits, from)
    ensures Count(Notices(s, visits), n) <= 1
    ensures Spent(s, from, n) || !IsReminderDay(n.daysAhead) ==> Count(Notices(s, visits), n) == 0
    decreases |visits|
  {
    if visits == [] {
    } else {
      var v := visits[0];
      var after := SweepOne(s, v.today, v.hasManager);
      if s.nextDueDate < v.today {
        AdvanceIsPeriodLater(s.frequency, s.nextDueDate);
      }
      NoticeAtMostOnce(after, visits[1..], v.today, n);
    }
  }

  /** A sweep sees the due date of a notice exactly so many days ahead, with a manager to tell. */
  predicate Sees(s: Schedule, v: Visit, n: Notice) {
    v.hasManager && s.nextDueDate == n.dueDate && s.nextDueDate - v.today == n.daysAhead
  }

  /** The position of the first sweep that sees the day of a notice; past the end if none does. */
  function FirstSight(s: Schedule, visits: seq<Visit>, n: Notice): (p: nat)
    ensures p <= |visits|
    decreases |visits|
  {
    if visits == [] || Sees(s, visits[0], n) then 0
    else 1 + FirstSight(SweepOne(s, visits[0].today, visits[0].hasManager), visits[1..], n)
  }

  /** For how many days ahead the last notice was, given what was stored before the first of them. */
  function LastDays(stored: Option<int>, log: seq<Notice>): Option<int> {
    if log == [] then stored else Some(log[|log| - 1].daysAhead)
  }

  /** The notices of the sweeps before a position. */
  function NoticesBefore(s: Schedule, visits: seq<Visit>, p: nat): seq<Notice>
    requires p <= |visits|
  {
    Notices(s, visits[..p])
  }

  lemma LastDaysBefore(s: Schedule, visits: seq<Visit>, p: nat)
    requires 0 < p <= |visits|
    ensures var after := SweepOne(s, visits[0].today, visits[0].hasManager);
            LastDays(s.lastNotifiedDays, NoticesBefore(s, visits, p))
            == LastDays(after.lastNotifiedDays, NoticesBefore(after, visits[1..], p - 1))
  {
    assert visits[..p][1..] == visits[1..][..p - 1];
  }

  lemma CountOneMore(s: Schedule, visits: seq<Visit>, n: Notice)
    requires visits != []
    ensures var v := visits[0];
            Count(Notices(s, visits), n)
            == (if SendsNotice(s, v.today, v.hasManager) && Notice(s.nextDueDate, s.nextDueDate - v.today) == n
                then 1 else 0)
               + Count(Notices(SweepOne(s, v.today, v.hasManager), visits[1..]), n)
  {
  }

  lemma SeenAtOnce(s: Schedule, visits: seq<Visit>, from: int, n: Notice)
    requires InOrder(visits, from) && IsReminderDay(n.daysAhead) && visits != [] && Sees(s, visits[0], n)
    ensures Count(Notices(s, visits), n) == if s.lastNotifiedDays != Some(n.daysAhead) then 1 else 0
  {
    CountOneMore(s, visits, n);
    NoticeAtMostOnce(SweepOne(s, visits[0].today, true), visits[1..], visits[0].today, n);
  }

  /** A notice goes out, once, exactly when a sweep with a manager present falls on its day and the last
      notice before that sweep was not for the same number of days; that last notice may well have been
      for another due date. */
  lemma {:induction false} NoticeIffSeen(s: Schedule, visits: seq<Visit>, from: int, n: Notice)
    requires InOrder(visits, from) && IsReminderDay(n.daysAhead)
    ensures var p := FirstSight(s, visits, n);
            Count(Notices(s, visits), n)
            == if p < |visits| && LastDays(s.lastNotifiedDays, NoticesBefore(s, visits, p)) != Some(n.daysAhead)
               then 1 else 0
    decreases |visits|
  {
    if visits == [] {
    } else {
      var v := visits[0];
      if Sees(s, v, n) {
        SeenAtOnce(s, visits, from, n);
        assert visits[..0] == [];
      } else {
        NoticeIffSeen(SweepOne(s, v.today, v.hasManager), visits[1..], v.today, n);
        CountOneMore(s, visits, n);
        LastDaysBefore(s, visits, FirstSight(s, visits, n));
      }
    }
  }

  /** A due date whose only notice was on its eve silences the eve of the next: the number stored for the
      first is still there when the second comes. */
  lemma {:induction false} EveSilencesNextEve(s: Schedule)
    requires s.lastNotifiedDays == None
    ensures var next := AdvanceDueDate(s.frequency, s.nextDueDate);
            var visits := [Visit(s.nextDueDate - 1, true), Visit(s.nextDueDate + 1, true), Visit(next - 1, true)];
            && InOrder(visits, s.nextDueDate - 1)
            && FirstSight(s, visits, Notice(next, 1)) == 2
            && Notices(s, visits) == [Notice(s.nextDueDate, 1)]
  {
    var due, next := s.nextDueDate, AdvanceDueDate(s.frequency, s.nextDueDate);
    var first, second, third := Visit(due - 1, true), Visit(due + 1, true), Visit(next - 1, true);
    var told := s.(lastNotifiedDays := Some(1));
    var advanced := told.(nextDueDate := next);
    AdvanceIsPeriodLater(s.frequency, due);
    assert SweepOne(s, due - 1, true) == told && SweepOne(told, due + 1, true) == advanced;
    assert [first, second, third][1..] == [second, third] && [second, third][1..] == [third] && [third][1..] == [];
    assert Notices(SweepOne(advanced, next - 1, true), []) == [];
    assert Notices(advanced, [third]) == [] && FirstSight(advanced, [third], Notice(next, 1)) == 0;
    assert Notices(told, [second, third]) == [] && FirstSight(told, [second, third], Notice(next, 1)) == 1;
    assert InOrder([third], due + 1) && InOrder([second, third], due - 1);
  }

  // ---- Daily sweeps ----

  predicate Managed(visits: seq<Visit>) {
    visits == [] || (visits[0].hasManager && Managed(visits[1..]))
  }

  /** At least one sweep on every day from the first one to the last. */
  predicate Daily(visits: seq<Visit>) {
    |visits| <= 1 || (visits[0].today <= visits[1].today <= visits[0].today + 1 && Daily(visits[1..]))
  }

  lemma {:induction false} DailyIsInOrder(visits: seq<Visit>, from: int)
    requires Daily(visits)
    requires visits != [] ==> from <= visits[0].today
    ensures InOrder(visits, from)
    decreases |visits|
  {
    if visits == [] {
    } else {
      DailyIsInOrder(visits[1..], visits[0].today);
    }
  }

  /** What daily sweeps leave stored, so many days before the due date: the number of the last reminder day
      that has been passed. Up to the fifth day before it anything may have been stored earlier. */
  predicate OnTrack(stored: Option<int>, daysUntilDue: int) {
    if daysUntilDue >= 5 then true
    else if daysUntilDue == 4 then stored == Some(5)
    else if daysUntilDue == 3 then stored == Some(5) || stored == Some(3)
    else if daysUntilDue == 2 then stored == Some(3)
    else if daysUntilDue == 1 then stored == Some(3) || stored == Some(1)
    else daysUntilDue >= -1 && stored == Some(1)
  }

  lemma DailySweepStaysOnTrack(s: Schedule, today: int, tomorrow: int)
    requires OnTrack(s.lastNotifiedDays, s.nextDueDate - today) && today <= tomorrow <= today + 1
    ensures var after := SweepOne(s, today, true);
            OnTrack(after.lastNotifiedDays, after.nextDueDate - tomorrow)
  {
    AdvanceIsPeriodLater(s.frequency, s.nextDueDate);
  }

  /** A notice of the progression's date j whose day is still to come, or has come and is not told yet; for
      5 days ahead of the first date, the stored number must not be 5. */
  predicate Ahead(s: Schedule, today: int, j: nat, n: Notice) {
    && OnTrack(s.lastNotifiedDays, s.nextDueDate - today)
    && n.dueDate == Progression(s.frequency, s.nextDueDate, j)
    && (j == 0 ==> n.daysAhead <= n.dueDate - today
                   && (n.daysAhead == n.dueDate - today || n.daysAhead == 5
                       ==> s.lastNotifiedDays != Some(n.daysAhead)))
  }

  lemma StillAhead(s: Schedule, v: Visit, tomorrow: int, j: nat, n: Notice) returns (k: nat)
    requires Ahead(s, v.today, j, n) && v.hasManager && !Sees(s, v, n) && IsReminderDay(n.daysAhead)
    requires v.today <= tomorrow <= v.today + 1
    ensures Ahead(SweepOne(s, v.today, true), tomorrow, k, n)
  {
    DailySweepStaysOnTrack(s, v.today, tomorrow);
    k := if s.nextDueDate < v.today then j - 1 else j;
    if s.nextDueDate < v.today {
      ProgressionShifts(s.frequency, s.nextDueDate, k);
      AdvanceIsPeriodLater(s.frequency, s.nextDueDate);
    }
  }

  /** Under daily sweeps each due date of the progression is seen on each of its reminder days, and the
      last notice before that day was for another number of days. */
  lemma {:induction false} DailySweepsSee(s: Schedule, visits: seq<Visit>, j: nat, n: Notice)
    requires Daily(visits) && Managed(visits) && visits != [] && IsReminderDay(n.daysAhead)
    requires Ahead(s, visits[0].today, j, n)
    requires n.dueDate - n.daysAhead <= visits[|visits| - 1].today
    ensures var p := FirstSight(s, visits, n);
            p < |visits| && LastDays(s.lastNotifiedDays, NoticesBefore(s, visits, p)) != Some(n.daysAhead)
    decreases |visits|
  {
    var v, rest := visits[0], visits[1..];
    if Sees(s, v, n) {
      ProgressionIncreases(s.frequency, s.nextDueDate, 0, j);
      assert visits[..0] == [];
    } else {
      NotTheLast(s, v, j, n);
      assert rest != [] && rest[|rest| - 1] == visits[|visits| - 1];
      var k := StillAhead(s, v, rest[0].today, j, n);
      DailySweepsSee(SweepOne(s, v.today, true), rest, k, n);
      LastDaysBefore(s, visits, FirstSight(s, visits, n));
    }
  }

  lemma NotTheLast(s: Schedule, v: Visit, j: nat, n: Notice)
    requires Ahead(s, v.today, j, n) && v.hasManager && !Sees(s, v, n) && IsReminderDay(n.daysAhead)
    ensures v.today < n.dueDate - n.daysAhead
  {
    ProgressionIncreases(s.frequency, s.nextDueDate, 0, j);
  }

  /** A stored 5 silences the notice 5 days ahead of the due date it is stored with. */
  lemma {:induction false} StoredFiveSilences(s: Schedule, visits: seq<Visit>, from: int)
    requires InOrder(visits, from) && s.lastNotifiedDays == Some(5) && s.nextDueDate - from >= 5
    ensures Count(Notices(s, visits), Notice(s.nextDueDate, 5)) == 0
    decreases |visits|
  {
    if visits == [] {
    } else {
      var v, n := visits[0], Notice(s.nextDueDate, 5);
      CountOneMore(s, visits, n);
      if s.nextDueDate - v.today >= 5 {
        StoredFiveSilences(s, visits[1..], v.today);
      } else {
        if s.nextDueDate < v.today {
          AdvanceIsPeriodLater(s.frequency, s.nextDueDate);
        }
        NoticeAtMostOnce(SweepOne(s, v.today, v.hasManager), visits[1..], v.today, n);
      }
    }
  }

  /** Sweeps on every day, a manager present, and the first due date entered more than 5 days ahead: each
      due date whose eve has been swept got exactly the three notices, each exactly once, whatever was
      stored at the start; only a stored 5 silences one of them, that of 5 days ahead of the first date. */
  lemma {:induction false} DailySweepsSendThree(s: Schedule, visits: seq<Visit>, j: nat, n: Notice)
    requires Daily(visits) && Managed(visits) && visits != []
    requires s.nextDueDate - visits[0].today > 5
    requires Progression(s.frequency, s.nextDueDate, j) - 1 <= visits[|visits| - 1].today
    requires n.dueDate == Progression(s.frequency, s.nextDueDate, j)
    ensures Count(Notices(s, visits), n)
            == if IsReminderDay(n.daysAhead) && !(j == 0 && n.daysAhead == 5 && s.lastNotifiedDays == Some(5))
               then 1 else 0
  {
    DailyIsInOrder(visits, visits[0].today);
    if !IsReminderDay(n.daysAhead) {
      NoticeAtMostOnce(s, visits, visits[0].today, n);
    } else if j == 0 && n.daysAhead == 5 && s.lastNotifiedDays == Some(5) {
      StoredFiveSilences(s, visits, visits[0].today);
    } else {
      DailySweepsSee(s, visits, j, n);
      NoticeIffSeen(s, visits, visits[0].today, n);
    }
  }

  // ---- Whose schedules a sweep touches ----

  /** The schedule is active and the sweep runs for everybody, for the owner, or for its property's manager. */
  predicate Concerns(managers: map<string, string>, caller: Option<Caller>, s: Schedule) {
    s.isActive
    && match caller
       case None => true
       case Some(c) => !c.Manager? || (s.propertyId in managers && managers[s.propertyId] == c.id)
  }

  /** A sweep advances exactly the concerned schedules that are past due, stores a number of days exactly with
      those told on that day, and leaves all others as they are: inactive ones and foreign ones too. */
  lemma SweepTouchesConcerned(managers: map<string, string>, caller: Option<Caller>, today: int, s: Schedule)
    ensures var after := SweepRow(managers, caller, today, s);
            var told := Concerns(managers, caller, s) && s.nextDueDate - today in {5, 3, 1}
                        && s.lastNotifiedDays != Some(s.nextDueDate - today)
                        && s.propertyId in managers && managers[s.propertyId] != "";
            && after.nextDueDate == (if Concerns(managers, caller, s) && s.nextDueDate < today
                                     then AdvanceDueDate(s.frequency, s.nextDueDate) else s.nextDueDate)
            && after.lastNotifiedDays == (if told then Some(s.nextDueDate - today) else s.lastNotifiedDays)
            && after.propertyId == s.propertyId && after.frequency == s.frequency && after.dueDay == s.dueDay
            && after.isActive == s.isActive
  {
  }

  /** Everything that is sent goes to the manager of a concerned schedule's property, on one of the three
      days, about its due date; and nothing else is sent. */
  lemma {:induction false} SentIsConcerned(managers: map<string, string>, caller: Option<Caller>, today: int,
                                           schedules: seq<Schedule>, n: nat, sent: Sent)
    requires n <= |schedules|
    ensures sent in SentUpTo(managers, caller, today, schedules, n)
            <==> && sent.schedule < n
                 && var s := schedules[sent.schedule];
                    && Concerns(managers, caller, s) && s.propertyId in managers && managers[s.propertyId] != ""
                    && sent.managerId == managers[s.propertyId]
                    && sent.notice == Notice(s.nextDueDate, s.nextDueDate - today)
                    && sent.notice.daysAhead in {5, 3, 1} && s.lastNotifiedDays != Some(sent.notice.daysAhead)
  {
    if n == 0 {
    } else {
      SentIsConcerned(managers, caller, today, schedules, n - 1, sent);
    }
  }
}
