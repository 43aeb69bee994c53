/** The date helpers of the seed script and the payment history built with them. */
module SeedCalendar {
  import opened Calendar

  const DUE_HOUR_MS := 9 * 60 * 60 * 1000
  const HISTORY_MONTHS := 12

  /** A month as the script returns it: the year and the month from 1 to 12. */
  datatype YearMonth = YearMonth(year: int, month: int) {
    function Index(): int { 12 * year + month - 1 }
  }

  /** What shifting back must give, without the loop: the month whose number is monthsBack lower. */
  function MonthsBefore(baseYear: int, baseMonth: int, monthsBack: int): YearMonth {
    var index := 12 * baseYear + baseMonth - 1 - monthsBack;
    YearMonth(index / 12, index % 12 + 1)
  }

  method ShiftMonth(baseYear: int, baseMonth: int, monthsBack: int) returns (r: YearMonth)
    ensures r.Index() == 12 * baseYear + baseMonth - 1 - monthsBack
    ensures 1 <= r.month
    ensures r.month <= 12 <==> baseMonth - monthsBack <= 12
    ensures baseMonth - monthsBack <= 12 ==> r == MonthsBefore(baseYear, baseMonth, monthsBack)
  {
    var month := baseMonth - monthsBack;
    var year := baseYear;
    while month <= 0
      invariant 12 * year + month == 12 * baseYear + baseMonth - monthsBack
      invariant month <= 12 <==> baseMonth - monthsBack <= 12
      decreases -month
    {
      month := month + 12;
      year := year - 1;
    }
    r := YearMonth(year, month);
  }

  lemma ShiftsCompose(year: int, month: int, a: int, b: int)
    ensures var once := MonthsBefore(year, month, a);
            MonthsBefore(once.year, once.month, b) == MonthsBefore(year, month, a + b)
  {
    var index := 12 * year + month - 1 - a;
    assert 12 * (index / 12) + index % 12 == index;
  }

  lemma ShiftsDiffer(year: int, month: int, a: int, b: int)
    requires a != b
    ensures MonthsBefore(year, month, a) != MonthsBefore(year, month, b)
  {
    assert MonthsBefore(year, month, a).Index() == 12 * year + month - 1 - a;
    assert MonthsBefore(year, month, b).Index() == 12 * year + month - 1 - b;
  }

  /** A point in time: the UTC day and the milliseconds since its midnight. */
  datatype Instant = Instant(day: int, ms: int) {
    predicate AtOrAfter(other: Instant) {
      day > other.day || (day == other.day && ms >= other.ms)
    }
  }

  /** The instant of a due date: nine in the morning, UTC. */
  function BuildDueDate(year: int, month: int, dueDay: int): Instant {
    Instant(DueDate(year, month, dueDay), DUE_HOUR_MS)
  }

  /** The same instant with the month given by its number. */
  function DueInstant(month: int, dueDay: int): Instant {
    Instant(DueIn(month, dueDay), DUE_HOUR_MS)
  }

  function NextMonthlyDueDate(now: Instant, dueDay: int): int {
    var year, month0 := MonthOf(now.day) / 12, MonthOf(now.day) % 12;
    var candidate := BuildDueDate(year, month0 + 1, dueDay);
    if candidate.AtOrAfter(now) then candidate.day
    else
      var next := JsDate(year, month0 + 1, 1);
      BuildDueDate(MonthOf(next) / 12, MonthOf(next) % 12 + 1, dueDay).day
  }

  function NextQuarterlyDueDate(now: Instant): int {
    QuarterlyAfter(MonthOf(now.day) / 12, MonthOf(now.day) % 12)
  }

  function QuarterlyAfter(year: int, month0: int): int {
    var nextQuarterMonth := (month0 / 3 + 1) * 3;
    BuildDueDate(year + (if nextQuarterMonth >= 12 then 1 else 0), nextQuarterMonth % 12 + 1, 1).day
  }

  function NextAnnualDueDate(now: Instant, month: int, day: int): int {
    AnnualFrom(now, MonthOf(now.day) / 12, month, day)
  }

  function AnnualFrom(now: Instant, year: int, month: int, day: int): int {
    if BuildDueDate(year, month, day).AtOrAfter(now) then BuildDueDate(year, month, day).day
    else BuildDueDate(year + 1, month, day).day
  }

  /** Due days of earlier months lie before the month of `now`, those of later months after it. */
  lemma DueDayAround(now: Instant, month: int, dueDay: int)
    ensures month < MonthOf(now.day) ==> DueIn(month, dueDay) < now.day
    ensures month > MonthOf(now.day) ==> DueIn(month, dueDay) > now.day
  {
    var current := MonthOf(now.day);
    MonthOfIsTheMonth(now.day, current);
    if month < current {
      DueDatesIncrease(month, current, dueDay);
    } else if month > current {
      DueDatesIncrease(current, month, dueDay);
      MonthsOrdered(current, current + 1);
      if current + 1 < month {
        MonthsOrdered(current + 1, month);
      }
    }
  }

  lemma DueInstantAround(now: Instant, month: int, dueDay: int)
    ensures month < MonthOf(now.day) ==> !DueInstant(month, dueDay).AtOrAfter(now)
    ensures month > MonthOf(now.day) ==> DueInstant(month, dueDay).AtOrAfter(now)
  {
    DueDayAround(now, month, dueDay);
  }

  lemma DueDaysIncrease(j: int, k: int, dueDay: int)
    requires j <= k
    ensures DueIn(j, dueDay) <= DueIn(k, dueDay)
  {
    if j < k {
      DueDatesIncrease(j, k, dueDay);
    }
  }

  /** Of the months a multiple of `every` apart from it, the one with the first due instant not
      before `now`. */
  ghost predicate IsEarliest(now: Instant, dueDay: int, every: int, month: int)
    requires every > 0
  {
    && DueInstant(month, dueDay).AtOrAfter(now)
    && forall other {:trigger DueIn(other, dueDay)} ::
         (other % every == month % every && DueInstant(other, dueDay).AtOrAfter(now)
          ==> DueIn(month, dueDay) <= DueIn(other, dueDay))
  }

  lemma DueInstantsIncrease(j: int, k: int, dueDay: int)
    requires j <= k
    ensures DueInstant(k, dueDay).AtOrAfter(DueInstant(j, dueDay))
  {
    DueDaysIncrease(j, k, dueDay);
  }

  lemma SameResidue(a: int, b: int, every: int)
    requires every == 1 || every == 3 || every == 12
    requires a % every == b % every && a < b
    ensures a <= b - every
  {
  }

  /** A month whose predecessor in the progression is past and whose own instant is not is the first. */
  lemma EarliestFrom(now: Instant, dueDay: int, every: int, month: int)
    requires every == 1 || every == 3 || every == 12
    requires !DueInstant(month - every, dueDay).AtOrAfter(now)
    requires DueInstant(month, dueDay).AtOrAfter(now)
    ensures IsEarliest(now, dueDay, every, month)
  {
    forall other | other % every == month % every && DueInstant(other, dueDay).AtOrAfter(now)
      ensures DueIn(month, dueDay) <= DueIn(other, dueDay)
    {
      if other < month {
        SameResidue(other, month, every);
        DueInstantsIncrease(other, month - every, dueDay);
      } else {
        DueDaysIncrease(month, other, dueDay);
      }
    }
  }

  /** With the previous month of the progression past and the next one to come, only two are left. */
  lemma EarliestOfTwo(now: Instant, dueDay: int, every: int, month: int)
    requires every == 1 || every == 3 || every == 12
    requires !DueInstant(month - every, dueDay).AtOrAfter(now)
    requires DueInstant(month + every, dueDay).AtOrAfter(now)
    ensures var chosen := if DueInstant(month, dueDay).AtOrAfter(now) then month else month + every;
            IsEarliest(now, dueDay, every, chosen)
  {
    EarliestFrom(now, dueDay, every, if DueInstant(month, dueDay).AtOrAfter(now) then month else month + every);
  }

  /** The monthly helper returns the day of the first due instant that is not before `now`. */
  lemma NextMonthlyIsEarliest(now: Instant, dueDay: int) returns (month: int)
    ensures IsEarliest(now, dueDay, 1, month)
    ensures NextMonthlyDueDate(now, dueDay) == DueIn(month, dueDay)
  {
    var current := MonthOf(now.day);
    DueInstantAround(now, current - 1, dueDay);
    DueInstantAround(now, current + 1, dueDay);
    NextMonthlyUnfolded(now, dueDay);
    EarliestOfTwo(now, dueDay, 1, current);
    month := if DueInstant(current, dueDay).AtOrAfter(now) then current else current + 1;
  }

  lemma NextMonthlyUnfolded(now: Instant, dueDay: int)
    ensures var current := MonthOf(now.day);
            NextMonthlyDueDate(now, dueDay)
            == DueIn(if DueInstant(current, dueDay).AtOrAfter(now) then current else current + 1, dueDay)
  {
    var current := MonthOf(now.day);
    FollowingMonth(current);
  }

  lemma FollowingMonth(month: int)
    ensures MonthOf(JsDate(month / 12, month % 12 + 1, 1)) == month + 1
  {
    assert 12 * (month / 12) + (month % 12 + 1) == month + 1;
    MonthOfFirstDay(month + 1);
  }

  lemma MonthOfFirstDay(month: int)
    ensures MonthOf(MonthStart(month)) == month
  {
    MonthsOrdered(month, month + 1);
    MonthOfIsTheMonth(MonthStart(month), month);
  }

  /** The quarter start the quarterly helper settles on: that of the following quarter. */
  function NextQuarterMonth(now: Instant): int {
    var current := MonthOf(now.day);
    current - current % 3 + 3
  }

  lemma NextQuarterlyIsQuarterStart(now: Instant)
    ensures NextQuarterlyDueDate(now) == DueIn(NextQuarterMonth(now), 1)
    ensures NextQuarterMonth(now) % 3 == 0
  {
    QuarterStart(MonthOf(now.day));
    QuarterlyAfterMonth(MonthOf(now.day));
  }

  lemma QuarterlyAfterMonth(month: int)
    ensures QuarterlyAfter(month / 12, month % 12) == DueIn(month - month % 3 + 3, 1)
  {
    var nextQuarterMonth := (month % 12 / 3 + 1) * 3;
    QuarterInYear(month);
    BuiltInstant(month / 12 + (if nextQuarterMonth >= 12 then 1 else 0), nextQuarterMonth % 12 + 1, 1);
  }

  lemma QuarterInYear(month: int)
    ensures var next := (month % 12 / 3 + 1) * 3;
            && 0 <= next % 12 < 12
            && 12 * (month / 12 + (if next >= 12 then 1 else 0)) + next % 12 == month - month % 3 + 3
  {
    var quarter := month % 12 / 3;
    assert quarter == 0 || quarter == 1 || quarter == 2 || quarter == 3;
    assert month % 3 == month % 12 % 3 by { assert month == 3 * (4 * (month / 12)) + month % 12; }
  }

  /** The quarterly helper gives the first quarter start still to come, except on the opening
      morning of a quarter, when it skips the due instant of that same day. */
  lemma NextQuarterlyIsEarliest(now: Instant)
    ensures IsEarliest(now, 1, 3, NextQuarterMonth(now))
            <==> !(MonthOf(now.day) % 3 == 0 && DueInstant(MonthOf(now.day), 1).AtOrAfter(now))
  {
    var current := MonthOf(now.day);
    var quarter := current - current % 3;
    QuarterStart(current);
    DueInstantAround(now, quarter + 3, 1);
    DueInstantAround(now, quarter, 1);
    NextQuarter(now, quarter);
  }

  lemma NextQuarter(now: Instant, quarter: int)
    requires DueInstant(quarter + 3, 1).AtOrAfter(now)
    ensures IsEarliest(now, 1, 3, quarter + 3) <==> !DueInstant(quarter, 1).AtOrAfter(now)
  {
    if DueInstant(quarter, 1).AtOrAfter(now) {
      DueDatesIncrease(quarter, quarter + 3, 1);
      assert DueIn(quarter, 1) < DueIn(quarter + 3, 1);
      assert quarter % 3 == (quarter + 3) % 3;
    } else {
      EarliestFrom(now, 1, 3, quarter + 3);
    }
  }

  lemma QuarterStart(month: int)
    ensures (month - month % 3 + 3) % 3 == 0 && (month - month % 3) % 3 == 0
    ensures month % 3 == 0 <==> month - month % 3 == month
  {
  }

  /** The annual helper: the first due instant not before `now` among the years' dates for a month. */
  lemma NextAnnualIsEarliest(now: Instant, month: int, day: int) returns (index: int)
    requires 1 <= month <= 12
    ensures index % 12 == month - 1
    ensures IsEarliest(now, day, 12, index)
    ensures NextAnnualDueDate(now, month, day) == DueIn(index, day)
  {
    var current := MonthOf(now.day);
    var thisYear := 12 * (current / 12) + month - 1;
    YearSpan(current, month - 1);
    AnnualUnfolded(now, current / 12, month, day);
    DueInstantAround(now, thisYear - 12, day);
    DueInstantAround(now, thisYear + 12, day);
    EarliestOfTwo(now, day, 12, thisYear);
    index := if DueInstant(thisYear, day).AtOrAfter(now) then thisYear else thisYear + 12;
  }

  lemma YearSpan(month: int, month0: int)
    requires 0 <= month0 < 12
    ensures var same := 12 * (month / 12) + month0;
            same - 12 < month < same + 12 && same % 12 == month0 && (same + 12) % 12 == month0
  {
  }

  lemma AnnualUnfolded(now: Instant, year: int, month: int, day: int)
    requires 1 <= month <= 12
    ensures var thisYear := 12 * year + month - 1;
            AnnualFrom(now, year, month, day)
            == DueIn(if DueInstant(thisYear, day).AtOrAfter(now) then thisYear else thisYear + 12, day)
  {
    BuiltInstant(year, month, day);
    BuiltInstant(year + 1, month, day);
    assert 12 * (year + 1) + month - 1 == 12 * year + month - 1 + 12;
  }

  lemma BuiltInstant(year: int, month: int, dueDay: int)
    requires 1 <= month <= 12
    ensures BuildDueDate(year, month, dueDay) == DueInstant(12 * year + month - 1, dueDay)
  {
    YearAndMonth(year, month - 1);
  }

  lemma YearAndMonth(year: int, month0: int)
    requires 0 <= month0 < 12
    ensures (12 * year + month0) / 12 == year && (12 * year + month0) % 12 == month0
  {
  }

  datatype TenantSeed = TenantSeed(key: string, monthlyRent: int, rentDueDay: int)

  /** One paid month of a tenant's history; the id of the row is made from the key and the month. */
  datatype PaymentSeed = PaymentSeed(tenantKey: string, period: YearMonth, amount: int, dueDay: int, paymentDay: int)

  /** How many days after the due date a tenant pays, by position in the tenant list. */
  function PaymentLag(tenantIndex: nat): int {
    if tenantIndex % 4 == 0 then -3 else if tenantIndex % 4 == 1 then 0 else if tenantIndex % 4 == 2 then 2 else 5
  }

  function HistoryRecord(tenant: TenantSeed, tenantIndex: nat, period: YearMonth): PaymentSeed {
    var due := BuildDueDate(period.year, period.month, tenant.rentDueDay).day;
    PaymentSeed(tenant.key, period, tenant.monthlyRent, due, due + PaymentLag(tenantIndex))
  }

  /** Twelve records a tenant, oldest month first, ending with the month before the current one. */
  ghost predicate IsHistory(tenants: seq<TenantSeed>, year: int, month: int, records: seq<PaymentSeed>) {
    && |records| == HISTORY_MONTHS * |tenants|
    && forall i, offset {:trigger HistoryAt(tenants, year, month, i, offset)} ::
         0 <= i < |tenants| && 1 <= offset <= HISTORY_MONTHS
         ==> records[Position(i, offset)] == HistoryAt(tenants, year, month, i, offset)
  }

  /** Where the record of tenant i for `offset` months ago stands in the list. */
  function Position(i: nat, offset: int): int {
    HISTORY_MONTHS * i + HISTORY_MONTHS - offset
  }

  function HistoryAt(tenants: seq<TenantSeed>, year: int, month: int, i: nat, offset: nat): PaymentSeed
    requires i < |tenants|
  {
    HistoryRecord(tenants[i], i, MonthsBefore(year, month, offset))
  }

  method BuildHistory(tenants: seq<TenantSeed>, currentYear: int, currentMonth: int)
    returns (records: seq<PaymentSeed>)
    requires 1 <= currentMonth <= 12
    ensures IsHistory(tenants, currentYear, currentMonth, records) && |records| == 12 * |tenants|
  {
    records := [];
    for tenantIndex := 0 to |tenants|
      invariant IsHistory(tenants[..tenantIndex], currentYear, currentMonth, records)
    {
      ghost var earlier := records;
      records := AddTenantHistory(tenants, tenantIndex, currentYear, currentMonth, records);
      HistoryExtends(tenants, tenantIndex, currentYear, currentMonth, earlier, records);
    }
    assert tenants[..|tenants|] == tenants;
  }

  /** The inner loop: one tenant's twelve months, counting the offset down to 1. */
  method AddTenantHistory(tenants: seq<TenantSeed>, tenantIndex: nat, currentYear: int, currentMonth: int,
                          earlier: seq<PaymentSeed>)
    returns (records: seq<PaymentSeed>)
    requires 1 <= currentMonth <= 12 && tenantIndex < |tenants|
    requires |earlier| == HISTORY_MONTHS * tenantIndex
    ensures earlier <= records && |records| == HISTORY_MONTHS * (tenantIndex + 1)
    ensures forall o :: 1 <= o <= HISTORY_MONTHS
              ==> records[Position(tenantIndex, o)] == HistoryAt(tenants, currentYear, currentMonth, tenantIndex, o)
  {
    records := earlier;
    var offset := HISTORY_MONTHS;
    while offset >= 1
      invariant 0 <= offset <= HISTORY_MONTHS
      invariant |records| == Position(tenantIndex, offset)
      invariant earlier <= records
      invariant forall o :: offset < o <= HISTORY_MONTHS
                  ==> records[Position(tenantIndex, o)] == HistoryAt(tenants, currentYear, currentMonth, tenantIndex, o)
    {
      var period := ShiftMonth(currentYear, currentMonth, offset);
      var record := HistoryRecord(tenants[tenantIndex], tenantIndex, period);
      assert record == HistoryAt(tenants, currentYear, currentMonth, tenantIndex, offset);
      records := records + [record];
      offset := offset - 1;
    }
  }

  lemma HistoryExtends(tenants: seq<TenantSeed>, i: nat, year: int, month: int,
                       earlier: seq<PaymentSeed>, records: seq<PaymentSeed>)
    requires i < |tenants| && IsHistory(tenants[..i], year, month, earlier)
    requires earlier <= records && |records| == HISTORY_MONTHS * (i + 1)
    requires forall o :: 1 <= o <= HISTORY_MONTHS
               ==> records[Position(i, o)] == HistoryAt(tenants, year, month, i, o)
    ensures IsHistory(tenants[..i + 1], year, month, records)
  {
    forall j: nat, o | j < i + 1 && 1 <= o <= HISTORY_MONTHS
      ensures records[Position(j, o)] == HistoryAt(tenants[..i + 1], year, month, j, o)
    {
      if j < i {
        assert HistoryAt(tenants[..i + 1], year, month, j, o) == HistoryAt(tenants[..i], year, month, j, o);
        assert earlier[Position(j, o)] == HistoryAt(tenants[..i], year, month, j, o);
      } else {
        assert HistoryAt(tenants[..i + 1], year, month, j, o) == HistoryAt(tenants, year, month, i, o);
      }
    }
  }

  /** With distinct tenant keys no two records share a tenant and a month, so no two share an id. */
  lemma HistoryPeriodsDistinct(tenants: seq<TenantSeed>, year: int, month: int, records: seq<PaymentSeed>,
                               p: nat, q: nat)
    requires IsHistory(tenants, year, month, records)
    requires forall i, j :: 0 <= i < j < |tenants| ==> tenants[i].key != tenants[j].key
    requires p < q < |records|
    ensures (records[p].tenantKey, records[p].period) != (records[q].tenantKey, records[q].period)
  {
    var i, a := p / HISTORY_MONTHS, HISTORY_MONTHS - p % HISTORY_MONTHS;
    var j, b := q / HISTORY_MONTHS, HISTORY_MONTHS - q % HISTORY_MONTHS;
    assert p == Position(i, a) && q == Position(j, b);
    assert records[p] == HistoryAt(tenants, year, month, i, a);
    assert records[q] == HistoryAt(tenants, year, month, j, b);
    if i == j {
      ShiftsDiffer(year, month, a, b);
    }
  }

  /** A record of the history is the tenant's rent, due on the clamped day of its month and paid between three
      days before and five days after that. */
  lemma HistoryRecordIs(tenants: seq<TenantSeed>, year: int, month: int, i: nat, offset: nat)
    requires i < |tenants|
    ensures var record := HistoryAt(tenants, year, month, i, offset);
            && record.tenantKey == tenants[i].key && record.amount == tenants[i].monthlyRent
            && 1 <= record.period.month <= 12 && record.period.Index() == 12 * year + month - 1 - offset
            && MonthOf(record.dueDay) == record.period.Index()
            && DayOfMonth(record.dueDay) == ClampedDay(record.period.year, record.period.month, tenants[i].rentDueDay)
            && record.paymentDay - record.dueDay == [-3, 0, 2, 5][i % 4]
  {
    var period := MonthsBefore(year, month, offset);
    var index := 12 * year + month - 1 - offset;
    assert 12 * (index / 12) + index % 12 == index;
    DueDateStaysInMonth(period.year, period.month, tenants[i].rentDueDay);
  }

  /** On a due day the monthly helper still gives that day until nine in the morning, UTC, and the next
      month's after that. */
  lemma {:induction false} NextMonthlyTurnsAtNine(month: int, dueDay: int, ms: int)
    ensures NextMonthlyDueDate(Instant(DueIn(month, dueDay), ms), dueDay)
            == DueIn(if ms <= 9 * 60 * 60 * 1000 then month else month + 1, dueDay)
  {
    DueDayIsInMonth(month, dueDay);
    NextMonthlyFrom(Instant(DueIn(month, dueDay), ms), dueDay, month);
  }

  lemma DueDayIsInMonth(month: int, dueDay: int)
    ensures MonthOf(DueIn(month, dueDay)) == month
  {
    assert month == 12 * (month / 12) + month % 12;
    DueDateStaysInMonth(month / 12, month % 12 + 1, dueDay);
  }

  lemma NextMonthlyFrom(now: Instant, dueDay: int, month: int)
    requires MonthOf(now.day) == month
    ensures NextMonthlyDueDate(now, dueDay)
            == DueIn(if DueInstant(month, dueDay).AtOrAfter(now) then month else month + 1, dueDay)
  {
    NextMonthlyUnfolded(now, dueDay);
  }
}
