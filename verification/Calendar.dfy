/** The Gregorian calendar as the services see it through the JavaScript Date constructor.

    A day is an integer, counted from the first of January of year 0. A month is an integer too:
    12 * year + (month - 1), so "one month later" is "+ 1" and year ends need no case. */
module Calendar {

  predicate IsLeap(year: int) {
    year % 4 == 0 && (year % 100 != 0 || year % 400 == 0)
  }

  function MonthLength(month: int): int {
    var m := month % 12;
    if m == 1 then if IsLeap(month / 12) then 29 else 28
    else if m == 3 || m == 5 || m == 8 || m == 10 then 30
    else 31
  }

  /** The first day of a month, counted month by month from month 0. */
  function MonthStart(month: int): int
    decreases if month < 0 then -month else month
  {
    if month == 0 then 0
    else if month > 0 then MonthStart(month - 1) + MonthLength(month - 1)
    else MonthStart(month + 1) - MonthLength(month)
  }

  /** The month a day falls in, found by walking forward from an earlier month. */
  function MonthFrom(day: int, month: int): int
    requires MonthStart(month) <= day
    decreases day - MonthStart(month)
  {
    if day < MonthStart(month + 1) then month else MonthFrom(day, month + 1)
  }

  function MonthOf(day: int): int {
    EarlyMonth(day);
    MonthFrom(day, if day < 0 then day else 0)
  }

  function DayOfMonth(day: int): int {
    day - MonthStart(MonthOf(day)) + 1
  }

  /** `new Date(year, month0, day)` at day granularity: months and days out of range carry over. */
  function JsDate(year: int, month0: int, day: int): int {
    MonthStart(12 * year + month0) + day - 1
  }

  /** `new Date(year, month, 0).getDate()`, with month counted from 1. */
  function DaysInMonth(year: int, month: int): int {
    DayOfMonth(JsDate(year, month, 0))
  }

  /** The clamped due date shared by payments, reminders, the tenant portal and the seed script. */
  function DueDate(year: int, month: int, dueDay: int): int {
    JsDate(year, month - 1, ClampedDay(year, month, dueDay))
  }

  function ClampedDay(year: int, month: int, dueDay: int): int {
    Max(1, Min(dueDay, DaysInMonth(year, month)))
  }

  /** The same due date with the month given by its number. */
  function DueIn(month: int, dueDay: int): int {
    DueDate(month / 12, month % 12 + 1, dueDay)
  }

  function Max(a: int, b: int): int { if a < b then b else a }

  function Min(a: int, b: int): int { if a < b then a else b }

  lemma EarlyMonth(day: int)
    ensures MonthStart(if day < 0 then day else 0) <= day
    decreases if day < 0 then -day else 0
  {
    if day < 0 {
      EarlyMonth(day + 1);
    }
  }

  /** Months follow one another without gap or overlap. */
  lemma {:induction false} MonthsOrdered(j: int, k: int)
    requires j < k
    ensures MonthStart(j) + MonthLength(j) <= MonthStart(k)
    ensures MonthStart(j) + 28 * (k - j) <= MonthStart(k)
    ensures k == j + 1 ==> MonthStart(j) + MonthLength(j) == MonthStart(k)
    decreases k - j
  {
    if j + 1 < k {
      MonthsOrdered(j, k - 1);
      MonthsOrdered(k - 1, k);
    }
  }

  lemma {:induction false} MonthFromBounds(day: int, month: int)
    requires MonthStart(month) <= day
    ensures MonthStart(MonthFrom(day, month)) <= day < MonthStart(MonthFrom(day, month) + 1)
    decreases day - MonthStart(month)
  {
    if day >= MonthStart(month + 1) {
      MonthFromBounds(day, month + 1);
    }
  }

  /** Every day lies in the month the calendar assigns to it, and in no other. */
  lemma MonthOfIsTheMonth(day: int, month: int)
    ensures MonthStart(month) <= day < MonthStart(month + 1) <==> MonthOf(day) == month
    ensures 1 <= DayOfMonth(day) <= MonthLength(MonthOf(day))
  {
    EarlyMonth(day);
    MonthFromBounds(day, if day < 0 then day else 0);
    var found := MonthOf(day);
    MonthsOrdered(found, found + 1);
    if found < month {
      MonthsOrdered(found, month);
    } else if month < found {
      MonthsOrdered(month, found);
      MonthsOrdered(month, month + 1);
    }
  }

  /** A constructed date without overflow reads back its own month and day. */
  lemma DateRoundTrip(year: int, month0: int, day: int)
    requires 1 <= day <= MonthLength(12 * year + month0)
    ensures MonthOf(JsDate(year, month0, day)) == 12 * year + month0
    ensures DayOfMonth(JsDate(year, month0, day)) == day
  {
    var month := 12 * year + month0;
    MonthsOrdered(month, month + 1);
    MonthOfIsTheMonth(JsDate(year, month0, day), month);
  }

  /** Reading year, month and day off a date and rebuilding it gives the date back. */
  lemma FieldsRebuildTheDate(day: int)
    ensures JsDate(MonthOf(day) / 12, MonthOf(day) % 12, DayOfMonth(day)) == day
  {
    assert 12 * (MonthOf(day) / 12) + MonthOf(day) % 12 == MonthOf(day);
  }

  /** Day zero of the following month is the last day of the month asked for. */
  lemma DaysInMonthIsItsLength(year: int, month: int)
    ensures DaysInMonth(year, month) == MonthLength(12 * year + month - 1)
  {
    var k := 12 * year + month - 1;
    MonthsOrdered(k, k + 1);
    DateRoundTrip(year, month - 1, MonthLength(k));
  }

  /** The due date never leaves its month, keeps the wanted day when the month has it and
      otherwise falls on the nearest day that exists. */
  lemma DueDateStaysInMonth(year: int, month: int, dueDay: int)
    ensures MonthOf(DueDate(year, month, dueDay)) == 12 * year + month - 1
    ensures DayOfMonth(DueDate(year, month, dueDay)) == ClampedDay(year, month, dueDay)
    ensures 1 <= ClampedDay(year, month, dueDay) <= MonthLength(12 * year + month - 1)
    ensures forall day ::
              MonthOf(day) == 12 * year + month - 1 ==>
                Distance(DayOfMonth(day), dueDay) >= Distance(ClampedDay(year, month, dueDay), dueDay)
  {
    DaysInMonthIsItsLength(year, month);
    DateRoundTrip(year, month - 1, ClampedDay(year, month, dueDay));
    forall day | MonthOf(day) == 12 * year + month - 1
      ensures Distance(DayOfMonth(day), dueDay) >= Distance(ClampedDay(year, month, dueDay), dueDay)
    {
      MonthOfIsTheMonth(day, MonthOf(day));
    }
  }

  function Distance(a: int, b: int): int { if a < b then b - a else a - b }

  /** Due dates of later months are later. */
  lemma DueDatesIncrease(j: int, k: int, dueDay: int)
    requires j < k
    ensures DueIn(j, dueDay) < MonthStart(k) <= DueIn(k, dueDay)
  {
    DueDateStaysInMonth(j / 12, j % 12 + 1, dueDay);
    DueDateStaysInMonth(k / 12, k % 12 + 1, dueDay);
    MonthOfIsTheMonth(DueIn(j, dueDay), j);
    MonthOfIsTheMonth(DueIn(k, dueDay), k);
    MonthsOrdered(j, j + 1);
    MonthsOrdered(j, k);
  }

  lemma MonthLengthInYear(year: int, month0: int)
    requires 0 <= month0 < 12
    ensures MonthLength(12 * year + month0) ==
            if month0 == 1 then (if IsLeap(year) then 29 else 28)
            else if month0 == 3 || month0 == 5 || month0 == 8 || month0 == 10 then 30
            else 31
  {
    assert (12 * year + month0) / 12 == year && (12 * year + month0) % 12 == month0;
  }

  /** Days before a month within its year. */
  function DaysBefore(year: int, month0: nat): int
    requires month0 <= 12
  {
    if month0 == 0 then 0 else DaysBefore(year, month0 - 1) + MonthLength(12 * year + month0 - 1)
  }

  lemma {:induction false} DaysBeforeIsOffset(year: int, month0: nat)
    requires month0 <= 12
    ensures MonthStart(12 * year + month0) == MonthStart(12 * year) + DaysBefore(year, month0)
  {
    if month0 == 0 {
    } else {
      DaysBeforeIsOffset(year, month0 - 1);
      MonthsOrdered(12 * year + month0 - 1, 12 * year + month0);
    }
  }

  lemma {:induction false} DaysBeforeTable(year: int, month0: nat)
    requires month0 <= 12
    ensures var table := [0, 31, 59, 90, 120, 151, 181, 212, 243, 273, 304, 334, 365];
            DaysBefore(year, month0) == table[month0] + (if month0 > 1 && IsLeap(year) then 1 else 0)
  {
    if month0 == 0 {
    } else {
      DaysBeforeTable(year, month0 - 1);
      MonthLengthInYear(year, month0 - 1);
    }
  }

  /** A year is twelve months: 365 days, and one more when it is leap. */
  lemma YearLength(year: int)
    ensures MonthStart(12 * (year + 1)) == MonthStart(12 * year) + 365 + (if IsLeap(year) then 1 else 0)
  {
    DaysBeforeIsOffset(year, 12);
    DaysBeforeTable(year, 12);
    assert 12 * (year + 1) == 12 * year + 12;
  }

  function LeapYearsBefore(year: int): int {
    (year + 3) / 4 - (year + 99) / 100 + (year + 399) / 400
  }

  lemma LeapYearsCount(year: int)
    ensures LeapYearsBefore(year + 1) == LeapYearsBefore(year) + (if IsLeap(year) then 1 else 0)
  {
    StepOfQuotient(year, 4);
    StepOfQuotient(year, 100);
    StepOfQuotient(year, 400);
    DivisibleBy(year);
  }

  lemma DivisibleBy(year: int)
    ensures year % 400 == 0 ==> year % 100 == 0
    ensures year % 100 == 0 ==> year % 4 == 0
  {
  }

  lemma StepOfQuotient(year: int, n: int)
    requires n == 4 || n == 100 || n == 400
    ensures (year + n) / n == (year + n - 1) / n + (if year % n == 0 then 1 else 0)
  {
  }

  /** Counting month by month agrees with the Gregorian rule in closed form. */
  lemma {:induction false} YearStartClosedForm(year: int)
    ensures MonthStart(12 * year) == 365 * year + LeapYearsBefore(year)
    decreases if year < 0 then -year else year
  {
    if year > 0 {
      YearStartClosedForm(year - 1);
      YearLength(year - 1);
      LeapYearsCount(year - 1);
    } else if year < 0 {
      YearStartClosedForm(year + 1);
      YearLength(year);
      LeapYearsCount(year);
    }
  }
}
