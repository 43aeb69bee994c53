/** The dedupe key of a reminder: one string that names account, due date, reminder type and channel. */
module DedupeKeys {
  import opened Calendar

  datatype ReminderType = BeforeDue(days: nat) | DueDay | Overdue(days: nat)

  datatype Channel = PUSH | EMAIL

  function Digit(n: nat): char
    requires n < 10
  {
    '0' + n as char
  }

  /** A number in decimal. */
  function Decimal(n: nat): string {
    if n < 10 then [Digit(n)] else Decimal(n / 10) + [Digit(n % 10)]
  }

  /** A number in decimal, filled up with zeros to a width. */
  function Padded(n: nat, width: nat): string {
    if width <= 1 then Decimal(n) else Padded(n / 10, width - 1) + [Digit(n % 10)]
  }

  /** The day of `toISOString`, for years from 0 to 9999. */
  function IsoDate(day: int): string
    requires InIsoRange(day)
  {
    MonthOfIsTheMonth(day, MonthOf(day));
    IsoFields(MonthOf(day), DayOfMonth(day))
  }

  function IsoFields(month: nat, day: nat): string {
    Padded(month / 12, 4) + "-" + Padded(month % 12 + 1, 2) + "-" + Padded(day, 2)
  }

  predicate InIsoRange(day: int) {
    0 <= MonthOf(day) < 12 * 10000
  }

  function TypeName(t: ReminderType): string {
    match t
    case BeforeDue(n) => "before_due_" + Decimal(n)
    case DueDay => "due_day"
    case Overdue(n) => "overdue_" + Decimal(n)
  }

  function ChannelName(c: Channel): string {
    match c
    case PUSH => "push"
    case EMAIL => "email"
  }

  function Key(accountId: string, day: int, t: ReminderType, c: Channel): string
    requires InIsoRange(day)
  {
    accountId + ":" + (IsoDate(day) + ":" + (TypeName(t) + ":" + ChannelName(c)))
  }

  predicate ColonFree(s: string) {
    forall i :: 0 <= i < |s| ==> s[i] != ':'
  }

  // ---- Numbers and dates are spelled without ambiguity ----

  lemma {:induction false} DecimalShape(n: nat)
    ensures Decimal(n) != "" && forall i :: 0 <= i < |Decimal(n)| ==> '0' <= Decimal(n)[i] <= '9'
  {
    if n >= 10 {
      DecimalShape(n / 10);
    }
  }

  lemma {:induction false} PaddedShape(n: nat, width: nat)
    ensures forall i :: 0 <= i < |Padded(n, width)| ==> '0' <= Padded(n, width)[i] <= '9'
  {
    if width <= 1 {
      DecimalShape(n);
    } else {
      PaddedShape(n / 10, width - 1);
    }
  }

  /** The number a digit string spells. */
  function Value(s: string): int {
    if s == "" then 0 else 10 * Value(s[..|s| - 1]) + (s[|s| - 1] as int - '0' as int)
  }

  lemma {:induction false} DecimalReadsBack(n: nat)
    ensures Value(Decimal(n)) == n
  {
    if n >= 10 {
      DecimalReadsBack(n / 10);
      assert Decimal(n)[..|Decimal(n)| - 1] == Decimal(n / 10);
    } else {
      assert Decimal(n)[..0] == "";
    }
  }

  lemma {:induction false} PaddedReadsBack(n: nat, width: nat)
    ensures Value(Padded(n, width)) == n
  {
    if width <= 1 {
      DecimalReadsBack(n);
    } else {
      PaddedReadsBack(n / 10, width - 1);
      assert Padded(n, width)[..|Padded(n, width)| - 1] == Padded(n / 10, width - 1);
    }
  }

  lemma {:induction false} PaddedLength(n: nat, width: nat, limit: nat)
    requires width >= 1 && n < limit
    requires (width == 1 && limit == 10) || (width == 2 && limit == 100) || (width == 3 && limit == 1000)
             || (width == 4 && limit == 10000)
    ensures |Padded(n, width)| == width
  {
    if width > 1 {
      PaddedLength(n / 10, width - 1, limit / 10);
    }
  }

  /** Two days with the same ISO date are the same day. */
  lemma IsoDateInjective(a: int, b: int)
    requires InIsoRange(a) && InIsoRange(b) && IsoDate(a) == IsoDate(b)
    ensures a == b
  {
    MonthOfIsTheMonth(a, MonthOf(a));
    MonthOfIsTheMonth(b, MonthOf(b));
    IsoFieldsInjective(MonthOf(a), DayOfMonth(a), MonthOf(b), DayOfMonth(b));
  }

  lemma IsoFieldsInjective(month1: nat, day1: nat, month2: nat, day2: nat)
    requires month1 < 120000 && month2 < 120000 && day1 < 100 && day2 < 100
    requires IsoFields(month1, day1) == IsoFields(month2, day2)
    ensures month1 == month2 && day1 == day2
  {
    IsoParts(month1, day1);
    IsoParts(month2, day2);
    assert month1 == 12 * (month1 / 12) + month1 % 12;
    assert month2 == 12 * (month2 / 12) + month2 % 12;
  }

  /** The three fields of an ISO date are read off at fixed places. */
  lemma IsoParts(month: nat, day: nat)
    requires month < 120000 && day < 100
    ensures |IsoFields(month, day)| == 10
    ensures Value(IsoFields(month, day)[..4]) == month / 12
    ensures Value(IsoFields(month, day)[5..7]) == month % 12 + 1
    ensures Value(IsoFields(month, day)[8..]) == day
  {
    var y, m, d := Padded(month / 12, 4), Padded(month % 12 + 1, 2), Padded(day, 2);
    PaddedLength(month / 12, 4, 10000);
    PaddedLength(month % 12 + 1, 2, 100);
    PaddedLength(day, 2, 100);
    PaddedReadsBack(month / 12, 4);
    PaddedReadsBack(month % 12 + 1, 2);
    PaddedReadsBack(day, 2);
    var s := IsoFields(month, day);
    assert s == y + "-" + m + "-" + d;
    assert s[..4] == y && s[5..7] == m && s[8..] == d;
  }

  lemma IsoDateColonFree(day: int)
    requires InIsoRange(day)
    ensures ColonFree(IsoDate(day))
  {
    MonthOfIsTheMonth(day, MonthOf(day));
    PaddedShape(MonthOf(day) / 12, 4);
    PaddedShape(MonthOf(day) % 12 + 1, 2);
    PaddedShape(DayOfMonth(day), 2);
  }

  // ---- Types ----

  lemma TypeNameColonFree(t: ReminderType)
    ensures ColonFree(TypeName(t)) && TypeName(t) != ""
  {
    match t
    case BeforeDue(n) => DecimalShape(n);
    case DueDay =>
    case Overdue(n) => DecimalShape(n);
  }

  lemma TypeNameInjective(a: ReminderType, b: ReminderType)
    requires TypeName(a) == TypeName(b)
    ensures a == b
  {
    assert TypeName(a)[0] == TypeName(b)[0];
    match a
    case BeforeDue(n) =>
      assert TypeName(a)[11..] == Decimal(n) && TypeName(b)[11..] == Decimal(b.days);
      DecimalReadsBack(n);
      DecimalReadsBack(b.days);
    case DueDay =>
    case Overdue(n) =>
      assert TypeName(a)[8..] == Decimal(n) && TypeName(b)[8..] == Decimal(b.days);
      DecimalReadsBack(n);
      DecimalReadsBack(b.days);
  }

  // ---- The key ----

  /** A colon-free head is read back up to the first colon. */
  lemma HeadsAgree(a: string, x: string, b: string, y: string)
    requires ColonFree(a) && ColonFree(b) && a + ":" + x == b + ":" + y
    ensures a == b && x == y
  {
    var s, t := a + ":" + x, b + ":" + y;
    assert s[|a|] == ':' && t[|b|] == ':';
    assert forall k :: 0 <= k < |a| ==> s[k] == a[k];
    assert forall k :: 0 <= k < |b| ==> t[k] == b[k];
    assert |a| == |b|;
    assert s[..|a|] == a && t[..|b|] == b && s[|a| + 1..] == x && t[|b| + 1..] == y;
  }

  /** For colon-free account ids, equal keys name the same account, due date, type and channel. */
  lemma KeyInjective(id1: string, day1: int, t1: ReminderType, c1: Channel,
                     id2: string, day2: int, t2: ReminderType, c2: Channel)
    requires ColonFree(id1) && ColonFree(id2) && InIsoRange(day1) && InIsoRange(day2)
    requires Key(id1, day1, t1, c1) == Key(id2, day2, t2, c2)
    ensures id1 == id2 && day1 == day2 && t1 == t2 && c1 == c2
  {
    var rest1 := TypeName(t1) + ":" + ChannelName(c1);
    var rest2 := TypeName(t2) + ":" + ChannelName(c2);
    HeadsAgree(id1, IsoDate(day1) + ":" + rest1, id2, IsoDate(day2) + ":" + rest2);
    IsoDateColonFree(day1);
    IsoDateColonFree(day2);
    HeadsAgree(IsoDate(day1), rest1, IsoDate(day2), rest2);
    IsoDateInjective(day1, day2);
    TypeNameColonFree(t1);
    TypeNameColonFree(t2);
    HeadsAgree(TypeName(t1), ChannelName(c1), TypeName(t2), ChannelName(c2));
    TypeNameInjective(t1, t2);
    assert ChannelName(c1)[0] == ChannelName(c2)[0];
  }
}
