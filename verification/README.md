# Rent management: a verified model

A Dafny model of the stateful core of the rent-management backend: the payment ledger and its month
lifecycle, the replay guard, the tenant's rent view, rent reminders, delta sync, login lockout and sessions,
tax schedules, visitor passes, and the calendar they share. The services are classes whose methods change
their fields as the services do. Each method is proved equal to a function on plain values, and what the
system promises is proved of those functions: over every run, every interleaving and every input.
`dafny verify dfyconfig.toml` checks all of it.

| file | what it is about |
|---|---|
| Calendar | months, days, leap years, the clamped due date |
| SeedCalendar | the month arithmetic and payment history of the seed script |
| Payments, PaymentLedger, PaymentEffects, MonthConservation, OverdueSweeps | the payment table, what its rows keep, what each operation does to rows and figures, the month summary, the overdue sweep |
| PaymentReplay | recording a payment once, with interleaved calls |
| PaymentService | the payments service: its methods over the table and the keys in flight |
| TenantPortal | the lazily derived rent view |
| DedupeKeys, Reminders, ReminderMonths, ReminderRules | reminder keys, one sweep, a month of sweeps, who is reminded of what |
| SyncTables, SyncUploads, SyncContents, SyncReplica | version checks on upload, what uploads write, convergence of downloads |
| LoginLockout, TokenRevocation, Sessions, Auth | the three in-memory maps and the user rows |
| TaxSchedules | recurring due dates and their notices |
| Visitors | visitor passes |
| FiniteSets, Wrappers | counting in finite sets, optional values and refusals |

## How the program is represented

- A day is an integer, a month is `12 * year + month - 1`, an instant is in milliseconds. The clock is a
  parameter wherever the code reads it, once for each reading.
- Money is in cents; a numeric column is a number.
- Rows whose ids are generated are named by their position in the table, which stands for a fresh id.
- bcrypt and SHA-256 are injective functions; tokens carry a serial nobody else has.
- A bulk SQL update is one step on the whole table.
- A save writes no undefined value: a column the code leaves or sets undefined keeps what it holds.

## Where the code does not do what one would expect

Each is proved, with the exact condition or a concrete run.

- **A payment can be recorded twice.** Line 407 of `payments.service.ts` returns the promise of the save, so
  the `finally` block gives the key back before the row is in the table. A run repeats a submission exactly
  when some call takes its check while another call is still saving the same submission and both end up
  saved (`RepeatsIffOvertaken`); two calls for one payment can get there (`SecondCallCanOvertake`). If a save
  took effect as it is called, nothing would ever repeat (`PromptSavesNeverRepeat`).
- **A tax notice can be silenced by the previous due date.** Advancing sets `lastNotifiedDays` to undefined,
  which the save does not write, so the number stored for the previous due date stays. A notice goes out
  exactly when a sweep falls on its day and the last notice before was not for the same number of days
  (`NoticeIffSeen`); a due date told only on its eve silences the eve of the next (`EveSilencesNextEve`).
  Under daily sweeps only a stored 5 silences anything (`DailySweepsSendThree`).
- **Recorded and partial payments can unbalance the month summary.** What was received partially is neither
  collected nor pending, a final amount is added on top of the rent, and one on a paid row on top of what was
  paid (`PartialUnbalances`). A recorded payment keeps one whole-rent row a tenant exactly when it is the
  whole rent of an active tenant without a row in that month (`RecordKeepsSoundIff`), and in a summary that
  balances already it is one head too many (`RecordUnbalances`).
- **The lazy view can differ from the sweep**, exactly when the row's own due date has passed and the clamped
  one has not (`LazyViewIsEagerView`); a partial payment recorded with an earlier due date does it
  (`EarlierDueDateDiffers`).
- **A reminder sweep across midnight at the end of a month** reads the month before and the day after, and
  may send one offset too many (`StraddlingAddsOne`).
- **A sync create that names a stored id** saves over the row and sets its version back, and then two
  updates based on one version can both go through (`SetBackLosesUpdate`), but never without such a create
  between them (`BothAppliedMeansSetBack`). If no client writes the row after the create, the second goes
  through exactly while the saves counted from version 2 have not passed the version it claims
  (`SetBackLetsThroughIff`).
- **The quarterly helper of the seed script** skips the due instant of the morning a quarter opens
  (`NextQuarterlyIsEarliest`).
- **The two verifications of a visitor pass differ.** A verified pass past its expiry is answered true by code
  and false by pass (`VerifiedPastExpiry`), and an unexpired verified pass is answered true by pass for any
  code at all (`AnyCodeForVerified`). `FoundByCodeIsAcceptedIff`, `AcceptedIsFoundByCodeIff` and
  `VerificationsAgreeIff` say exactly when they agree.
- **Logins admitted at once exceed five failures.** Each login between its check and its failure can still
  register one: the bound for each lockout period begun is four plus the number underway at once
  (`InterleavedRateBound`), and it is reached (`BoundIsReached`).
- **A generated row without rent** is pending with nothing to pay (`NewRowsConsistent`), and **a deleted row**
  is swept by the owner although its manager's sweep may not touch it (`DeletedRowsDiffer`).

## Model

| member | source | states |
|---|---|---|
| Calendar.MonthsOrdered | src/modules/payments/payments.service.ts:56-58 | months follow one another without gap or overlap, so later months start later |
| Calendar.MonthOfIsTheMonth | src/modules/payments/payments.service.ts:56-64 | each day lies in exactly the month the calendar assigns to it, on a day of the month that exists |
| Calendar.DateRoundTrip | src/modules/payments/payments.service.ts:60-64 | a date built from fields that exist reads back its month and day |
| Calendar.FieldsRebuildTheDate | src/modules/tax-schedules/tax-schedules.service.ts:115-137 | reading year, month and day off any date and rebuilding it gives the date |
| Calendar.DaysInMonthIsItsLength | src/modules/payments/payments.service.ts:56-58 | day zero of the following month is the month's Gregorian length |
| Calendar.DueDateStaysInMonth | src/modules/payments/payments.service.ts:60-64 | the due date stays in its month and no day of that month is nearer to the wanted one |
| Calendar.DueDatesIncrease | src/modules/reminders/reminders.service.ts:101-105 | due dates of later months are later, whatever the clamping |
| Calendar.YearStartClosedForm | src/modules/payments/payments.service.ts:56-58 | counting month by month agrees with the Gregorian leap-year rule in closed form |
| SeedCalendar.ShiftMonth | src/seed.ts:50-64 | the loop terminates, never loses a month, and its month is a calendar month exactly when the base month is not past the twelfth; then it is the month so many months back |
| SeedCalendar.ShiftsCompose | src/seed.ts:50-64 | shifting back twice is shifting back by the sum |
| SeedCalendar.ShiftsDiffer | src/seed.ts:50-64 | different shifts give different months |
| SeedCalendar.NextMonthlyIsEarliest | src/seed.ts:868-884 | the monthly helper gives the day of the first clamped due instant not before now, across year ends and short months |
| SeedCalendar.NextMonthlyTurnsAtNine | src/seed.ts:868-884 | on a due day the helper gives that day until nine in the morning and the next month's after |
| SeedCalendar.NextQuarterlyIsQuarterStart | src/seed.ts:886-892 | the quarterly helper gives the opening day of the following quarter |
| SeedCalendar.NextQuarterlyIsEarliest | src/seed.ts:886-892 | that is the first quarter start still to come, unless now is the opening morning of a quarter |
| SeedCalendar.NextAnnualIsEarliest | src/seed.ts:894-900 | the annual helper gives the first due instant not before now among the years |
| SeedCalendar.BuildHistory | src/seed.ts:1292-1330 | twelve records a tenant, oldest month first, ending with the month before the current one |
| SeedCalendar.AddTenantHistory | src/seed.ts:1295-1330 | the inner loop appends one tenant's twelve months and leaves earlier records alone |
| SeedCalendar.HistoryPeriodsDistinct | src/seed.ts:1295-1330 | no two records share tenant and month, so no two share an id |
| SeedCalendar.HistoryRecordIs | src/seed.ts:1298-1330 | a record is the tenant's rent, due on the clamped day of its month and paid three days before, on, two or five days after it |
| PaymentService.PaymentsService.FindById | src/modules/payments/payments.service.ts:517-536 | a live row in the caller's scope is found, other roles are forbidden, all else is not found |
| PaymentService.PaymentsService.Save | src/modules/payments/payments.service.ts:565-569 | a row takes over an entity, except that method and reference left undefined stay as stored |
| PaymentService.PaymentsService.MarkAsPaid | src/modules/payments/payments.service.ts:555-570 | a reachable row is settled in full; a method or reference not given stays as stored while the answer shows it missing; otherwise nothing changes |
| PaymentService.PaymentsService.RecordPartialPayment | src/modules/payments/payments.service.ts:575-593 | the amount grows, the balance falls but not below zero, the status follows the balance, a method not given stays as stored |
| PaymentService.PaymentsService.BatchMarkAsPaid | src/modules/payments/payments.service.ts:775-801 | exactly the listed rows in the caller's scope are settled; with none of them the call fails and changes nothing |
| PaymentService.PaymentsService.ManagedProperties | src/modules/payments/payments.service.ts:746-756 | the properties with a live row that the manager manages |
| PaymentService.PaymentsService.MarkOverdue | src/modules/payments/payments.service.ts:738-769 | exactly the lapsed rows of the given properties turn overdue, each counted once |
| PaymentService.PaymentsService.UpdateOverdueStatuses | src/modules/payments/payments.service.ts:726-770 | exactly the lapsed rows of the swept properties turn overdue, and their number is returned |
| PaymentService.PaymentsService.EnsureMonthlyPayments | src/modules/payments/payments.service.ts:93-151 | one pending row is added for each active tenant in scope that has none this month; other roles are refused |
| PaymentService.PaymentsService.RefreshPaymentLifecycle | src/modules/payments/payments.service.ts:249-285 | generation, then the sweep; other roles are refused and change nothing |
| PaymentService.PaymentsService.GetMonthSummary | src/modules/payments/payments.service.ts:634-721 | refreshes first, then totals and counts the live rows in scope by status |
| PaymentService.PaymentsService.RemovePayment | src/modules/payments/payments.service.ts:815-838 | a live row is marked deleted for the owner or the manager of its tenant's property |
| PaymentLedger.NewRowsConsistent | src/modules/payments/payments.service.ts:392-405 | recorded rows are consistent, paid and remaining make up the rent unless overpaid; generated rows are consistent exactly when the rent is positive |
| PaymentLedger.StepKeepsLedger | src/modules/payments/payments.service.ts:555-593 | every operation keeps the status told by the balance, and PAID is never left |
| PaymentLedger.RunsKeepLedger | src/modules/payments/payments.service.ts:555-801 | the same over every run of recorded, generated, settled, partly paid, swept and deleted rows |
| PaymentLedger.PartialsAddUp | src/modules/payments/payments.service.ts:575-593 | however partial payments and sweeps interleave, the amount grows by their sum and the balance falls by it, stopping at zero |
| PaymentLedger.PartialsInAnyOrder | src/modules/payments/payments.service.ts:575-593 | two runs delivering the same partial payments in any order leave the same amount, balance and settlement |
| PaymentLedger.SumIgnoresOrder | src/modules/payments/payments.service.ts:575-593 | what a list of payments adds up to does not depend on its order |
| PaymentEffects.MarkPaidSettles | src/modules/payments/payments.service.ts:555-570 | marking a reachable row paid leaves it PAID with nothing remaining, dated now, its amount and debt as before, and touches no other row; an unreachable one stays |
| PaymentEffects.BatchSettles | src/modules/payments/payments.service.ts:775-801 | a batch does the same to exactly the reachable rows of its list |
| PaymentEffects.PartialPaysOff | src/modules/payments/payments.service.ts:575-593 | a partial payment adds to the amount, takes from the balance down to zero, and sets status and mark accordingly |
| PaymentEffects.SweepMarks | src/modules/payments/payments.service.ts:726-770 | a row turns overdue exactly when it is pending or partly paid, past its due date and of a swept property |
| PaymentEffects.RemoveMarksDeleted | src/modules/payments/payments.service.ts:815-838 | removing only marks the row deleted |
| PaymentEffects.GeneratedRowsAreRents | src/modules/payments/payments.service.ts:130-151 | every generated row is the whole rent of an active tenant in scope, pending, due on the clamped day |
| PaymentEffects.PaidStaysPaid | src/modules/payments/payments.service.ts:555-801 | a paid row with nothing remaining is paid in every later state |
| PaymentEffects.MarkedPaidStaysPaid | src/modules/payments/payments.service.ts:555-801 | so a reachable row once marked paid is paid ever after |
| PaymentEffects.FigureIsSum | src/modules/payments/payments.service.ts:686-721 | each total and each count is a sum over the rows in scope by their status: amounts of paid rows, balances of pending or partly paid ones, balances of overdue ones |
| PaymentEffects.OnePlaceHoldsAll | src/modules/payments/payments.service.ts:686-721 | when all rows in scope are of one kind, that figure holds their whole sum and number and the other two nothing |
| PaymentEffects.SettlingMoves | src/modules/payments/payments.service.ts:555-570 | settling a row takes its balance and head out of pending or overdue and adds its amount and head to collected |
| PaymentEffects.SweepMoves | src/modules/payments/payments.service.ts:726-770 | a sweep moves exactly the balances and heads of the lapsed rows in scope from pending to overdue |
| PaymentEffects.RemovingMoves | src/modules/payments/payments.service.ts:815-838 | removing a row takes it out of the figure it was in |
| PaymentEffects.ScopeIs | src/modules/payments/payments.service.ts:651-668 | which rows come into a summary: live, of the month, of the property asked for, in the caller's reach |
| PaymentEffects.ExpectedIs | src/modules/payments/payments.service.ts:670-689 | the expected total is the rents of the active tenants in the same scope |
| PaymentEffects.MayRemoveIff | src/modules/payments/payments.service.ts:815-835 | a live row may be removed by the owner and by the manager of its tenant's property |
| MonthConservation.RecordKeepsSoundIff | src/modules/payments/payments.service.ts:392-405 | a recorded payment of a listed tenant keeps one whole-rent row a tenant exactly when it is for another month or is the rent of an active tenant with no live row in the month |
| MonthConservation.StepKeepsSound | src/modules/payments/payments.service.ts:93-151 | so does every operation but partial payments and recorded ones that do not fit |
| MonthConservation.RunsKeepSound | src/modules/payments/payments.service.ts:249-285 | the same over every run |
| MonthConservation.RefreshFills | src/modules/payments/payments.service.ts:249-268 | after a refresh every active tenant in scope has a row for the month |
| MonthConservation.TotalsAreWorth | src/modules/payments/payments.service.ts:686-721 | the three totals together are what the rows of the month are worth, the three counts their number |
| MonthConservation.RowsMatchTenants | src/modules/payments/payments.service.ts:653-683 | summing over the rows of a sound month is summing over the tenants in scope |
| MonthConservation.SummaryConserves | src/modules/payments/payments.service.ts:634-721 | from a month without rows, after any run of full payments, fitting recorded payments, sweeps, deletions and refreshes, collected, pending and overdue add up to expected, and the counts to the tenants |
| MonthConservation.RecordUnbalances | src/modules/payments/payments.service.ts:392-405 | after a recorded payment a summary that balanced balances exactly when the row does not come into it |
| MonthConservation.PartialUnbalances | src/modules/payments/payments.service.ts:575-593 | after a partial payment on any row, paid and partly paid ones included, a balanced summary stays balanced exactly when the payment is for nothing or takes back from a paid row all that was paid |
| OverdueSweeps.SweptInTurn | src/modules/payments/payments.service.ts:740-770 | after any list of managers' sweeps a live row is swept exactly when its manager is in the list |
| OverdueSweeps.OwnerSweepDecomposes | src/modules/payments/payments.service.ts:726-770 | on live rows the owner's sweep is the sweeps of all managers, in any order |
| OverdueSweeps.LaterSweepSubsumes | src/modules/payments/payments.service.ts:726-770 | a later sweep subsumes an earlier one; on one day the sweep is idempotent |
| OverdueSweeps.SweepsCommute | src/modules/payments/payments.service.ts:726-770 | sweeps by different callers on one day commute |
| OverdueSweeps.DeletedRowsDiffer | src/modules/payments/payments.service.ts:726-770 | on a lapsed deleted row owner and manager agree exactly when its property still has a live row |
| PaymentService.PaymentsService.Create | src/modules/payments/payments.service.ts:312-411 | an uninterrupted call records the payment exactly when it passes the screening, its key is free and neither check finds a duplicate; the key is always given back |
| PaymentReplay.UninterruptedRun | src/modules/payments/payments.service.ts:352-410 | the steps of a call, run in a row, do what the uninterrupted call does |
| PaymentReplay.StepKeepsKeys | src/modules/payments/payments.service.ts:352-410 | after every step of every call the keys in flight are those of the calls between entry and exit, no two alike |
| PaymentReplay.RunsKeepKeys | src/modules/payments/payments.service.ts:352-410 | the same for every interleaving |
| PaymentReplay.EntryTakesKey | src/modules/payments/payments.service.ts:356-360 | a call enters exactly when its key is free, and takes it |
| PaymentReplay.ExitsReleaseKey | src/modules/payments/payments.service.ts:362-410 | every way out gives the key back: any failure, a check that finds a duplicate, and the save |
| PaymentReplay.SavesSettle | src/modules/payments/payments.service.ts:407-410 | a save under way ends in its row or in an error without one, the key being free already |
| PaymentReplay.SameSubmissionSameKey | src/modules/payments/payments.service.ts:352-360 | two submissions of one payment have one key |
| PaymentReplay.RunsKeepTidy | src/modules/payments/payments.service.ts:363-407 | over every interleaving the new rows are those of the saved calls, one each, and of two calls past their checks with one submission one overtook the other |
| PaymentReplay.RepeatsIffOvertaken | src/modules/payments/payments.service.ts:352-410 | a run from calls not yet begun records a submission twice exactly when some call took its check while another was still saving the same submission and both have saved |
| PaymentReplay.PromptSavesNeverRepeat | src/modules/payments/payments.service.ts:352-410 | when a save takes effect as it is called, no interleaving of any number of calls inserts a submission twice |
| PaymentReplay.OvertakingRepeats | src/modules/payments/payments.service.ts:407-410 | one way to it: a call past both checks while the same submission is being saved inserts it twice when the two finish |
| PaymentReplay.SecondCallCanOvertake | src/modules/payments/payments.service.ts:407-410 | two calls for one payment reach that state |
| PaymentReplay.ScreenPassesIff | src/modules/payments/payments.service.ts:312-350 | which submissions pass the screening, and for what the others are refused, in order |
| PaymentReplay.ScreenedRowIs | src/modules/payments/payments.service.ts:392-405 | the row is the tenant's, for the month of its payment date, with the rest of the rent as balance and the status that goes with it |
| PaymentReplay.TrimIs | src/modules/payments/payments.service.ts:352-354 | trimming takes spaces off both ends until neither is one, and nothing else |
| PaymentReplay.KeysTellReferences | src/modules/payments/payments.service.ts:352-354 | references share a key exactly when they are equal up to outer spaces; without one the key spells tenant, amount and date |
| PaymentReplay.RowStops | src/modules/payments/payments.service.ts:363-390 | a live row stops a submission exactly with the same nonempty reference, or the same tenant and amount at most a second apart |
| TenantPortal.Latest | src/modules/tenant-portal/tenant-portal.service.ts:98-107 | the tenant's row of the month with the latest payment date, or none when there is no such row |
| TenantPortal.GetRentSummary | src/modules/tenant-portal/tenant-portal.service.ts:86-151 | due date, lazily derived status and amount due of the current month |
| TenantPortal.RefreshKeepsLatest | src/modules/payments/payments.service.ts:249-268 | with a row in the month a refresh leaves it the latest and only sweeps it |
| TenantPortal.RefreshCreatesRow | src/modules/payments/payments.service.ts:249-268 | without one the refresh creates it, and the sweep treats it like any other |
| TenantPortal.LazyViewIsEagerView | src/modules/tenant-portal/tenant-portal.service.ts:108-139 | the view before a refresh is the view after it exactly when the latest row's due date does not run ahead of the clamped one |
| TenantPortal.ClampedRowsAgree | src/modules/tenant-portal/tenant-portal.service.ts:108-139 | with the clamped due date on the latest row, or no row yet, they never disagree |
| TenantPortal.EarlierDueDateDiffers | src/modules/tenant-portal/tenant-portal.service.ts:108-139 | for any partial payment recorded with a due date before the clamped one, the tenant reads PARTIAL before a refresh between the two dates and OVERDUE after it |
| TenantPortal.ViewShowsBalance | src/modules/tenant-portal/tenant-portal.service.ts:113-139 | where status follows balance, the amount due is the balance, and an unpaid row shows as overdue exactly past the clamped due date |
| TenantPortal.AmountDueIs | src/modules/tenant-portal/tenant-portal.service.ts:118-136 | for any row: nothing when paid, else balance, amount or rent, whichever is first not zero |
| TenantPortal.ViewWithoutRow | src/modules/tenant-portal/tenant-portal.service.ts:117-139 | without a row the rent is due, overdue exactly past the due date |
| DedupeKeys.DecimalReadsBack | src/modules/reminders/reminders.service.ts:114-132 | the decimal spelling of a number reads back as the number |
| DedupeKeys.IsoDateInjective | src/modules/reminders/reminders.service.ts:482-483 | two days with one ISO date are one day |
| DedupeKeys.TypeNameInjective | src/modules/reminders/reminders.service.ts:114-132 | two reminder types with one name are one type |
| DedupeKeys.KeyInjective | src/modules/reminders/reminders.service.ts:357-358 | for colon-free account ids equal keys name the same account, due date, type and channel |
| Reminders.NormalizedDays | src/modules/reminders/reminders.service.ts:88-95 | exactly the whole numbers from 1 to 30, each once, largest first, or the defaults; normalising twice changes nothing |
| Reminders.SettingsAreNormal | src/modules/reminders/reminders.service.ts:144-164 | settings always list distinct positive offsets |
| Reminders.RemindersService.DispatchReminder | src/modules/reminders/reminders.service.ts:326-410 | one message and one log row for each channel whose key is not in the log, and their number |
| Reminders.RemindersService.PaymentMap | src/modules/reminders/reminders.service.ts:450-455 | a tenant goes by the payment updated last |
| Reminders.RemindersService.ProcessAccount | src/modules/reminders/reminders.service.ts:463-526 | an account is sent exactly what its settings, its due date and its payment call for |
| Reminders.RemindersService.ProcessAccounts | src/modules/reminders/reminders.service.ts:463-526 | the loop sweeps every account once and its two counters count messages and skipped accounts |
| Reminders.RemindersService.ProcessDueReminders | src/modules/reminders/reminders.service.ts:412-536 | a sweep that finds another under way does nothing; any other clears the flag, and its counters are the growth of the log and the accounts not reached |
| Reminders.DispatchGrows | src/modules/reminders/reminders.service.ts:347-409 | the log only grows, by at most one row a message, and every message is in it afterwards |
| Reminders.SweepAccounting | src/modules/reminders/reminders.service.ts:457-532 | the accounts reached lie between half the messages sent and all of them |
| Reminders.SweepOfInputAccounting | src/modules/reminders/reminders.service.ts:457-532 | the same for the sweep of any input |
| Reminders.RepeatSendsNothing | src/modules/reminders/reminders.service.ts:357-366 | a repeated sweep on unchanged data sends nothing, reaches nobody and leaves the log as it is |
| ReminderMonths.RunIsUnion | src/modules/reminders/reminders.service.ts:357-405 | after any run of sweeps the log holds what it held and what was ever due, however often it was due |
| ReminderMonths.RunsStayGenuine | src/modules/reminders/reminders.service.ts:357-405 | over any run no key is logged twice and every key spells its row |
| ReminderMonths.PlanIsGenuine | src/modules/reminders/reminders.service.ts:481-520 | an account's messages are its own and for a day of the month the sweep read |
| ReminderMonths.OwnOfSweep | src/modules/reminders/reminders.service.ts:463-526 | a sweep of the month plans the account's messages of that day, one of another month none for this due date |
| ReminderMonths.CalledCount | src/modules/reminders/reminders.service.ts:114-132 | the days of a span that call for a reminder are the offsets that fit before it, the due date, and the offsets that fit after it |
| ReminderMonths.RunCounts | src/modules/reminders/reminders.service.ts:412-536 | for one due date the log gains one row for each channel and each visited day that calls for a reminder, whatever other accounts and months the sweeps serve |
| ReminderMonths.MonthCount | src/modules/reminders/reminders.service.ts:412-536 | with sweeps on every day of the month the log gains channels times (offsets before the due day inside the month, the due day, offsets after it inside the month) |
| ReminderMonths.StraddlingAddsOne | src/modules/reminders/reminders.service.ts:432-460 | a sweep that reads the month before midnight and the day after it adds one reminder exactly when the first of the next month is an offset |
| ReminderRules.SettingsFollowPreference | src/modules/reminders/reminders.service.ts:134-164 | the switches of a stored preference hold; without one all is on with the default offsets |
| ReminderRules.ChannelsAreOn | src/modules/reminders/reminders.service.ts:349-355 | a channel is used exactly when it is switched on and, for e-mail, there is an address |
| ReminderRules.LatestPaidIs | src/modules/reminders/reminders.service.ts:450-455 | a tenant counts as paid exactly when the first of its payments, last updated first, is paid |
| ReminderRules.TypeFits | src/modules/reminders/reminders.service.ts:114-132 | the reminder of a day says how far before or after the due date it is, and only for offsets in the settings |
| ReminderRules.PlanIsDue | src/modules/reminders/reminders.service.ts:463-526 | an account gets exactly: nothing when user or tenant is missing, the user inactive or no tenant, both channels off or the rent paid; else the reminder of the day on each channel that is on |
| ReminderRules.GainedIsDue | src/modules/reminders/reminders.service.ts:412-536 | every row a sweep adds is due to one of its accounts |
| ReminderRules.SkippedIsSentNothing | src/modules/reminders/reminders.service.ts:463-497 | a sweep logs no row for a skipped account |
| ReminderRules.RunLogsExactlyDue | src/modules/reminders/reminders.service.ts:412-536 | after any run the log holds what it held and exactly the rows some sweep found due |
| ReminderRules.SkippedMonthGainsNothing | src/modules/reminders/reminders.service.ts:412-536 | an account every sweep of a month skips gains no row for that month |
| SyncUploads.SyncService.ProcessChange | src/modules/sync/sync.service.ts:197-237 | one change is applied or leaves the store as it is, and is reported as applied exactly when it was |
| SyncUploads.SyncService.ProcessVersioned | src/modules/sync/sync.service.ts:242-383 | the branches the three tables share: create, missing row, version conflict, update, delete |
| SyncUploads.SyncService.UploadChanges | src/modules/sync/sync.service.ts:153-192 | changes are applied in order, and each conflict or error is recorded |
| SyncUploads.ConflictsLeaveNoTrace | src/modules/sync/sync.service.ts:161-178 | uploading only the accepted changes gives the same store and no conflict |
| SyncUploads.ConflictsInOrder | src/modules/sync/sync.service.ts:161-178 | the conflicted records are the in-order subsequence of exactly the changes refused in their turn |
| SyncUploads.VersionFallsIff | src/modules/sync/sync.service.ts:242-287 | a version falls exactly when a create is saved over that row above version 2, and then to 2 |
| SyncUploads.VersionsRise | src/entities/base.entity.ts:49-52 | over any stretch of a run without that on the row, its version never falls |
| SyncUploads.AppliesIsAccepted | src/modules/sync/sync.service.ts:345-383 | an update is accepted exactly when its row is live and not newer and it may be stored; the version becomes the claimed one plus two |
| SyncUploads.AppliedMeansCurrent | src/modules/sync/sync.service.ts:345-383 | an applied update of a version downloaded since the last set-back of its row was based on the version stored at that moment, and storage moves two on |
| SyncUploads.SecondUpdateConflicts | src/modules/sync/sync.service.ts:161-178 | of two updates claiming one version only the first applies, whatever happens before, after or to other rows, unless the row is set back between them |
| SyncUploads.BothAppliedMeansSetBack | src/modules/sync/sync.service.ts:242-287 | if both apply, a create set the row back strictly between them |
| SyncUploads.VersionCountsSaves | src/entities/base.entity.ts:49-52 | between clients' writes a row's version rises by exactly one a save |
| SyncUploads.UpdateGoesThroughIff | src/modules/sync/sync.service.ts:345-383 | after any state that no client's write follows, an update goes through exactly when the row is live, the caller may store it and the saves since have not passed its version |
| SyncUploads.SetBackLetsThroughIff | src/modules/sync/sync.service.ts:345-383 | after a set-back the saves are counted from version 2 |
| SyncUploads.SetBackLosesUpdate | src/modules/sync/sync.service.ts:242-287 | with a create over the stored id between them, two updates based on one version both go through |
| SyncContents.AcceptedIffPermitted | src/modules/sync/sync.service.ts:197-383 | which creates, updates and deletes are accepted, table by table and role by role |
| SyncContents.ChangeWritesWhatItCarries | src/modules/sync/sync.service.ts:242-383 | after an accepted create or update each column holds what the change carries or the service sets, else what it held; a delete only marks; a refused change writes nothing; no other row is touched |
| SyncContents.VersionAfterChange | src/modules/sync/sync.service.ts:242-383 | 1 for a new row, 2 over a stored one, two above the claimed one for an update, unchanged by a delete |
| SyncContents.ColumnsKeep | src/modules/sync/sync.service.ts:153-192 | a column nothing is put into keeps what it holds |
| SyncContents.ColumnsHoldLastWrite | src/modules/sync/sync.service.ts:153-192 | over any run a column holds what the last accepted write, service save or bulk update put into it |
| SyncContents.AppliedUpdateStays | src/modules/sync/sync.service.ts:242-383 | what an applied update carries stays until something is put into the column again |
| SyncReplica.RunsKeepInv | src/modules/sync/sync.service.ts:58-84 | over every interleaving of writes, queries and syncs the replica holds every row not written since its last sync began, and no other |
| SyncReplica.MergeIsSeen | src/modules/sync/sync.service.ts:63-84 | merging a complete response makes the replica exactly what the queries saw |
| SyncReplica.QuerySees | src/modules/sync/sync.service.ts:70-84 | a query sees its whole table as it stands |
| SyncReplica.SeenStays | src/modules/sync/sync.service.ts:70-84 | what a query saw stays until the sync finishes, whatever is written meanwhile |
| SyncReplica.ReplicaConverges | src/modules/sync/sync.service.ts:58-84 | when a sync finishes, the replica's rows of each table are exactly the server's at that table's query |
| SyncReplica.BeginStarts | src/modules/sync/sync.service.ts:58-69 | an idle client's sync starts with a reading of the clock and nothing asked for yet |
| SyncReplica.NextSinceIsReading | src/modules/sync/sync.service.ts:58-84 | whatever happens meanwhile, the next sync asks for what was written after that reading |
| SyncReplica.UndisturbedSync | src/modules/sync/sync.service.ts:58-84 | from any reachable state an undisturbed sync makes the replica the server's tables |
| SyncReplica.WriteStamps | src/entities/base.entity.ts:28-29 | a write stores its row, stamped later than every row before it, and changes no other |
| LoginLockout.InterleavingsKeepLocks | src/modules/auth/auth.service.ts:139-172 | in every interleaving an entry has a lock exactly when its count is at least five |
| LoginLockout.LoginIsItsAccesses | src/modules/auth/auth.service.ts:94-137 | a login is its check and, unless refused, its failure, success or leaving in a row |
| LoginLockout.LoginCounts | src/modules/auth/auth.service.ts:94-172 | a failure counts one up, a success starts over, a lock that has run out is forgotten; refused logins and other keys change nothing |
| LoginLockout.LockHoldsExactly | src/modules/auth/auth.service.ts:139-172 | from the fifth failure on a key is locked for exactly fifteen minutes |
| LoginLockout.SuccessRestores | src/modules/auth/auth.service.ts:120-123 | a right password gives back the whole allowance and leaves no lock |
| LoginLockout.AllowanceFalls | src/modules/auth/auth.service.ts:139-172 | each registered failure uses up one of what the window still allows, and time never adds to it |
| LoginLockout.FailureRateBound | src/modules/auth/auth.service.ts:94-172 | from any reachable state, a window registers at most five failures on a key for each lockout period begun in it |
| LoginLockout.AccessKeepsLeeway | src/modules/auth/auth.service.ts:139-172 | no access of interleaved logins adds to what the window still allows, and each failure uses one up |
| LoginLockout.InterleavedRateBound | src/modules/auth/auth.service.ts:94-172 | with a number of logins underway at once, at most four failures and that number for each lockout period begun |
| LoginLockout.BoundIsReached | src/modules/auth/auth.service.ts:94-172 | for every such number there is a run within one instant that reaches the bound |
| TokenRevocation.PrunedAnswersAlike | src/modules/auth/auth.service.ts:310-350 | a pruned map that agrees with the kept one on what has not expired gives the same answers ever after |
| TokenRevocation.PruningIsInvisible | src/modules/auth/auth.service.ts:310-350 | under a clock that never runs backwards every query is answered as by a map that is never pruned |
| TokenRevocation.NothingExpiredRetained | src/modules/auth/auth.service.ts:310-350 | after each call every retained entry has yet to expire |
| TokenRevocation.RevokedUntilExpiry | src/modules/auth/auth.service.ts:318-345 | after any calls a token is refused exactly until the expiry it was last revoked under has passed |
| Sessions.RunsKeepRecord | src/modules/auth/auth.service.ts:194-262 | over every run the stored hash is that of the last token issued, and versions count invalidations |
| Sessions.HonouredIsLastIssued | src/modules/auth/auth.service.ts:194-220 | a refresh token is honoured exactly when it is the last issued since the latest logout, change or reset |
| Sessions.RotatedNeverAgain | src/modules/auth/auth.service.ts:194-220 | a used refresh token is never honoured again |
| Sessions.VersionTestIsUndisturbed | src/modules/auth/auth.service.ts:329-350 | a token passes the version test exactly when its user's password has been neither changed nor reset since |
| Sessions.StepOnUser | src/modules/auth/auth.service.ts:177-262 | what one event does to one user: it stores the token it issues, ends the session, or resets and raises the version, or leaves the user alone |
| Sessions.TokensLastUntilReset | src/modules/auth/auth.service.ts:329-350 | both tokens an event hands out pass the version test exactly until an event changes or resets the user's password |
| Sessions.HonouredIffIssuedLast | src/modules/auth/auth.service.ts:194-220 | a refresh token is honoured exactly when some event issued it and no later one issued another, logged out, changed or reset |
| Auth.AuthService.AssertLoginNotLocked | src/modules/auth/auth.service.ts:139-153 | refuses while a lock runs and drops a lock that has run out |
| Auth.AuthService.RegisterFailedLogin | src/modules/auth/auth.service.ts:155-172 | counts the failure, locks the key from the fifth on, and says which refusal it is |
| Auth.AuthService.Login | src/modules/auth/auth.service.ts:94-137 | succeeds exactly for a right password on an active user with an unlocked key, and changes attempts and session as the lockout and session models say |
| Auth.AuthService.IssueTokens | src/modules/auth/auth.service.ts:225-262 | both tokens carry the current version and the hash of the refresh token replaces the stored one |
| Auth.AuthService.RefreshTokens | src/modules/auth/auth.service.ts:194-220 | exactly the honoured token is exchanged for a new pair |
| Auth.AuthService.PruneRevocationState | src/modules/auth/auth.service.ts:310-316 | deleting while iterating keeps exactly the entries that have not expired |
| Auth.AuthService.RevokeAccessToken | src/modules/auth/auth.service.ts:318-327 | prunes, and enters the token unless it has expired |
| Auth.AuthService.IsAccessTokenRevoked | src/modules/auth/auth.service.ts:334-350 | a token is refused without an id, when listed and unexpired, or when its version is not the current one |
| Auth.AuthService.Logout | src/modules/auth/auth.service.ts:177-189 | ends the session and revokes the access token it was called with |
| Auth.AuthService.InvalidateAllUserTokens | src/modules/auth/auth.service.ts:329-332 | raises the user's version by one |
| Auth.AuthService.ChangePassword | src/modules/auth/auth.service.ts:364-386 | with the right old password sets the new one, drops the refresh token and invalidates all tokens; otherwise changes nothing |
| Auth.AuthService.ResetPassword | src/modules/auth/auth.service.ts:428-474 | an unexpired matching code sets the password and invalidates all tokens; an expired one is cleared; otherwise nothing changes |
| TaxSchedules.CreatedDateIsNext | src/modules/tax-schedules/tax-schedules.service.ts:79-110 | a created date is after today, on the clamped day, and the first such date a whole number of periods away; for monthly schedules the first of all |
| TaxSchedules.AdvancesAddPeriods | src/modules/tax-schedules/tax-schedules.service.ts:115-137 | k advances add exactly k periods and keep the day of the month |
| TaxSchedules.MissedIsLeast | src/modules/tax-schedules/tax-schedules.service.ts:306-319 | the missed periods are exactly the dates of the progression before today |
| TaxSchedules.CatchUpStopsExactly | src/modules/tax-schedules/tax-schedules.service.ts:306-319 | repeated sweeps on one day stop after exactly the missed periods, at the first date that is today or later |
| TaxSchedules.NoticeAtMostOnce | src/modules/tax-schedules/tax-schedules.service.ts:306-358 | each due date gets at most one notice for each number of days ahead, and only for 5, 3 and 1 |
| TaxSchedules.NoticeIffSeen | src/modules/tax-schedules/tax-schedules.service.ts:320-358 | a notice goes out, once, exactly when a sweep with a manager present falls on its day and the last notice before it was not for the same number of days |
| TaxSchedules.EveSilencesNextEve | src/modules/tax-schedules/tax-schedules.service.ts:314-326 | a schedule told only on the eve of a due date is not told on the eve of the next, though a sweep falls on it |
| TaxSchedules.DailySweepsSendThree | src/modules/tax-schedules/tax-schedules.service.ts:306-358 | with a sweep on every day each due date entered more than 5 days ahead gets exactly those three, once each, whatever was stored, except that a stored 5 silences the first date's notice for 5 days |
| TaxSchedules.StoredFiveSilences | src/modules/tax-schedules/tax-schedules.service.ts:320-326 | in any run, a stored 5 silences the notice 5 days ahead of the due date it is stored with |
| TaxSchedules.TaxSchedulesService.Create | src/modules/tax-schedules/tax-schedules.service.ts:142-172 | a schedule with a date after today, unless the property is missing or another manager's |
| TaxSchedules.TaxSchedulesService.AdvanceOrNotify | src/modules/tax-schedules/tax-schedules.service.ts:306-358 | one schedule is advanced without touching its stored number of days, or notified and that number stored, or left alone |
| TaxSchedules.TaxSchedulesService.CheckAndSendNotifications | src/modules/tax-schedules/tax-schedules.service.ts:273-361 | every schedule in scope is swept once, every notice goes to its manager in order, and their number is returned |
| TaxSchedules.SweepTouchesConcerned | src/modules/tax-schedules/tax-schedules.service.ts:273-358 | only active schedules in the caller's reach are advanced or told; inactive and foreign ones stay as they are |
| TaxSchedules.SentIsConcerned | src/modules/tax-schedules/tax-schedules.service.ts:320-358 | exactly the managers of such schedules are told, 5, 3 or 1 days ahead, unless last told for the same number |
| Visitors.Candidates | src/modules/visitor/visitor.service.ts:309-330 | the newest pending or verified passes, newest first, none left out below the limit |
| Visitors.FirstMatch | src/modules/visitor/visitor.service.ts:331-375 | the first candidate that has not lapsed and has the code |
| Visitors.VisitorService.CreatePass | src/modules/visitor/visitor.service.ts:250-307 | a pending pass for a day, exactly when the link is there, is the account's own, active and not expired; an expired one is marked; each refusal has its reason |
| Visitors.VisitorService.VerifyByCode | src/modules/visitor/visitor.service.ts:309-378 | the scan that changes candidates as it goes gives the table, log and answer of the value function |
| Visitors.VisitorService.VerifyPass | src/modules/visitor/visitor.service.ts:380-472 | the same for one pass: missing, revoked, expired, lapsed, verified, wrong code, right code |
| Visitors.VisitorService.LogAttempt | src/modules/visitor/visitor.service.ts:474-489 | one row is appended to the log |
| Visitors.ByCodePicksNewest | src/modules/visitor/visitor.service.ts:331-375 | the answer is the newest eligible match, and true exactly when there is one |
| Visitors.CandidatesIff | src/modules/visitor/visitor.service.ts:309-320 | a pass is a candidate exactly when it is pending or verified and fewer such passes than the limit are newer |
| Visitors.FoundAmongNewest | src/modules/visitor/visitor.service.ts:309-375 | what is found by code is pending or verified with fewer than 200 such passes newer, and what is so and matches is not missed |
| Visitors.ScanExpires | src/modules/visitor/visitor.service.ts:331-345 | the scan expires exactly the lapsed candidates newer than its answer |
| Visitors.ByCodeChanges | src/modules/visitor/visitor.service.ts:309-378 | a verification by code changes the answer's pass and those lapsed ones, and no other |
| Visitors.ByCodeAnswersIff | src/modules/visitor/visitor.service.ts:309-378 | a pass is answered by code exactly when it is the newest candidate that matches |
| Visitors.ByPassAnswersIff | src/modules/visitor/visitor.service.ts:380-472 | a pass is accepted for itself exactly when it is unexpired and verified already, whatever the code, or pending with that code |
| Visitors.FoundByCodeIsAcceptedIff | src/modules/visitor/visitor.service.ts:309-472 | what is found by code is accepted for itself unless it is verified and past its expiry |
| Visitors.AcceptedIsFoundByCodeIff | src/modules/visitor/visitor.service.ts:309-472 | what is accepted for itself is found by the code exactly when it is a candidate, the code is its own and no newer candidate matches |
| Visitors.VerificationsAgreeIff | src/modules/visitor/visitor.service.ts:309-472 | the two give a pass the same answer exactly outside those exceptions |
| Visitors.VerifiedPastExpiry | src/modules/visitor/visitor.service.ts:309-472 | the first exception: answered true by code and unchanged, false by pass and expired |
| Visitors.AnyCodeForVerified | src/modules/visitor/visitor.service.ts:380-472 | the second: an unexpired verified pass is accepted with a code that no pass has, which finds nothing |
| Visitors.ByCodeLogs | src/modules/visitor/visitor.service.ts:336-375 | one VERIFIED row of the guard for the pass answered, none otherwise |
| Visitors.ByPassLogs | src/modules/visitor/visitor.service.ts:380-472 | one row of the guard for every answer, VERIFIED or DENIED, none for a refusal, and which refusal it is |
| Visitors.ByPassChanges | src/modules/visitor/visitor.service.ts:380-472 | a pass accepted while pending is marked used, by whom and when; one past its expiry expires; no other changes |
| Visitors.StepsAreAllowed | src/modules/visitor/visitor.service.ts:309-472 | every step leaves a pass, verifies a pending one in time, or expires it after its expiry |
| Visitors.StepKeepsSound | src/modules/visitor/visitor.service.ts:309-472 | the mark of use and the guard are set together, and with VERIFIED |
| Visitors.PassRuns | src/modules/visitor/visitor.service.ts:309-472 | over every run a pass turns verified at most once, never leaves EXPIRED or REVOKED, and keeps its mark of use |
| Visitors.LogMatchesAnswers | src/modules/visitor/visitor.service.ts:309-489 | the VERIFIED rows a pass gains in the log are its answers `verified: true` |

## Left out

- MonthConservation.SummaryConserves: covers recorded payments only where they fit the month and no partial payments; RecordKeepsSoundIff, RecordUnbalances and PartialUnbalances say what the others do.
- PaymentReplay.RepeatsIffOvertaken: speaks of create-only runs; a settled or edited row can change the date or amount the second check compares.
- LoginLockout.FailureRateBound: takes logins one after another; InterleavedRateBound covers the others.
- ReminderMonths.MonthCount: takes messages that are sent without an error; an error ends the sweep before the row is logged, and the next sweep sends again.
- SyncReplica.ReplicaConverges: is about the owner's branch and creates and updates; the manager's branch selects tenants only under properties that changed, and deletions are not downloaded.
- SyncUploads.SecondUpdateConflicts: excludes tenants, where a manager may override a version, and takes audit writes to succeed.
- Sessions.HonouredIsLastIssued: takes each login, refresh, logout and password change as one step within one process.
- TaxSchedules.NoticeAtMostOnce: takes sweeps one after another and no edits of the schedule; the service has no guard against overlapping sweeps.
- DedupeKeys.IsoDateInjective: covers the years 0 to 9999, whose ISO dates have four digits.
- Time zones and daylight saving: all calendar fields are read in UTC; years 0 to 99 in the Date constructor are not special.
- Ties of payment dates in the tenant's query go to the first row of the table; the database leaves them open.
- Numeric columns read back from the database as strings.
- The notifications for payments long overdue, the free-form payment update, receipts, and listing.
- Texts and delivery of e-mail, SMS and push messages; the dispatch log stands for what was sent.
- Token signing, OTP generation and e-mail verification; the e-mail lookup is a parameter.
- The errors of the rent view for a user without an active account or a tenant.
- Creating, listing and revoking invite links of visitors; the account behind a user is a parameter.
- Create, read, update and delete of users, properties, tenants and complaints, role guards and statistics: single-branch claims.
