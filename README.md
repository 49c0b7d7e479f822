# Chit-fund ledger model

This project models the balance and ledger engine of a group-savings ("chit
fund") tracker. Members enroll in funds. A fund has a fixed total amount and a
duration in months. Members record payments against a `YYYY-MM` month. The
engine treats the payments table as the only source of truth. From it the
engine derives:

- the enrollment's cached `total_paid` and `pending_balance`;
- a month-by-month ledger in which a Completed month carries its overpayment
  forward into the next month;
- an overdue count, measured in months of shortfall;
- the current month's balance, with weekly and daily recommended instalments.

Beside the engine, the model covers three route handlers:

- **POST /payments** admits a payment only if its (user, fund, month) stays on
  one payment schedule and below that schedule's monthly limit. It then
  re-syncs the enrollment. Months are taken to be well-formed `YYYY-MM`
  labels; for a label with no `-`, or whose year or month part is not a
  number, the source has no working limit (see "Left out").
- **DELETE /payments/:id** is open to administrators only. It removes the
  payment and re-syncs its owner's enrollment.
- **/user/summary** computes the member dashboard's figures.

Modules:

- `Wrappers`: `Option` and `Result`.
- `Numeric`: `Math.max`, `Math.min`, `Math.floor` and `Math.ceil` on exact
  numbers.
- `Calendar`:
  - month labels and dates;
  - days in a month;
  - adding months and days;
  - calendar weeks.
- `BalanceService`:
  - the records of the engine;
  - the ledger specification (`BucketAt`, `CarryInto`, `Ledger`);
  - the `CalculateTracking` loop proved against that specification;
  - the pending balance, the overdue count and the current-month method;
  - the lemmas about all of them.
- `PaymentStore`:
  - the admission rule;
  - the per-month invariants that admission and deletion keep;
  - cache consistency after a re-sync;
  - the `Store` class, whose fields are the funds, user_funds and payments
    tables, with the `Sync`, `Insert`, `Delete` and `DeleteById` methods.
- `Dashboard`: the `/user/summary` derivations.

Money is an exact `real`. The current date is a parameter, and so is the
weekday of the month's first day and of today. The source reads both from the
clock.

The total paid counts every payment of the enrollment, whatever its month.
The ledger counts only payments whose month falls inside the fund's window.
Consequences:

- A payment labelled outside the window lowers the pending balance and the
  overdue count.
- That payment appears in no bucket.
- `BucketPaidConservation` states this gap exactly.

## Model

| member | source | states |
|---|---|---|
| Calendar.DaysInMonth | server/src/services/balanceService.js:136 | a month has 28 to 31 days, and 29 exactly for February of a Gregorian leap year |
| Calendar.MonthsBetween | server/src/services/balanceService.js:171 | the month difference formula equals the distance between the two labels on the month index |
| Calendar.AddMonths | server/src/services/balanceService.js:75-77 | the label `k` months on lies exactly `k` months away, with month overflow carried into the year; this is the label `setMonth` gives for a start day that every month has |
| Calendar.AddMonthsUnique | server/src/services/balanceService.js:75-79 | a label is `k` months after the start if and only if it is the label `AddMonths` produces, so each ledger month matches exactly one label |
| Calendar.WeeksInMonth | server/src/services/balanceService.js:152-161 | the week count is the least `w` with days plus first weekday at most `7w`, which is between 4 and 6 |
| Calendar.NextDay | server/src/routes/dashboard.routes.js:112-113 | the next day is a valid date; within the month the day goes up by one, and the 1st of the following month comes only after the month's last day |
| Calendar.AddDays | server/src/routes/dashboard.routes.js:112-113 | moving `n` days forward gives a valid date; within the month it adds `n` to the day, and for a move of at most 28 days past the month's end it lands in the next month on the day less the month's length |
| Calendar.SetMonthLabel | server/src/services/balanceService.js:75-77 | the label `setMonth` gives on a start date with a day: `k` months on when that month has the day, else one month further |
| Calendar.AddMonthsWithinYear | server/src/services/balanceService.js:75-77 | adding months that stay within the year only changes the month number |
| Calendar.SetMonthRepeatsLabel | server/src/services/balanceService.js:75-77 | a 31 January start labels fund months 2 and 3 both March and none February |
| Numeric.Max0 | server/src/services/balanceService.js:100 | the result is the larger of zero and `x` |
| Numeric.MinInt | server/src/services/balanceService.js:172 | the result is the smaller argument |
| Numeric.Floor | server/src/routes/dashboard.routes.js:90 | the greatest integer not above `x` |
| Numeric.Ceil | server/src/services/balanceService.js:180 | the least integer not below `x` |
| Numeric.ShareAtMost | server/src/services/balanceService.js:63 | an amount shared among at least one part gives each part between zero and the amount, and a positive share of a positive amount |
| Numeric.CeilOfQuotient | server/src/services/balanceService.js:180 | the rounded-up number of targets covers `p`, and one fewer falls short of it |
| Numeric.CeilAtMost | server/src/services/balanceService.js:172-180 | a shortfall of at most `m` targets rounds up to at most `m` |
| Numeric.ShareOfParts | server/src/services/balanceService.js:174 | `m` of `d` equal parts of a total are `m / d` of it, at most the total when it is not negative, and the whole total when `m` is `d` |
| Numeric.CatchUpIsCeil | server/src/services/balanceService.js:177-180 | the rounded-up shortfall in targets is the fewest whole targets that bring the paid amount up to what is due, and zero exactly when nothing is due |
| Numeric.WholeTargetsReach | server/src/routes/dashboard.routes.js:90 | when `k` whole targets fit in the amount paid, `k` reaches `d` exactly when the amount reaches `d` targets |
| BalanceService.TotalPaid | server/src/services/balanceService.js:24 | the sum of the amounts, never negative when no amount is |
| BalanceService.TotalPaidAppend | server/src/services/balanceService.js:24 | the total of two payment lists together is the sum of their totals |
| BalanceService.PaidIn | server/src/services/balanceService.js:79-80 | a month's payments add up to between zero and the whole total paid |
| BalanceService.LedgerPaidStep | server/src/services/balanceService.js:79-80 | one more month adds exactly that month's payments to the buckets' paid amounts |
| BalanceService.MonthlyTarget | server/src/services/balanceService.js:63 | the monthly target of a fund with a non-negative total is between zero and the total, and positive for a positive total |
| BalanceService.MonthlyTargetSpreadsTotal | server/src/services/balanceService.js:63 | the monthly target times the duration is the fund's total |
| BalanceService.StartMonth | server/src/services/balanceService.js:64-69 | the fund's start month, or the current month when the start date is unparseable |
| BalanceService.Classify | server/src/services/balanceService.js:83-92 | Completed if and only if what is available reaches the target, Partial if and only if it is positive and short of it, Pending otherwise, never Not Started |
| BalanceService.CarryOut | server/src/services/balanceService.js:84-92 | a month passes on its non-negative excess over the target, and passes on something only when it is Completed |
| BalanceService.CalculateTracking | server/src/services/balanceService.js:62-107 | the loop builds exactly `duration` buckets of the ledger specification from the start month (or the current month for an unparseable start date), and returns the carry left after the last month and the target `total_amount / duration` |
| BalanceService.LedgerStep | server/src/services/balanceService.js:74-103 | a bucket built from the month's payments and the carry into it extends the ledger by one month, and what it passes on is the next month's carry |
| BalanceService.LedgerAt | server/src/services/balanceService.js:74-104 | the ledger has one bucket per fund month, and bucket `k` is the specification's bucket `k` |
| BalanceService.LedgerLabels | server/src/services/balanceService.js:75-77 | bucket `k` is labelled `k` months after the start, so the labels strictly increase |
| BalanceService.BucketRules | server/src/services/balanceService.js:79-101 | each bucket's paid is its month's payments, its total is paid plus carry-in, the carry-in is never negative, and its status follows the rules: Completed if and only if the total reaches the target, Partial if and only if the total is positive and short of it, Pending otherwise; its balance is the non-negative shortfall, zero exactly when Completed |
| BalanceService.CarryChain | server/src/services/balanceService.js:71-103 | the first month receives no carry; each next month receives the previous Completed month's excess and nothing after a Partial or Pending one; the returned carry is the last month's carry-out |
| BalanceService.CarryIsClampedExcess | server/src/services/balanceService.js:82-103 | each month's carry-in is `max(0, carry-in + paid - target)` of the month before |
| BalanceService.CarryStep | server/src/services/balanceService.js:84-103 | what a month passes on is its Completed excess, equivalently its non-negative excess over the target |
| BalanceService.CarryIsLargestRecentSurplus | server/src/services/balanceService.js:82-103 | the carry into month `n` is the largest surplus over targets of any run of the latest months, so an overpayment is carried forward until later months use it up |
| BalanceService.BucketPaidIsInside | server/src/services/balanceService.js:24-80 | the buckets' paid amounts add up to the total paid less the payments labelled outside the fund's window |
| BalanceService.BucketPaidConservation | server/src/services/balanceService.js:24-80 | with no negative amount, the buckets' paid amounts never exceed `total_paid`, because the payments labelled outside the fund's window count toward the total but appear in no bucket |
| BalanceService.SourceLedgerCountsTwice | server/src/services/balanceService.js:75-80 | with the labels `setMonth` gives for a 31 January start, a March payment is counted in two buckets, so the buckets hold twice what was paid |
| BalanceService.CarryConservation | server/src/services/balanceService.js:82-103 | carry-forward neither creates nor loses money: the buckets' paid amounts equal what the months absorbed plus the carry left over; a Completed month absorbs its target, and any other month absorbs everything available to it |
| BalanceService.LedgerCarryStep | server/src/services/balanceService.js:82-103 | one more month keeps the buckets' paid amounts equal to what they absorbed plus the carry left over |
| BalanceService.CompletedMonthsArePaidFor | server/src/services/balanceService.js:82-103 | with non-negative amounts, the targets of the Completed months plus the final carry never exceed what was paid |
| BalanceService.CompletedTargetsIsProduct | server/src/services/balanceService.js:86-88 | the targets absorbed by Completed months are their count times the monthly target |
| BalanceService.AbsorbedCoversCompleted | server/src/services/balanceService.js:86-91 | with non-negative amounts, what the months absorb covers the targets of the Completed months |
| BalanceService.PendingBalance | server/src/services/balanceService.js:41-54 | the pending balance is never negative, together with the total paid it covers the fund's total, and when positive it is exactly the rest |
| BalanceService.Overdue | server/src/services/balanceService.js:166-181 | an unparseable start date gives no number, and a valid one with a positive fund total gives a count of at least zero |
| BalanceService.MonthsPassed | server/src/services/balanceService.js:171-172 | the months begun since the start, counting the current one, capped at the duration |
| BalanceService.ExpectedByNow | server/src/services/balanceService.js:174 | what is due by now is the months begun's share of the fund's total (times the duration it gives the months begun times the total), never exceeds the total, and is the whole total once every month has begun |
| BalanceService.OverdueIsLeastCatchUp | server/src/services/balanceService.js:171-180 | the overdue count is the fewest whole monthly targets that bring the total paid up to what is due by now; it is zero exactly when nothing is due |
| BalanceService.OverdueAtMostDuration | server/src/services/balanceService.js:171-180 | with non-negative amounts the overdue count is between zero and the fund's duration, and never more than the months begun so far |
| BalanceService.PerInstalment | server/src/services/balanceService.js:143-144 | the recommended instalment times the number of weeks or days gives back the balance, and lies between zero and the balance for a non-negative balance |
| BalanceService.FindMonth | server/src/services/balanceService.js:125 | the bucket found is the first one carrying the month sought, and none is found only when no bucket has that month |
| BalanceService.FindMonthInLedger | server/src/services/balanceService.js:121-125 | looking the current month up in the ledger finds bucket `k` exactly when the month is `k` months after the start, with `k` inside the duration |
| BalanceService.GetCurrentMonthBalance | server/src/services/balanceService.js:112-147 | a missing fund or enrollment gives nothing; otherwise the current month's bucket figures, or paid 0 with the whole target as balance and status Not Started outside the window; and the weekly and daily recommendations times the week and day counts give back the balance |
| PaymentStore.Lower | server/src/routes/payment.routes.js:26-27 | lower-casing keeps the length and lower-cases each ASCII letter in place |
| PaymentStore.Effective | server/src/routes/payment.routes.js:27-68 | the stored schedule is never empty, keeps a given schedule, and is `monthly` when none is given |
| PaymentStore.Owner | server/src/routes/payment.routes.js:13 | a caller who is not an administrator always pays for themselves, and an administrator pays for the user supplied |
| PaymentStore.PaymentMonth | server/src/routes/payment.routes.js:16 | the month is the label given, else the date's month; the request fails, with an unparseable-date rejection, exactly when no label is given and the date is missing or does not parse |
| PaymentStore.Limit | server/src/routes/payment.routes.js:39-49 | the monthly limit is 1; the weekly limit is the number of started weeks, 4 or 5; the daily limit is the days of the month; an unknown schedule gets 0 |
| PaymentStore.PaymentsOf | server/src/services/balanceService.js:20-21 | the enrollment's payments are no more than those stored, and a payment is among them exactly when it is stored under that user and fund |
| PaymentStore.PaymentsOfCounts | server/src/services/balanceService.js:20-21 | each payment occurs among the enrollment's payments as often as it is stored when it belongs to that user and fund, and not at all otherwise |
| PaymentStore.Group | server/src/routes/payment.routes.js:21-23 | the month's group is no larger than the payments stored, and a payment is in it exactly when it is stored under that user, fund and month |
| PaymentStore.GroupCounts | server/src/routes/payment.routes.js:21-23 | each payment occurs in the month's group as often as it is stored when it belongs to that user, fund and month, and not at all otherwise, so the group's length is the count the limit test compares |
| PaymentStore.PaymentsOfConcat | server/src/services/balanceService.js:20-21 | filtering distributes over concatenation |
| PaymentStore.GroupConcat | server/src/routes/payment.routes.js:21-23 | grouping distributes over concatenation |
| PaymentStore.Admit | server/src/routes/payment.routes.js:25-57 | the first payment of a month is always admitted; a later one is refused for a mode mismatch exactly when the lower-cased schedules differ, and for the limit exactly when they agree and the month already holds the limit |
| PaymentStore.AdmittedJoinsItsMonth | server/src/routes/payment.routes.js:25-55 | an admitted payment shares its month's schedule and finds the month below its capacity |
| PaymentStore.AppendKeepsOneMode | server/src/routes/payment.routes.js:25-71 | booking a payment on its month's schedule keeps every month on one schedule |
| PaymentStore.AppendKeepsLimits | server/src/routes/payment.routes.js:38-71 | booking a payment into a month below capacity keeps every month within its limit |
| PaymentStore.AdmissionKeepsMonthRules | server/src/routes/payment.routes.js:25-71 | every admitted insert keeps all months on one schedule and within their limits, so a monthly month never holds two payments |
| PaymentStore.RemovalKeepsMonthRules | server/src/routes/payment.routes.js:155 | deleting a payment keeps all months on one schedule and within their limits |
| PaymentStore.RemovalKeepsOneMode | server/src/routes/payment.routes.js:155 | deleting a payment keeps every month on one schedule |
| PaymentStore.RemovalShrinksGroups | server/src/routes/payment.routes.js:155 | deleting a payment never grows any month's group |
| PaymentStore.RemovalKeepsLimits | server/src/routes/payment.routes.js:155 | deleting a payment keeps every month within its limit |
| PaymentStore.Resynced | server/src/services/balanceService.js:13-50 | a sync rewrites only the synced enrollment's totals, which then agree with its payments, and keeps its schedule; a missing fund or enrollment leaves every row as it was |
| PaymentStore.ResyncIdempotent | server/src/services/balanceService.js:13-57 | syncing twice writes what syncing once writes |
| PaymentStore.ResyncRestoresAgreement | server/src/services/balanceService.js:13-57 | if every cache agreed and only one enrollment's payments changed, syncing that enrollment makes every cache agree again |
| PaymentStore.AppendTouchesOnlyOwner | server/src/routes/payment.routes.js:61-74 | inserting a payment changes only its own enrollment's payment list, by appending it |
| PaymentStore.RemovalTouchesOnlyOwner | server/src/routes/payment.routes.js:155-158 | deleting a payment changes only its own enrollment's payment list |
| PaymentStore.FindById | server/src/routes/payment.routes.js:148-152 | the position found holds a payment with that id, and none is found only when no payment has that id |
| PaymentStore.AppendFreshId | server/src/routes/payment.routes.js:61 | a row inserted under the next id keeps ids unique and below the new next id |
| PaymentStore.RemovalKeepsIds | server/src/routes/payment.routes.js:155 | deleting a row keeps ids unique, and its id no longer occurs |
| PaymentStore.Store.Sync | server/src/services/balanceService.js:13-57 | returns the total paid over all the pair's payments, the pending balance and the overdue count, writes the same totals to that enrollment and to no other, and returns nothing for a missing fund or enrollment |
| PaymentStore.Store.Insert | server/src/routes/payment.routes.js:8-81 | an unusable month or a refused admission changes nothing and reports the reason; an admitted request without an `amount` or a `payment_date` fails at the insert (both columns are NOT NULL, server/src/config/db.js:74-75) and changes nothing; any other admitted payment is appended under its owner, the resolved month and the defaulted schedule, gets the next id, and its owner is re-synced; the store invariant and, when it held, cache agreement are kept |
| PaymentStore.Store.InsertRow | server/src/routes/payment.routes.js:61-71 | appends the admitted row, with its amount and its date or unparseable date string, under the next id while keeping the store invariant |
| PaymentStore.Store.DeleteRow | server/src/routes/payment.routes.js:155 | removes exactly the row at the position, and no remaining row has its id |
| PaymentStore.Store.Delete | server/src/routes/payment.routes.js:145-165 | a caller who is not an administrator is refused and changes nothing; for an administrator the payment is deleted exactly when one has the id, and otherwise nothing changes; a deletion removes exactly that payment and re-syncs its owner; the store invariant and, when it held, cache agreement are kept |
| PaymentStore.Store.DeleteById | server/src/routes/payment.routes.js:146-158 | reports found exactly when a payment has the id; an unknown id changes nothing; otherwise exactly that payment is removed and its owner re-synced; the store invariant and, when it held, cache agreement are kept |
| PaymentStore.SyncTwice | server/src/services/balanceService.js:13-57 | two syncs in a row return identical figures and write what one sync writes |
| Dashboard.FundValue | server/src/routes/dashboard.routes.js:59 | the enrolled funds' value is never negative when no fund total is |
| Dashboard.UserPendingBalance | server/src/routes/dashboard.routes.js:51-60 | the overall pending balance is never negative, is zero exactly when the total paid reaches the enrolled funds' value, and when positive is exactly the rest |
| Dashboard.SumOfPendingCoversShortfall | server/src/routes/dashboard.routes.js:51-60 | the enrollments' synced pending balances add up to at least the enrolled funds' value less what was paid on them, and to exactly that when no enrollment is overpaid |
| Dashboard.UserPendingAtMostSumOfPending | server/src/routes/dashboard.routes.js:51-60 | when the member's payments are exactly those of their enrollments, the overall pending balance never exceeds the sum of the enrollments' synced pending balances, and equals it when no enrollment is overpaid; a payment on a fund the member is not enrolled in also lowers the overall figure |
| Dashboard.Progress | server/src/routes/dashboard.routes.js:84-122 | progress is at most 100, is not negative for a non-negative total paid, is 100 exactly when the fund is fully paid, and below 100 is the paid share in percent |
| Dashboard.IntervalsPaid | server/src/routes/dashboard.routes.js:90 | the number of whole monthly targets the total paid covers |
| Numeric.FloorOfQuotient | server/src/routes/dashboard.routes.js:90 | the whole targets covered times the target stay within one target below the total paid |
| Dashboard.FullyPaidIffIntervalsReachDuration | server/src/routes/dashboard.routes.js:90 | the months paid for reach the duration exactly when the total paid reaches the fund's total |
| Dashboard.NextDueMonth | server/src/routes/dashboard.routes.js:92-124 | the next due month lies as many months after the start month (or the current month) as there are whole months paid for |
| Dashboard.SourceDueMonthSkipsFebruary | server/src/routes/dashboard.routes.js:92-98 | for a 31 January start with one month paid for, the source's `setMonth` shows March as the next due month, while the month after the start month is February |
| Dashboard.DaysUntilSunday | server/src/routes/dashboard.routes.js:110-111 | the days to the next Sunday, today included, are the fewest days that reach a Sunday (0 to 6, 0 exactly on a Sunday) |
| Dashboard.NextDueDate | server/src/routes/dashboard.routes.js:100-118 | monthly (the default) gives the 5th of the due month, weekly gives the next Sunday, and any other schedule gives Daily |
| Dashboard.SummarizeFund | server/src/routes/dashboard.routes.js:80-132 | the enriched row: progress from the cached total paid, the overdue count, the next due month and date, and the current month's figures: its balance is the current bucket's balance inside the fund's window and the whole monthly target outside it, and the recommendations give that balance back |

## Left out

- HTTP and authentication are not modelled, apart from the administrator gate on DELETE /payments/:id. JWT, e-mail, OTP and the other CRUD routes are left out too. This includes the CSV export, GET /payments, the check-mode route and the fund tracking route. They hold no ledger logic.
- The database layer (knex, SQLite) is not modelled. Tables are the `Store` fields. Concurrency is left out too, including `Promise.all` and two requests interleaving between the admission check and the insert. Auto-increment ids are `nextId`. The `penalty`, `mode` and `notes` columns are carried by the source but never read by the core.
- The clock is a parameter. Time zones are not modelled: the source mixes local `getMonth()` with UTC `toISOString()`. A start date is taken as its month, so the ledger and the next due month are labelled by `AddMonths`. For a start day of 29 to 31 the source's `setMonth` rolls into the following month whenever the month it lands on lacks that day (see "Findings"). For such starts the following members do not hold of the source:
  - `LedgerLabels`, `BucketPaidConservation`, `FindMonthInLedger` and `GetCurrentMonthBalance`: with a start of 31 January and now in February, the source's ledger has no February label, so it reports Not Started with the whole target, while the model reports bucket 1; in March the source finds bucket 1 and the model bucket 2;
  - `Dashboard.NextDueMonth`, `Dashboard.NextDueDate` and `Dashboard.SummarizeFund`: with one month paid for, the source shows March as the due month and a due date in March, while the model shows February.
- Floating point and `toFixed(2)` rounding are not modelled. Money is exact, and progress and recommendations are unrounded numbers rather than strings.
- The unused locals of `syncEnrollment` are left out. So are console logging and the unparseable-start-date warning. Those locals are at server/src/services/balanceService.js:28-36.
- `payment_month` is modelled as a well-formed `YYYY-MM` label. The source accepts any string. Such a string matches no ledger month, and the model cannot express it. When such a string has no `-` at all (so no month part), or its year or month part is not a number, the weekly and daily limits are `NaN`, so the limit test at server/src/routes/payment.routes.js:51 never refuses and the source admits any number of weekly or daily payments for it. Strings such as `2026-3`, `2026-03-15`, `2026-13`, `-03` or `2026-` still split into numbers at server/src/routes/payment.routes.js:40-41, an empty part counting as 0; they get a day count of 28 to 31 and so a working limit. The limit invariants are stated for well-formed labels only.
- The source computes days in a month as `new Date(y, m, 0)`. That maps years 0 to 99 onto 1900 to 1999, which the model does not follow.
- A NULL `start_date` parses as 1970-01 in the source. The caller supplies that month as `Some`. `None` stands only for an unparseable date.
- Lower-casing is ASCII only. The source's `toLowerCase` is Unicode-aware.
- Enrollments are keyed by (user, fund), so at most one enrollment exists per pair. The source updates the first matching row only.
- PaymentStore.Store.Valid requires every fund's duration to be at least 1. The source's fund creation (server/src/routes/fund.routes.js:12) rejects any falsy duration, zero included, but lets negative durations through. A zero duration still reaches the funds table through the unchecked fund update (server/src/routes/fund.routes.js:49-62) and the `COALESCE(duration, 0)` of server/migrate_funds.js:37. For such a fund the source divides by zero and produces `NaN` or `Infinity`; the model does not cover those funds.
- Dashboard.Progress: requires a positive fund total. For a zero total the source never shows a progress figure: the monthly target is 0, so the next due date becomes an invalid date at server/src/routes/dashboard.routes.js:98 and `toISOString` fails at server/src/routes/dashboard.routes.js:106 or 124, failing the whole summary request.
- Dashboard.IntervalsPaid: requires a positive monthly target. For a zero target the source's due-date arithmetic produces an invalid date and the request fails.
- Dashboard.NextDueDate: the weekday of today is a parameter. That the date reached is a Sunday is stated through `DaysUntilSunday`, not derived from a calendar weekday function.
- Dashboard.SummarizeFund covers one enrollment row. The `/user/summary` response applies it to each row, and that iteration is not modelled. The funds-joined count is also not modelled, since it is a database count.
- BalanceService.GetCurrentMonthBalance returns month, paid, balance and status from the bucket. It omits the bucket's carry-in and total, which the source's spread also copies.

## Findings

| source | as written | input that shows it | evidently intended | confidence | as-written member | corrected member |
|---|---|---|---|---|---|---|
| server/src/services/balanceService.js:75-77 | each ledger month is labelled by `setMonth(startDate.getMonth() + i)` on a copy of the start date, which keeps the day and rolls a missing day into the following month | a fund starting on 31 January with a payment of 100 for March: fund months 2 and 3 are both labelled March, February gets no bucket, and the buckets hold 200 | one bucket per calendar month, `k` months after the start month, so the buckets never hold more than was paid | medium, not executed | BalanceService.SourceLedgerCountsTwice | BalanceService.BucketPaidConservation |
| server/src/routes/dashboard.routes.js:98 | the next due month is `setMonth(getMonth() + intervalsPaid)` on the start date, which keeps the day and rolls a missing day into the following month | a fund starting on 31 January with one month paid for: the next due month shown is March, and February is skipped | the start month advanced by the months paid for | medium, not executed | Dashboard.SourceDueMonthSkipsFebruary | Dashboard.NextDueMonth |
