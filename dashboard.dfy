/**
 * The figures of the member dashboard (`/user/summary`): the overall pending
 * balance across all enrolled funds, and per fund the progress, the next due
 * month and date, the overdue count and the current-month recommendation.
 */
module Dashboard {
  import opened Wrappers
  import opened Numeric
  import opened Calendar
  import opened BalanceService
  import PaymentStore

  /** The sum of the enrolled funds' totals. */
  function FundValue(enrolled: seq<Fund>): (r: real)
    ensures (forall i :: 0 <= i < |enrolled| ==> enrolled[i].totalAmount >= 0.0) ==> r >= 0.0
  {
    if enrolled == [] then 0.0 else FundValue(enrolled[..|enrolled| - 1]) + enrolled[|enrolled| - 1].totalAmount
  }

  /**
   * The overall pending balance: the enrolled funds' totals less everything
   * the member has paid, never below zero.
   */
  function UserPendingBalance(enrolled: seq<Fund>, userPayments: seq<Payment>): (r: real)
    ensures r >= 0.0
    ensures r == 0.0 <==> TotalPaid(userPayments) >= FundValue(enrolled)
    ensures r > 0.0 ==> TotalPaid(userPayments) + r == FundValue(enrolled)
  {
    Max0(FundValue(enrolled) - TotalPaid(userPayments))
  }

  /** All the per-fund payment lists one after another. */
  function Flatten(pss: seq<seq<Payment>>): seq<Payment>
  {
    if pss == [] then [] else Flatten(pss[..|pss| - 1]) + pss[|pss| - 1]
  }

  /** The sum of the enrollments' synced pending balances. */
  function SumOfPending(enrolled: seq<Fund>, pss: seq<seq<Payment>>): (r: real)
    requires |enrolled| == |pss|
    ensures r >= 0.0
  {
    if enrolled == [] then 0.0
    else SumOfPending(enrolled[..|enrolled| - 1], pss[..|pss| - 1])
         + PendingBalance(enrolled[|enrolled| - 1], pss[|pss| - 1])
  }

  /**
   * The enrollments' synced pending balances add up to at least the enrolled
   * funds' value less everything paid on them, and to exactly that when no
   * enrollment is overpaid.
   */
  lemma {:induction false} SumOfPendingCoversShortfall(enrolled: seq<Fund>, pss: seq<seq<Payment>>)
    requires |enrolled| == |pss|
    ensures FundValue(enrolled) - TotalPaid(Flatten(pss)) <= SumOfPending(enrolled, pss)
    ensures (forall i :: 0 <= i < |pss| ==> TotalPaid(pss[i]) <= enrolled[i].totalAmount) ==>
      SumOfPending(enrolled, pss) == FundValue(enrolled) - TotalPaid(Flatten(pss))
  {
    if enrolled != [] {
      var n := |enrolled|;
      var fs, ps := enrolled[..n - 1], pss[..n - 1];
      SumOfPendingCoversShortfall(fs, ps);
      TotalPaidAppend(Flatten(ps), pss[n - 1]);
      assert Flatten(pss) == Flatten(ps) + pss[n - 1];
      assert SumOfPending(enrolled, pss) == SumOfPending(fs, ps) + PendingBalance(enrolled[n - 1], pss[n - 1]);
      assert FundValue(enrolled) == FundValue(fs) + enrolled[n - 1].totalAmount;
      if forall i :: 0 <= i < |pss| ==> TotalPaid(pss[i]) <= enrolled[i].totalAmount {
        assert forall i :: 0 <= i < |ps| ==> ps[i] == pss[i] && fs[i] == enrolled[i];
      }
    }
  }

  /**
   * When the member's payments are those of their enrollments, the overall
   * pending balance never exceeds the sum of the enrollments' synced pending
   * balances, and equals it when no enrollment is overpaid (an overpayment
   * on one fund lowers the overall figure but not the other funds').
   */
  lemma UserPendingAtMostSumOfPending(enrolled: seq<Fund>, pss: seq<seq<Payment>>)
    requires |enrolled| == |pss|
    ensures UserPendingBalance(enrolled, Flatten(pss)) <= SumOfPending(enrolled, pss)
    ensures (forall i :: 0 <= i < |pss| ==> TotalPaid(pss[i]) <= enrolled[i].totalAmount) ==>
      SumOfPending(enrolled, pss) == FundValue(enrolled) - TotalPaid(Flatten(pss)) &&
      UserPendingBalance(enrolled, Flatten(pss)) == SumOfPending(enrolled, pss)
  {
    SumOfPendingCoversShortfall(enrolled, pss);
  }

  /** Progress in percent, `total_paid / total_amount * 100`, capped at 100. */
  function Progress(totalPaid: real, totalAmount: real): (r: real)
    requires totalAmount > 0.0
    ensures r <= 100.0
    ensures totalPaid >= 0.0 ==> r >= 0.0
    ensures r == 100.0 <==> totalPaid >= totalAmount
    ensures r < 100.0 ==> r * totalAmount == totalPaid * 100.0
  {
    var progress := totalPaid / totalAmount * 100.0;
    if progress <= 100.0 then progress else 100.0
  }

  /** The number of whole monthly targets the total paid covers. */
  function IntervalsPaid(totalPaid: real, monthlyTarget: real): (r: int)
    requires monthlyTarget > 0.0
    ensures r as real * monthlyTarget <= totalPaid < (r + 1) as real * monthlyTarget
  {
    FloorOfQuotient(totalPaid, monthlyTarget);
    Floor(totalPaid / monthlyTarget)
  }

  /** A member has paid for every month of the fund exactly when the total paid reaches the fund's total. */
  lemma FullyPaidIffIntervalsReachDuration(fund: Fund, totalPaid: real)
    requires fund.duration >= 1 && fund.totalAmount > 0.0
    ensures IntervalsPaid(totalPaid, MonthlyTarget(fund)) >= fund.duration <==> totalPaid >= fund.totalAmount
  {
    var t := MonthlyTarget(fund);
    MonthlyTargetSpreadsTotal(fund);
    WholeTargetsReach(totalPaid, t, IntervalsPaid(totalPaid, t), fund.duration);
  }

  /** The month the next payment is due: the start month advanced by the months already paid for. */
  function NextDueMonth(fund: Fund, today: Date, intervalsPaid: int): (r: YearMonth)
    ensures MonthsBetween(StartMonth(fund, MonthOf(today)), r) == intervalsPaid
  {
    AddMonths(StartMonth(fund, MonthOf(today)), intervalsPaid)
  }

  /**
   * For a fund starting on 31 January with one month paid for, the source's
   * `setMonth` on the start date shows March as the next due month, while
   * the month after the start month is February.
   */
  lemma SourceDueMonthSkipsFebruary(fund: Fund, startDate: Date, today: Date)
    requires startDate.month == 1 && startDate.day == 31
    requires fund.start == Some(MonthOf(startDate))
    ensures SetMonthLabel(startDate, 1) == YearMonth(startDate.year, 3)
    ensures NextDueMonth(fund, today, 1) == YearMonth(startDate.year, 2)
  {
    SetMonthRepeatsLabel(startDate);
    AddMonthsWithinYear(MonthOf(startDate), 1);
    AddMonthsUnique(MonthOf(startDate), 1, NextDueMonth(fund, today, 1));
  }

  /** The weekday `k` days after `weekday`. */
  function WeekdayAfter(weekday: Weekday, k: int): int
  {
    (weekday + k) % 7
  }

  /** `(7 - weekday) % 7`: days from today to the next Sunday, today included. */
  function DaysUntilSunday(weekday: Weekday): (r: int)
    ensures 0 <= r <= 6
    ensures (weekday + r) % 7 == 0
    ensures r == 0 <==> weekday == 0
    ensures forall k :: 0 <= k < r ==> WeekdayAfter(weekday, k) != 0
  {
    (7 - weekday) % 7
  }

  /** The due date shown: a date, or the word Daily. */
  datatype DueDate = On(date: Date) | Daily

  /**
   * The next due date by the enrollment's schedule: the 5th of the due month
   * for monthly (the default), the next Sunday for weekly, and Daily for any
   * other schedule, compared case-sensitively.
   */
  function NextDueDate(schedule: string, dueMonth: YearMonth, today: Date, todayWeekday: Weekday): (r: DueDate)
    requires ValidDate(today)
    ensures r.On? ==> ValidDate(r.date)
    ensures PaymentStore.Effective(schedule) == "monthly" ==>
      r.On? && MonthOf(r.date) == dueMonth && r.date.day == 5
    ensures PaymentStore.Effective(schedule) == "weekly" ==>
      r.On? && r.date == AddDays(today, DaysUntilSunday(todayWeekday))
    ensures !(PaymentStore.Effective(schedule) in {"monthly", "weekly"}) ==> r == Daily
  {
    var s := PaymentStore.Effective(schedule);
    if s == "monthly" then On(Date(dueMonth.year, dueMonth.month, 5))
    else if s == "weekly" then On(AddDays(today, DaysUntilSunday(todayWeekday)))
    else Daily
  }

  /** One enriched fund row of the summary. */
  datatype FundSummary = FundSummary(
    progress: real, nextDueDate: DueDate, nextDueMonth: YearMonth, overdueMonths: Option<int>,
    currentMonthBalance: real, currentMonth: YearMonth, weeksInMonth: int, daysInMonth: int,
    recommendedWeekly: real, recommendedDaily: real)

  /**
   * The enrichment of one enrollment row: progress from the cached total
   * paid, overdue count and current-month figures from the payments, and the
   * next due month and date. `todayWeekday` is today's weekday and
   * `firstWeekday` that of the first day of the current month.
   */
  method SummarizeFund(fund: Fund, enrollment: Enrollment, payments: seq<Payment>,
                       today: Date, todayWeekday: Weekday, firstWeekday: Weekday) returns (s: FundSummary)
    requires fund.duration >= 1 && fund.totalAmount > 0.0
    requires ValidDate(today)
    ensures s.progress == Progress(enrollment.totalPaid, fund.totalAmount)
    ensures s.overdueMonths == Overdue(fund, payments, MonthOf(today))
    ensures s.nextDueMonth == NextDueMonth(fund, today, IntervalsPaid(enrollment.totalPaid, MonthlyTarget(fund)))
    ensures s.nextDueDate == NextDueDate(enrollment.schedule, s.nextDueMonth, today, todayWeekday)
    ensures s.currentMonth == MonthOf(today)
    ensures var start := StartMonth(fund, MonthOf(today));
      var k := MonthsBetween(start, MonthOf(today));
      s.currentMonthBalance
        == if 0 <= k < fund.duration then BucketAt(payments, start, MonthlyTarget(fund), k).balance else MonthlyTarget(fund)
    ensures s.daysInMonth == DaysInMonth(MonthOf(today))
    ensures s.weeksInMonth == WeeksInMonth(MonthOf(today), firstWeekday)
    ensures s.recommendedWeekly == PerInstalment(s.currentMonthBalance, s.weeksInMonth)
    ensures s.recommendedDaily == PerInstalment(s.currentMonthBalance, s.daysInMonth)
    ensures fund.start.Some? ==> s.overdueMonths.Some? && 0 <= s.overdueMonths.value
  {
    var t := CalculateTracking(fund, payments, MonthOf(today));
    var progress := Progress(enrollment.totalPaid, fund.totalAmount);
    var overdue := Overdue(fund, payments, MonthOf(today));
    var current := GetCurrentMonthBalance(Some(fund), Some(enrollment), payments, today, firstWeekday);
    var intervalsPaid := IntervalsPaid(enrollment.totalPaid, t.monthlyTarget);
    var nextDue := NextDueMonth(fund, today, intervalsPaid);
    var c := current.value;
    s := FundSummary(progress, NextDueDate(enrollment.schedule, nextDue, today, todayWeekday), nextDue, overdue,
                     c.balance, c.month, c.weeksInMonth, c.daysInMonth, c.recommendedWeekly, c.recommendedDaily);
  }
}
