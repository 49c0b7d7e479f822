/**
 * Gregorian calendar arithmetic on the `YYYY-MM` month labels the ledger keys
 * payments by, and on calendar dates. A month label is the pair the source
 * obtains from `toISOString().slice(0, 7)`; months are numbered 1..12 as in
 * the label (the source's `getMonth()` is that number minus one).
 */
module Calendar {

  import Numeric

  /** A month number as written in a `YYYY-MM` label. */
  type Month = m: int | 1 <= m <= 12 witness 1

  /** A day of the week as `Date.getDay()` reports it: 0 is Sunday, 6 is Saturday. */
  type Weekday = d: int | 0 <= d <= 6 witness 0

  /** A `YYYY-MM` month label. */
  datatype YearMonth = YearMonth(year: int, month: Month)

  /** A calendar date; `ValidDate` says whether the day exists in its month. */
  datatype Date = Date(year: int, month: Month, day: int)

  /** The Gregorian leap-year rule. */
  predicate IsLeapYear(y: int)
  {
    y % 4 == 0 && (y % 100 != 0 || y % 400 == 0)
  }

  /** Number of days in a month, as `new Date(y, m, 0).getDate()` yields it. */
  function DaysInMonth(ym: YearMonth): (d: int)
    ensures 28 <= d <= 31
    ensures d == 29 <==> ym.month == 2 && IsLeapYear(ym.year)
  {
    if ym.month == 2 then (if IsLeapYear(ym.year) then 29 else 28)
    else if ym.month == 4 || ym.month == 6 || ym.month == 9 || ym.month == 11 then 30
    else 31
  }

  /** The `YYYY-MM` prefix of a date's ISO form. */
  function MonthOf(d: Date): YearMonth
  {
    YearMonth(d.year, d.month)
  }

  /** The day exists in its month. */
  predicate ValidDate(d: Date)
  {
    1 <= d.day <= DaysInMonth(MonthOf(d))
  }

  /** Months elapsed since month 1 of year 0; labels map one-to-one onto these. */
  function Index(ym: YearMonth): int
  {
    ym.year * 12 + (ym.month - 1)
  }

  /** Distinct labels have distinct indices. */
  lemma IndexInjective(a: YearMonth, b: YearMonth)
    requires Index(a) == Index(b)
    ensures a == b
  {
  }

  /**
   * `(b.year - a.year) * 12 + (b.month - a.month)`: the calendar months from
   * label `a` to label `b` (negative when `b` comes first).
   */
  function MonthsBetween(a: YearMonth, b: YearMonth): (k: int)
    ensures k == Index(b) - Index(a)
  {
    (b.year - a.year) * 12 + (b.month - a.month)
  }

  /**
   * The label `k` months after `ym`, as `setMonth(getMonth() + k)` followed
   * by `toISOString().slice(0, 7)` produces it for a date whose day every
   * month has (month overflow carries into the year); `SetMonthLabel` is the
   * general case.
   */
  function AddMonths(ym: YearMonth, k: int): (r: YearMonth)
    ensures MonthsBetween(ym, r) == k
  {
    var t := Index(ym) + k;
    YearMonth(t / 12, t % 12 + 1)
  }

  /** Adding months is determined by the distance alone: the label `k` months on is the only one that far away. */
  lemma {:induction false} AddMonthsUnique(ym: YearMonth, k: int, other: YearMonth)
    ensures MonthsBetween(ym, other) == k <==> other == AddMonths(ym, k)
  {
    if MonthsBetween(ym, other) == k {
      IndexInjective(other, AddMonths(ym, k));
    }
  }

  /**
   * The label `setMonth(getMonth() + k)` followed by `toISOString().slice(0, 7)`
   * gives for a date that keeps its day: the month `k` on when that month has
   * the day, and otherwise the month after it, into which the surplus days
   * roll.
   */
  function SetMonthLabel(d: Date, k: int): (r: YearMonth)
    requires ValidDate(d)
    ensures MonthsBetween(MonthOf(d), r) == if d.day <= DaysInMonth(AddMonths(MonthOf(d), k)) then k else k + 1
  {
    if d.day <= DaysInMonth(AddMonths(MonthOf(d), k)) then AddMonths(MonthOf(d), k) else AddMonths(MonthOf(d), k + 1)
  }

  /** Adding months that stay within the year only changes the month number. */
  lemma AddMonthsWithinYear(ym: YearMonth, k: int)
    requires 1 <= ym.month + k <= 12
    ensures AddMonths(ym, k) == YearMonth(ym.year, ym.month + k)
  {
    AddMonthsUnique(ym, k, YearMonth(ym.year, ym.month + k));
  }

  /**
   * A fund starting on 31 January of any year gets March as the label of
   * both its second and its third month, so February gets none.
   */
  lemma SetMonthRepeatsLabel(d: Date)
    requires d.month == 1 && d.day == 31
    ensures SetMonthLabel(d, 0) == YearMonth(d.year, 1)
    ensures SetMonthLabel(d, 1) == YearMonth(d.year, 3)
    ensures SetMonthLabel(d, 2) == YearMonth(d.year, 3)
  {
    var jan := MonthOf(d);
    AddMonthsWithinYear(jan, 0);
    AddMonthsWithinYear(jan, 1);
    AddMonthsWithinYear(jan, 2);
  }

  /**
   * Number of Sunday-first calendar rows a month spans: its days plus the
   * weekday of its first day, divided by seven and rounded up.
   */
  function WeeksInMonth(ym: YearMonth, firstWeekday: Weekday): (w: int)
    ensures 4 <= w <= 6
    ensures 7 * (w - 1) < DaysInMonth(ym) + firstWeekday <= 7 * w
  {
    Numeric.Ceil((DaysInMonth(ym) + firstWeekday) as real / 7.0)
  }

  /** The calendar day after `d`. */
  function NextDay(d: Date): (r: Date)
    requires ValidDate(d)
    ensures ValidDate(r)
    ensures MonthOf(r) == MonthOf(d) || (r.day == 1 && MonthOf(r) == AddMonths(MonthOf(d), 1))
    ensures MonthOf(r) == MonthOf(d) ==> r.day == d.day + 1
    ensures MonthOf(r) != MonthOf(d) ==> d.day == DaysInMonth(MonthOf(d))
  {
    if d.day < DaysInMonth(MonthOf(d)) then d.(day := d.day + 1)
    else if d.month < 12 then Date(d.year, d.month + 1, 1)
    else Date(d.year + 1, 1, 1)
  }

  /** `setDate(getDate() + n)`: the date `n` days after `d`. */
  function AddDays(d: Date, n: nat): (r: Date)
    requires ValidDate(d)
    ensures ValidDate(r)
    ensures d.day + n <= DaysInMonth(MonthOf(d)) ==> r == d.(day := d.day + n)
    ensures n <= 28 && d.day + n > DaysInMonth(MonthOf(d)) ==>
      MonthOf(r) == AddMonths(MonthOf(d), 1) && r.day == d.day + n - DaysInMonth(MonthOf(d))
    decreases n
  {
    if n == 0 then d else AddDays(NextDay(d), n - 1)
  }
}
