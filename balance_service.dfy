/**
 * The ledger engine: everything about one (user, fund) enrollment is derived
 * from its list of payments. This module holds the records the engine reads
 * and returns, the specification of the month-by-month ledger with its
 * carry-forward, the loop that builds that ledger, the overdue count and the
 * current-month recommendation, and the properties proved about them.
 */
module BalanceService {
  import opened Wrappers
  import opened Numeric
  import opened Calendar

  /**
   * A row of the funds table as the engine reads it. `start` is `None` when
   * `start_date` does not parse as a date.
   */
  datatype Fund = Fund(totalAmount: real, duration: int, start: Option<YearMonth>)

  /**
   * A row of the payments table. `month` is the `payment_month` label the
   * ledger allocates by; `schedule` is the `payment_schedule` column
   * (monthly, weekly, daily, as stored); `date` is `None` when
   * `payment_date` does not parse.
   */
  datatype Payment = Payment(
    id: nat, userId: nat, fundId: nat, amount: real,
    date: Option<Date>, month: YearMonth, schedule: string)

  /** The cached aggregates of a row of the user_funds table. */
  datatype Enrollment = Enrollment(totalPaid: real, pendingBalance: real, schedule: string)

  /** A bucket's status; `NotStarted` only labels the stand-in for a month outside the ledger. */
  datatype Status = Pending | Partial | Completed | NotStarted

  /** One month of the ledger. */
  datatype Bucket = Bucket(month: YearMonth, paid: real, carryIn: real, total: real, status: Status, balance: real)

  /** What `_calculateTracking` returns. */
  datatype Tracking = Tracking(months: seq<Bucket>, carryForward: real, monthlyTarget: real)

  /** What `syncEnrollment` returns; an overdue count of `None` stands for the source's NaN or Infinity. */
  datatype SyncResult = SyncResult(totalPaid: real, pendingBalance: real, overdueMonths: Option<int>)

  /** The fixed obligation of every month: the fund's total spread evenly over its duration. */
  function MonthlyTarget(f: Fund): (r: real)
    requires f.duration >= 1
    ensures f.totalAmount >= 0.0 ==> 0.0 <= r <= f.totalAmount
    ensures f.totalAmount > 0.0 ==> r > 0.0
  {
    ShareAtMost(f.totalAmount, f.duration as real);
    f.totalAmount / f.duration as real
  }

  /** The targets of all the fund's months add up to the fund's total. */
  lemma MonthlyTargetSpreadsTotal(f: Fund)
    requires f.duration >= 1
    ensures MonthlyTarget(f) * f.duration as real == f.totalAmount
  {
    DivMulCancel(f.totalAmount, f.duration as real);
  }

  /** The first ledger month; an unparseable start date falls back to the current month. */
  function StartMonth(f: Fund, now: YearMonth): (r: YearMonth)
    ensures f.start.Some? ==> r == f.start.value
    ensures f.start.None? ==> r == now
  {
    f.start.GetOr(now)
  }

  /** No payment has a negative amount. */
  predicate NonNegativeAmounts(ps: seq<Payment>)
  {
    forall i :: 0 <= i < |ps| ==> ps[i].amount >= 0.0
  }

  /** The sum of every payment's amount, whatever its month label. */
  function TotalPaid(ps: seq<Payment>): (r: real)
    ensures NonNegativeAmounts(ps) ==> r >= 0.0
  {
    if ps == [] then 0.0 else TotalPaid(ps[..|ps| - 1]) + ps[|ps| - 1].amount
  }

  /** The total of two payment lists together is the sum of their totals. */
  lemma {:induction false} TotalPaidAppend(a: seq<Payment>, b: seq<Payment>)
    ensures TotalPaid(a + b) == TotalPaid(a) + TotalPaid(b)
    decreases |b|
  {
    if b == [] {
      assert a + b == a;
    } else {
      assert (a + b)[..|a + b| - 1] == a + b[..|b| - 1];
      TotalPaidAppend(a, b[..|b| - 1]);
    }
  }

  /** The sum of the amounts of the payments labelled `ym`. */
  function PaidIn(ps: seq<Payment>, ym: YearMonth): (r: real)
    ensures NonNegativeAmounts(ps) ==> 0.0 <= r <= TotalPaid(ps)
  {
    if ps == [] then 0.0
    else
      var last := ps[|ps| - 1];
      PaidIn(ps[..|ps| - 1], ym) + (if last.month == ym then last.amount else 0.0)
  }

  /** A month's status from what is available to it. */
  function Classify(total: real, target: real): (s: Status)
    ensures s == Completed <==> total >= target
    ensures s == Partial <==> 0.0 < total < target
    ensures s == Pending <==> total <= 0.0 && total < target
    ensures s != NotStarted
  {
    if total >= target then Completed else if total > 0.0 then Partial else Pending
  }

  /** What a month passes on to the next: its excess when Completed, nothing otherwise. */
  function CarryOut(total: real, target: real): (r: real)
    ensures r == Max0(total - target)
    ensures r > 0.0 ==> Classify(total, target) == Completed
  {
    if total >= target then total - target else 0.0
  }

  /** The carry into month `i` of the ledger that starts at `start`. */
  function CarryInto(ps: seq<Payment>, start: YearMonth, target: real, i: nat): real
    decreases i
  {
    if i == 0 then 0.0
    else CarryOut(PaidIn(ps, AddMonths(start, i - 1)) + CarryInto(ps, start, target, i - 1), target)
  }

  /** Bucket `i` of the ledger. */
  function BucketAt(ps: seq<Payment>, start: YearMonth, target: real, i: nat): Bucket
  {
    var ym := AddMonths(start, i);
    var paid := PaidIn(ps, ym);
    var carryIn := CarryInto(ps, start, target, i);
    var total := paid + carryIn;
    Bucket(ym, paid, carryIn, total, Classify(total, target), Max0(target - total))
  }

  /** The first `n` buckets of the ledger. */
  function Ledger(ps: seq<Payment>, start: YearMonth, target: real, n: nat): seq<Bucket>
  {
    if n == 0 then [] else Ledger(ps, start, target, n - 1) + [BucketAt(ps, start, target, n - 1)]
  }

  /**
   * `_calculateTracking`: one pass over the fund's months, summing each
   * month's payments, adding the carry, classifying, and passing on the
   * excess of a Completed month.
   */
  method CalculateTracking(fund: Fund, payments: seq<Payment>, now: YearMonth) returns (t: Tracking)
    requires fund.duration >= 1
    ensures t.monthlyTarget == MonthlyTarget(fund)
    ensures t.months == Ledger(payments, StartMonth(fund, now), t.monthlyTarget, fund.duration)
    ensures t.carryForward == CarryInto(payments, StartMonth(fund, now), t.monthlyTarget, fund.duration)
  {
    var monthlyTarget := MonthlyTarget(fund);
    var startDate := if fund.start.Some? then fund.start.value else now;
    var carryForward := 0.0;
    var months: seq<Bucket> := [];
    for i := 0 to fund.duration
      invariant months == Ledger(payments, startDate, monthlyTarget, i)
      invariant carryForward == CarryInto(payments, startDate, monthlyTarget, i)
    {
      var monthStr := AddMonths(startDate, i);
      var paidThisMonth := PaidIn(payments, monthStr);
      var totalAvailable := paidThisMonth + carryForward;
      var status := Pending;
      var remainingCarry := 0.0;
      if totalAvailable >= monthlyTarget {
        status := Completed;
        remainingCarry := totalAvailable - monthlyTarget;
      } else if totalAvailable > 0.0 {
        status := Partial;
        remainingCarry := 0.0;
      }
      var bucket := Bucket(monthStr, paidThisMonth, carryForward, totalAvailable, status,
                           Max0(monthlyTarget - totalAvailable));
      LedgerStep(payments, startDate, monthlyTarget, i, carryForward, bucket);
      months := months + [bucket];
      carryForward := remainingCarry;
    }
    t := Tracking(months, carryForward, monthlyTarget);
  }

  /**
   * One more month of the ledger: a bucket built from that month's payments
   * and the carry into it extends the ledger, and what it passes on is the
   * carry into the next month.
   */
  lemma LedgerStep(ps: seq<Payment>, start: YearMonth, target: real, i: nat, carry: real, b: Bucket)
    requires carry == CarryInto(ps, start, target, i)
    requires b.month == AddMonths(start, i) && b.paid == PaidIn(ps, b.month) && b.carryIn == carry
    requires b.total == b.paid + carry && b.status == Classify(b.total, target) && b.balance == Max0(target - b.total)
    ensures Ledger(ps, start, target, i + 1) == Ledger(ps, start, target, i) + [b]
    ensures CarryInto(ps, start, target, i + 1) == CarryOut(b.total, target)
  {
  }

  /** The ledger of `n` months holds `n` buckets, bucket `k` being `BucketAt(k)`. */
  lemma {:induction false} LedgerAt(ps: seq<Payment>, start: YearMonth, target: real, n: nat)
    ensures |Ledger(ps, start, target, n)| == n
    ensures forall k :: 0 <= k < n ==> Ledger(ps, start, target, n)[k] == BucketAt(ps, start, target, k)
  {
    if n > 0 {
      LedgerAt(ps, start, target, n - 1);
    }
  }

  /** The ledger has one bucket per month of the fund; bucket k is labelled k months after the start, so labels strictly increase. */
  lemma {:induction false} LedgerLabels(ps: seq<Payment>, start: YearMonth, target: real, n: nat)
    ensures |Ledger(ps, start, target, n)| == n
    ensures forall k :: 0 <= k < n ==> Ledger(ps, start, target, n)[k].month == AddMonths(start, k)
    ensures forall j, k :: 0 <= j < k < n ==>
      Index(Ledger(ps, start, target, n)[j].month) < Index(Ledger(ps, start, target, n)[k].month)
  {
    LedgerAt(ps, start, target, n);
  }

  /** What a single bucket holds: its own payments, the carry it received, its status and its balance. */
  lemma {:induction false} BucketRules(ps: seq<Payment>, start: YearMonth, target: real, n: nat, k: nat)
    requires k < n
    ensures k < |Ledger(ps, start, target, n)|
    ensures var b := Ledger(ps, start, target, n)[k];
      && b.paid == PaidIn(ps, b.month)
      && b.total == b.paid + b.carryIn
      && b.carryIn >= 0.0
      && (b.status == Completed <==> b.total >= target)
      && (b.status == Partial <==> 0.0 < b.total < target)
      && (b.status == Pending <==> b.total <= 0.0 && b.total < target)
      && b.balance >= 0.0
      && b.balance == Max0(target - b.total)
      && (b.balance == 0.0 <==> b.status == Completed)
  {
    LedgerAt(ps, start, target, n);
  }

  /** The carry chain: nothing flows into the first month; each month passes on exactly its Completed excess; the returned carry is what the last month passes on. */
  lemma {:induction false} CarryChain(ps: seq<Payment>, start: YearMonth, target: real, n: nat)
    ensures |Ledger(ps, start, target, n)| == n
    ensures n > 0 ==> Ledger(ps, start, target, n)[0].carryIn == 0.0
    ensures forall k :: 0 <= k < n - 1 ==>
      var b := Ledger(ps, start, target, n)[k];
      Ledger(ps, start, target, n)[k + 1].carryIn == (if b.status == Completed then b.total - target else 0.0)
    ensures n > 0 ==>
      var last := Ledger(ps, start, target, n)[n - 1];
      CarryInto(ps, start, target, n) == (if last.status == Completed then last.total - target else 0.0)
  {
    LedgerAt(ps, start, target, n);
    var bs := Ledger(ps, start, target, n);
    forall k | 0 <= k < n - 1
      ensures bs[k + 1].carryIn == (if bs[k].status == Completed then bs[k].total - target else 0.0)
    {
      assert bs[k] == BucketAt(ps, start, target, k) && bs[k + 1] == BucketAt(ps, start, target, k + 1);
      CarryStep(ps, start, target, k);
    }
    if n > 0 {
      assert bs[n - 1] == BucketAt(ps, start, target, n - 1);
      CarryStep(ps, start, target, n - 1);
    }
  }

  /** Equivalently, each month receives what the previous month had beyond its target, or nothing when it fell short. */
  lemma {:induction false} CarryIsClampedExcess(ps: seq<Payment>, start: YearMonth, target: real, n: nat)
    ensures |Ledger(ps, start, target, n)| == n
    ensures forall k :: 0 <= k < n - 1 ==>
      var b := Ledger(ps, start, target, n)[k];
      Ledger(ps, start, target, n)[k + 1].carryIn == Max0(b.carryIn + b.paid - target)
  {
    LedgerAt(ps, start, target, n);
    var bs := Ledger(ps, start, target, n);
    forall k | 0 <= k < n - 1
      ensures bs[k + 1].carryIn == Max0(bs[k].carryIn + bs[k].paid - target)
    {
      assert bs[k] == BucketAt(ps, start, target, k) && bs[k + 1] == BucketAt(ps, start, target, k + 1);
      CarryStep(ps, start, target, k);
    }
  }

  /** Bucket `k` passes its Completed excess, and nothing otherwise, into month `k + 1`. */
  lemma CarryStep(ps: seq<Payment>, start: YearMonth, target: real, k: nat)
    ensures var b := BucketAt(ps, start, target, k);
      && CarryInto(ps, start, target, k + 1) == (if b.status == Completed then b.total - target else 0.0)
      && CarryInto(ps, start, target, k + 1) == Max0(b.carryIn + b.paid - target)
  {
  }

  /** Surplus of months `k`..`n-1`: what their payments bring in beyond their targets. */
  function Surplus(ps: seq<Payment>, start: YearMonth, target: real, k: nat, n: nat): real
    decreases n
  {
    if n <= k then 0.0 else Surplus(ps, start, target, k, n - 1) + PaidIn(ps, AddMonths(start, n - 1)) - target
  }

  /**
   * The carry into month `n` is the largest surplus over any run of the most
   * recent months (the empty run counting as zero): an excess is never lost
   * while months stay Completed, and a shortfall never borrows from later.
   */
  lemma {:induction false} CarryIsLargestRecentSurplus(ps: seq<Payment>, start: YearMonth, target: real, n: nat)
    ensures forall k :: 0 <= k <= n ==> Surplus(ps, start, target, k, n) <= CarryInto(ps, start, target, n)
    ensures exists k :: 0 <= k <= n && Surplus(ps, start, target, k, n) == CarryInto(ps, start, target, n)
  {
    if n == 0 {
      assert Surplus(ps, start, target, 0, 0) == 0.0;
    } else {
      CarryIsLargestRecentSurplus(ps, start, target, n - 1);
      var c := CarryInto(ps, start, target, n - 1);
      var x := PaidIn(ps, AddMonths(start, n - 1)) - target;
      forall k | 0 <= k <= n
        ensures Surplus(ps, start, target, k, n) <= CarryInto(ps, start, target, n)
      {
        if k < n {
          assert Surplus(ps, start, target, k, n) == Surplus(ps, start, target, k, n - 1) + x;
        }
      }
      var k0 :| 0 <= k0 <= n - 1 && Surplus(ps, start, target, k0, n - 1) == c;
      if c + x >= 0.0 {
        assert Surplus(ps, start, target, k0, n) == c + x;
      } else {
        assert Surplus(ps, start, target, n, n) == 0.0;
      }
    }
  }

  /** The sum of the `paid` fields of a list of buckets. */
  function BucketPaidSum(bs: seq<Bucket>): real
  {
    if bs == [] then 0.0 else BucketPaidSum(bs[..|bs| - 1]) + bs[|bs| - 1].paid
  }

  /** Appending a bucket adds its paid amount. */
  lemma BucketPaidSumSnoc(bs: seq<Bucket>, b: Bucket)
    ensures BucketPaidSum(bs + [b]) == BucketPaidSum(bs) + b.paid
  {
    assert (bs + [b])[..|bs|] == bs;
  }

  /** One more month adds that month's payments to the buckets' paid amounts. */
  lemma LedgerPaidStep(ps: seq<Payment>, start: YearMonth, target: real, n: nat)
    requires n > 0
    ensures BucketPaidSum(Ledger(ps, start, target, n))
         == BucketPaidSum(Ledger(ps, start, target, n - 1)) + PaidIn(ps, AddMonths(start, n - 1))
  {
    BucketPaidSumSnoc(Ledger(ps, start, target, n - 1), BucketAt(ps, start, target, n - 1));
  }

  /** Whether a label is one of the `n` ledger months from `start`. */
  predicate InWindow(start: YearMonth, n: nat, ym: YearMonth)
  {
    0 <= MonthsBetween(start, ym) < n
  }

  /** The sum of the payments whose label is outside the `n` ledger months from `start`. */
  function PaidOutside(ps: seq<Payment>, start: YearMonth, n: nat): (r: real)
    ensures NonNegativeAmounts(ps) ==> 0.0 <= r <= TotalPaid(ps)
  {
    if ps == [] then 0.0
    else
      var last := ps[|ps| - 1];
      PaidOutside(ps[..|ps| - 1], start, n) + (if InWindow(start, n, last.month) then 0.0 else last.amount)
  }

  /** With an empty window every payment is outside it. */
  lemma {:induction false} PaidOutsideNone(ps: seq<Payment>, start: YearMonth)
    ensures PaidOutside(ps, start, 0) == TotalPaid(ps)
  {
    if ps != [] {
      PaidOutsideNone(ps[..|ps| - 1], start);
    }
  }

  /** Widening the window by one month moves exactly that month's payments inside. */
  lemma {:induction false} PaidOutsideStep(ps: seq<Payment>, start: YearMonth, n: nat)
    requires n > 0
    ensures PaidOutside(ps, start, n - 1) == PaidOutside(ps, start, n) + PaidIn(ps, AddMonths(start, n - 1))
  {
    if ps != [] {
      PaidOutsideStep(ps[..|ps| - 1], start, n);
      AddMonthsUnique(start, n - 1, ps[|ps| - 1].month);
    }
  }

  /** The buckets' paid amounts are the payments labelled inside the window of `n` months. */
  lemma {:induction false} BucketPaidIsInside(ps: seq<Payment>, start: YearMonth, target: real, n: nat)
    ensures BucketPaidSum(Ledger(ps, start, target, n)) == TotalPaid(ps) - PaidOutside(ps, start, n)
  {
    if n == 0 {
      PaidOutsideNone(ps, start);
    } else {
      BucketPaidIsInside(ps, start, target, n - 1);
      PaidOutsideStep(ps, start, n);
      LedgerPaidStep(ps, start, target, n);
    }
  }

  /**
   * Conservation: since payments labelled outside the fund's window count
   * toward the total paid but appear in no bucket, the buckets never hold
   * more than was paid when no amount is negative.
   */
  lemma BucketPaidConservation(ps: seq<Payment>, start: YearMonth, target: real, n: nat)
    ensures NonNegativeAmounts(ps) ==> BucketPaidSum(Ledger(ps, start, target, n)) <= TotalPaid(ps)
  {
    BucketPaidIsInside(ps, start, target, n);
  }

  /**
   * The sum of the buckets' paid amounts when bucket `i` is labelled as the
   * source labels it from a start date with a day of the month.
   */
  function SourceBucketPaidSum(ps: seq<Payment>, startDate: Date, n: nat): real
    requires ValidDate(startDate)
  {
    if n == 0 then 0.0 else SourceBucketPaidSum(ps, startDate, n - 1) + PaidIn(ps, SetMonthLabel(startDate, n - 1))
  }

  /**
   * With the source's labels, a payment for March in a fund starting on
   * 31 January is counted in two buckets, so the first three buckets hold
   * twice what was paid.
   */
  lemma SourceLedgerCountsTwice(p: Payment, startDate: Date)
    requires startDate.month == 1 && startDate.day == 31
    requires p.month == YearMonth(startDate.year, 3) && p.amount > 0.0
    ensures TotalPaid([p]) == p.amount
    ensures SourceBucketPaidSum([p], startDate, 3) == 2.0 * p.amount > TotalPaid([p])
  {
    var ps := [p];
    SetMonthRepeatsLabel(startDate);
    assert ps[..0] == [];
    assert PaidIn(ps, YearMonth(startDate.year, 1)) == 0.0;
    assert PaidIn(ps, YearMonth(startDate.year, 3)) == p.amount;
    assert SourceBucketPaidSum(ps, startDate, 1) == 0.0;
    assert SourceBucketPaidSum(ps, startDate, 2) == p.amount;
    assert SourceBucketPaidSum(ps, startDate, 3) == 2.0 * p.amount;
  }

  /** What each bucket uses up: the target when Completed, everything available otherwise. */
  function Absorbed(bs: seq<Bucket>, target: real): real
  {
    if bs == [] then 0.0
    else
      var last := bs[|bs| - 1];
      Absorbed(bs[..|bs| - 1], target) + (if last.status == Completed then target else last.total)
  }

  /** The number of Completed buckets. */
  function CompletedCount(bs: seq<Bucket>): nat
  {
    if bs == [] then 0 else CompletedCount(bs[..|bs| - 1]) + (if bs[|bs| - 1].status == Completed then 1 else 0)
  }

  /** Appending a bucket adds what it absorbs. */
  lemma AbsorbedSnoc(bs: seq<Bucket>, b: Bucket, target: real)
    ensures Absorbed(bs + [b], target) == Absorbed(bs, target) + (if b.status == Completed then target else b.total)
  {
    assert (bs + [b])[..|bs|] == bs;
  }

  /** One more month keeps the balance between what the buckets were paid, what they absorbed and the carry left over. */
  lemma LedgerCarryStep(ps: seq<Payment>, start: YearMonth, target: real, n: nat)
    requires n > 0
    requires BucketPaidSum(Ledger(ps, start, target, n - 1))
          == Absorbed(Ledger(ps, start, target, n - 1), target) + CarryInto(ps, start, target, n - 1)
    ensures BucketPaidSum(Ledger(ps, start, target, n))
         == Absorbed(Ledger(ps, start, target, n), target) + CarryInto(ps, start, target, n)
  {
    var b := BucketAt(ps, start, target, n - 1);
    BucketPaidSumSnoc(Ledger(ps, start, target, n - 1), b);
    AbsorbedSnoc(Ledger(ps, start, target, n - 1), b, target);
    assert CarryInto(ps, start, target, n) == CarryOut(b.total, target);
  }

  /** Carry-forward moves money between months without creating or losing any: what the buckets were paid equals what they absorbed plus the carry left over. */
  lemma {:induction false} CarryConservation(ps: seq<Payment>, start: YearMonth, target: real, n: nat)
    ensures BucketPaidSum(Ledger(ps, start, target, n))
         == Absorbed(Ledger(ps, start, target, n), target) + CarryInto(ps, start, target, n)
  {
    if n == 0 {
      assert Ledger(ps, start, target, 0) == [];
    } else {
      CarryConservation(ps, start, target, n - 1);
      LedgerCarryStep(ps, start, target, n);
    }
  }

  /**
   * With non-negative payments, every Completed month is paid for: the
   * targets of the Completed months (`CompletedCount * target`, by
   * `CompletedTargetsIsProduct`) plus the remaining carry never exceed what
   * was paid.
   */
  lemma {:induction false} CompletedMonthsArePaidFor(ps: seq<Payment>, start: YearMonth, target: real, n: nat)
    requires NonNegativeAmounts(ps)
    ensures CompletedTargets(Ledger(ps, start, target, n), target) + CarryInto(ps, start, target, n)
         <= TotalPaid(ps)
  {
    var bs := Ledger(ps, start, target, n);
    var carry := CarryInto(ps, start, target, n);
    AbsorbedCoversCompleted(ps, start, target, n);
    CarryConservation(ps, start, target, n);
    BucketPaidConservation(ps, start, target, n);
    calc {
      CompletedTargets(bs, target) + carry;
      <= Absorbed(bs, target) + carry;
      == BucketPaidSum(bs);
      <= TotalPaid(ps);
    }
  }

  /** The target summed over the Completed buckets. */
  function CompletedTargets(bs: seq<Bucket>, target: real): real
  {
    if bs == [] then 0.0
    else CompletedTargets(bs[..|bs| - 1], target) + (if bs[|bs| - 1].status == Completed then target else 0.0)
  }

  /** Summing the target over the Completed buckets is multiplying it by their number. */
  lemma {:induction false} CompletedTargetsIsProduct(bs: seq<Bucket>, target: real)
    ensures CompletedTargets(bs, target) == CompletedCount(bs) as real * target
  {
    if bs != [] {
      CompletedTargetsIsProduct(bs[..|bs| - 1], target);
      var c := CompletedCount(bs[..|bs| - 1]);
      assert (c + 1) as real * target == c as real * target + target;
    }
  }

  /** With non-negative payments, what the months absorb covers the targets of the Completed ones. */
  lemma {:induction false} AbsorbedCoversCompleted(ps: seq<Payment>, start: YearMonth, target: real, n: nat)
    requires NonNegativeAmounts(ps)
    ensures CompletedTargets(Ledger(ps, start, target, n), target) <= Absorbed(Ledger(ps, start, target, n), target)
  {
    if n > 0 {
      AbsorbedCoversCompleted(ps, start, target, n - 1);
      var prev := Ledger(ps, start, target, n - 1);
      var b := BucketAt(ps, start, target, n - 1);
      var cur := prev + [b];
      assert Ledger(ps, start, target, n) == cur;
      assert cur[..|cur| - 1] == prev;
      assert b.carryIn >= 0.0 && b.paid >= 0.0;
    }
  }

  /**
   * The pending balance `syncEnrollment` writes: what is still owed on the
   * fund, never below zero, whatever the payments are labelled.
   */
  function PendingBalance(fund: Fund, ps: seq<Payment>): (r: real)
    ensures r >= 0.0
    ensures TotalPaid(ps) + r >= fund.totalAmount
    ensures r > 0.0 ==> TotalPaid(ps) + r == fund.totalAmount
  {
    var newPendingBalance := fund.totalAmount - TotalPaid(ps);
    if newPendingBalance > 0.0 then newPendingBalance else 0.0
  }

  /** The number of fund months that have begun by `now`, capped at the fund's duration. */
  function MonthsPassed(fund: Fund, start: YearMonth, now: YearMonth): (m: int)
    ensures m <= fund.duration
    ensures m <= MonthsBetween(start, now) + 1
    ensures m == fund.duration || m == MonthsBetween(start, now) + 1
  {
    MinInt(MonthsBetween(start, now) + 1, fund.duration)
  }

  /** What the member should have paid by `now`. */
  function ExpectedByNow(fund: Fund, start: YearMonth, now: YearMonth): (r: real)
    requires fund.duration >= 1
    ensures fund.totalAmount >= 0.0 ==> r <= fund.totalAmount
    ensures MonthsPassed(fund, start, now) == fund.duration ==> r == fund.totalAmount
    ensures r * fund.duration as real == MonthsPassed(fund, start, now) as real * fund.totalAmount
  {
    var t := MonthlyTarget(fund);
    var m := MonthsPassed(fund, start, now);
    MonthlyTargetSpreadsTotal(fund);
    ShareOfParts(m as real, fund.duration as real, t, fund.totalAmount);
    m as real * t
  }

  /**
   * `_calculateOverdue`: the shortfall of the total paid against what is due
   * by `now`, in whole months. An unparseable start date gives NaN in the
   * source and `None` here, as does a zero target with a shortfall (Infinity).
   */
  function Overdue(fund: Fund, ps: seq<Payment>, now: YearMonth): (r: Option<int>)
    requires fund.duration >= 1
    ensures fund.start.None? ==> r.None?
    ensures fund.start.Some? && fund.totalAmount > 0.0 ==> r.Some? && r.value >= 0
  {
    match fund.start
    case None => None
    case Some(start) =>
      var monthlyTarget := MonthlyTarget(fund);
      var shortfall := ExpectedByNow(fund, start, now) - TotalPaid(ps);
      if shortfall <= 0.0 then Some(0)
      else if monthlyTarget == 0.0 then None
      else Some(Ceil(shortfall / monthlyTarget))
  }

  /**
   * The overdue count is the fewest whole monthly instalments that would
   * bring the total paid up to what is due by now; it is zero exactly when
   * nothing is due.
   */
  lemma OverdueIsLeastCatchUp(fund: Fund, ps: seq<Payment>, now: YearMonth)
    requires fund.duration >= 1 && fund.totalAmount > 0.0 && fund.start.Some?
    ensures Overdue(fund, ps, now).Some?
    ensures var k := Overdue(fund, ps, now).value;
      var due := ExpectedByNow(fund, fund.start.value, now);
      && TotalPaid(ps) + k as real * MonthlyTarget(fund) >= due
      && (k > 0 ==> TotalPaid(ps) + (k - 1) as real * MonthlyTarget(fund) < due)
      && (k == 0 <==> TotalPaid(ps) >= due)
  {
    CatchUpIsCeil(TotalPaid(ps), ExpectedByNow(fund, fund.start.value, now), MonthlyTarget(fund));
  }

  /** With non-negative payments a member is never more months overdue than months have begun, nor than the fund lasts. */
  lemma OverdueAtMostDuration(fund: Fund, ps: seq<Payment>, now: YearMonth)
    requires fund.duration >= 1 && fund.totalAmount > 0.0 && fund.start.Some?
    requires NonNegativeAmounts(ps)
    ensures Overdue(fund, ps, now).Some?
    ensures 0 <= Overdue(fund, ps, now).value <= fund.duration
    ensures Overdue(fund, ps, now).value > 0 ==> Overdue(fund, ps, now).value <= MonthsPassed(fund, fund.start.value, now)
  {
    var t := MonthlyTarget(fund);
    var m := MonthsPassed(fund, fund.start.value, now);
    var shortfall := ExpectedByNow(fund, fund.start.value, now) - TotalPaid(ps);
    if shortfall > 0.0 {
      assert shortfall <= m as real * t;
      CeilAtMost(shortfall, t, m);
    }
  }

  /** The equal instalment that clears `balance` in `count` payments. */
  function PerInstalment(balance: real, count: int): (r: real)
    requires count > 0
    ensures r * count as real == balance
    ensures balance >= 0.0 ==> 0.0 <= r <= balance
  {
    DivMulCancel(balance, count as real);
    balance / count as real
  }

  /** What `getCurrentMonthBalance` returns, without its display rounding. */
  datatype CurrentMonth = CurrentMonth(
    month: YearMonth, paid: real, balance: real, status: Status,
    monthlyTarget: real, weeksInMonth: int, daysInMonth: int,
    recommendedWeekly: real, recommendedDaily: real, paymentSchedule: string)

  /** `months.find(m => m.month === ym)`: the first bucket with that label, if any. */
  function FindMonth(bs: seq<Bucket>, ym: YearMonth): (r: Option<Bucket>)
    ensures r.Some? ==> r.value in bs && r.value.month == ym
    ensures r.Some? ==> exists k :: 0 <= k < |bs| && bs[k] == r.value && forall j :: 0 <= j < k ==> bs[j].month != ym
    ensures r.None? ==> forall k :: 0 <= k < |bs| ==> bs[k].month != ym
  {
    if bs == [] then None
    else if bs[0].month == ym then Some(bs[0])
    else FindMonth(bs[1..], ym)
  }

  /** Looking a month up in the ledger finds the bucket that many months after the start, when the month is inside the window, and nothing otherwise. */
  lemma {:induction false} FindMonthInLedger(ps: seq<Payment>, start: YearMonth, target: real, n: nat, ym: YearMonth)
    ensures var k := MonthsBetween(start, ym);
      FindMonth(Ledger(ps, start, target, n), ym)
        == if 0 <= k < n then Some(BucketAt(ps, start, target, k)) else None
  {
    var bs := Ledger(ps, start, target, n);
    var k := MonthsBetween(start, ym);
    LedgerAt(ps, start, target, n);
    var found := FindMonth(bs, ym);
    if 0 <= k < n {
      AddMonthsUnique(start, k, ym);
      assert bs[k].month == ym;
      var j :| 0 <= j < |bs| && bs[j] == found.value;
      AddMonthsUnique(start, j, ym);
    }
  }

  /**
   * `getCurrentMonthBalance`: the bucket of the current month, or a
   * Not Started stand-in owing the full target when the current month is
   * outside the fund's window, with the instalments that would clear its
   * balance if paid every week or every day of the month. `fund` and
   * `enrollment` are the rows looked up for the pair; either missing gives
   * `None`. `firstWeekday` is the weekday of the current month's first day.
   */
  method GetCurrentMonthBalance(fund: Option<Fund>, enrollment: Option<Enrollment>, payments: seq<Payment>,
                                now: Date, firstWeekday: Weekday) returns (r: Option<CurrentMonth>)
    requires fund.Some? ==> fund.value.duration >= 1
    ensures r.None? <==> fund.None? || enrollment.None?
    ensures r.Some? ==>
      var f := fund.value;
      var c := r.value;
      var start := StartMonth(f, MonthOf(now));
      var k := MonthsBetween(start, MonthOf(now));
      && c.month == MonthOf(now)
      && c.monthlyTarget == MonthlyTarget(f)
      && (0 <= k < f.duration ==>
            var b := BucketAt(payments, start, c.monthlyTarget, k);
            c.paid == b.paid && c.balance == b.balance && c.status == b.status)
      && (!(0 <= k < f.duration) ==>
            c.paid == 0.0 && c.balance == c.monthlyTarget && c.status == NotStarted)
      && c.daysInMonth == DaysInMonth(MonthOf(now))
      && c.weeksInMonth == WeeksInMonth(MonthOf(now), firstWeekday)
      && c.recommendedWeekly == PerInstalment(c.balance, c.weeksInMonth)
      && c.recommendedDaily == PerInstalment(c.balance, c.daysInMonth)
      && c.paymentSchedule == enrollment.value.schedule
  {
    if fund.None? || enrollment.None? {
      return None;
    }
    var t := CalculateTracking(fund.value, payments, MonthOf(now));
    var currentMonthStr := MonthOf(now);
    var found := FindMonth(t.months, currentMonthStr);
    FindMonthInLedger(payments, StartMonth(fund.value, currentMonthStr), t.monthlyTarget, fund.value.duration, currentMonthStr);
    var currentMonthData := found.GetOr(Bucket(currentMonthStr, 0.0, 0.0, 0.0, NotStarted, t.monthlyTarget));
    var weeksInMonth := WeeksInMonth(currentMonthStr, firstWeekday);
    var daysInMonth := DaysInMonth(currentMonthStr);
    r := Some(CurrentMonth(
      currentMonthStr, currentMonthData.paid, currentMonthData.balance, currentMonthData.status,
      t.monthlyTarget, weeksInMonth, daysInMonth,
      PerInstalment(currentMonthData.balance, weeksInMonth), PerInstalment(currentMonthData.balance, daysInMonth),
      enrollment.value.schedule));
  }
}
