/**
 * The payments table, the enrollments' cached aggregates and the two
 * handlers that change them: POST /payments, which admits a payment only if
 * its month keeps one payment schedule and stays within that schedule's
 * per-month limit, and DELETE /payments/:id; both re-sync the owning
 * enrollment afterwards.
 */
module PaymentStore {
  import opened Wrappers
  import opened Numeric
  import opened Calendar
  import opened BalanceService

  /** The authenticated caller; `role` is "admin" for administrators. */
  datatype Caller = Caller(id: nat, role: string)

  /**
   * The `payment_date` of a request: absent, a string that does not parse
   * as a date (stored as given, since the column does not check it), or a date.
   */
  datatype DateField = Missing | Unparseable | Given(date: Date)

  /**
   * The body of POST /payments. `amount` and `month` are `None` when
   * `amount` and `payment_month` are absent; an empty `schedule` stands for
   * an absent `payment_schedule` (JavaScript's `||` treats both alike).
   */
  datatype PaymentRequest = PaymentRequest(
    userId: nat, fundId: nat, amount: Option<real>, date: DateField,
    month: Option<YearMonth>, schedule: string)

  /**
   * Why a payment is refused. `UnparseableDate`: no month is given and the
   * date has no ISO form. `MissingColumn`: the request passed admission but
   * lacks a value for a NOT NULL column (`amount`, `payment_date`), so the
   * insert fails and nothing is stored.
   */
  datatype Rejection =
    | UnparseableDate
    | MissingColumn
    | ModeMismatch(existing: string, requested: string)
    | LimitReached(count: nat, limit: int)

  datatype Decision = Accept | Reject(reason: Rejection)

  /** How DELETE /payments/:id ends: 403 for a non-administrator, 404 for an unknown id, or the deletion. */
  datatype DeleteOutcome = Forbidden | NotFound | Deleted

  /** ASCII lower-casing of one character. */
  function LowerChar(c: char): char
  {
    if 'A' <= c <= 'Z' then (c as int + 32) as char else c
  }

  /** `toLowerCase()` on ASCII letters. */
  function Lower(s: string): (r: string)
    ensures |r| == |s|
    ensures forall i :: 0 <= i < |s| ==> r[i] == LowerChar(s[i])
  {
    if s == [] then [] else [LowerChar(s[0])] + Lower(s[1..])
  }

  /** `payment_schedule || 'monthly'`: the schedule a payment is stored and compared under. */
  function Effective(schedule: string): (r: string)
    ensures r != ""
    ensures schedule != "" ==> r == schedule
    ensures schedule == "" ==> r == "monthly"
  {
    if schedule == "" then "monthly" else schedule
  }

  /** Whose payment it is: an administrator names the member, anyone else pays for themselves. */
  function Owner(caller: Caller, suppliedUserId: nat): (r: nat)
    ensures caller.role != "admin" ==> r == caller.id
    ensures caller.role == "admin" ==> r == suppliedUserId
  {
    if caller.role == "admin" then suppliedUserId else caller.id
  }

  /** The month a payment is booked under: the label given, else the `YYYY-MM` prefix of its date. */
  function PaymentMonth(req: PaymentRequest): (r: Result<YearMonth, Rejection>)
    ensures r.Err? <==> req.month.None? && !req.date.Given?
    ensures r.Err? ==> r.error == UnparseableDate
    ensures r.Ok? && req.month.None? ==> r.value == MonthOf(req.date.date)
    ensures r.Ok? && req.month.Some? ==> r.value == req.month.value
  {
    if req.month.Some? then Ok(req.month.value)
    else if req.date.Given? then Ok(MonthOf(req.date.date))
    else Err(UnparseableDate)
  }

  /** The `payment_date` as stored: the date, or `None` for a string that does not parse. */
  function StoredDate(f: DateField): Option<Date>
  {
    if f.Given? then Some(f.date) else None
  }

  /** The schedules that have a per-month limit. */
  predicate KnownMode(mode: string)
  {
    mode == "monthly" || mode == "weekly" || mode == "daily"
  }

  /**
   * How many payments a month may hold under a (lower-cased) schedule: one
   * for monthly, one per started week for weekly, one per day for daily, and
   * none for anything else.
   */
  function Limit(mode: string, ym: YearMonth): (r: int)
    ensures mode == "monthly" ==> r == 1
    ensures mode == "weekly" ==> 4 <= r <= 5 && 7 * (r - 1) < DaysInMonth(ym) <= 7 * r
    ensures mode == "daily" ==> r == DaysInMonth(ym)
    ensures !KnownMode(mode) ==> r == 0
  {
    var daysInMonth := DaysInMonth(ym);
    if mode == "monthly" then 1
    else if mode == "weekly" then Ceil(daysInMonth as real / 7.0)
    else if mode == "daily" then daysInMonth
    else 0
  }

  /** The most payments a month can come to hold under a schedule: its limit, and for an unknown schedule the first payment only. */
  function Capacity(mode: string, ym: YearMonth): int
  {
    if KnownMode(mode) then Limit(mode, ym) else 1
  }

  /** The payment belongs to that user, fund and month. */
  predicate SameMonth(p: Payment, userId: nat, fundId: nat, ym: YearMonth)
  {
    p.userId == userId && p.fundId == fundId && p.month == ym
  }

  /** The payments of one enrollment, in stored order. */
  function PaymentsOf(ps: seq<Payment>, userId: nat, fundId: nat): (r: seq<Payment>)
    ensures |r| <= |ps|
    ensures forall x :: x in r <==> x in ps && x.userId == userId && x.fundId == fundId
  {
    if ps == [] then []
    else
      var last := ps[|ps| - 1];
      PaymentsOf(ps[..|ps| - 1], userId, fundId) + (if last.userId == userId && last.fundId == fundId then [last] else [])
  }

  /** The payments already booked for one (user, fund, month). */
  function Group(ps: seq<Payment>, userId: nat, fundId: nat, ym: YearMonth): (r: seq<Payment>)
    ensures |r| <= |ps|
    ensures forall x :: x in r <==> x in ps && SameMonth(x, userId, fundId, ym)
  {
    if ps == [] then []
    else
      var last := ps[|ps| - 1];
      Group(ps[..|ps| - 1], userId, fundId, ym) + (if SameMonth(last, userId, fundId, ym) then [last] else [])
  }

  /** Each payment occurs among the enrollment's payments exactly as often as it is stored, if it belongs to the enrollment, and not at all otherwise. */
  lemma {:induction false} PaymentsOfCounts(ps: seq<Payment>, userId: nat, fundId: nat)
    ensures forall x :: multiset(PaymentsOf(ps, userId, fundId))[x]
                     == if x.userId == userId && x.fundId == fundId then multiset(ps)[x] else 0
  {
    if ps != [] {
      PaymentsOfCounts(ps[..|ps| - 1], userId, fundId);
      assert ps == ps[..|ps| - 1] + [ps[|ps| - 1]];
    }
  }

  /** Each payment occurs in a month's group exactly as often as it is stored, if it belongs to that month, and not at all otherwise. */
  lemma {:induction false} GroupCounts(ps: seq<Payment>, userId: nat, fundId: nat, ym: YearMonth)
    ensures forall x :: multiset(Group(ps, userId, fundId, ym))[x]
                     == if SameMonth(x, userId, fundId, ym) then multiset(ps)[x] else 0
  {
    if ps != [] {
      GroupCounts(ps[..|ps| - 1], userId, fundId, ym);
      assert ps == ps[..|ps| - 1] + [ps[|ps| - 1]];
    }
  }

  /** Filtering by enrollment distributes over concatenation. */
  lemma {:induction false} PaymentsOfConcat(a: seq<Payment>, b: seq<Payment>, userId: nat, fundId: nat)
    ensures PaymentsOf(a + b, userId, fundId) == PaymentsOf(a, userId, fundId) + PaymentsOf(b, userId, fundId)
    decreases |b|
  {
    if b == [] {
      assert a + b == a;
    } else {
      assert (a + b)[..|a + b| - 1] == a + b[..|b| - 1];
      PaymentsOfConcat(a, b[..|b| - 1], userId, fundId);
    }
  }

  /** Grouping by month distributes over concatenation. */
  lemma {:induction false} GroupConcat(a: seq<Payment>, b: seq<Payment>, userId: nat, fundId: nat, ym: YearMonth)
    ensures Group(a + b, userId, fundId, ym) == Group(a, userId, fundId, ym) + Group(b, userId, fundId, ym)
    decreases |b|
  {
    if b == [] {
      assert a + b == a;
    } else {
      assert (a + b)[..|a + b| - 1] == a + b[..|b| - 1];
      GroupConcat(a, b[..|b| - 1], userId, fundId, ym);
    }
  }

  /**
   * The admission rule of POST /payments, given the payments already booked
   * for the same (user, fund, month): the first always passes; a later one
   * must use the same schedule, ignoring case, and find the month below
   * that schedule's limit.
   */
  function Admit(existing: seq<Payment>, requested: string, ym: YearMonth): (d: Decision)
    ensures existing == [] ==> d == Accept
    ensures d.Reject? && d.reason.ModeMismatch? <==>
      existing != [] && Lower(existing[0].schedule) != Lower(Effective(requested))
    ensures d.Reject? && d.reason.LimitReached? <==>
      existing != [] && Lower(existing[0].schedule) == Lower(Effective(requested))
      && |existing| >= Limit(Lower(existing[0].schedule), ym)
    ensures d.Reject? ==> !d.reason.UnparseableDate? && !d.reason.MissingColumn?
  {
    if |existing| == 0 then Accept
    else
      var existingMode := Lower(existing[0].schedule);
      var newMode := Lower(Effective(requested));
      if existingMode != newMode then Reject(ModeMismatch(existingMode, newMode))
      else
        var limit := Limit(existingMode, ym);
        if |existing| >= limit then Reject(LimitReached(|existing|, limit)) else Accept
  }

  /** All payments of one (user, fund, month) share one schedule, ignoring case. */
  ghost predicate OneModePerMonth(ps: seq<Payment>)
  {
    forall i, j :: 0 <= i < |ps| && 0 <= j < |ps| && SameMonth(ps[j], ps[i].userId, ps[i].fundId, ps[i].month)
      ==> Lower(ps[i].schedule) == Lower(ps[j].schedule)
  }

  /** No (user, fund, month) holds more payments than its schedule allows. */
  ghost predicate WithinLimits(ps: seq<Payment>)
  {
    forall i :: 0 <= i < |ps| ==>
      |Group(ps, ps[i].userId, ps[i].fundId, ps[i].month)| <= Capacity(Lower(ps[i].schedule), ps[i].month)
  }

  /** The per-month invariant the admission rule maintains. */
  ghost predicate MonthRules(ps: seq<Payment>)
  {
    OneModePerMonth(ps) && WithinLimits(ps)
  }

  /** Every payment already in `p`'s month is on `p`'s schedule, ignoring case. */
  ghost predicate SharesSchedule(ps: seq<Payment>, p: Payment)
  {
    forall j :: 0 <= j < |ps| && SameMonth(ps[j], p.userId, p.fundId, p.month) ==> Lower(ps[j].schedule) == Lower(p.schedule)
  }

  /** Under an admitted payment, what its month already holds is on the payment's schedule and below its capacity. */
  lemma {:induction false} AdmittedJoinsItsMonth(ps: seq<Payment>, p: Payment)
    requires OneModePerMonth(ps)
    requires p.schedule != ""
    requires Admit(Group(ps, p.userId, p.fundId, p.month), p.schedule, p.month) == Accept
    ensures SharesSchedule(ps, p)
    ensures |Group(ps, p.userId, p.fundId, p.month)| < Capacity(Lower(p.schedule), p.month)
  {
    var existing := Group(ps, p.userId, p.fundId, p.month);
    assert Effective(p.schedule) == p.schedule;
    if existing != [] {
      assert existing[0] in existing;
      var m :| 0 <= m < |ps| && ps[m] == existing[0];
      forall j | 0 <= j < |ps| && SameMonth(ps[j], p.userId, p.fundId, p.month)
        ensures Lower(ps[j].schedule) == Lower(p.schedule)
      {
        assert Lower(ps[m].schedule) == Lower(ps[j].schedule);
      }
    }
  }

  /** Booking a payment on its month's schedule keeps every month on one schedule. */
  lemma {:induction false} AppendKeepsOneMode(ps: seq<Payment>, p: Payment)
    requires OneModePerMonth(ps)
    requires SharesSchedule(ps, p)
    ensures OneModePerMonth(ps + [p])
  {
    var qs := ps + [p];
    forall i, j | 0 <= i < |qs| && 0 <= j < |qs| && SameMonth(qs[j], qs[i].userId, qs[i].fundId, qs[i].month)
      ensures Lower(qs[i].schedule) == Lower(qs[j].schedule)
    {
      if i < |ps| && j == |ps| {
        assert SameMonth(ps[i], p.userId, p.fundId, p.month);
      }
    }
  }

  /** Booking a payment into a month below capacity keeps every month within its limit. */
  lemma {:induction false} AppendKeepsLimits(ps: seq<Payment>, p: Payment)
    requires WithinLimits(ps)
    requires SharesSchedule(ps, p)
    requires |Group(ps, p.userId, p.fundId, p.month)| < Capacity(Lower(p.schedule), p.month)
    ensures WithinLimits(ps + [p])
  {
    var qs := ps + [p];
    assert qs[..|qs| - 1] == ps;
    forall i | 0 <= i < |qs|
      ensures |Group(qs, qs[i].userId, qs[i].fundId, qs[i].month)| <= Capacity(Lower(qs[i].schedule), qs[i].month)
    {
      var q := qs[i];
      if SameMonth(p, q.userId, q.fundId, q.month) {
        assert q.userId == p.userId && q.fundId == p.fundId && q.month == p.month;
        assert Lower(q.schedule) == Lower(p.schedule);
      }
    }
  }

  /**
   * Appending an admitted payment keeps every month on one schedule and
   * within its limit; so after any sequence of admitted inserts a monthly
   * month holds one payment, a weekly month at most one per started week,
   * a daily month at most one per day.
   */
  lemma {:induction false} AdmissionKeepsMonthRules(ps: seq<Payment>, p: Payment)
    requires MonthRules(ps)
    requires p.schedule != ""
    requires Admit(Group(ps, p.userId, p.fundId, p.month), p.schedule, p.month) == Accept
    ensures MonthRules(ps + [p])
  {
    AdmittedJoinsItsMonth(ps, p);
    AppendKeepsOneMode(ps, p);
    AppendKeepsLimits(ps, p);
  }

  /** Removing a payment keeps every month on one schedule and within its limit. */
  lemma {:induction false} RemovalKeepsMonthRules(ps: seq<Payment>, k: nat)
    requires MonthRules(ps)
    requires k < |ps|
    ensures MonthRules(ps[..k] + ps[k + 1..])
  {
    RemovalKeepsOneMode(ps, k);
    RemovalKeepsLimits(ps, k);
  }

  /** Deleting a payment keeps every month on one schedule. */
  lemma {:induction false} RemovalKeepsOneMode(ps: seq<Payment>, k: nat)
    requires OneModePerMonth(ps)
    requires k < |ps|
    ensures OneModePerMonth(ps[..k] + ps[k + 1..])
  {
    var qs := ps[..k] + ps[k + 1..];
    forall i, j | 0 <= i < |qs| && 0 <= j < |qs| && SameMonth(qs[j], qs[i].userId, qs[i].fundId, qs[i].month)
      ensures Lower(qs[i].schedule) == Lower(qs[j].schedule)
    {
      var i' := if i < k then i else i + 1;
      var j' := if j < k then j else j + 1;
      assert ps[i'] == qs[i] && ps[j'] == qs[j];
    }
  }

  /** Removing a payment never grows any month's group. */
  lemma {:induction false} RemovalShrinksGroups(ps: seq<Payment>, k: nat, userId: nat, fundId: nat, ym: YearMonth)
    requires k < |ps|
    ensures |Group(ps[..k] + ps[k + 1..], userId, fundId, ym)| <= |Group(ps, userId, fundId, ym)|
  {
    assert ps == (ps[..k] + [ps[k]]) + ps[k + 1..];
    GroupConcat(ps[..k], ps[k + 1..], userId, fundId, ym);
    GroupConcat(ps[..k] + [ps[k]], ps[k + 1..], userId, fundId, ym);
    GroupConcat(ps[..k], [ps[k]], userId, fundId, ym);
  }

  /** Deleting a payment keeps every month within its limit. */
  lemma {:induction false} RemovalKeepsLimits(ps: seq<Payment>, k: nat)
    requires WithinLimits(ps)
    requires k < |ps|
    ensures WithinLimits(ps[..k] + ps[k + 1..])
  {
    var qs := ps[..k] + ps[k + 1..];
    forall i | 0 <= i < |qs|
      ensures |Group(qs, qs[i].userId, qs[i].fundId, qs[i].month)| <= Capacity(Lower(qs[i].schedule), qs[i].month)
    {
      var q := qs[i];
      var j := if i < k then i else i + 1;
      assert ps[j] == q;
      RemovalShrinksGroups(ps, k, q.userId, q.fundId, q.month);
    }
  }

  /** A cached enrollment row agrees with the payments it summarises. */
  predicate CacheAgrees(e: Enrollment, fund: Fund, mine: seq<Payment>)
  {
    e.totalPaid == TotalPaid(mine) && e.pendingBalance == PendingBalance(fund, mine)
  }

  /** Every enrollment of an existing fund has up-to-date cached totals. */
  ghost predicate AllCachesAgree(enrollments: map<(nat, nat), Enrollment>, funds: map<nat, Fund>, ps: seq<Payment>)
  {
    forall key :: key in enrollments && key.1 in funds ==>
      CacheAgrees(enrollments[key], funds[key.1], PaymentsOf(ps, key.0, key.1))
  }

  /**
   * The user_funds table after `syncEnrollment(userId, fundId)`: that pair's
   * cached totals are recomputed from its payments and nothing else changes;
   * with the fund or the enrollment missing, nothing is written.
   */
  function Resynced(enrollments: map<(nat, nat), Enrollment>, funds: map<nat, Fund>, ps: seq<Payment>,
                    userId: nat, fundId: nat): (r: map<(nat, nat), Enrollment>)
    ensures r.Keys == enrollments.Keys
    ensures forall key :: key in enrollments && key != (userId, fundId) ==> r[key] == enrollments[key]
    ensures fundId !in funds ==> r == enrollments
    ensures fundId in funds && (userId, fundId) in enrollments ==>
      && CacheAgrees(r[(userId, fundId)], funds[fundId], PaymentsOf(ps, userId, fundId))
      && r[(userId, fundId)].schedule == enrollments[(userId, fundId)].schedule
  {
    if fundId in funds && (userId, fundId) in enrollments then
      var mine := PaymentsOf(ps, userId, fundId);
      var e := enrollments[(userId, fundId)];
      enrollments[(userId, fundId) := e.(totalPaid := TotalPaid(mine), pendingBalance := PendingBalance(funds[fundId], mine))]
    else enrollments
  }

  /** Syncing twice writes what syncing once writes. */
  lemma ResyncIdempotent(enrollments: map<(nat, nat), Enrollment>, funds: map<nat, Fund>, ps: seq<Payment>,
                         userId: nat, fundId: nat)
    ensures var once := Resynced(enrollments, funds, ps, userId, fundId);
      Resynced(once, funds, ps, userId, fundId) == once
  {
  }

  /**
   * A change to the payments that touches only one enrollment, followed by a
   * sync of that enrollment, leaves every cache up to date.
   */
  lemma {:induction false} ResyncRestoresAgreement(enrollments: map<(nat, nat), Enrollment>, funds: map<nat, Fund>,
                                                   oldPs: seq<Payment>, newPs: seq<Payment>, userId: nat, fundId: nat)
    requires AllCachesAgree(enrollments, funds, oldPs)
    requires forall u: nat, f: nat :: (u, f) != (userId, fundId) ==> PaymentsOf(newPs, u, f) == PaymentsOf(oldPs, u, f)
    ensures AllCachesAgree(Resynced(enrollments, funds, newPs, userId, fundId), funds, newPs)
  {
    var r := Resynced(enrollments, funds, newPs, userId, fundId);
    forall key | key in r && key.1 in funds
      ensures CacheAgrees(r[key], funds[key.1], PaymentsOf(newPs, key.0, key.1))
    {
      if key != (userId, fundId) {
        assert PaymentsOf(newPs, key.0, key.1) == PaymentsOf(oldPs, key.0, key.1);
      }
    }
  }

  /** Appending a payment changes only its own enrollment's payment list. */
  lemma {:induction false} AppendTouchesOnlyOwner(ps: seq<Payment>, p: Payment)
    ensures forall u: nat, f: nat :: (u, f) != (p.userId, p.fundId) ==> PaymentsOf(ps + [p], u, f) == PaymentsOf(ps, u, f)
    ensures PaymentsOf(ps + [p], p.userId, p.fundId) == PaymentsOf(ps, p.userId, p.fundId) + [p]
  {
    assert (ps + [p])[..|ps + [p]| - 1] == ps;
  }

  /** Removing a payment changes only its own enrollment's payment list. */
  lemma {:induction false} RemovalTouchesOnlyOwner(ps: seq<Payment>, k: nat)
    requires k < |ps|
    ensures forall u: nat, f: nat :: (u, f) != (ps[k].userId, ps[k].fundId) ==>
      PaymentsOf(ps[..k] + ps[k + 1..], u, f) == PaymentsOf(ps, u, f)
  {
    forall u: nat, f: nat | (u, f) != (ps[k].userId, ps[k].fundId)
      ensures PaymentsOf(ps[..k] + ps[k + 1..], u, f) == PaymentsOf(ps, u, f)
    {
      assert ps == (ps[..k] + [ps[k]]) + ps[k + 1..];
      PaymentsOfConcat(ps[..k], ps[k + 1..], u, f);
      PaymentsOfConcat(ps[..k] + [ps[k]], ps[k + 1..], u, f);
      AppendTouchesOnlyOwner(ps[..k], ps[k]);
    }
  }

  /** `db('payments').where({ id }).first()`: the position of the payment with that id, if any. */
  function FindById(ps: seq<Payment>, id: nat): (r: Option<nat>)
    ensures r.Some? ==> r.value < |ps| && ps[r.value].id == id
    ensures r.None? ==> forall i :: 0 <= i < |ps| ==> ps[i].id != id
  {
    if ps == [] then None
    else if ps[0].id == id then Some(0)
    else
      var rest := FindById(ps[1..], id);
      if rest.Some? then Some(rest.value + 1) else None
  }

  /** Every payment id is below `n`, the next id the database assigns. */
  ghost predicate IdsBelow(ps: seq<Payment>, n: nat)
  {
    forall i :: 0 <= i < |ps| ==> ps[i].id < n
  }

  /** Payment ids are unique. */
  ghost predicate IdsDistinct(ps: seq<Payment>)
  {
    forall i, j :: 0 <= i < j < |ps| ==> ps[i].id != ps[j].id
  }

  /** No payment carries the id `id`. */
  predicate NoPaymentWithId(ps: seq<Payment>, id: nat)
  {
    forall i :: 0 <= i < |ps| ==> ps[i].id != id
  }

  /** Inserting a row with the next id keeps ids unique and below the new next id. */
  lemma {:induction false} AppendFreshId(ps: seq<Payment>, p: Payment, n: nat)
    requires IdsBelow(ps, n) && IdsDistinct(ps) && p.id == n
    ensures IdsBelow(ps + [p], n + 1) && IdsDistinct(ps + [p])
  {
    var qs := ps + [p];
    forall i, j | 0 <= i < j < |qs| ensures qs[i].id != qs[j].id {
      assert qs[i] == ps[i];
    }
  }

  /** Deleting a row keeps ids unique, and its id no longer occurs. */
  lemma {:induction false} RemovalKeepsIds(ps: seq<Payment>, k: nat, n: nat)
    requires IdsBelow(ps, n) && IdsDistinct(ps) && k < |ps|
    ensures IdsBelow(ps[..k] + ps[k + 1..], n) && IdsDistinct(ps[..k] + ps[k + 1..])
    ensures NoPaymentWithId(ps[..k] + ps[k + 1..], ps[k].id)
  {
    var qs := ps[..k] + ps[k + 1..];
    assert forall i :: 0 <= i < |qs| ==> qs[i] == ps[if i < k then i else i + 1];
  }

  /**
   * The tables the handlers read and write: funds, the user_funds cache and
   * the payments ledger, with the next payment id the database will assign.
   */
  class Store {
    var funds: map<nat, Fund>
    var enrollments: map<(nat, nat), Enrollment>
    var payments: seq<Payment>
    var nextId: nat

    /** Funds have a positive duration, ids are unique and below `nextId`, and the month rules hold. */
    ghost predicate Valid()
      reads this
    {
      && (forall f :: f in funds ==> funds[f].duration >= 1)
      && IdsBelow(payments, nextId)
      && IdsDistinct(payments)
      && MonthRules(payments)
    }

    /** Every cached enrollment total agrees with the payments. */
    ghost predicate Consistent()
      reads this
    {
      AllCachesAgree(enrollments, funds, payments)
    }

    constructor (funds: map<nat, Fund>, enrollments: map<(nat, nat), Enrollment>)
      requires forall f :: f in funds ==> funds[f].duration >= 1
      ensures Valid()
      ensures this.funds == funds && this.enrollments == enrollments
      ensures payments == [] && nextId == 1
    {
      this.funds := funds;
      this.enrollments := enrollments;
      payments := [];
      nextId := 1;
    }

    /**
     * `syncEnrollment`: recompute the pair's total paid (every payment,
     * whatever its month) and pending balance, write them to its cache and
     * return them with the overdue count; nothing happens for a missing
     * fund or enrollment.
     */
    method Sync(userId: nat, fundId: nat, now: YearMonth) returns (r: Option<SyncResult>)
      requires Valid()
      modifies this
      ensures Valid()
      ensures funds == old(funds) && payments == old(payments) && nextId == old(nextId)
      ensures enrollments == Resynced(old(enrollments), funds, payments, userId, fundId)
      ensures r.None? <==> fundId !in funds || (userId, fundId) !in old(enrollments)
      ensures r.Some? ==>
        var mine := PaymentsOf(payments, userId, fundId);
        r.value == SyncResult(TotalPaid(mine), PendingBalance(funds[fundId], mine), Overdue(funds[fundId], mine, now))
    {
      if fundId !in funds || (userId, fundId) !in enrollments {
        return None;
      }
      var fund := funds[fundId];
      var enrollment := enrollments[(userId, fundId)];
      var mine := PaymentsOf(payments, userId, fundId);
      var totalPaidFromPayments := TotalPaid(mine);
      var newPendingBalance := fund.totalAmount - totalPaidFromPayments;
      var pendingBalance := if newPendingBalance > 0.0 then newPendingBalance else 0.0;
      enrollments := enrollments[(userId, fundId) := enrollment.(totalPaid := totalPaidFromPayments,
                                                                 pendingBalance := pendingBalance)];
      r := Some(SyncResult(totalPaidFromPayments, pendingBalance, Overdue(fund, mine, now)));
    }

    /**
     * POST /payments: book the payment under its owner and month if the
     * admission rule accepts it, then sync the owner's enrollment; returns
     * the new payment's id or the reason it was refused.
     */
    method Insert(caller: Caller, req: PaymentRequest, now: YearMonth) returns (r: Result<nat, Rejection>)
      requires Valid()
      modifies this
      ensures Valid()
      ensures funds == old(funds)
      ensures old(Consistent()) ==> Consistent()
      ensures PaymentMonth(req).Err? ==> r == Err(UnparseableDate) && unchanged(this)
      ensures PaymentMonth(req).Ok? ==>
        var owner := Owner(caller, req.userId);
        var ym := PaymentMonth(req).value;
        var d := Admit(Group(old(payments), owner, req.fundId, ym), req.schedule, ym);
        && (d.Reject? ==> r == Err(d.reason) && unchanged(this))
        && (d == Accept && (req.amount.None? || req.date.Missing?) ==> r == Err(MissingColumn) && unchanged(this))
        && (d == Accept && req.amount.Some? && !req.date.Missing? ==>
              && r == Ok(old(nextId))
              && payments == old(payments) + [Payment(old(nextId), owner, req.fundId, req.amount.value,
                                                      StoredDate(req.date), ym, Effective(req.schedule))]
              && nextId == old(nextId) + 1
              && enrollments == Resynced(old(enrollments), funds, payments, owner, req.fundId))
    {
      var finalUserId := Owner(caller, req.userId);
      var monthOrError := PaymentMonth(req);
      if monthOrError.Err? {
        return Err(monthOrError.error);
      }
      var finalMonth := monthOrError.value;
      var existingPayments := Group(payments, finalUserId, req.fundId, finalMonth);
      var decision := Admit(existingPayments, req.schedule, finalMonth);
      if decision.Reject? {
        return Err(decision.reason);
      }
      if req.amount.None? || req.date.Missing? {
        return Err(MissingColumn);
      }
      var payment := Payment(nextId, finalUserId, req.fundId, req.amount.value, StoredDate(req.date), finalMonth,
                             Effective(req.schedule));
      ghost var before := payments;
      ghost var cachesAgreed := Consistent();
      r := Ok(nextId);
      InsertRow(payment);
      var _ := Sync(finalUserId, req.fundId, now);
      if cachesAgreed {
        AppendTouchesOnlyOwner(before, payment);
        ResyncRestoresAgreement(old(enrollments), funds, before, payments, finalUserId, req.fundId);
      }
    }

    /** `db('payments').insert(...)` of an admitted payment: the row is appended under the next id. */
    method InsertRow(p: Payment)
      requires Valid()
      requires p.id == nextId && p.schedule != ""
      requires Admit(Group(payments, p.userId, p.fundId, p.month), p.schedule, p.month) == Accept
      modifies this`payments, this`nextId
      ensures Valid()
      ensures payments == old(payments) + [p] && nextId == old(nextId) + 1
    {
      AdmissionKeepsMonthRules(payments, p);
      AppendFreshId(payments, p, nextId);
      payments := payments + [p];
      nextId := nextId + 1;
    }

    /** `db('payments').where({ id }).del()` of the row at position `k`. */
    method DeleteRow(k: nat)
      requires Valid()
      requires k < |payments|
      modifies this`payments
      ensures Valid()
      ensures payments == old(payments)[..k] + old(payments)[k + 1..]
      ensures forall i :: 0 <= i < |payments| ==> payments[i].id != old(payments)[k].id
    {
      RemovalKeepsMonthRules(payments, k);
      RemovalKeepsIds(payments, k, nextId);
      payments := payments[..k] + payments[k + 1..];
    }

    /**
     * DELETE /payments/:id behind the `admin` middleware: a caller who is
     * not an administrator is refused and nothing changes; otherwise the
     * handler runs.
     */
    method Delete(caller: Caller, id: nat, now: YearMonth) returns (r: DeleteOutcome)
      requires Valid()
      modifies this
      ensures Valid()
      ensures funds == old(funds) && nextId == old(nextId)
      ensures old(Consistent()) ==> Consistent()
      ensures r == Forbidden <==> caller.role != "admin"
      ensures caller.role == "admin" ==>
        (r == Deleted <==> exists i :: 0 <= i < |old(payments)| && old(payments)[i].id == id)
      ensures r != Deleted ==> unchanged(this)
      ensures r == Deleted ==> exists i :: (0 <= i < |old(payments)| && old(payments)[i].id == id &&
        payments == old(payments)[..i] + old(payments)[i + 1..] &&
        enrollments == Resynced(old(enrollments), funds, payments, old(payments)[i].userId, old(payments)[i].fundId))
    {
      if caller.role != "admin" {
        return Forbidden;
      }
      var found := DeleteById(id, now);
      r := if found then Deleted else NotFound;
    }

    /**
     * The DELETE handler: remove the payment with that id and sync its
     * owner's enrollment; an unknown id is reported as not found and
     * changes nothing.
     */
    method DeleteById(id: nat, now: YearMonth) returns (found: bool)
      requires Valid()
      modifies this
      ensures Valid()
      ensures funds == old(funds) && nextId == old(nextId)
      ensures old(Consistent()) ==> Consistent()
      ensures found <==> exists i :: 0 <= i < |old(payments)| && old(payments)[i].id == id
      ensures !found ==> unchanged(this)
      ensures forall i :: 0 <= i < |payments| ==> payments[i].id != id
      ensures found ==> exists i :: (0 <= i < |old(payments)| && old(payments)[i].id == id &&
        payments == old(payments)[..i] + old(payments)[i + 1..] &&
        enrollments == Resynced(old(enrollments), funds, payments, old(payments)[i].userId, old(payments)[i].fundId))
    {
      var index := FindById(payments, id);
      if index.None? {
        return false;
      }
      var k := index.value;
      var payment := payments[k];
      ghost var before := payments;
      ghost var cachesAgreed := Consistent();
      DeleteRow(k);
      found := true;
      var _ := Sync(payment.userId, payment.fundId, now);
      if cachesAgreed {
        RemovalTouchesOnlyOwner(before, k);
        ResyncRestoresAgreement(old(enrollments), funds, before, payments, payment.userId, payment.fundId);
      }
    }
  }

  /**
   * `syncEnrollment` is idempotent: a second call with nothing changed in
   * between returns the same figures, and the two calls together write what
   * one call writes.
   */
  method SyncTwice(store: Store, userId: nat, fundId: nat, now: YearMonth)
    returns (first: Option<SyncResult>, second: Option<SyncResult>)
    requires store.Valid()
    modifies store
    ensures store.Valid()
    ensures first == second
    ensures store.payments == old(store.payments) && store.funds == old(store.funds)
    ensures store.enrollments == Resynced(old(store.enrollments), store.funds, store.payments, userId, fundId)
  {
    first := store.Sync(userId, fundId, now);
    second := store.Sync(userId, fundId, now);
    ResyncIdempotent(old(store.enrollments), store.funds, store.payments, userId, fundId);
  }
}
