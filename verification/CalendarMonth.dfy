/**
 Calendar-month arithmetic on time values (src/common/calendar-month.ts).

 A `Date` is its time value: milliseconds since 1970-01-01T00:00:00Z, as in section 21.4.1 of ECMA-262.
 The getters the source uses (getUTCFullYear, getUTCMonth, getUTCDate and the four time-of-day getters)
 are the functions `YearOf`, `MonthOf`, `DateOf` and `TimeWithinDay`; `Date.UTC` is `Utc`, with its
 remapping of the years 0..99 written out.
 */
module CalendarMonth {

  const MS_PER_DAY: int := 86_400_000

  predicate IsLeap(y: int) {
    y % 4 == 0 && (y % 100 != 0 || y % 400 == 0)
  }

  function DaysInYear(y: int): int {
    if IsLeap(y) then 366 else 365
  }

  /** DayFromYear of section 21.4.1.3 of ECMA-262. */
  function DayFromYear(y: int): int {
    365 * (y - 1970) + (y - 1969) / 4 - (y - 1901) / 100 + (y - 1601) / 400
  }

  /** Length of month `m` (0 = January) of year `y`. */
  function DaysInMonth(y: int, m: int): (n: int)
    ensures 28 <= n <= 31
  {
    if m == 1 then (if IsLeap(y) then 29 else 28)
    else if m == 3 || m == 5 || m == 8 || m == 10 then 30
    else 31
  }

  /** Days of year `y` before month `m`. */
  function DaysBeforeMonth(y: int, m: nat): int {
    if m == 0 then 0 else DaysBeforeMonth(y, m - 1) + DaysInMonth(y, m - 1)
  }

  /** A quotient by a positive constant steps up exactly at the multiples. */
  lemma QuotientStep(a: int, k: int)
    requires k > 1
    ensures (a + 1) / k - a / k == if (a + 1) % k == 0 then 1 else 0
  {
    var q, r := a / k, a % k;
    assert a == q * k + r;
    if r + 1 == k {
      Quotient(a + 1, k, q + 1, 0);
    } else {
      Quotient(a + 1, k, q, r + 1);
    }
  }

  lemma Quotient(a: int, k: int, q: int, r: int)
    requires k > 0 && a == q * k + r && 0 <= r < k
    ensures a / k == q && a % k == r
  {
    var d := a / k - q;
    assert a == (a / k) * k + a % k;
    assert d * k == r - a % k;
    assert d >= 1 ==> d * k >= k;
    assert d <= -1 ==> d * k <= -k;
  }

  lemma LeapStep(y: int)
    ensures DayFromYear(y + 1) == DayFromYear(y) + DaysInYear(y)
  {
    QuotientStep(y - 1969, 4);
    QuotientStep(y - 1901, 100);
    QuotientStep(y - 1601, 400);
    assert (y - 1968) % 4 == 0 <==> y % 4 == 0;
    assert (y - 1900) % 100 == 0 <==> y % 100 == 0;
    assert (y - 1600) % 400 == 0 <==> y % 400 == 0;
  }

  lemma MonthsFillYear(y: int)
    ensures DaysBeforeMonth(y, 12) == DaysInYear(y)
  {
    assert DaysBeforeMonth(y, 1) == 31;
    assert DaysBeforeMonth(y, 2) == 31 + DaysInMonth(y, 1);
    assert DaysBeforeMonth(y, 3) == DaysBeforeMonth(y, 2) + 31;
    assert DaysBeforeMonth(y, 4) == DaysBeforeMonth(y, 3) + 30;
    assert DaysBeforeMonth(y, 6) == DaysBeforeMonth(y, 4) + 61;
    assert DaysBeforeMonth(y, 8) == DaysBeforeMonth(y, 6) + 62;
    assert DaysBeforeMonth(y, 10) == DaysBeforeMonth(y, 8) + 61;
    assert DaysBeforeMonth(y, 12) == DaysBeforeMonth(y, 10) + 61;
  }

  lemma YearLength(y: int)
    ensures DayFromYear(y + 1) == DayFromYear(y) + DaysInYear(y)
    ensures DaysBeforeMonth(y, 12) == DaysInYear(y)
  {
    LeapStep(y);
    MonthsFillYear(y);
  }

  // ---- decomposition of a day number ----

  function YearSearch(d: int, y: int): (r: int)
    requires DayFromYear(y) <= d
    ensures DayFromYear(r) <= d < DayFromYear(r + 1)
    decreases d - DayFromYear(y)
  {
    YearLength(y);
    if d < DayFromYear(y + 1) then y else YearSearch(d, y + 1)
  }

  /** The year holding day `d`: the largest `y` with DayFromYear(y) <= d. */
  function YearFromDay(d: int): (y: int)
    ensures DayFromYear(y) <= d < DayFromYear(y + 1)
  {
    YearSearch(d, 1970 + if d >= 0 then d / 366 else d / 365)
  }

  function MonthSearch(y: int, r: int, m: nat): (k: nat)
    requires m <= 11 && DaysBeforeMonth(y, m) <= r < DaysBeforeMonth(y, 12)
    ensures k <= 11 && DaysBeforeMonth(y, k) <= r < DaysBeforeMonth(y, k + 1)
    decreases 11 - m
  {
    if m == 11 || r < DaysBeforeMonth(y, m + 1) then m else MonthSearch(y, r, m + 1)
  }

  function DayNumber(t: int): int { t / MS_PER_DAY }

  function TimeWithinDay(t: int): int { t % MS_PER_DAY }

  function YearOf(t: int): int { YearFromDay(DayNumber(t)) }

  /** 0-based month, as getUTCMonth. */
  function MonthOf(t: int): (m: nat)
    ensures m <= 11
  {
    var y := YearOf(t);
    YearLength(y);
    MonthSearch(y, DayNumber(t) - DayFromYear(y), 0)
  }

  /** 1-based day of the month, as getUTCDate. */
  function DateOf(t: int): (d: int)
    ensures 1 <= d <= DaysInMonth(YearOf(t), MonthOf(t))
  {
    var y := YearOf(t);
    YearLength(y);
    DayNumber(t) - DayFromYear(y) - DaysBeforeMonth(y, MonthOf(t)) + 1
  }

  // ---- building a time value ----

  /** Day number of day `d` of month `m` of year `y`; `d` may be 0 (the day before the first). */
  function MakeDay(y: int, m: nat, d: int): int
    requires m <= 12
  {
    DayFromYear(y) + DaysBeforeMonth(y, m) + d - 1
  }

  /** Date.UTC reads the years 0..99 as 1900..1999. */
  function UtcYear(y: int): int {
    if 0 <= y <= 99 then 1900 + y else y
  }

  function Utc(y: int, m: nat, d: int, ms: int): int
    requires m <= 12
  {
    MakeDay(UtcYear(y), m, d) * MS_PER_DAY + ms
  }

  /** src/common/calendar-month.ts:9-20; the RangeError of line 10 is the type of `months`. */
  function AddCalendarMonths(t: int, months: nat): int {
    var total := MonthOf(t) + months;
    var targetYear := YearOf(t) + total / 12;
    var targetMonth := (total % 12 + 12) % 12;
    var lastDayOfTarget := DateOf(Utc(targetYear, targetMonth + 1, 0, 0));
    var day := if DateOf(t) < lastDayOfTarget then DateOf(t) else lastDayOfTarget;
    Utc(targetYear, targetMonth, day, TimeWithinDay(t))
  }

  // ---- month numbers: an independent, linear view of the calendar ----

  /** Months since year 0; every instant lies in exactly one. */
  function MonthNo(t: int): int { 12 * YearOf(t) + MonthOf(t) }

  /** Day number of the first day of month number `n`. */
  function MonthStart(n: int): int { MakeDay(n / 12, n % 12, 1) }

  function MonthLength(n: int): (k: int)
    ensures 28 <= k <= 31
  {
    DaysInMonth(n / 12, n % 12)
  }

  lemma NextMonth(n: int)
    ensures MonthStart(n + 1) == MonthStart(n) + MonthLength(n)
  {
    if n % 12 == 11 {
      YearLength(n / 12);
      Quotient(n + 1, 12, n / 12 + 1, 0);
    } else {
      Quotient(n + 1, 12, n / 12, n % 12 + 1);
    }
  }

  lemma {:induction false} MonthSpan(n: int, k: nat)
    ensures 28 * k <= MonthStart(n + k) - MonthStart(n) <= 31 * k
  {
    hide *;
    if k > 0 {
      MonthSpan(n, k - 1);
      NextMonth(n + k - 1);
    }
  }

  /** A whole month fits before any later month. */
  lemma MonthsInOrder(m: int, n: int)
    requires m < n
    ensures MonthStart(m) + MonthLength(m) + 28 * (n - m - 1) <= MonthStart(n)
    ensures MonthStart(n) <= MonthStart(m) + MonthLength(m) + 31 * (n - m - 1)
  {
    hide *;
    NextMonth(m);
    MonthSpan(m + 1, n - m - 1);
    assert m + 1 + (n - m - 1) == n;
  }

  /** The month number and the day of the month are the day number. */
  lemma Decompose(t: int)
    ensures DayNumber(t) == MonthStart(MonthNo(t)) + DateOf(t) - 1
    ensures 1 <= DateOf(t) <= MonthLength(MonthNo(t))
  {
    Quotient(MonthNo(t), 12, YearOf(t), MonthOf(t));
  }

  /** A day number determines its month number and day. */
  lemma DecomposeUnique(t: int, n: int, d: int)
    requires 1 <= d <= MonthLength(n)
    requires DayNumber(t) == MonthStart(n) + d - 1
    ensures MonthNo(t) == n && DateOf(t) == d
  {
    hide *;
    Decompose(t);
    if MonthNo(t) < n {
      MonthsInOrder(MonthNo(t), n);
    } else if n < MonthNo(t) {
      MonthsInOrder(n, MonthNo(t));
    }
  }

  lemma DayOfMidnight(day: int, ms: int)
    requires 0 <= ms < MS_PER_DAY
    ensures DayNumber(day * MS_PER_DAY + ms) == day && TimeWithinDay(day * MS_PER_DAY + ms) == ms
  {
  }

  /** Instants are ordered by day, then by time of day. */
  lemma ByDay(s: int, t: int)
    ensures DayNumber(s) < DayNumber(t) ==> s < t
    ensures DayNumber(s) == DayNumber(t) ==> t - s == TimeWithinDay(t) - TimeWithinDay(s)
    ensures TimeWithinDay(s) == TimeWithinDay(t) ==> t - s == (DayNumber(t) - DayNumber(s)) * MS_PER_DAY
  {
  }

  /** Month number that Date.UTC lands in, `months` after `t`. */
  function TargetMonth(t: int, months: nat): int {
    var n := MonthNo(t) + months;
    12 * UtcYear(n / 12) + n % 12
  }

  function Clamp(d: int, limit: int): (r: int)
    ensures r <= d && r <= limit && (r == d || r == limit)
  {
    if d < limit then d else limit
  }

  lemma LastDay(y0: int, m: nat)
    requires m <= 11
    ensures var last := Utc(y0, m + 1, 0, 0);
            MonthNo(last) == 12 * UtcYear(y0) + m && DateOf(last) == DaysInMonth(UtcYear(y0), m)
  {
    var y := UtcYear(y0);
    var n := 12 * y + m;
    Quotient(n, 12, y, m);
    DayOfMidnight(MakeDay(y, m + 1, 0), 0);
    assert MakeDay(y, m + 1, 0) == MonthStart(n) + DaysInMonth(y, m) - 1;
    DecomposeUnique(Utc(y0, m + 1, 0, 0), n, DaysInMonth(y, m));
  }

  lemma UtcLands(y0: int, m: nat, d: int, ms: int)
    requires m <= 11 && 1 <= d <= DaysInMonth(UtcYear(y0), m) && 0 <= ms < MS_PER_DAY
    ensures var r := Utc(y0, m, d, ms);
            MonthNo(r) == 12 * UtcYear(y0) + m && DateOf(r) == d && TimeWithinDay(r) == ms
  {
    var y := UtcYear(y0);
    var n := 12 * y + m;
    Quotient(n, 12, y, m);
    DayOfMidnight(MakeDay(y, m, d), ms);
    assert MakeDay(y, m, d) == MonthStart(n) + d - 1;
    DecomposeUnique(Utc(y0, m, d, ms), n, d);
  }

  /** What AddCalendarMonths computes, in month numbers: shift the month, clamp the day, keep the time of day. */
  lemma AddShiftsMonth(t: int, months: nat)
    ensures var r, n := AddCalendarMonths(t, months), TargetMonth(t, months);
            && MonthNo(r) == n
            && DateOf(r) == Clamp(DateOf(t), MonthLength(n))
            && TimeWithinDay(r) == TimeWithinDay(t)
            && DayNumber(r) == MonthStart(n) + DateOf(r) - 1
  {
    hide DayFromYear, DaysBeforeMonth, YearOf, MonthOf, DateOf, Utc, UtcYear, MonthStart, DaysInMonth;
    var total := MonthOf(t) + months;
    var y0, m := YearOf(t) + total / 12, total % 12;
    Quotient(MonthNo(t) + months, 12, y0, m);
    Quotient(12 * UtcYear(y0) + m, 12, UtcYear(y0), m);
    LastDay(y0, m);
    var day := Clamp(DateOf(t), DaysInMonth(UtcYear(y0), m));
    UtcLands(y0, m, day, TimeWithinDay(t));
    Decompose(AddCalendarMonths(t, months));
  }

  // ---- the guarantees billing relies on, from year 100 on (no Date.UTC remapping) ----

  lemma NoRemap(t: int, months: nat)
    requires YearOf(t) >= 100
    ensures TargetMonth(t, months) == MonthNo(t) + months
    ensures YearOf(AddCalendarMonths(t, months)) >= 100
  {
    hide AddCalendarMonths, YearOf, MonthOf, MonthStart, DateOf;
    AddShiftsMonth(t, months);
    Quotient(MonthNo(t) + months, 12, YearOf(t) + (MonthOf(t) + months) / 12, (MonthOf(t) + months) % 12);
    var r := AddCalendarMonths(t, months);
    Quotient(MonthNo(r), 12, YearOf(r), MonthOf(r));
  }

  /** The linear form of AddCalendarMonths that the theorems below use. */
  lemma Shifted(t: int, months: nat)
    requires YearOf(t) >= 100
    ensures var r := AddCalendarMonths(t, months);
            && YearOf(r) >= 100
            && MonthNo(r) == MonthNo(t) + months
            && DateOf(r) == Clamp(DateOf(t), MonthLength(MonthNo(r)))
            && TimeWithinDay(r) == TimeWithinDay(t)
            && DayNumber(r) == MonthStart(MonthNo(r)) + DateOf(r) - 1
    ensures 1 <= DateOf(t) <= MonthLength(MonthNo(t))
    ensures DayNumber(t) == MonthStart(MonthNo(t)) + DateOf(t) - 1
  {
    hide *;
    AddShiftsMonth(t, months);
    NoRemap(t, months);
    Decompose(t);
  }

  /** A period of `months` months lasts between 28 and 31 days per month, to the millisecond. */
  lemma PeriodLength(t: int, months: nat)
    requires YearOf(t) >= 100
    ensures 28 * months * MS_PER_DAY <= AddCalendarMonths(t, months) - t <= 31 * months * MS_PER_DAY
  {
    hide AddCalendarMonths, YearOf, MonthOf, MonthNo, MonthStart, MonthLength, DateOf, DayNumber, TimeWithinDay, Clamp;
    var r := AddCalendarMonths(t, months);
    Shifted(t, months);
    if months > 0 {
      MonthsInOrder(MonthNo(t), MonthNo(r));
    }
    assert 28 * months <= DayNumber(r) - DayNumber(t) <= 31 * months;
    ByDay(t, r);
  }

  lemma MonthOrder(s: int, t: int)
    requires s <= t
    ensures MonthNo(s) <= MonthNo(t)
    ensures MonthNo(s) == MonthNo(t) ==> DateOf(s) <= DateOf(t)
  {
    hide *;
    Decompose(s);
    Decompose(t);
    ByDay(t, s);
    if MonthNo(t) < MonthNo(s) {
      MonthsInOrder(MonthNo(t), MonthNo(s));
    }
  }

  /** Two starts in one month that are cut back to the same last day, the earlier day at the later hour. */
  predicate CutBackInReverse(s: int, t: int, months: nat) {
    && MonthNo(s) == MonthNo(t)
    && MonthLength(MonthNo(s) + months) <= DateOf(s) < DateOf(t)
    && TimeWithinDay(s) > TimeWithinDay(t)
  }

  /**
   A later start never ends on an earlier day, and never ends at an earlier instant exactly when the two
   starts are not cut back to the same last day of the month in reverse order of their times of day.
   */
  lemma MonotoneInStart(s: int, t: int, months: nat)
    requires YearOf(s) >= 100 && YearOf(t) >= 100 && s <= t
    ensures DayNumber(AddCalendarMonths(s, months)) <= DayNumber(AddCalendarMonths(t, months))
    ensures AddCalendarMonths(s, months) <= AddCalendarMonths(t, months) <==> !CutBackInReverse(s, t, months)
  {
    hide AddCalendarMonths, YearOf, MonthOf, MonthNo, MonthStart, MonthLength, DateOf, DayNumber, TimeWithinDay;
    var a, b := AddCalendarMonths(s, months), AddCalendarMonths(t, months);
    Shifted(s, months);
    Shifted(t, months);
    MonthOrder(s, t);
    ByDay(a, b);
    ByDay(b, a);
    if MonthNo(s) < MonthNo(t) {
      MonthsInOrder(MonthNo(a), MonthNo(b));
    } else {
      ByDay(s, t);
    }
  }

  /** The reversal happens: 30 January 2026 23:00 and 31 January 2026 01:00, one month later. */
  lemma MonotoneFails()
    ensures exists s, t :: s <= t && YearOf(s) >= 100 && YearOf(t) >= 100
                           && AddCalendarMonths(s, 1) > AddCalendarMonths(t, 1)
  {
    hide AddCalendarMonths, YearOf, MonthOf, MonthStart, DateOf, Utc, DayNumber, TimeWithinDay;
    var s, t := Utc(2026, 0, 30, 82_800_000), Utc(2026, 0, 31, 3_600_000);
    UtcLands(2026, 0, 30, 82_800_000);
    UtcLands(2026, 0, 31, 3_600_000);
    Quotient(MonthNo(s), 12, YearOf(s), MonthOf(s));
    Quotient(MonthNo(t), 12, YearOf(t), MonthOf(t));
    Decompose(s);
    Decompose(t);
    ByDay(s, t);
    assert MonthLength(MonthNo(s) + 1) == 28;
    MonotoneInStart(s, t, 1);
  }

  /** More months always give a strictly later end, so a positive period is never empty. */
  lemma StrictInMonths(t: int, m: nat, n: nat)
    requires YearOf(t) >= 100 && m < n
    ensures AddCalendarMonths(t, m) < AddCalendarMonths(t, n)
  {
    hide *;
    var a, b := AddCalendarMonths(t, m), AddCalendarMonths(t, n);
    Shifted(t, m);
    Shifted(t, n);
    MonthsInOrder(MonthNo(a), MonthNo(b));
    ByDay(a, b);
  }

  /**
   Renewing in two steps is never later than in one, and ends at the same instant exactly when the stop in
   between did not cut the day below what the final month holds; days up to 28 are never cut.
   */
  lemma TwoSteps(t: int, m: nat, n: nat)
    requires YearOf(t) >= 100
    ensures AddCalendarMonths(AddCalendarMonths(t, m), n) <= AddCalendarMonths(t, m + n)
    ensures AddCalendarMonths(AddCalendarMonths(t, m), n) == AddCalendarMonths(t, m + n) <==>
            || DateOf(t) <= MonthLength(MonthNo(t) + m)
            || MonthLength(MonthNo(t) + m + n) <= MonthLength(MonthNo(t) + m)
    ensures DateOf(t) <= 28 ==> AddCalendarMonths(AddCalendarMonths(t, m), n) == AddCalendarMonths(t, m + n)
  {
    hide *;
    var r := AddCalendarMonths(t, m);
    Shifted(t, m);
    Shifted(r, n);
    Shifted(t, m + n);
    ByDay(AddCalendarMonths(r, n), AddCalendarMonths(t, m + n));
  }

  /** The two-step loss is real: from 31 January 2026, one month and one month end before two months. */
  lemma TwoStepsCanBeEarlier()
    ensures exists t :: YearOf(t) >= 100 && AddCalendarMonths(AddCalendarMonths(t, 1), 1) < AddCalendarMonths(t, 2)
  {
    hide AddCalendarMonths, YearOf, MonthOf, MonthStart, DateOf, Utc, DayNumber, TimeWithinDay;
    var t := Utc(2026, 0, 31, 0);
    UtcLands(2026, 0, 31, 0);
    Quotient(MonthNo(t), 12, YearOf(t), MonthOf(t));
    var r := AddCalendarMonths(t, 1);
    Shifted(t, 1);
    Shifted(r, 1);
    Shifted(t, 2);
    ByDay(AddCalendarMonths(r, 1), AddCalendarMonths(t, 2));
  }

  lemma TargetIsLater(t: int, months: nat)
    ensures TargetMonth(t, months) >= MonthNo(t) + months
  {
    hide MonthNo;
  }

  /** A period of at least one month ends after it starts, in every year, remapped ones included. */
  lemma EndsAfterStart(t: int, months: nat)
    requires months >= 1
    ensures AddCalendarMonths(t, months) > t
  {
    hide *;
    var r := AddCalendarMonths(t, months);
    AddShiftsMonth(t, months);
    TargetIsLater(t, months);
    Decompose(t);
    Decompose(r);
    MonthsInOrder(MonthNo(t), MonthNo(r));
    ByDay(t, r);
  }
}
