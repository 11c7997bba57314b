/** The proleptic Gregorian calendar behind JavaScript's Date, on UTC
    millisecond timestamps. A month is identified by its month index
    `year * 12 + month` (month 0 = January), so month arithmetic with
    overflow, as `new Date(y, m, d)` performs it, is plain addition. */
module Calendar {
  import opened Options

  const DayMs: int := 86400000
  /** The largest magnitude of a valid Date (TimeClip). */
  const MaxTimeMs: int := 8640000000000000
  /** Days in one 400-year Gregorian cycle, which holds 4800 months. */
  const EraDays: int := 146097
  /** Days from 0000-01-01 to 1970-01-01. */
  const EpochShift: int := 719528

  predicate IsLeapYear(y: int) {
    y % 4 == 0 && (y % 100 != 0 || y % 400 == 0)
  }

  function DaysInMonth(month: int, leap: bool): (r: int)
    requires 0 <= month < 12
    ensures 28 <= r <= 31
  {
    if month == 1 then (if leap then 29 else 28)
    else if month == 3 || month == 5 || month == 8 || month == 10 then 30
    else 31
  }

  /** Days of the year before the first of `month`. */
  function DaysBeforeMonth(month: int, leap: bool): int
    requires 0 <= month <= 12
  {
    30 * month + (month + 1 + month / 8) / 2 - (if month >= 2 then 2 else 0) + (if leap && month >= 2 then 1 else 0)
  }

  lemma MonthStep(month: int, leap: bool)
    requires 0 <= month < 12
    ensures DaysBeforeMonth(month, leap) + DaysInMonth(month, leap) == DaysBeforeMonth(month + 1, leap)
  {
  }

  /** Days from the start of a 400-year cycle to its year `yy`, in closed form. */
  function DaysBeforeYearInEra(yy: int): int
    requires 0 <= yy <= 400
  {
    365 * yy + (yy + 3) / 4 - (yy + 99) / 100 + (yy + 399) / 400
  }

  lemma YearStep(yy: int)
    requires 0 <= yy < 400
    ensures DaysBeforeYearInEra(yy + 1) - DaysBeforeYearInEra(yy) == (if IsLeapYear(yy) then 366 else 365)
  {
    assert (yy + 4) / 4 - (yy + 3) / 4 == (if yy % 4 == 0 then 1 else 0);
    assert (yy + 100) / 100 - (yy + 99) / 100 == (if yy % 100 == 0 then 1 else 0);
    assert (yy + 400) / 400 - (yy + 399) / 400 == (if yy == 0 then 1 else 0);
  }

  /** The length of month `k` of a 400-year cycle, whose year `k / 12` has
      the leap status of the same year of the Gregorian cycle. */
  function MonthLength(k: int): (r: int)
    requires 0 <= k < 4800
    ensures 28 <= r <= 31
  {
    DaysInMonth(k % 12, IsLeapYear(k / 12))
  }

  /** Days from the start of a 400-year cycle to the first of its `k`-th month. */
  function InEra(k: int): int
    requires 0 <= k <= 4800
  {
    DaysBeforeYearInEra(k / 12) + DaysBeforeMonth(k % 12, IsLeapYear(k / 12))
  }

  lemma InEraStep(k: int)
    requires 0 <= k < 4800
    ensures InEra(k + 1) == InEra(k) + MonthLength(k)
  {
    var yy := k / 12;
    MonthStep(k % 12, IsLeapYear(yy));
    if k % 12 < 11 {
      assert (k + 1) / 12 == yy && (k + 1) % 12 == k % 12 + 1;
    } else {
      assert (k + 1) / 12 == yy + 1 && (k + 1) % 12 == 0;
      YearStep(yy);
    }
  }

  /** Days from 1970-01-01 to the first day of month index `m`. */
  function MonthStartDays(m: int): int {
    (m / 4800) * 146097 + InEra(m % 4800) - 719528
  }

  function MonthStartMs(m: int): int {
    MonthStartDays(m) * 86400000
  }

  /** `new Date(y, m + 1, 0)` moved to 23:59:59: the last second of month `m`. */
  function MonthEndMs(m: int): (r: int)
    ensures MonthStartMs(m) < r < MonthStartMs(m + 1)
  {
    MonthStartStep(m);
    MonthStartMs(m + 1) - 1000
  }

  lemma EraSplit(e: int, k: int)
    requires 0 <= k < 4800
    ensures (e * 4800 + k) / 4800 == e && (e * 4800 + k) % 4800 == k
  {
  }

  /** Consecutive month starts are one month length apart. */
  lemma MonthStartStep(m: int)
    ensures MonthStartDays(m) + 28 <= MonthStartDays(m + 1) <= MonthStartDays(m) + 31
  {
    var e, k := m / 4800, m % 4800;
    assert m == e * 4800 + k;
    EraStart(e, k);
    InEraStep(k);
  }

  lemma {:induction false} MonthStartMonotone(a: int, b: int)
    requires a < b
    ensures MonthStartDays(a) < MonthStartDays(b)
    decreases b - a
  {
    MonthStartStep(a);
    if a + 1 < b {
      MonthStartMonotone(a + 1, b);
    }
  }

  /** The last `r < n` with `f(r) <= x`, for `f(0) <= x < f(n)`. */
  lemma LastAtMost(x: int, f: int -> int, n: nat) returns (r: int)
    requires f(0) <= x < f(n)
    ensures 0 <= r < n && f(r) <= x < f(r + 1)
  {
    r := n - 1;
    while x < f(r)
      invariant 0 <= r < n
      invariant x < f(r + 1)
      decreases r
    {
      r := r - 1;
    }
  }

  /** Days from the start of a 400-year cycle to its month `k`, for any `k`. */
  function EraMonthStart(k: int): int {
    if 0 <= k <= 4800 then InEra(k) else 0
  }

  /** The month of a 400-year cycle that holds day `doe` of the cycle. */
  lemma FindMonth(doe: int) returns (r: int)
    requires 0 <= doe < 146097
    ensures 0 <= r < 4800 && InEra(r) <= doe < InEra(r + 1)
  {
    EraLength();
    r := LastAtMost(doe, EraMonthStart, 4800);
    assert EraMonthStart(r) == InEra(r) && EraMonthStart(r + 1) == InEra(r + 1);
  }

  lemma EraLength()
    ensures EraMonthStart(0) == 0
    ensures EraMonthStart(4800) == 146097
  {
    EraFirst();
    EraLast();
  }

  lemma EraFirst()
    ensures InEra(0) == 0
  {
    InEraSplit(0, 0, 0);
    YearZero();
    MonthZero(IsLeapYear(0));
  }

  lemma EraLast()
    ensures InEra(4800) == 146097
  {
    InEraSplit(4800, 400, 0);
    MonthZero(IsLeapYear(400));
  }

  /** Month `k` of a cycle is month `month` of its year `yy`. */
  lemma InEraSplit(k: int, yy: int, month: int)
    requires 0 <= yy <= 400 && 0 <= month < 12 && k == 12 * yy + month && k <= 4800
    ensures InEra(k) == DaysBeforeYearInEra(yy) + DaysBeforeMonth(month, IsLeapYear(yy))
  {
    assert k / 12 == yy && k % 12 == month;
  }

  lemma YearZero()
    ensures DaysBeforeYearInEra(0) == 0
  {
  }

  lemma MonthZero(leap: bool)
    ensures DaysBeforeMonth(0, leap) == 0
  {
  }

  /** The 400-year cycle that holds day `days` after 1970-01-01. */
  function EraOfDay(days: int): int {
    (days + 719528) / 146097
  }

  /** Timestamp `t` lies in month index `m`. */
  predicate InMonth(t: int, m: int) {
    MonthStartMs(m) <= t < MonthStartMs(m + 1)
  }

  /** Every timestamp lies in a month of its 400-year cycle. */
  lemma MonthExists(t: int) returns (m: int)
    ensures EraOfDay(t / 86400000) * 4800 <= m < EraOfDay(t / 86400000) * 4800 + 4800
    ensures InMonth(t, m)
  {
    var days := t / 86400000;
    var e := EraOfDay(days);
    var doe := (days + 719528) % 146097;
    EraDecompose(days);
    var r := FindMonth(doe);
    m := e * 4800 + r;
    DayInEra(days, e, doe, r, m);
    DayToMs(t, m);
  }

  lemma EraDecompose(days: int)
    ensures days + 719528 == EraOfDay(days) * 146097 + (days + 719528) % 146097
    ensures 0 <= (days + 719528) % 146097 < 146097
  {
  }

  lemma DayToMs(t: int, m: int)
    requires MonthStartDays(m) <= t / 86400000 < MonthStartDays(m + 1)
    ensures InMonth(t, m)
  {
  }

  lemma MonthInCycle(t: int)
    ensures exists m :: EraOfDay(t / 86400000) * 4800 <= m < EraOfDay(t / 86400000) * 4800 + 4800 && InMonth(t, m)
  {
    var m := MonthExists(t);
  }

  /** At most one month holds a timestamp. */
  lemma {:induction false} MonthUnique(t: int, a: int, b: int)
    requires InMonth(t, a) && InMonth(t, b)
    ensures a == b
  {
    if a < b {
      MonthBefore(t, a, b);
    } else if b < a {
      MonthBefore(t, b, a);
    }
  }

  /** A timestamp in month `a` lies before every later month. */
  lemma MonthBefore(t: int, a: int, b: int)
    requires a < b && InMonth(t, a)
    ensures !InMonth(t, b)
  {
    MonthStartMsMonotone(a + 1, b);
  }

  lemma MonthStartMsMonotone(a: int, b: int)
    requires a <= b
    ensures MonthStartMs(a) <= MonthStartMs(b)
  {
    if a < b { MonthStartMonotone(a, b); }
  }

  lemma EraStart(e: int, r: int)
    requires 0 <= r < 4800
    ensures MonthStartDays(e * 4800 + r) == e * 146097 + InEra(r) - 719528
    ensures MonthStartDays(e * 4800 + r + 1) == e * 146097 + InEra(r + 1) - 719528
  {
    EraSplit(e, r);
    if r < 4799 {
      EraSplit(e, r + 1);
    } else {
      EraSplit(e + 1, 0);
    }
  }

  lemma DayInEra(days: int, e: int, doe: int, r: int, m: int)
    requires days + 719528 == e * 146097 + doe
    requires 0 <= r < 4800 && InEra(r) <= doe < InEra(r + 1)
    requires m == e * 4800 + r
    ensures MonthStartDays(m) <= days < MonthStartDays(m + 1)
  {
    EraStart(e, r);
  }

  /** getFullYear() * 12 + getMonth() of a timestamp. */
  function MonthIndex(t: int): (m: int)
    ensures InMonth(t, m)
  {
    var lo := EraOfDay(t / 86400000) * 4800;
    MonthInCycle(t);
    assert forall a, b | lo <= a < lo + 4800 && lo <= b < lo + 4800 && InMonth(t, a) && InMonth(t, b) :: a == b by {
      forall a, b | lo <= a < lo + 4800 && lo <= b < lo + 4800 && InMonth(t, a) && InMonth(t, b) ensures a == b {
        MonthUnique(t, a, b);
      }
    }
    var m :| lo <= m < lo + 4800 && InMonth(t, m);
    m
  }

  /** A month that holds `t` is its month index. */
  lemma MonthIndexUnique(t: int, m: int)
    requires InMonth(t, m)
    ensures MonthIndex(t) == m
  {
    MonthUnique(t, m, MonthIndex(t));
  }

  lemma MonthIndexMonotone(t: int, u: int)
    requires t <= u
    ensures MonthIndex(t) <= MonthIndex(u)
  {
    MonthOrder(t, u, MonthIndex(t), MonthIndex(u));
  }

  /** Months of ordered timestamps are ordered. */
  lemma MonthOrder(t: int, u: int, a: int, b: int)
    requires t <= u && InMonth(t, a) && InMonth(u, b)
    ensures a <= b
  {
    if b < a {
      MonthStartMsMonotone(b + 1, a);
    }
  }

  function YearOf(m: int): int { m / 12 }
  function MonthOfYear(m: int): (r: int)
    ensures 0 <= r < 12
  {
    m % 12
  }

  /** `new Date(year, month, day)`: years 0..99 mean 1900..1999, months and
      days outside their range carry over, and a result beyond TimeClip's
      range is an invalid date (None). */
  function MakeDate(year: int, month: int, day: int): (r: Option<int>)
    ensures r.Some? ==> -MaxTimeMs <= r.value <= MaxTimeMs
  {
    var t := (MonthStartDays(FullYear(year) * 12 + month) + day - 1) * 86400000;
    if t < -MaxTimeMs || t > MaxTimeMs then None else Some(t)
  }

  /** A Date object: a time value within TimeClip's range, or an Invalid
      Date, whose time is NaN. An Invalid Date is still an object, so it is
      truthy, while every comparison with its time is false. */
  datatype JsDate = Valid(ms: int) | InvalidDate

  /** The Date a computed time makes: TimeClip turns a time beyond
      8.64e15 ms either way into an Invalid Date. */
  function TimeClip(t: int): (d: JsDate)
    ensures d.Valid? <==> -MaxTimeMs <= t <= MaxTimeMs
    ensures d.Valid? ==> d.ms == t
  {
    if -MaxTimeMs <= t <= MaxTimeMs then Valid(t) else InvalidDate
  }

  /** The Date `new Date(year, month, day)` makes, from the time `MakeDate` gives. */
  function DateOf(t: Option<int>): (d: JsDate)
    ensures d.Valid? <==> t.Some?
    ensures d.Valid? ==> d.ms == t.value
  {
    if t.Some? then Valid(t.value) else InvalidDate
  }

  /** The time of a Date or null, where only a truthy time is used: null and
      the NaN of an Invalid Date both give None. */
  function TimeOrNone(d: Option<JsDate>): (r: Option<int>)
    ensures r.Some? <==> d.Some? && d.value.Valid?
    ensures r.Some? ==> r.value == d.value.ms
  {
    if d.Some? && d.value.Valid? then Some(d.value.ms) else None
  }

  /** The year `new Date(year, …)` means: 0..99 stand for 1900..1999. */
  function FullYear(year: int): (r: int)
    ensures 0 <= year <= 99 ==> r == 1900 + year
    ensures !(0 <= year <= 99) ==> r == year
  {
    if 0 <= year <= 99 then 1900 + year else year
  }

  /** getDate() of a timestamp: its day within its month, counted from 1. */
  function DayOfMonth(t: int): int {
    t / DayMs - MonthStartDays(MonthIndex(t)) + 1
  }

  /** The length of a month, as the distance between consecutive month starts,
      follows the Gregorian rules for its month of its year. */
  lemma MonthLengthLaw(m: int)
    ensures MonthStartDays(m + 1) - MonthStartDays(m) == DaysInMonth(MonthOfYear(m), IsLeapYear(YearOf(m)))
  {
    var e, k := m / 4800, m % 4800;
    EraMonth(m);
    assert MonthStartDays(m + 1) - MonthStartDays(m) == InEra(k + 1) - InEra(k) by {
      EraStart(e, k);
    }
    InEraStep(k);
    assert IsLeapYear(YearOf(m)) == IsLeapYear(k / 12) by {
      LeapCycle(e, k / 12);
    }
  }

  /** Month `m` is month `m % 4800` of era `m / 4800`, so its year and month of year follow. */
  lemma EraMonth(m: int)
    ensures m == (m / 4800) * 4800 + m % 4800
    ensures YearOf(m) == (m / 4800) * 400 + (m % 4800) / 12 && MonthOfYear(m) == (m % 4800) % 12
  {
    var e, k := m / 4800, m % 4800;
    DivBy12(m, e * 400 + k / 12, k % 12);
  }

  lemma DivBy12(m: int, q: int, r: int)
    requires m == 12 * q + r && 0 <= r < 12
    ensures m / 12 == q && m % 12 == r
  {
  }

  /** Leap years repeat every 400 years. */
  lemma LeapCycle(e: int, yy: int)
    ensures IsLeapYear(e * 400 + yy) == IsLeapYear(yy)
  {
    Shift4(e * 100, yy);
    Shift100(e * 4, yy);
    Shift400(e, yy);
  }

  lemma Shift4(q: int, a: int)
    ensures (4 * q + a) % 4 == a % 4
  {
  }

  lemma Shift100(q: int, a: int)
    ensures (100 * q + a) % 100 == a % 100
  {
  }

  lemma Shift400(q: int, a: int)
    ensures (400 * q + a) % 400 == a % 400
  {
  }

  /** `new Date(year, month, day)` for a day of that month is midnight of
      that day: its month index is the one named and getDate() is `day`. */
  lemma MakeDateDay(year: int, month: int, day: int)
    requires 1 <= day <= DaysInMonth(MonthOfYear(FullYear(year) * 12 + month), IsLeapYear(YearOf(FullYear(year) * 12 + month)))
    requires MakeDate(year, month, day).Some?
    ensures MakeDate(year, month, day).value % DayMs == 0
    ensures MonthIndex(MakeDate(year, month, day).value) == FullYear(year) * 12 + month
    ensures DayOfMonth(MakeDate(year, month, day).value) == day
  {
    var m := FullYear(year) * 12 + month;
    var days := MonthStartDays(m) + day - 1;
    var t := MakeDate(year, month, day).value;
    assert t == days * DayMs;
    MonthLengthLaw(m);
    assert t / DayMs == days;
    DayToMs(t, m);
    MonthIndexUnique(t, m);
  }

  /** Day `day` of month `month` (0..11) of a year from 100 to 199999 is a
      valid date, midnight of that very day. */
  lemma CalendarDay(year: int, month: int, day: int)
    requires 100 <= year < 200000 && 0 <= month < 12
    requires 1 <= day <= DaysInMonth(month, IsLeapYear(year))
    ensures MakeDate(year, month, day).Some?
    ensures MakeDate(year, month, day).value % DayMs == 0
    ensures MonthIndex(MakeDate(year, month, day).value) == year * 12 + month
    ensures DayOfMonth(MakeDate(year, month, day).value) == day
  {
    MakeDateValid(year, month, day);
    assert FullYear(year) == year;
    DivBy12(year * 12 + month, year, month);
    MakeDateDay(year, month, day);
  }

  /** Conversely, every valid midnight is `new Date(y, m, d)` of its own
      year, month and day (outside the years 0..99, which `new Date` remaps). */
  lemma MakeDateOfInstant(t: int)
    requires t % DayMs == 0 && -MaxTimeMs <= t <= MaxTimeMs
    requires !(0 <= YearOf(MonthIndex(t)) <= 99)
    ensures MakeDate(YearOf(MonthIndex(t)), MonthOfYear(MonthIndex(t)), DayOfMonth(t)) == Some(t)
  {
    var m, days := MonthIndex(t), t / DayMs;
    assert t == days * DayMs;
    assert YearOf(m) * 12 + MonthOfYear(m) == m;
    MakeDateAt(YearOf(m), MonthOfYear(m), DayOfMonth(t), days);
  }

  /** `new Date(y, m, d)` outside the years 0..99 is midnight of day
      `MonthStartDays(y * 12 + m) + d - 1` when that lies in the Date range. */
  lemma MakeDateAt(year: int, month: int, day: int, days: int)
    requires !(0 <= year <= 99)
    requires MonthStartDays(year * 12 + month) + day - 1 == days
    requires -MaxTimeMs <= days * DayMs <= MaxTimeMs
    ensures MakeDate(year, month, day) == Some(days * DayMs)
  {
  }

  /** The days of a 400-year cycle before its month `k` are at most one cycle. */
  lemma InEraBounds(k: int)
    requires 0 <= k <= 4800
    ensures 0 <= InEra(k) <= EraDays
  {
    var yy := k / 12;
    assert DaysBeforeYearInEra(yy) <= DaysBeforeYearInEra(400) - 365 * (400 - yy);
    assert DaysBeforeMonth(k % 12, IsLeapYear(yy)) <= 335;
    if yy == 400 {
      assert k == 4800 && k % 12 == 0;
    }
  }

  /** Any day 1..31 of any month of the years 0..199999 is a valid Date. */
  lemma MakeDateValid(year: int, month: int, day: int)
    requires 0 <= year < 200000 && 0 <= month < 12 && 1 <= day <= 31
    ensures MakeDate(year, month, day).Some?
  {
    var m := FullYear(year) * 12 + month;
    var e, k := m / 4800, m % 4800;
    assert 0 <= e < 500;
    assert m == e * 4800 + k;
    EraStart(e, k);
    InEraBounds(k);
    var days := MonthStartDays(m) + day - 1;
    assert -719528 <= days <= 499 * 146097 + 146097 - 719528 + 30;
  }

  /** The day Excel counts serial dates from, `new Date(1899, 11, 30)`. */
  const ExcelEpochMs: int := -25569 * 86400000

  lemma ExcelEpoch()
    ensures MakeDate(1899, 11, 30) == Some(ExcelEpochMs)
  {
    ExcelEpochDay(1899 * 12 + 11);
  }

  lemma ExcelEpochDay(m: int)
    requires m == 1899 * 12 + 11
    ensures MonthStartDays(m) == -25598
  {
    EraStart(4, 3599);
    InEraAt(3599);
  }

  lemma InEraAt(k: int)
    requires k == 3599
    ensures InEra(k) == 109542
  {
    assert k / 12 == 299 && k % 12 == 11;
  }

  lemma UnixEpoch()
    ensures MonthStartDays(1970 * 12) == 0
  {
    EraStart(4, 4440);
    assert 4440 / 12 == 370 && 4440 % 12 == 0;
    assert DaysBeforeYearInEra(370) == 135140;
  }
}
