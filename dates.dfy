/**
 * Dates on the proleptic Gregorian calendar, in one fixed time zone. A point in time is a day
 * number (day 0 is Thursday 1 January 1970) and a second of that day; a month is a month index
 * `12 * year + (month - 1)`. This replaces Foundation's `Date` and `Calendar`.
 */
module Dates {
  const SecondsPerDay: int := 86400

  type DaySecond = s: int | 0 <= s < SecondsPerDay

  /** A `Date`: the day number and the second within that day. */
  datatype Instant = Instant(day: int, second: DaySecond)

  /** `a < b` on dates. */
  predicate Before(a: Instant, b: Instant)
  {
    a.day < b.day || (a.day == b.day && a.second < b.second)
  }

  /** `calendar.startOfDay(for:)`. */
  function StartOfDay(t: Instant): (r: Instant)
    ensures r.day == t.day && !Before(t, r)
  {
    Instant(t.day, 0)
  }

  /** `calendar.component(.hour, from:)`. */
  function Hour(t: Instant): (h: int)
    ensures 0 <= h < 24
    ensures h * 3600 <= t.second < (h + 1) * 3600
  {
    t.second / 3600
  }

  /** `calendar.component(.weekday, from:)`: 1 is Sunday, 7 is Saturday. */
  function Weekday(day: int): (w: int)
    ensures 1 <= w <= 7
  {
    (day + 4) % 7 + 1
  }

  /** The weekday advances by one each day, Saturday wrapping to Sunday. */
  lemma WeekdayNext(day: int)
    ensures Weekday(day + 1) == Weekday(day) % 7 + 1
  {
  }

  /** Day 0 is a Thursday and the week repeats every seven days. */
  lemma WeekdayPeriod(day: int, weeks: int)
    ensures Weekday(0) == 5
    ensures Weekday(day + 7 * weeks) == Weekday(day)
  {
  }

  // ---------------------------------------------------------------- months

  predicate IsLeapYear(year: int)
  {
    year % 4 == 0 && (year % 100 != 0 || year % 400 == 0)
  }

  /** Days in month `month` (0 is January) of `year`. */
  function DaysInMonth(year: int, month: int): (n: int)
    requires 0 <= month < 12
    ensures 28 <= n <= 31
  {
    if month == 1 then (if IsLeapYear(year) then 29 else 28)
    else if month == 3 || month == 5 || month == 8 || month == 10 then 30
    else 31
  }

  function Year(m: int): int { m / 12 }
  function MonthOfYear(m: int): (r: int) ensures 0 <= r < 12 { m % 12 }

  /** The number of days of month index `m`. */
  function MonthLength(m: int): (n: int)
    ensures 28 <= n <= 31
  {
    DaysInMonth(Year(m), MonthOfYear(m))
  }

  /** January 1970. */
  const EpochMonth: int := 1970 * 12

  /**
   * The day number of the first day of month index `m`: January 1970 begins on day 0 and every
   * month begins where the one before it ends.
   */
  function MonthStart(m: int): int
    decreases if m >= EpochMonth then m - EpochMonth else EpochMonth - m
  {
    if m == EpochMonth then 0
    else if m > EpochMonth then MonthStart(m - 1) + MonthLength(m - 1)
    else MonthStart(m + 1) - MonthLength(m)
  }

  /** Each month begins where the previous one ends. */
  lemma MonthStartNext(m: int)
    ensures MonthStart(m + 1) == MonthStart(m) + MonthLength(m)
    ensures 28 <= MonthStart(m + 1) - MonthStart(m) <= 31
  {
  }

  /** Month `k` of `year` begins where month `k - 1` of that year ends. */
  lemma MonthOfYearNext(year: int, k: int)
    requires 0 <= k < 12
    ensures MonthStart(12 * year + k + 1) == MonthStart(12 * year + k) + DaysInMonth(year, k)
  {
    MonthStartNext(12 * year + k);
    assert Year(12 * year + k) == year && MonthOfYear(12 * year + k) == k;
  }

  /** The months of a year add up to 366 days in a leap year and 365 otherwise. */
  lemma YearLength(year: int)
    ensures MonthStart(12 * (year + 1)) - MonthStart(12 * year) == if IsLeapYear(year) then 366 else 365
  {
    MonthOfYearNext(year, 0); MonthOfYearNext(year, 1); MonthOfYearNext(year, 2);
    MonthOfYearNext(year, 3); MonthOfYearNext(year, 4); MonthOfYearNext(year, 5);
    MonthOfYearNext(year, 6); MonthOfYearNext(year, 7); MonthOfYearNext(year, 8);
    MonthOfYearNext(year, 9); MonthOfYearNext(year, 10); MonthOfYearNext(year, 11);
    assert 12 * year + 11 + 1 == 12 * (year + 1);
  }

  /** Later months begin later. */
  lemma {:induction false} MonthStartIncreasing(m1: int, m2: int)
    requires m1 < m2
    ensures MonthStart(m1) + 28 * (m2 - m1) <= MonthStart(m2)
    decreases m2 - m1
  {
    MonthStartNext(m2 - 1);
    if m1 < m2 - 1 {
      MonthStartIncreasing(m1, m2 - 1);
    }
  }

  /** The day lies in month index `m`: from its first day up to, not including, the next month's. */
  predicate InMonth(day: int, m: int)
  {
    MonthStart(m) <= day < MonthStart(m + 1)
  }

  /** A day lies in at most one month. */
  lemma MonthsDisjoint(day: int, m1: int, m2: int)
    requires InMonth(day, m1) && InMonth(day, m2)
    ensures m1 == m2
  {
    if m1 < m2 {
      MonthStartIncreasing(m1 + 1, m2 + 1);
      MonthStartIncreasing(m1, m2);
      if m1 + 1 < m2 { MonthStartIncreasing(m1 + 1, m2); }
    } else if m2 < m1 {
      if m2 + 1 < m1 { MonthStartIncreasing(m2 + 1, m1); }
    }
  }

  /**
   * `calendar.date(byAdding: .month, value: offset, to:)`, seen through its year and month: the
   * month of the year moves by `offset` modulo 12 and the overflow carries into the year.
   */
  function AddMonths(m: int, offset: int): (r: int)
    ensures MonthOfYear(r) == (MonthOfYear(m) + offset) % 12
    ensures Year(r) == Year(m) + (MonthOfYear(m) + offset) / 12
    ensures r - m == offset
  {
    MonthCarry(m, offset);
    m + offset
  }

  lemma MonthCarry(m: int, offset: int)
    ensures (m + offset) % 12 == (m % 12 + offset) % 12
    ensures (m + offset) / 12 == m / 12 + (m % 12 + offset) / 12
  {
    var q, k := m / 12, m % 12;
    assert m + offset == 12 * q + (k + offset);
    var q2, k2 := (k + offset) / 12, (k + offset) % 12;
    assert k + offset == 12 * q2 + k2 && 0 <= k2 < 12;
    assert m + offset == 12 * (q + q2) + k2;
  }

  /**
   * One month on: December wraps to January of the next year, any other month is followed by the
   * next one of the same year, and the new month begins where the old one ends.
   */
  lemma AddMonthsNext(m: int)
    ensures MonthNumber(AddMonths(m, 1)) == if MonthNumber(m) == 12 then 1 else MonthNumber(m) + 1
    ensures Year(AddMonths(m, 1)) == if MonthNumber(m) == 12 then Year(m) + 1 else Year(m)
    ensures MonthStart(AddMonths(m, 1)) == MonthStart(m) + MonthLength(m)
  {
    MonthStartNext(m);
  }

  /** Month number 1 to 12 of month index `m`. */
  function MonthNumber(m: int): (r: int)
    ensures 1 <= r <= 12
  {
    MonthOfYear(m) + 1
  }
}
