/** UTC dates of instants. The pool decides "has a new day begun?" by comparing a
    year and a day of the year; this module relates that to 24-hour classes. */
module Calendar {

  /** Nanoseconds since 1 January of year 1, 00:00 UTC, the zero value of a Go time. */
  type Instant = int

  /** The zero time: a field that was never set. */
  const NEVER: Instant := 0

  const SECOND: int := 1_000_000_000
  const DAY: int := 86_400_000_000_000

  /** The number of whole days between the zero time and t (rounded down). */
  function DayIndex(t: Instant): int {
    t / 86_400_000_000_000
  }

  /** The two instants lie in the same 24-hour class. */
  predicate SameDay(a: Instant, b: Instant) {
    DayIndex(a) == DayIndex(b)
  }

  predicate IsLeap(year: int) {
    year % 4 == 0 && (year % 100 != 0 || year % 400 == 0)
  }

  function DaysIn(year: int): int {
    if IsLeap(year) then 366 else 365
  }

  /** Days from 1 January of year 1 to 1 January of the given year. */
  function DaysBefore(year: int): int {
    var past := year - 1;
    365 * past + past / 4 - past / 100 + past / 400
  }

  /** The closed form is the running total of the year lengths under the leap rule. */
  lemma DaysBeforeStep(year: int)
    ensures DaysBefore(1) == 0
    ensures DaysBefore(year + 1) == DaysBefore(year) + DaysIn(year)
  {
    var past := year - 1;
    assert year / 4 - past / 4 == if year % 4 == 0 then 1 else 0;
    assert year / 100 - past / 100 == if year % 100 == 0 then 1 else 0;
    assert year / 400 - past / 400 == if year % 400 == 0 then 1 else 0;
  }

  lemma {:induction false} DaysBeforeMonotone(y1: int, y2: int)
    requires y1 <= y2
    ensures DaysBefore(y1) + 365 * (y2 - y1) <= DaysBefore(y2)
    decreases y2 - y1
  {
    if y1 < y2 {
      DaysBeforeMonotone(y1, y2 - 1);
      DaysBeforeStep(y2 - 1);
    }
  }

  /** A year and a day of that year, counted from 1. */
  datatype OrdinalDate = OrdinalDate(year: int, yearDay: int)

  /** What it means for a date to be the date of day number d. */
  predicate IsDateOf(date: OrdinalDate, d: int) {
    && 1 <= date.yearDay <= DaysIn(date.year)
    && DaysBefore(date.year) + date.yearDay - 1 == d
  }

  /** The date of day number d, found by peeling off 400-, 100-, 4- and 1-year cycles. */
  function DateOfDay(d: int): OrdinalDate {
    var n400, r400 := d / 146097, d % 146097;
    var n100 := if r400 / 36524 == 4 then 3 else r400 / 36524;
    var r100 := r400 - 36524 * n100;
    var n4, r4 := r100 / 1461, r100 % 1461;
    var n1 := if r4 / 365 == 4 then 3 else r4 / 365;
    OrdinalDate(400 * n400 + 100 * n100 + 4 * n4 + n1 + 1, r4 - 365 * n1 + 1)
  }

  /** A date read off the cycles: n400 to n1 whole cycles are past, and day days of the year. */
  lemma CyclesGiveDate(n400: int, n100: int, n4: int, n1: int, day: int)
    requires 0 <= n100 <= 3 && 0 <= n4 <= 24 && 0 <= n1 <= 3
    requires 0 <= day <= 365
    requires day == 365 ==> n1 == 3 && (n4 == 24 ==> n100 == 3)
    ensures IsDateOf(OrdinalDate(400 * n400 + 100 * n100 + 4 * n4 + n1 + 1, day + 1),
                     146097 * n400 + 36524 * n100 + 1461 * n4 + 365 * n1 + day)
  {
    var past := 400 * n400 + 100 * n100 + 4 * n4 + n1;
    assert past / 4 == 100 * n400 + 25 * n100 + n4;
    assert past / 100 == 4 * n400 + n100;
    assert past / 400 == n400;
    if day == 365 {
      var year := past + 1;
      assert year % 4 == 0;
      assert n4 < 24 ==> year % 100 == 4 * (n4 + 1);
      assert n4 == 24 ==> year % 400 == 0;
    }
  }

  lemma DateOfDayIsDate(d: int)
    ensures IsDateOf(DateOfDay(d), d)
  {
    var n400, r400 := d / 146097, d % 146097;
    var n100 := if r400 / 36524 == 4 then 3 else r400 / 36524;
    var r100 := r400 - 36524 * n100;
    var n4, r4 := r100 / 1461, r100 % 1461;
    var n1 := if r4 / 365 == 4 then 3 else r4 / 365;
    CyclesGiveDate(n400, n100, n4, n1, r4 - 365 * n1);
  }

  /** Every day has exactly one date. */
  lemma DateIsUnique(a: OrdinalDate, b: OrdinalDate, d: int)
    requires IsDateOf(a, d) && IsDateOf(b, d)
    ensures a == b
  {
    DaysBeforeStep(a.year);
    DaysBeforeStep(b.year);
    if a.year < b.year {
      DaysBeforeMonotone(a.year + 1, b.year);
    } else if b.year < a.year {
      DaysBeforeMonotone(b.year + 1, a.year);
    }
  }

  /** The pool's own comparison: equal year and equal day of the year. */
  predicate SameUTCDate(a: Instant, b: Instant) {
    var da, db := DateOfDay(DayIndex(a)), DateOfDay(DayIndex(b));
    da.year == db.year && da.yearDay == db.yearDay
  }

  /** Comparing year and day of the year is comparing 24-hour classes, for all instants. */
  lemma SameDateIsSameDay(a: Instant, b: Instant)
    ensures SameUTCDate(a, b) <==> SameDay(a, b)
  {
    DateOfDayIsDate(DayIndex(a));
    DateOfDayIsDate(DayIndex(b));
  }

  /** Two instants a day or more apart never share a date, a shared date covers everything in between,
      and a new date begins at each midnight. */
  lemma DatesPartitionTime(a: Instant, b: Instant, t: Instant)
    ensures b >= a + DAY ==> !SameUTCDate(a, b)
    ensures a <= t <= b && SameUTCDate(a, b) ==> SameUTCDate(a, t)
    ensures !SameUTCDate(a - a % DAY - 1, a)
  {
    SameDateIsSameDay(a, b);
    SameDateIsSameDay(a, t);
    SameDateIsSameDay(a - a % DAY - 1, a);
  }

  /** The units, the leap rule in known years, and a known date: day 719162 is 1 January 1970. */
  lemma KnownDates()
    ensures SECOND == 1_000_000_000 && DAY == 24 * 60 * 60 * SECOND
    ensures IsLeap(2000) && !IsLeap(1900) && IsLeap(2024) && !IsLeap(2023)
    ensures DateOfDay(0) == OrdinalDate(1, 1) && DateOfDay(719162) == OrdinalDate(1970, 1)
    ensures DateOfDay(DayIndex(719162 * DAY - 1)) == OrdinalDate(1969, 365)
  {
  }
}
