/**
 * Calendar arithmetic on day numbers.
 *
 * A date is its proleptic Gregorian ordinal, as Python's `date.toordinal()`
 * gives it: 0001-01-01 is day 1 and is a Monday, so the weekday (Monday 0,
 * Sunday 6) of day `d` is `(d + 6) % 7`. Python's `%` floors and Dafny's is
 * Euclidean; with the positive divisor 7 the two agree on every integer.
 */
module Calendar {

  type Day = int

  const Monday := 0
  const Friday := 4

  /** `date.weekday()`: Monday is 0, Sunday is 6. */
  function Weekday(d: Day): (w: int)
    ensures 0 <= w < 7
  {
    (d + 6) % 7
  }

  /** Weekdays advance by one per day, wrapping from Sunday to Monday. */
  lemma WeekdayShift(d: Day, k: int)
    ensures Weekday(d + k) == (Weekday(d) + k) % 7
  {
  }

  function IsLeap(year: int): bool {
    year % 4 == 0 && (year % 100 != 0 || year % 400 == 0)
  }

  function DaysInMonth(year: int, month: int): (n: int)
    requires 1 <= month <= 12
    ensures 28 <= n <= 31
  {
    if month == 2 then (if IsLeap(year) then 29 else 28)
    else if month == 4 || month == 6 || month == 9 || month == 11 then 30
    else 31
  }

  /** Number of days in the years before `year` (Python's `_days_before_year`). */
  function DaysBeforeYear(year: int): int
    requires year >= 1
  {
    var y := year - 1;
    y * 365 + y / 4 - y / 100 + y / 400
  }

  /** Number of days in `year` before the first of `month`. */
  function DaysBeforeMonth(year: int, month: int): (n: int)
    requires 1 <= month <= 12
    ensures 0 <= n <= 31 * (month - 1)
    decreases month
  {
    if month == 1 then 0 else DaysBeforeMonth(year, month - 1) + DaysInMonth(year, month - 1)
  }

  predicate ValidDate(year: int, month: int, day: int) {
    1 <= year && 1 <= month <= 12 && 1 <= day <= DaysInMonth(year, month)
  }

  /** The ordinal of a calendar date (`date(year, month, day).toordinal()`). */
  function Ordinal(year: int, month: int, day: int): (d: Day)
    requires ValidDate(year, month, day)
    ensures d >= 1
  {
    DaysBeforeYear(year) + DaysBeforeMonth(year, month) + day
  }

  /** 1 for a leap year, 0 otherwise: the length of February 29 in `year`. */
  function LeapDay(year: int): int {
    if IsLeap(year) then 1 else 0
  }

  /** Consecutive years start 365 days apart, or 366 when the earlier one is a leap year. */
  lemma DaysBeforeYearStep(year: int)
    requires year >= 2
    ensures DaysBeforeYear(year) == DaysBeforeYear(year - 1) + 365 + LeapDay(year - 1)
  {
    var y := year - 1;
    QuotientStep4(y);
    QuotientStep100(y);
    QuotientStep400(y);
    assert y * 365 == (y - 1) * 365 + 365;
  }

  /** Counting multiples: `y / n` goes up by one exactly when `y` is a multiple of `n`. */
  lemma QuotientStep4(y: int)
    ensures y / 4 == (y - 1) / 4 + (if y % 4 == 0 then 1 else 0)
  {
  }

  lemma QuotientStep100(y: int)
    ensures y / 100 == (y - 1) / 100 + (if y % 100 == 0 then 1 else 0)
  {
  }

  lemma QuotientStep400(y: int)
    ensures y / 400 == (y - 1) / 400 + (if y % 400 == 0 then 1 else 0)
  {
  }

  /** Before March the months of any two years have the same length; from March on they differ by the leap days. */
  lemma {:induction false} DaysBeforeMonthShift(year1: int, year2: int, month: int)
    requires 1 <= month <= 12
    ensures DaysBeforeMonth(year1, month) - DaysBeforeMonth(year2, month) ==
            if month >= 3 then LeapDay(year1) - LeapDay(year2) else 0
    decreases month
  {
    if month > 1 {
      DaysBeforeMonthShift(year1, year2, month - 1);
    }
  }

  /** `get_past_monday`: step back `weekday()` days. */
  function PastMonday(target: Day): (m: Day)
    ensures Weekday(m) == Monday
    ensures 0 <= target - m < 7
    ensures target - m == Weekday(target)
  {
    WeekdayShift(target, -Weekday(target));
    target - Weekday(target)
  }

  /** `get_next_friday`: step forward `(4 - weekday()) % 7` days. */
  function NextFriday(start: Day): (f: Day)
    ensures Weekday(f) == Friday
    ensures 0 <= f - start < 7
    ensures f - start == (Friday - Weekday(start)) % 7
  {
    var k := (Friday - Weekday(start)) % 7;
    WeekdayShift(start, k);
    start + k
  }

  /** A Monday is its own past Monday, so `PastMonday` is idempotent. */
  lemma PastMondayIdempotent(d: Day)
    ensures PastMonday(d) == d <==> Weekday(d) == Monday
    ensures PastMonday(PastMonday(d)) == PastMonday(d)
  {
  }

  /** A Friday is its own next Friday. */
  lemma NextFridayFixedPoint(d: Day)
    ensures NextFriday(d) == d <==> Weekday(d) == Friday
    ensures NextFriday(NextFriday(d)) == NextFriday(d)
  {
  }

  /** `PastMonday` is the unique Monday in the week ending at `target`. */
  lemma PastMondayUnique(target: Day, m: Day)
    requires Weekday(m) == Monday && 0 <= target - m < 7
    ensures m == PastMonday(target)
  {
    WeekdayShift(m, target - m);
  }

  /** `NextFriday` is the unique Friday in the week starting at `start`. */
  lemma NextFridayUnique(start: Day, f: Day)
    requires Weekday(f) == Friday && 0 <= f - start < 7
    ensures f == NextFriday(start)
  {
    var w, k := Weekday(start), f - start;
    WeekdayShift(start, k);
    assert (w + k) % 7 == Friday;
    if w <= Friday {
      assert w + k == Friday;
    } else {
      assert w + k == Friday + 7;
    }
  }

  /** The Friday after a past Monday is four days later, as `get_day` composes them. */
  lemma FridayOfMondayWeek(d: Day)
    ensures NextFriday(PastMonday(d)) == PastMonday(d) + 4
  {
  }

  /**
   * The date part of `get_day`: the Monday on or before the day 60 days
   * before `today`, and the Friday of that week. The clock is a parameter.
   */
  function TargetWeek(today: Day): (week: (Day, Day))
    ensures Weekday(week.0) == Monday && Weekday(week.1) == Friday
    ensures week.1 == week.0 + 4
    ensures 60 <= today - week.0 < 67
  {
    var monday := PastMonday(today - 60);
    FridayOfMondayWeek(today - 60);
    (monday, NextFriday(monday))
  }
}
