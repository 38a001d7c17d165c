/** Calendar arithmetic as JavaScript's `Date` performs it in UTC.
    A day number counts days from 1970-01-01; a timestamp counts milliseconds
    from 1970-01-01T00:00:00Z, so day number `d` begins at `d * MsPerDay`. */
module CivilDates {

  /** `1000 * 60 * 60 * 24`. */
  const MsPerDay: int := 86400000

  /** A year, a month 1..12 and a day of the month, as a `YYYY-MM-DD` column holds it. */
  datatype CivilDate = CivilDate(year: int, month: int, day: int)

  predicate IsLeapYear(y: int)
  {
    y % 4 == 0 && (y % 100 != 0 || y % 400 == 0)
  }

  function DaysInMonth(y: int, m: int): int
    requires 1 <= m <= 12
  {
    if m == 2 then (if IsLeapYear(y) then 29 else 28)
    else if m == 4 || m == 6 || m == 9 || m == 11 then 30
    else 31
  }

  predicate ValidDate(d: CivilDate)
  {
    1 <= d.month <= 12 && 1 <= d.day <= DaysInMonth(d.year, d.month)
  }

  /** The number of leap years in 1..y (negative below year 1, so that differences still count). */
  function LeapsThrough(y: int): int
  {
    y / 4 - y / 100 + y / 400
  }

  /** Days from 1970-01-01 to the first of January of year `y`. */
  function DaysBeforeYear(y: int): int
  {
    365 * (y - 1970) + LeapsThrough(y - 1) - LeapsThrough(1969)
  }

  /** Days from the first of January to the first of month `m` of year `y`. */
  function DaysBeforeMonth(y: int, m: int): int
    requires 1 <= m <= 12
  {
    if m == 1 then 0 else DaysBeforeMonth(y, m - 1) + DaysInMonth(y, m - 1)
  }

  /** The day number of day `d` of month `m` of year `y`. As in the `MakeDay`
      step of JavaScript's `Date`, `d` may exceed the month's length: the
      surplus days run on into the following months. */
  function DayNumber(y: int, m: int, d: int): int
    requires 1 <= m <= 12
  {
    DaysBeforeYear(y) + DaysBeforeMonth(y, m) + d - 1
  }

  function DayNumberOf(d: CivilDate): int
    requires 1 <= d.month <= 12
  {
    DayNumber(d.year, d.month, d.day)
  }

  /** Stepping back one from `y` lowers `y / d` exactly when `d` divides `y`. */
  lemma DivStep(y: int, d: int)
    requires d == 4 || d == 100 || d == 400
    ensures (y - 1) / d == if y % d == 0 then y / d - 1 else y / d
  {
    if d == 4 {
      assert y == 4 * (y / 4) + y % 4;
    } else if d == 100 {
      assert y == 100 * (y / 100) + y % 100;
    } else {
      assert y == 400 * (y / 400) + y % 400;
    }
  }

  /** A multiple of `d * e` is a multiple of `d`. */
  lemma MultipleOfFactor(y: int, d: int, e: int)
    requires d > 0 && e > 0
    requires y % (d * e) == 0
    ensures y % d == 0
  {
    var q := y / (d * e);
    assert y == (d * e) * q;
    assert y == d * (e * q);
  }

  /** Leap years are counted one at a time. */
  lemma LeapStep(y: int)
    ensures LeapsThrough(y) - LeapsThrough(y - 1) == if IsLeapYear(y) then 1 else 0
  {
    DivStep(y, 4);
    DivStep(y, 100);
    DivStep(y, 400);
    if y % 400 == 0 {
      MultipleOfFactor(y, 100, 4);
    }
    if y % 100 == 0 {
      MultipleOfFactor(y, 4, 25);
    }
  }

  /** A year has 366 days when it is a leap year and 365 otherwise. */
  lemma YearLength(y: int)
    ensures DayNumber(y + 1, 1, 1) - DayNumber(y, 1, 1) == if IsLeapYear(y) then 366 else 365
  {
    LeapStep(y);
  }

  /** December begins 334 days into the year, one day later in a leap year. */
  lemma DecemberStart(y: int)
    ensures DaysBeforeMonth(y, 12) == 334 + if IsLeapYear(y) then 1 else 0
  {
    var leap := if IsLeapYear(y) then 1 else 0;
    assert DaysBeforeMonth(y, 2) == 31;
    assert DaysBeforeMonth(y, 3) == 59 + leap;
    assert DaysBeforeMonth(y, 4) == 90 + leap;
    assert DaysBeforeMonth(y, 5) == 120 + leap;
    assert DaysBeforeMonth(y, 6) == 151 + leap;
    assert DaysBeforeMonth(y, 7) == 181 + leap;
    assert DaysBeforeMonth(y, 8) == 212 + leap;
    assert DaysBeforeMonth(y, 9) == 243 + leap;
    assert DaysBeforeMonth(y, 10) == 273 + leap;
    assert DaysBeforeMonth(y, 11) == 304 + leap;
  }

  /** Consecutive firsts of the month lie one month length apart. */
  lemma MonthLength(y: int, m: int)
    requires 1 <= m <= 12
    ensures m < 12 ==> DayNumber(y, m + 1, 1) - DayNumber(y, m, 1) == DaysInMonth(y, m)
    ensures m == 12 ==> DayNumber(y + 1, 1, 1) - DayNumber(y, 12, 1) == DaysInMonth(y, 12)
  {
    if m == 12 {
      YearLength(y);
      DecemberStart(y);
    }
  }

  /** The first day of the month with absolute index `k = 12 * year + (month - 1)`. */
  function FirstOfMonth(k: int): int
  {
    DayNumber(k / 12, k % 12 + 1, 1)
  }

  lemma FirstOfMonthStep(k: int)
    ensures FirstOfMonth(k + 1) - FirstOfMonth(k) == DaysInMonth(k / 12, k % 12 + 1)
    ensures FirstOfMonth(k + 1) - FirstOfMonth(k) >= 28
  {
    var y, m := k / 12, k % 12 + 1;
    MonthLength(y, m);
    if m < 12 {
      assert (k + 1) / 12 == y && (k + 1) % 12 + 1 == m + 1;
    } else {
      assert (k + 1) / 12 == y + 1 && (k + 1) % 12 + 1 == 1;
    }
  }

  /** A sequence of values that rises by at least 28 at every step rises by 28 per step overall. */
  lemma {:induction false} StepsAccumulate(f: int -> int, k: int, k': int)
    requires forall j :: f(j + 1) - f(j) >= 28
    requires k < k'
    ensures f(k') - f(k) >= 28 * (k' - k)
    decreases k' - k
  {
    assert f(k') - f(k' - 1) >= 28;
    if k < k' - 1 {
      StepsAccumulate(f, k, k' - 1);
    }
  }

  /** Firsts of the month strictly increase, by at least 28 days a month. */
  lemma FirstOfMonthIncreasing(k: int, k': int)
    requires k < k'
    ensures FirstOfMonth(k') - FirstOfMonth(k) >= 28 * (k' - k)
  {
    forall j ensures FirstOfMonth(j + 1) - FirstOfMonth(j) >= 28 {
      FirstOfMonthStep(j);
    }
    StepsAccumulate(FirstOfMonth, k, k');
  }

  /** `scheduledDate.setMonth(scheduledDate.getMonth() + n)` on a date at UTC
      midnight, read back as a day number. The month index wraps into the
      year, and the day of the month is kept even when the target month is
      shorter, so the surplus rolls into the next month and is not clamped. */
  function AddMonths(b: CivilDate, n: int): int
    requires 1 <= b.month <= 12
  {
    var m := b.month - 1 + n;
    DayNumber(b.year + m / 12, m % 12 + 1, b.day)
  }

  /** The result is the given day counted from the first of the target month. */
  lemma AddMonthsFromFirst(b: CivilDate, n: int)
    requires 1 <= b.month <= 12
    ensures AddMonths(b, n) == FirstOfMonth(12 * b.year + b.month - 1 + n) + b.day - 1
  {
    var m := b.month - 1 + n;
    assert (12 * b.year + m) / 12 == b.year + m / 12 && (12 * b.year + m) % 12 == m % 12;
  }

  /** More months always give a strictly later date. */
  lemma AddMonthsIncreasing(b: CivilDate, n: int, n': int)
    requires 1 <= b.month <= 12
    requires n < n'
    ensures AddMonths(b, n) < AddMonths(b, n')
  {
    AddMonthsFromFirst(b, n);
    AddMonthsFromFirst(b, n');
    FirstOfMonthIncreasing(12 * b.year + b.month - 1 + n, 12 * b.year + b.month - 1 + n');
  }

  /** Adding zero months gives the date itself. */
  lemma AddZeroMonths(b: CivilDate)
    requires 1 <= b.month <= 12
    ensures AddMonths(b, 0) == DayNumberOf(b)
  {
    assert (b.month - 1) / 12 == 0 && (b.month - 1) % 12 == b.month - 1;
  }

  /** When the day of the month fits into the target month, the result is that day of that month. */
  lemma AddMonthsFits(b: CivilDate, n: int)
    requires ValidDate(b)
    ensures var m := b.month - 1 + n;
            var t := CivilDate(b.year + m / 12, m % 12 + 1, b.day);
            b.day <= DaysInMonth(t.year, t.month) ==> ValidDate(t) && AddMonths(b, n) == DayNumberOf(t)
  {
  }

  /** When it does not fit, the surplus days land in the month after the target month. */
  lemma AddMonthsRollsOver(b: CivilDate, n: int)
    requires ValidDate(b)
    ensures var m := b.month - 1 + n;
            var ty, tm := b.year + m / 12, m % 12 + 1;
            var next := if tm == 12 then CivilDate(ty + 1, 1, b.day - DaysInMonth(ty, tm))
                        else CivilDate(ty, tm + 1, b.day - DaysInMonth(ty, tm));
            b.day > DaysInMonth(ty, tm) ==> ValidDate(next) && AddMonths(b, n) == DayNumberOf(next)
  {
    var m := b.month - 1 + n;
    var ty, tm := b.year + m / 12, m % 12 + 1;
    MonthLength(ty, tm);
  }

  /** 31 January 2023 plus one month is 3 March 2023; in the leap year 2024 it is 2 March. */
  lemma JanuaryThirtyFirstPlusOneMonth()
    ensures AddMonths(CivilDate(2023, 1, 31), 1) == DayNumber(2023, 3, 3)
    ensures AddMonths(CivilDate(2024, 1, 31), 1) == DayNumber(2024, 3, 2)
  {
    AddMonthsRollsOver(CivilDate(2023, 1, 31), 1);
    AddMonthsRollsOver(CivilDate(2024, 1, 31), 1);
  }

  /** The timestamp of UTC midnight that starts day number `d`. */
  function DayStart(d: int): int
  {
    d * MsPerDay
  }

  /** `Math.ceil(a / b)` for a positive divisor. */
  function CeilDiv(a: int, b: int): (r: int)
    requires b > 0
    ensures b * (r - 1) < a <= b * r
  {
    -((-a) / b)
  }

  /** `Math.floor(a / b)` for a positive divisor (Dafny's `/` already rounds down there). */
  function FloorDiv(a: int, b: int): (r: int)
    requires b > 0
    ensures b * r <= a < b * (r + 1)
  {
    a / b
  }

  /** `today.setHours(0, 0, 0, 0)`: the timestamp of the start of the day containing `now`. */
  function StartOfDay(now: int): (r: int)
    ensures r <= now < r + MsPerDay
    ensures r % MsPerDay == 0
  {
    FloorDiv(now, MsPerDay) * MsPerDay
  }

  /** `today.setHours(23, 59, 59, 999)`: the last millisecond of the day containing `now`. */
  function EndOfDay(now: int): (r: int)
    ensures now <= r < now + MsPerDay
    ensures (r + 1) % MsPerDay == 0
  {
    StartOfDay(now) + MsPerDay - 1
  }
}
