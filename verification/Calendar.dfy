/**
 * The civil calendar at a fixed offset from UTC, as far as the scheduler uses it: the fields of an
 * instant, and the same date one year on. Instants are seconds since 1970-01-01 in local time.
 */
module Calendar {
  const DAY: int := 86400

  predicate Leap(y: int) {
    y % 4 == 0 && (y % 100 != 0 || y % 400 == 0)
  }

  function YearLength(y: int): int {
    if Leap(y) then 366 else 365
  }

  /** The day number of January 1; that of 1970 is 0. */
  function Jan1(y: int): int {
    var p := y - 1;
    365 * (y - 1970) + p / 4 - p / 100 + p / 400 - 477
  }

  lemma QuotientSteps(y: int, n: int)
    requires n == 4 || n == 100 || n == 400
    ensures y / n - (y - 1) / n == if y % n == 0 then 1 else 0
  {
    if n == 4 {
      assert y == 4 * (y / 4) + y % 4;
    } else if n == 100 {
      assert y == 100 * (y / 100) + y % 100;
    } else {
      assert y == 400 * (y / 400) + y % 400;
    }
  }

  lemma LeapCycle(y: int)
    ensures y % 400 == 0 ==> y % 100 == 0
    ensures y % 100 == 0 ==> y % 4 == 0
  {
    if y % 400 == 0 {
      MultipleOf(y / 400 * 4, 100, y);
    }
    if y % 100 == 0 {
      MultipleOf(y / 100 * 25, 4, y);
    }
  }

  lemma MultipleOf(q: int, n: int, y: int)
    requires n == 4 || n == 100
    requires y == q * n
    ensures y % n == 0
  {
  }

  lemma YearsFollow(y: int)
    ensures Jan1(y + 1) == Jan1(y) + YearLength(y)
  {
    QuotientSteps(y, 4);
    QuotientSteps(y, 100);
    QuotientSteps(y, 400);
    LeapCycle(y);
  }

  /** The days of the year before month `m`; month 13 is the end of the year. */
  function Cum(leap: bool, m: int): int
    requires 1 <= m <= 13
  {
    var days := [0, 31, 59, 90, 120, 151, 181, 212, 243, 273, 304, 334, 365];
    days[m - 1] + if leap && m > 2 then 1 else 0
  }

  function DaysIn(leap: bool, m: int): int
    requires 1 <= m <= 12
  {
    Cum(leap, m + 1) - Cum(leap, m)
  }

  function FindYear(day: int, y: int): (r: int)
    ensures Jan1(r) <= day < Jan1(r + 1)
    decreases if day < Jan1(y) then Jan1(y) - day else if day >= Jan1(y + 1) then day - Jan1(y) else 0
  {
    hide Jan1, Leap;
    YearsFollow(y);
    YearsFollow(y - 1);
    YearsFollow(y + 1);
    if day < Jan1(y) then FindYear(day, y - 1)
    else if day >= Jan1(y + 1) then FindYear(day, y + 1)
    else y
  }

  function FindMonth(leap: bool, ofYear: int, m: int): (r: int)
    requires 1 <= m <= 12 && Cum(leap, m) <= ofYear < Cum(leap, 13)
    ensures m <= r <= 12 && Cum(leap, r) <= ofYear < Cum(leap, r + 1)
    decreases 12 - m
  {
    if m == 12 || ofYear < Cum(leap, m + 1) then m else FindMonth(leap, ofYear, m + 1)
  }

  datatype Date = Date(year: int, month: int, day: int)

  predicate Proper(d: Date) {
    1 <= d.month <= 12 && 1 <= d.day <= DaysIn(Leap(d.year), d.month)
  }

  /** The day number of a date; a day past the end of the month runs into the next one. */
  function DayNumber(d: Date): int
    requires 1 <= d.month <= 12
  {
    Jan1(d.year) + Cum(Leap(d.year), d.month) + d.day - 1
  }

  function DateOf(day: int): (d: Date)
    ensures Proper(d) && DayNumber(d) == day
  {
    var y := FindYear(day, 1970);
    YearsFollow(y);
    var m := FindMonth(Leap(y), day - Jan1(y), 1);
    Date(y, m, day - Jan1(y) - Cum(Leap(y), m) + 1)
  }

  lemma CumIncreases(leap: bool, a: int, b: int)
    requires 1 <= a < b <= 13
    ensures Cum(leap, a) + 28 <= Cum(leap, b)
  {
  }

  lemma {:induction false} YearsIncrease(y: int, z: int)
    requires y <= z
    ensures Jan1(y) <= Jan1(z)
    decreases z - y
  {
    if y < z {
      hide Jan1;
      YearsFollow(y);
      YearsIncrease(y + 1, z);
    }
  }

  lemma SameYear(d: Date, e: Date)
    requires Proper(d) && Proper(e) && DayNumber(d) == DayNumber(e)
    ensures d.year == e.year
  {
    hide Jan1, DayNumber, Proper, Leap;
    YearsFollow(d.year);
    YearsFollow(e.year);
    WithinYear(d);
    WithinYear(e);
    if d.year < e.year {
      YearsIncrease(d.year + 1, e.year);
    } else if e.year < d.year {
      YearsIncrease(e.year + 1, d.year);
    }
  }

  /** Each day has one date: reading a day number back gives the date it was made from. */
  lemma DateRoundTrip(d: Date)
    requires Proper(d)
    ensures DateOf(DayNumber(d)) == d
  {
    hide Jan1, Cum, Leap, DateOf;
    var e := DateOf(DayNumber(d));
    SameYear(d, e);
    if d.month < e.month {
      MonthsIncrease(Leap(d.year), d.month + 1, e.month);
    } else if e.month < d.month {
      MonthsIncrease(Leap(d.year), e.month + 1, d.month);
    }
  }

  lemma MonthsIncrease(leap: bool, a: int, b: int)
    requires 1 <= a <= b <= 13
    ensures Cum(leap, a) <= Cum(leap, b)
  {
    if a < b {
      CumIncreases(leap, a, b);
    }
  }

  lemma WithinYear(d: Date)
    requires Proper(d)
    ensures Jan1(d.year) <= DayNumber(d) < Jan1(d.year) + YearLength(d.year)
  {
    MonthsIncrease(Leap(d.year), d.month + 1, 13);
    MonthsIncrease(Leap(d.year), 1, d.month);
    hide Jan1;
  }

  /** Sunday is 0; the epoch was a Thursday. */
  function Weekday(day: int): int {
    (day + 4) % 7
  }

  lemma Instant(day: int, time: int)
    requires 0 <= time < DAY
    ensures (day * DAY + time) / DAY == day && (day * DAY + time) % DAY == time
  {
  }

  /** AddDate(1, 0, 0): February 29 becomes March 1. */
  function YearLater(t: int): int {
    var d := DateOf(t / DAY);
    DayNumber(d.(year := d.year + 1)) * DAY + t % DAY
  }

  lemma YearLaterSpan(t: int)
    ensures 365 * DAY <= YearLater(t) - t <= 366 * DAY
  {
    var d := DateOf(t / DAY);
    YearsFollow(d.year);
    hide Jan1;
  }

  /** The same time of day on the same date of the next year; after February 29 it is March 1. */
  lemma YearLaterDate(t: int)
    ensures var d, e := DateOf(t / DAY), DateOf(YearLater(t) / DAY);
      && YearLater(t) % DAY == t % DAY
      && e == if d.month == 2 && d.day == 29 then Date(d.year + 1, 3, 1) else d.(year := d.year + 1)
  {
    hide Jan1, DateOf;
    var d := DateOf(t / DAY);
    var e := if d.month == 2 && d.day == 29 then Date(d.year + 1, 3, 1) else d.(year := d.year + 1);
    assert Proper(e) && DayNumber(e) == DayNumber(d.(year := d.year + 1));
    DateRoundTrip(e);
    Instant(DayNumber(e), t % DAY);
  }
}
