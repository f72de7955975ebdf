/** When a cron schedule fires next (internal/scheduler/scheduler.go). */
module Cron {
  import opened Calendar
  import opened CronFields
  import opened Options

  datatype Expr = Expr(
    second: set<int>, minute: set<int>, hour: set<int>, dom: set<int>, month: set<int>, dow: set<int>,
    domAny: bool, dowAny: bool)

  function Min(i: nat): int {
    if i == 3 || i == 4 then 1 else 0
  }

  function Max(i: nat): (r: int)
    ensures r <= 59
  {
    if i < 2 then 59 else if i == 2 then 23 else if i == 3 then 31 else if i == 4 then 12 else 6
  }

  predicate Reaches(field: set<int>, min: int, max: int) {
    exists x :: x in field && min <= x <= max
  }

  /** Five fields mean second 0; a day field is unrestricted only if it is exactly a star. */
  function FieldsOf(raw: string): (parts: seq<string>) {
    var parts := Words(raw);
    if |parts| == 5 then ["0"] + parts else parts
  }

  function Ranges(part: string, i: nat): (r: Option<seq<Range>>)
    ensures r.Some? ==> Bounded(r.value, Min(i), Max(i)) && r.value != []
  {
    ParseTokens(Split(part, ','), Min(i), Max(i))
  }

  /** What the field at position `i` selects, if it is accepted. */
  function FieldAt(part: string, i: nat): Option<set<int>> {
    var ranges := Ranges(part, i);
    if ranges.None? then None else Some(VisitedAll(ranges.value))
  }

  lemma FieldAtIs(part: string, i: nat)
    ensures FieldAt(part, i) ==
      var ranges := ParseTokens(Split(part, ','), Min(i), Max(i));
      if ranges.None? then None else Some(VisitedAll(ranges.value))
  {
  }

  lemma FieldReaches(part: string, i: nat)
    requires FieldAt(part, i).Some?
    ensures Reaches(FieldAt(part, i).value, Min(i), Max(i))
  {
    FieldDenotes(Ranges(part, i).value, Min(i), Max(i));
    hide VisitedAll;
    var x :| x in FieldAt(part, i).value && Min(i) <= x <= Max(i);
  }

  /** The whole expression, if it is accepted. */
  function ParseExpr(raw: string): Option<Expr> {
    var p := FieldsOf(raw);
    if |p| != 6 || (exists i :: 0 <= i < 6 && FieldAt(p[i], i).None?) then None
    else
      Some(Expr(FieldAt(p[0], 0).value, FieldAt(p[1], 1).value, FieldAt(p[2], 2).value, FieldAt(p[3], 3).value,
                FieldAt(p[4], 4).value, FieldAt(p[5], 5).value, p[3] == "*", p[5] == "*"))
  }

  method ParseCron(raw: string) returns (e: Option<Expr>)
    ensures e == ParseExpr(raw)
    ensures e.Some? <==> |FieldsOf(raw)| == 6 && forall i :: 0 <= i < 6 ==> FieldAt(FieldsOf(raw)[i], i).Some?
    ensures e.Some? ==>
      var p := FieldsOf(raw);
      && FieldAt(p[0], 0) == Some(e.value.second) && FieldAt(p[1], 1) == Some(e.value.minute)
      && FieldAt(p[2], 2) == Some(e.value.hour) && FieldAt(p[3], 3) == Some(e.value.dom)
      && FieldAt(p[4], 4) == Some(e.value.month) && FieldAt(p[5], 5) == Some(e.value.dow)
      && e.value.domAny == (p[3] == "*") && e.value.dowAny == (p[5] == "*")
    ensures e.Some? ==> Usable(e.value)
  {
    hide FieldAt, Reaches, Words, ParseTokens, Split, VisitedAll, Ranges;
    var parts := Words(raw);
    if |parts| == 5 {
      parts := ["0"] + parts;
    }
    if |parts| != 6 {
      return None;
    }
    var fields: seq<set<int>> := [];
    for i := 0 to 6
      invariant |fields| == i
      invariant forall j :: 0 <= j < i ==> FieldAt(parts[j], j) == Some(fields[j]) && Reaches(fields[j], Min(j), Max(j))
    {
      var field := ParseField(parts[i], Min(i), Max(i));
      FieldAtIs(parts[i], i);
      if field.None? {
        return None;
      }
      FieldReaches(parts[i], i);
      fields := fields + [field.value];
    }
    return Some(Expr(fields[0], fields[1], fields[2], fields[3], fields[4], fields[5], parts[3] == "*", parts[5] == "*"));
  }

  /** Every accepted expression has a proper time of day, month and weekday. */
  predicate Usable(e: Expr) {
    && Reaches(e.second, 0, 59) && Reaches(e.minute, 0, 59) && Reaches(e.hour, 0, 23)
    && Reaches(e.month, 1, 12) && Reaches(e.dow, 0, 6)
  }

  /** With both day fields restricted either one will do. */
  predicate DayMatches(e: Expr, day: int, weekday: int) {
    if e.domAny && e.dowAny then true
    else if e.domAny then weekday in e.dow
    else if e.dowAny then day in e.dom
    else day in e.dom || weekday in e.dow
  }

  predicate Matches(e: Expr, t: int) {
    var d := DateOf(t / DAY);
    && t % 60 in e.second && t / 60 % 60 in e.minute && t / 3600 % 24 in e.hour && d.month in e.month
    && DayMatches(e, d.day, Weekday(t / DAY))
  }

  /** Whether the schedule runs at a time of day on a date, told from the fields of a clock and a calendar. */
  predicate Chosen(e: Expr, d: Date, weekday: int, h: int, m: int, s: int) {
    && s in e.second && m in e.minute && h in e.hour && d.month in e.month
    && (e.domAny || d.day in e.dom || (!e.dowAny && weekday in e.dow))
    && (e.dowAny || weekday in e.dow || (!e.domAny && d.day in e.dom))
  }

  const NANO: int := 1_000_000_000

  /** The first second strictly after a moment given in nanoseconds. */
  function SecondAfter(now: int): int {
    now / NANO + 1
  }

  /** The search returns the first match up to the limit, and otherwise the limit. */
  ghost predicate IsNext(e: Expr, now: int, r: int) {
    var t, limit := SecondAfter(now), YearLater(SecondAfter(now));
    && t <= r <= limit
    && (forall u :: t <= u < r ==> !Matches(e, u))
    && (r < limit ==> Matches(e, r))
  }

  method Next(e: Expr, now: int) returns (r: int)
    ensures IsNext(e, now, r)
  {
    hide Matches;
    var t := SecondAfter(now);
    var limit := YearLater(t);
    YearLaterSpan(t);
    r := t;
    while r <= limit
      invariant t <= r <= limit + 1
      invariant forall u :: t <= u < r ==> !Matches(e, u)
    {
      if Matches(e, r) {
        return r;
      }
      r := r + 1;
    }
    return limit;
  }

  /**
   * What `next` promises and what it does not: the result is determined, strictly after now, within 365 or
   * 366 days and a second; it matches if and only if anything up to the limit does, and then it is the
   * least match after now.
   */
  lemma NextIsLeastMatch(e: Expr, now: int, r: int)
    requires IsNext(e, now, r)
    ensures now < r * NANO <= now + (366 * DAY + 1) * NANO
    ensures Matches(e, r) <==> exists u :: now < u * NANO && u <= YearLater(SecondAfter(now)) && Matches(e, u)
    ensures Matches(e, r) ==> forall u :: now < u * NANO && Matches(e, u) ==> r <= u
    ensures !Matches(e, r) ==> r == YearLater(SecondAfter(now))
    ensures forall s :: IsNext(e, now, s) ==> s == r
  {
    hide Matches, YearLater;
    var t := SecondAfter(now);
    YearLaterSpan(t);
    forall u
      ensures now < u * NANO <==> t <= u
    {
    }
    forall s | IsNext(e, now, s)
      ensures s == r
    {
      assert s < r ==> !Matches(e, s);
      assert r < s ==> !Matches(e, r);
    }
  }

  // ---- which schedules always fire on time ---------------------------------------------------

  lemma TimeOfDay(t: int, h: int, m: int, s: int)
    requires 0 <= h <= 23 && 0 <= m <= 59 && 0 <= s <= 59
    requires t % DAY == h * 3600 + m * 60 + s
    ensures t % 60 == s && t / 60 % 60 == m && t / 3600 % 24 == h
  {
    var q := t / DAY;
    assert t == q * DAY + h * 3600 + m * 60 + s;
    assert t / 60 == q * 1440 + h * 60 + m;
    assert t / 3600 == q * 24 + h;
  }

  lemma InstantFields(n: int, h: int, m: int, s: int)
    requires 0 <= h <= 23 && 0 <= m <= 59 && 0 <= s <= 59
    ensures var t := n * DAY + h * 3600 + m * 60 + s;
      t / DAY == n && t % 60 == s && t / 60 % 60 == m && t / 3600 % 24 == h
  {
    var t := n * DAY + h * 3600 + m * 60 + s;
    Instant(n, h * 3600 + m * 60 + s);
    assert t == n * DAY + (h * 3600 + m * 60 + s);
    TimeOfDay(t, h, m, s);
  }

  /** The rule for days at every moment of every date: a star asks nothing, two restricted fields ask for either. */
  lemma MatchesTheClock(e: Expr, d: Date, h: int, m: int, s: int)
    requires Proper(d) && 0 <= h <= 23 && 0 <= m <= 59 && 0 <= s <= 59
    ensures Matches(e, DayNumber(d) * DAY + h * 3600 + m * 60 + s) <==> Chosen(e, d, Weekday(DayNumber(d)), h, m, s)
  {
    InstantFields(DayNumber(d), h, m, s);
    DateRoundTrip(d);
    hide DayNumber, Proper, DateOf, Weekday;
  }

  /** Weekdays follow one another, and the calendar starts on a Thursday. */
  lemma WeekdaysFollow(day: int)
    ensures DayNumber(Date(1970, 1, 1)) == 0 && Weekday(0) == 4
    ensures 0 <= Weekday(day) <= 6 && Weekday(day + 1) == (if Weekday(day) == 6 then 0 else Weekday(day) + 1)
  {
  }

  /** The schedule with one of its day fields alone. */
  function DatesAlone(e: Expr): Expr {
    e.(dowAny := true)
  }

  function WeekdaysAlone(e: Expr): Expr {
    e.(domAny := true)
  }

  lemma EitherMatches(e: Expr, t: int)
    requires !e.domAny && !e.dowAny
    ensures Matches(e, t) <==> Matches(DatesAlone(e), t) || Matches(WeekdaysAlone(e), t)
  {
    hide DateOf, Weekday;
  }

  /** With both day fields restricted the next time is the earlier one of those that either field gives alone. */
  lemma EarlierOfTheTwo(e: Expr, now: int, byDate: int, byWeekday: int)
    requires !e.domAny && !e.dowAny
    requires IsNext(DatesAlone(e), now, byDate) && IsNext(WeekdaysAlone(e), now, byWeekday)
    ensures IsNext(e, now, if byDate <= byWeekday then byDate else byWeekday)
  {
    hide Matches, YearLater, DatesAlone, WeekdaysAlone;
    forall t
      ensures Matches(e, t) <==> Matches(DatesAlone(e), t) || Matches(WeekdaysAlone(e), t)
    {
      EitherMatches(e, t);
    }
  }

  lemma CompareDates(a: Date, b: Date)
    requires Proper(a) && Proper(b) && a.year == b.year
    ensures DayNumber(a) <= DayNumber(b) <==> a.month < b.month || (a.month == b.month && a.day <= b.day)
  {
    hide Jan1;
    if a.month < b.month {
      MonthsIncrease(Leap(a.year), a.month + 1, b.month);
    } else if b.month < a.month {
      MonthsIncrease(Leap(a.year), b.month + 1, a.month);
    }
  }

  /** A date in the year of `t` that is past comes, in the next year, no later than the limit. */
  lemma PastDateComesAgain(d: Date, month: int, day: int)
    requires Proper(d) && 1 <= month <= 12 && 1 <= day <= DaysIn(false, month)
    requires month < d.month || (month == d.month && day <= d.day)
    ensures DayNumber(Date(d.year + 1, month, day)) <= DayNumber(d.(year := d.year + 1))
    ensures month < d.month || day < d.day ==>
      DayNumber(Date(d.year + 1, month, day)) < DayNumber(d.(year := d.year + 1))
  {
    hide Jan1;
    if month < d.month {
      MonthsIncrease(Leap(d.year + 1), month + 1, d.month);
    }
  }

  /** Dates of this year come before the limit, and dates of the next year after now. */
  lemma YearBounds(d: Date, a: Date)
    requires Proper(d) && Proper(a)
    ensures a.year == d.year ==> DayNumber(a) < DayNumber(d.(year := d.year + 1))
    ensures a.year == d.year + 1 ==> DayNumber(d) < DayNumber(a)
  {
    YearsFollow(d.year);
    WithinYear(a);
    WithinYear(d);
    hide Jan1;
  }

  lemma ProperEveryYear(year: int, month: int, day: int)
    requires 1 <= month <= 12 && 1 <= day <= DaysIn(false, month)
    ensures Proper(Date(year, month, day))
  {
  }

  /** A date, this year and next, against now and the limit. */
  lemma DateThisYearOrNext(d: Date, a: Date)
    requires Proper(d) && Proper(a) && a.year == d.year && a.day <= DaysIn(false, a.month)
    ensures var b, limit := a.(year := d.year + 1), d.(year := d.year + 1);
      && DayNumber(a) < DayNumber(limit) && DayNumber(d) < DayNumber(b)
      && (DayNumber(a) <= DayNumber(d) ==> DayNumber(b) <= DayNumber(limit))
      && (DayNumber(a) < DayNumber(d) ==> DayNumber(b) < DayNumber(limit))
  {
    hide Jan1;
    ProperEveryYear(d.year + 1, a.month, a.day);
    YearBounds(d, a);
    YearBounds(d, a.(year := d.year + 1));
    CompareDates(a, d);
    CompareDates(d, a);
    if DayNumber(a) <= DayNumber(d) {
      PastDateComesAgain(d, a.month, a.day);
    }
  }

  /** Within the year each date that is not February 29 comes up, at every time of the day. */
  lemma DateComesUp(t: int, month: int, day: int, time: int) returns (u: int)
    requires 1 <= month <= 12 && 1 <= day <= DaysIn(false, month) && 0 <= time < DAY
    ensures t <= u <= YearLater(t) && u % DAY == time
    ensures DateOf(u / DAY).month == month && DateOf(u / DAY).day == day
  {
    hide Jan1, Cum, DayNumber, DateOf, DaysIn;
    var d := DateOf(t / DAY);
    var a, b := Date(d.year, month, day), Date(d.year + 1, month, day);
    ProperEveryYear(d.year, month, day);
    ProperEveryYear(d.year + 1, month, day);
    DateThisYearOrNext(d, a);
    DateRoundTrip(a);
    DateRoundTrip(b);
    hide Proper;
    var n := if DayNumber(a) < t / DAY || (DayNumber(a) == t / DAY && time < t % DAY) then DayNumber(b) else DayNumber(a);
    u := n * DAY + time;
    Instant(n, time);
  }

  lemma WeekdayFrom(day: int, weekday: int) returns (k: int)
    requires 0 <= weekday <= 6
    ensures 0 <= k <= 6 && Weekday(day + k) == weekday
  {
    k := (weekday - Weekday(day)) % 7;
  }

  lemma LaterInTheMonth(d: Date, k: int)
    requires Proper(d) && d.day + k <= 28 && k >= 0
    ensures var a := d.(day := d.day + k);
      && Proper(a) && DayNumber(a) == DayNumber(d) + k
      && DateOf(DayNumber(a)) == a && DayNumber(a) < DayNumber(d.(year := d.year + 1))
  {
    var a := d.(day := d.day + k);
    assert DaysIn(false, d.month) >= 28;
    ProperEveryYear(d.year, d.month, a.day);
    YearBounds(d, a);
    DateRoundTrip(a);
  }

  /** The first week of a month that is still to come, this year or next. */
  lemma FirstWeek(d: Date, month: int, k: int)
    requires Proper(d) && 1 <= month <= 12 && 0 <= k <= 6 && (month == d.month ==> d.day > 21)
    ensures var a := Date(if month > d.month then d.year else d.year + 1, month, 1 + k);
      && DayNumber(a) == DayNumber(a.(day := 1)) + k && DateOf(DayNumber(a)) == a
      && DayNumber(d) < DayNumber(a) < DayNumber(d.(year := d.year + 1))
  {
    var a := Date(if month > d.month then d.year else d.year + 1, month, 1 + k);
    assert DaysIn(false, month) >= 28;
    ProperEveryYear(a.year, month, 1 + k);
    YearBounds(d, a);
    DateRoundTrip(a);
    if a.year == d.year {
      CompareDates(a, d);
    } else {
      PastDateComesAgain(d, month, 1 + k);
    }
  }

  /** Within the year each weekday comes up in each month, at every time of the day. */
  lemma WeekdayComesUp(t: int, month: int, weekday: int, time: int) returns (u: int)
    requires 1 <= month <= 12 && 0 <= weekday <= 6 && 0 <= time < DAY
    ensures t <= u <= YearLater(t) && u % DAY == time
    ensures DateOf(u / DAY).month == month && Weekday(u / DAY) == weekday
  {
    hide Jan1, Cum, DayNumber, DateOf, Weekday, Proper;
    var d := DateOf(t / DAY);
    if month == d.month && d.day <= 21 {
      var k := WeekdayFrom(DayNumber(d) + 1, weekday);
      LaterInTheMonth(d, k + 1);
      u := (t / DAY + k + 1) * DAY + time;
      Instant(t / DAY + k + 1, time);
    } else {
      var year := if month > d.month then d.year else d.year + 1;
      var k := WeekdayFrom(DayNumber(Date(year, month, 1)), weekday);
      FirstWeek(d, month, k);
      u := DayNumber(Date(year, month, 1 + k)) * DAY + time;
      Instant(DayNumber(Date(year, month, 1 + k)), time);
    }
  }

  /**
   * The schedule fires in every year: either weekdays decide (alone or together with dates), or all days
   * will do, or one of the selected dates exists in common years.
   */
  predicate EveryYear(e: Expr) {
    exists m :: 1 <= m <= 12 && m in e.month &&
      (e.domAny || !e.dowAny || exists d :: 1 <= d <= DaysIn(false, m) && d in e.dom)
  }

  lemma MatchComesUp(e: Expr, t: int) returns (u: int)
    requires Usable(e) && EveryYear(e)
    ensures t <= u <= YearLater(t) && Matches(e, u)
  {
    hide DateOf, YearLater, Weekday;
    var s :| s in e.second && 0 <= s <= 59;
    var mi :| mi in e.minute && 0 <= mi <= 59;
    var h :| h in e.hour && 0 <= h <= 23;
    var m :| 1 <= m <= 12 && m in e.month &&
      (e.domAny || !e.dowAny || exists d :: 1 <= d <= DaysIn(false, m) && d in e.dom);
    var time := h * 3600 + mi * 60 + s;
    if !e.dowAny {
      var w :| w in e.dow && 0 <= w <= 6;
      u := WeekdayComesUp(t, m, w, time);
    } else {
      var day := 1;
      if !e.domAny {
        day :| 1 <= day <= DaysIn(false, m) && day in e.dom;
      } else {
        assert DaysIn(false, m) >= 28;
      }
      u := DateComesUp(t, m, day, time);
    }
    TimeOfDay(u, h, mi, s);
  }

  const NEW_YEAR_2022: int := Jan1(2022) * DAY

  lemma TheYear2022()
    ensures YearLater(NEW_YEAR_2022) == Jan1(2023) * DAY
  {
    hide Jan1, DateOf;
    var d := Date(2022, 1, 1);
    assert Proper(d) && DayNumber(d) == Jan1(2022) && DayNumber(d.(year := 2023)) == Jan1(2023);
    DateRoundTrip(d);
    hide DayNumber;
    assert NEW_YEAR_2022 / DAY == Jan1(2022) && NEW_YEAR_2022 % DAY == 0;
  }

  lemma YearIn2022(day: int)
    requires Jan1(2022) <= day <= Jan1(2023)
    ensures !Leap(DateOf(day).year)
  {
    YearsFollow(2023);
    hide Jan1;
    var d := DateOf(day);
    WithinYear(d);
    YearsFollow(d.year);
    if d.year < 2022 {
      YearsIncrease(d.year + 1, 2022);
    } else if d.year > 2023 {
      YearsIncrease(2024, d.year);
    }
    assert d.year == 2022 || d.year == 2023;
  }

  lemma NoMatchIn2022(e: Expr, t: int)
    requires NEW_YEAR_2022 <= t <= Jan1(2023) * DAY && Matches(e, t)
    ensures EveryYear(e)
  {
    YearIn2022(t / DAY);
    hide Jan1, Cum, DayNumber, DateOf, Weekday;
    var d := DateOf(t / DAY);
    assert Proper(d);
  }

  /**
   * Exactly which accepted schedules always fire at a matching time: those that fire in every year. Any
   * other one, say for February 30, is at times woken at the limit, on a date it does not select.
   */
  lemma AlwaysOnTime(e: Expr)
    requires Usable(e)
    ensures (forall now, r :: IsNext(e, now, r) ==> Matches(e, r)) <==> EveryYear(e)
  {
    hide Matches, YearLater, Usable, EveryYear;
    if EveryYear(e) {
      forall now, r | IsNext(e, now, r)
        ensures Matches(e, r)
      {
        var u := MatchComesUp(e, SecondAfter(now));
      }
    } else {
      var now := (NEW_YEAR_2022 - 1) * NANO;
      assert SecondAfter(now) == NEW_YEAR_2022;
      YearLaterSpan(NEW_YEAR_2022);
      TheYear2022();
      forall t | NEW_YEAR_2022 <= t <= YearLater(NEW_YEAR_2022)
        ensures !Matches(e, t)
      {
        if Matches(e, t) {
          NoMatchIn2022(e, t);
        }
      }
      assert IsNext(e, now, YearLater(NEW_YEAR_2022));
      assert !Matches(e, YearLater(NEW_YEAR_2022));
    }
  }

  const FEBRUARY_30: string := "0 0 30 2 *"

  const IMPOSSIBLE: Expr := Expr({0}, {0}, {0}, {30}, {2}, FieldAt("*", 5).value, false, true)

  lemma LastWords()
    ensures Words("30 2 *") == ["30", "2", "*"]
  {
    hide Words;
    assert "30 2 *" == "30" + " " + "2 *" && "2 *" == "2" + " " + "*";
    WordsFirst("30", "2 *");
    WordsFirst("2", "*");
    WordsLast("*");
  }

  lemma ImpossibleWords()
    ensures FieldsOf(FEBRUARY_30) == ["0", "0", "0", "30", "2", "*"]
  {
    hide Words;
    LastWords();
    assert FEBRUARY_30 == "0" + " " + "0 30 2 *" && "0 30 2 *" == "0" + " " + "30 2 *";
    WordsFirst("0", "0 30 2 *");
    WordsFirst("0", "30 2 *");
  }

  lemma ImpossibleFields()
    ensures FieldAt("0", 0) == FieldAt("0", 1) == FieldAt("0", 2) == Some({0})
    ensures FieldAt("30", 3) == Some({30}) && FieldAt("2", 4) == Some({2}) && FieldAt("*", 5).Some?
  {
    hide Atoi, ParseTokens, Split, VisitedAll;
    OneDigit("0");
    OneDigit("2");
    SmallNumber("30");
    NumberField("0", 0, 0, 59);
    NumberField("0", 0, 0, 23);
    NumberField("30", 30, 1, 31);
    NumberField("2", 2, 1, 12);
    StarField(0, 6);
  }

  /** An expression that is accepted and not in every year. */
  lemma ImpossibleIsAccepted()
    ensures ParseExpr(FEBRUARY_30) == Some(IMPOSSIBLE) && !EveryYear(IMPOSSIBLE)
  {
    hide FieldsOf, FieldAt;
    ImpossibleWords();
    ImpossibleFields();
    assert DaysIn(false, 2) == 28;
  }

  /** And so it goes wrong: at the end of 2021 its next time is New Year of 2023, which it does not select. */
  lemma ImpossibleFires()
    ensures var now, r := (NEW_YEAR_2022 - 1) * NANO, Jan1(2023) * DAY;
      IsNext(IMPOSSIBLE, now, r) && !Matches(IMPOSSIBLE, r)
  {
    ImpossibleIsAccepted();
    hide Matches, YearLater, EveryYear, FieldAt, Jan1;
    var now := (NEW_YEAR_2022 - 1) * NANO;
    assert SecondAfter(now) == NEW_YEAR_2022;
    TheYear2022();
    YearLaterSpan(NEW_YEAR_2022);
    forall t | NEW_YEAR_2022 <= t <= YearLater(NEW_YEAR_2022)
      ensures !Matches(IMPOSSIBLE, t)
    {
      if Matches(IMPOSSIBLE, t) {
        NoMatchIn2022(IMPOSSIBLE, t);
      }
    }
  }

  // ---- an example of the rule for days -------------------------------------------------------

  const FRIDAYS_OR_13TH: string := "0 0 13 * 5"

  const BOTH_DAYS: Expr := Expr({0}, {0}, {0}, {13}, FieldAt("*", 4).value, {5}, false, false)

  lemma BothDaysWords()
    ensures FieldsOf(FRIDAYS_OR_13TH) == ["0", "0", "0", "13", "*", "5"]
  {
    hide Words;
    assert FRIDAYS_OR_13TH == "0" + " " + "0 13 * 5" && "0 13 * 5" == "0" + " " + "13 * 5";
    assert "13 * 5" == "13" + " " + "* 5" && "* 5" == "*" + " " + "5";
    WordsFirst("0", "0 13 * 5");
    WordsFirst("0", "13 * 5");
    WordsFirst("13", "* 5");
    WordsFirst("*", "5");
    WordsLast("5");
  }

  lemma BothDaysAccepted()
    ensures ParseExpr(FRIDAYS_OR_13TH) == Some(BOTH_DAYS)
  {
    hide Atoi, ParseTokens, Split, VisitedAll, Words, FieldsOf;
    BothDaysWords();
    OneDigit("0");
    OneDigit("5");
    SmallNumber("13");
    NumberField("0", 0, 0, 59);
    NumberField("0", 0, 0, 23);
    NumberField("13", 13, 1, 31);
    NumberField("5", 5, 0, 6);
    StarField(1, 12);
  }

  const SATURDAY: int := Jan1(2021) + 8

  lemma JanuaryDays(k: int)
    requires 0 <= k <= 4
    ensures DateOf(SATURDAY + k) == Date(2021, 1, 9 + k) && Weekday(SATURDAY + k) == (k + 6) % 7
  {
    hide DateOf;
    var d := Date(2021, 1, 9 + k);
    DateRoundTrip(d);
  }

  /** Fridays and the 13th: on Saturday the 9th of January 2021 the next time is Wednesday the 13th. */
  lemma EitherDayExample()
    ensures ParseExpr(FRIDAYS_OR_13TH) == Some(BOTH_DAYS)
    ensures IsNext(BOTH_DAYS, SATURDAY * DAY * NANO, (SATURDAY + 4) * DAY)
  {
    BothDaysAccepted();
    hide ParseExpr, FieldAt, DateOf, Jan1, Weekday, YearLater;
    var t, r := SATURDAY * DAY + 1, (SATURDAY + 4) * DAY;
    assert SecondAfter(SATURDAY * DAY * NANO) == t;
    YearLaterSpan(t);
    forall u | t <= u < r
      ensures !Matches(BOTH_DAYS, u)
    {
      JanuaryDays(u / DAY - SATURDAY);
    }
    JanuaryDays(4);
    JanuaryMatches();
  }

  lemma JanuaryMatches()
    ensures Matches(BOTH_DAYS, (SATURDAY + 4) * DAY)
  {
    hide FieldAt, DateOf, Jan1;
    JanuaryDays(4);
    InstantFields(SATURDAY + 4, 0, 0, 0);
    AnyMonth(1);
  }

  lemma AnyMonth(m: int)
    requires 1 <= m <= 12
    ensures FieldAt("*", 4).Some? && m in FieldAt("*", 4).value
  {
    hide ParseTokens, Split, Visited, VisitedAll, Denotes;
    StarField(1, 12);
    var ranges := [Range(1, 12, 1)];
    assert Ranges("*", 4) == Some(ranges);
    assert !Wraps(ranges[0]);
    FieldDenotes(ranges, 1, 12);
    assert Denotes(ranges[0], m) by { OneByOne(m); }
  }

  lemma OneByOne(m: int)
    requires 1 <= m <= 12
    ensures Denotes(Range(1, 12, 1), m)
  {
    assert m == Term(1, 1, m - 1);
  }

  // ---- daily schedules -----------------------------------------------------------------------

  /** The time of day today if it is still to come, otherwise tomorrow. */
  function NextDaily(now: int, hour: int, minute: int): int {
    var today := now / NANO / DAY * DAY + hour * 3600 + minute * 60;
    if today * NANO > now then today else today + DAY
  }

  lemma StrictlyAfter(now: int, u: int)
    ensures u * NANO > now <==> u > now / NANO
  {
    assert now == now / NANO * NANO + now % NANO;
  }

  lemma SameTimeOfDay(t: int, u: int, time: int)
    requires 0 <= time < DAY && u % DAY == time && u > t
    ensures t / DAY * DAY + time <= u
    ensures t / DAY * DAY + time <= t ==> t / DAY * DAY + time + DAY <= u
  {
    assert u == u / DAY * DAY + time && t == t / DAY * DAY + t % DAY;
    assert u / DAY >= t / DAY;
    assert t % DAY >= time ==> u / DAY > t / DAY;
  }

  /** The least moment strictly after now with that time of day. */
  lemma DailyIsLeast(now: int, hour: int, minute: int, u: int)
    requires 0 <= hour <= 23 && 0 <= minute <= 59
    ensures now < NextDaily(now, hour, minute) * NANO <= now + DAY * NANO
    ensures NextDaily(now, hour, minute) % DAY == hour * 3600 + minute * 60
    ensures now < u * NANO && u % DAY == hour * 3600 + minute * 60 ==> NextDaily(now, hour, minute) <= u
  {
    var t, time := now / NANO, hour * 3600 + minute * 60;
    var today := t / DAY * DAY + time;
    StrictlyAfter(now, u);
    StrictlyAfter(now, today);
    StrictlyAfter(now, today + DAY);
    Instant(t / DAY, time);
    Instant(t / DAY + 1, time);
    assert t < today + DAY;
    if u > t && u % DAY == time {
      SameTimeOfDay(t, u, time);
    }
  }
}
