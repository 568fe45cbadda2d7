/** Proleptic Gregorian calendar arithmetic for the report windows: the
    datetime record, its lexicographic order, day ordinals and weekdays, and
    the starts of the week / month / year / rolling three-month windows. */
module Calendar {
  import opened Basics

  /** A date and a time of day, without time zone (Python's naive datetime). */
  datatype DateTime = DateTime(year: int, month: int, day: int, hour: int, minute: int, second: int)

  predicate IsLeapYear(y: int)
  {
    y % 4 == 0 && (y % 100 != 0 || y % 400 == 0)
  }

  function DaysInMonth(y: int, m: int): int
    requires 1 <= m <= 12
  {
    if m == 2 then (if IsLeapYear(y) then 29 else 28)
    else if m == 4 || m == 6 || m == 9 || m == 11 then 30
    else 31
  }

  predicate ValidDate(y: int, m: int, d: int)
  {
    1 <= y <= 9999 && 1 <= m <= 12 && 1 <= d <= DaysInMonth(y, m)
  }

  predicate ValidTime(h: int, mi: int, s: int)
  {
    0 <= h < 24 && 0 <= mi < 60 && 0 <= s < 60
  }

  /** The values a Python datetime can hold (to the second). */
  predicate Valid(t: DateTime)
  {
    ValidDate(t.year, t.month, t.day) && ValidTime(t.hour, t.minute, t.second)
  }

  type Instant = t: DateTime | Valid(t) witness DateTime(1, 1, 1, 0, 0, 0)

  /** a <= b in the order Python compares datetimes: field by field. */
  predicate AtMost(a: DateTime, b: DateTime)
  {
    if a.year != b.year then a.year < b.year
    else if a.month != b.month then a.month < b.month
    else if a.day != b.day then a.day < b.day
    else if a.hour != b.hour then a.hour < b.hour
    else if a.minute != b.minute then a.minute < b.minute
    else a.second <= b.second
  }

  /** The calendar day of `a` is strictly before that of `b`. */
  predicate DayBefore(a: DateTime, b: DateTime)
  {
    a.year < b.year
    || (a.year == b.year && a.month < b.month)
    || (a.year == b.year && a.month == b.month && a.day < b.day)
  }

  /** 00:00:00 of the calendar day of `t`. */
  function StartOfDay(t: Instant): (r: Instant)
    ensures r.year == t.year && r.month == t.month && r.day == t.day
    ensures r.hour == 0 && r.minute == 0 && r.second == 0
  {
    t.(hour := 0, minute := 0, second := 0)
  }

  // ---------------------------------------------------------------------
  // Day ordinals (Python's date.toordinal: 0001-01-01 is day 1, a Monday)

  function DaysBeforeYear(y: int): int
  {
    var p := y - 1;
    365 * p + p / 4 - p / 100 + p / 400
  }

  function DaysBeforeMonth(y: int, m: int): int
    requires 1 <= m <= 12
  {
    var common :=
      if m == 1 then 0 else if m == 2 then 31 else if m == 3 then 59
      else if m == 4 then 90 else if m == 5 then 120 else if m == 6 then 151
      else if m == 7 then 181 else if m == 8 then 212 else if m == 9 then 243
      else if m == 10 then 273 else if m == 11 then 304 else 334;
    if m > 2 && IsLeapYear(y) then common + 1 else common
  }

  function DayOrdinal(t: DateTime): int
    requires 1 <= t.month <= 12
  {
    DaysBeforeYear(t.year) + DaysBeforeMonth(t.year, t.month) + t.day
  }

  /** Monday is 0, Sunday is 6 (Python's datetime.weekday). */
  function Weekday(t: Instant): (w: int)
    ensures 0 <= w < 7
  {
    (DayOrdinal(t) + 6) % 7
  }

  lemma DaysBeforeYearStep(y: int)
    requires y >= 2
    ensures DaysBeforeYear(y) == DaysBeforeYear(y - 1) + (if IsLeapYear(y - 1) then 366 else 365)
  {
    var p := y - 1;
    DivisionStep(p, 4);
    DivisionStep(p, 100);
    DivisionStep(p, 400);
  }

  lemma {:induction false} DaysBeforeYearMonotone(y: int, z: int)
    requires 1 <= y <= z
    ensures DaysBeforeYear(z) - DaysBeforeYear(y) >= 365 * (z - y)
    decreases z - y
  {
    if y < z {
      DaysBeforeYearMonotone(y, z - 1);
      DaysBeforeYearStep(z);
    }
  }

  lemma OrdinalPositive(t: Instant)
    ensures DayOrdinal(t) >= 1
    ensures DayOrdinal(t) == 1 <==> t.year == 1 && t.month == 1 && t.day == 1
  {
    var p := t.year - 1;
    assert p / 4 >= p / 100;
  }

  /** The day ordinal is strictly increasing along the calendar. */
  lemma DayBeforeOrdinal(a: Instant, b: Instant)
    requires DayBefore(a, b)
    ensures DayOrdinal(a) < DayOrdinal(b)
  {
    if a.year < b.year {
      DaysBeforeYearMonotone(a.year + 1, b.year);
      DaysBeforeYearStep(a.year + 1);
      DayOfYearBound(a.year, a.month, a.day);
    } else if a.month < b.month {
      MonthsAccumulate(a.year, a.month, b.month);
    }
  }

  /** A valid day falls within its year's length. */
  lemma DayOfYearBound(y: int, m: int, d: int)
    requires 1 <= m <= 12 && d <= DaysInMonth(y, m)
    ensures DaysBeforeMonth(y, m) + d <= (if IsLeapYear(y) then 366 else 365)
  {
  }

  /** The months before month `n` include all of an earlier month `m`. */
  lemma MonthsAccumulate(y: int, m: int, n: int)
    requires 1 <= m < n <= 12
    ensures DaysBeforeMonth(y, m) + DaysInMonth(y, m) <= DaysBeforeMonth(y, n)
  {
  }

  /** Comparing calendar days is comparing their ordinals. */
  lemma OrdinalOrder(a: Instant, b: Instant)
    ensures DayOrdinal(a) < DayOrdinal(b) <==> DayBefore(a, b)
    ensures DayOrdinal(a) == DayOrdinal(b) <==> (a.year == b.year && a.month == b.month && a.day == b.day)
  {
    if DayBefore(a, b) {
      DayBeforeOrdinal(a, b);
    } else if DayBefore(b, a) {
      DayBeforeOrdinal(b, a);
    }
  }

  /** The calendar day before `t`, at the same time of day. */
  function PrevDay(t: Instant): (r: Instant)
    requires DayOrdinal(t) > 1
    ensures DayOrdinal(r) == DayOrdinal(t) - 1
    ensures r.hour == t.hour && r.minute == t.minute && r.second == t.second
  {
    OrdinalPositive(t);
    if t.day > 1 then t.(day := t.day - 1)
    else if t.month > 1 then t.(month := t.month - 1, day := DaysInMonth(t.year, t.month - 1))
    else
      DaysBeforeYearStep(t.year);
      t.(year := t.year - 1, month := 12, day := 31)
  }

  /** Python's numbering of weekdays: 0001-01-01 is a Monday (0); in
      December 2021 the 25th is a Saturday (5), the 26th a Sunday (6) and
      the 27th a Monday (0). */
  lemma WeekdayAnchors()
    ensures Weekday(DateTime(1, 1, 1, 0, 0, 0)) == 0
    ensures Weekday(DateTime(2021, 12, 25, 20, 2, 48)) == 5
    ensures Weekday(DateTime(2021, 12, 26, 0, 0, 0)) == 6
    ensures Weekday(DateTime(2021, 12, 27, 0, 0, 0)) == 0
  {
    assert DaysBeforeYear(1) == 0;
    assert DaysBeforeYear(2021) == 737790;
    assert DaysBeforeMonth(2021, 12) == 334;
  }

  /** The day before is the previous weekday, Sunday before Monday. */
  lemma WeekdayStep(t: Instant)
    requires DayOrdinal(t) > 1
    ensures Weekday(PrevDay(t)) == (Weekday(t) + 6) % 7
  {
    WeekdayShift(DayOrdinal(t));
  }

  lemma WeekdayShift(o: int)
    ensures (o + 5) % 7 == ((o + 6) % 7 + 6) % 7
  {
    var w, q := (o + 6) % 7, (o + 6) / 7;
    FloorDivision(o + 6, 7);
    if w >= 1 {
      DivisionUnique(o + 5, 7, q, w - 1);
      DivisionUnique(w + 6, 7, 1, w - 1);
    } else {
      DivisionUnique(o + 5, 7, q - 1, 6);
    }
  }

  /** `t` minus `n` whole days (Python's `t - timedelta(days=n)`). */
  function MinusDays(t: Instant, n: nat): (r: Instant)
    requires n < DayOrdinal(t)
    ensures DayOrdinal(r) == DayOrdinal(t) - n
    ensures r.hour == t.hour && r.minute == t.minute && r.second == t.second
    decreases n
  {
    if n == 0 then t else MinusDays(PrevDay(t), n - 1)
  }

  // ---------------------------------------------------------------------
  // Window starts

  /** Monday 00:00:00 of the week that contains `f`. */
  function WeekStart(f: Instant): (r: Instant)
    ensures Weekday(r) == 0
    ensures r.hour == 0 && r.minute == 0 && r.second == 0
    ensures DayOrdinal(f) - DayOrdinal(r) == Weekday(f)
    ensures AtMost(r, f)
  {
    var o, w := DayOrdinal(f), Weekday(f);
    OrdinalPositive(f);
    WeekdayArithmetic(o);
    var monday := MinusDays(f, w);
    var r := StartOfDay(monday);
    assert DayOrdinal(r) == DayOrdinal(monday) == o - w;
    MondayOf(r, o);
    MidnightAtMost(r, f);
    r
  }

  /** The day `(o + 6) % 7` days before day `o` is a Monday. */
  lemma MondayOf(r: Instant, o: int)
    requires o >= 1 && DayOrdinal(r) == o - (o + 6) % 7
    ensures Weekday(r) == 0
  {
    WeekdayArithmetic(o);
  }

  /** A midnight on or before the calendar day of `f` is no later than `f`. */
  lemma MidnightAtMost(r: Instant, f: Instant)
    requires r.hour == 0 && r.minute == 0 && r.second == 0
    requires DayOrdinal(r) <= DayOrdinal(f)
    ensures AtMost(r, f)
  {
    OrdinalOrder(r, f);
  }

  lemma WeekdayArithmetic(o: int)
    requires o >= 1
    ensures (o + 6) % 7 < o
    ensures (o - (o + 6) % 7 + 6) % 7 == 0
  {
    var w := (o + 6) % 7;
    var q := (o + 6) / 7;
    assert o + 6 == 7 * q + w;
    assert o - w + 6 == 7 * q;
  }

  /** Day 1 of the month of `f`, 00:00:00. */
  function MonthStart(f: Instant): (r: Instant)
    ensures AtMost(r, f)
    ensures forall d: Instant {:trigger AtMost(r, d)} ::
      AtMost(r, d) <==> d.year > f.year || (d.year == f.year && d.month >= f.month)
  {
    f.(day := 1, hour := 0, minute := 0, second := 0)
  }

  /** January 1 of the year of `f`, 00:00:00. */
  function YearStart(f: Instant): (r: Instant)
    ensures AtMost(r, f)
    ensures forall d: Instant {:trigger AtMost(r, d)} :: AtMost(r, d) <==> d.year >= f.year
  {
    f.(month := 1, day := 1, hour := 0, minute := 0, second := 0)
  }

  /** Months counted from year 0: comparing them compares (year, month). */
  function MonthIndex(t: DateTime): int
  {
    t.year * 12 + t.month - 1
  }

  /** `f` minus `n` calendar months, the day clamped to the last day of the
      target month and the time of day kept (dateutil's
      `f - relativedelta(months=n)`). The year is not bounded below: the
      calendar is extended before year 1. */
  function MonthsBefore(f: Instant, n: nat): (r: DateTime)
    ensures MonthIndex(r) == MonthIndex(f) - n
    ensures 1 <= r.month <= 12
    ensures r.day == Min(f.day, DaysInMonth(r.year, r.month))
    ensures r.hour == f.hour && r.minute == f.minute && r.second == f.second
    ensures AtMost(r, f)
    ensures n > 0 ==> r != f
    ensures r.year >= 1 ==> Valid(r)
  {
    var index := MonthIndex(f) - n;
    var y := index / 12;
    var m := index % 12 + 1;
    f.(year := y, month := m, day := Min(f.day, DaysInMonth(y, m)))
  }

  /** The first instant of the analysis window of the three-month reports. */
  function RollingStart(f: Instant): DateTime
  {
    MonthsBefore(f, 3)
  }

  /** The whole calendar month (year, month): day 1 00:00:00 to its last day
      23:59:59. An instant lies in the window exactly when it falls in that
      month. */
  function MonthWindow(year: int, month: int): (w: (DateTime, DateTime))
    requires 1 <= month <= 12
    ensures forall d: Instant {:trigger AtMost(w.0, d)} {:trigger AtMost(d, w.1)} ::
      (AtMost(w.0, d) && AtMost(d, w.1)) <==> (d.year == year && d.month == month)
  {
    (DateTime(year, month, 1, 0, 0, 0), DateTime(year, month, DaysInMonth(year, month), 23, 59, 59))
  }
}
