/** The part of Python's `datetime` and `calendar` modules that the widgets
    rely on: naive datetimes in the proleptic Gregorian calendar, their
    ordering, the one-day step, weekdays and month lengths. */
module Calendar {

  const MinYear := 1
  const MaxYear := 9999
  const MicrosPerDay := 86_400_000_000

  /** A calendar day (year, month, day). */
  datatype Date = Date(year: int, month: int, day: int)

  /** A naive datetime: a day plus the time of day in microseconds since midnight. */
  datatype DateTime = DateTime(date: Date, micros: int)

  const MaxDate := Date(MaxYear, 12, 31)

  predicate IsLeap(y: int) {
    y % 4 == 0 && (y % 100 != 0 || y % 400 == 0)
  }

  /** The second component of `calendar.monthrange(y, m)`. */
  function DaysInMonth(y: int, m: int): (n: int)
    requires 1 <= m <= 12
    ensures 28 <= n <= 31
  {
    if m == 2 then (if IsLeap(y) then 29 else 28)
    else if m == 4 || m == 6 || m == 9 || m == 11 then 30
    else 31
  }

  predicate ValidDate(d: Date) {
    MinYear <= d.year <= MaxYear && 1 <= d.month <= 12 && 1 <= d.day <= DaysInMonth(d.year, d.month)
  }

  predicate ValidDateTime(t: DateTime) {
    ValidDate(t.date) && 0 <= t.micros < MicrosPerDay
  }

  /** `datetime.combine(t, time.min)`: the same day at midnight. */
  function Midnight(t: DateTime): (r: DateTime) {
    DateTime(t.date, 0)
  }

  predicate IsMidnight(t: DateTime) {
    t.micros == 0
  }

  /** Days in the years before year `y`: each earlier year contributes 365
      days, or 366 when it is leap. */
  function DaysBeforeYear(y: int): (n: int)
    requires y >= 1
  {
    if y == 1 then 0 else DaysBeforeYear(y - 1) + DaysBeforeMonth(y - 1, 12) + 31
  }

  /** Days in the year before the first of month `m` (CPython's `_days_before_month`). */
  function DaysBeforeMonth(y: int, m: int): (n: int)
    requires 1 <= m <= 12
  {
    var before :=
      if m == 1 then 0 else if m == 2 then 31 else if m == 3 then 59 else if m == 4 then 90
      else if m == 5 then 120 else if m == 6 then 151 else if m == 7 then 181 else if m == 8 then 212
      else if m == 9 then 243 else if m == 10 then 273 else if m == 11 then 304 else 334;
    before + if m > 2 && IsLeap(y) then 1 else 0
  }

  /** `date.toordinal()`: 0001-01-01 is day 1. */
  function Ordinal(d: Date): (n: int)
    requires ValidDate(d)
  {
    DaysBeforeYear(d.year) + DaysBeforeMonth(d.year, d.month) + d.day
  }

  /** `date.weekday()`: Monday is 0 and Sunday is 6. */
  function Weekday(d: Date): (w: int)
    requires ValidDate(d)
  {
    (Ordinal(d) + 6) % 7
  }

  /** Python's `<` on dates: lexicographic on (year, month, day). */
  predicate DateBefore(a: Date, b: Date) {
    a.year < b.year
    || (a.year == b.year && a.month < b.month)
    || (a.year == b.year && a.month == b.month && a.day < b.day)
  }

  /** Python's `<` on naive datetimes: by day, then by time of day. */
  predicate Before(a: DateTime, b: DateTime) {
    DateBefore(a.date, b.date) || (a.date == b.date && a.micros < b.micros)
  }

  /** `d + timedelta(days=1)`; 9999-12-31 has no successor (OverflowError). */
  function NextDay(d: Date): (r: Date)
    requires ValidDate(d) && d != MaxDate
    ensures ValidDate(r) && DateBefore(d, r)
  {
    if d.day < DaysInMonth(d.year, d.month) then
      Date(d.year, d.month, d.day + 1)
    else if d.month < 12 then
      Date(d.year, d.month + 1, 1)
    else
      Date(d.year + 1, 1, 1)
  }

  /** `t + timedelta(days=1)`; the time of day is kept. */
  function AddDay(t: DateTime): (r: DateTime)
    requires ValidDateTime(t) && t.date != MaxDate
    ensures ValidDateTime(r) && r.micros == t.micros && Before(t, r)
  {
    DateTime(NextDay(t.date), t.micros)
  }

  /** The next day is one ordinal further on. */
  lemma NextDayOrdinal(d: Date)
    requires ValidDate(d) && d != MaxDate
    ensures Ordinal(NextDay(d)) == Ordinal(d) + 1
  {
    if d.day == DaysInMonth(d.year, d.month) {
      if d.month < 12 {
        MonthStep(d.year, d.month);
      } else {
        YearStep(d.year);
      }
    }
  }

  /** The linear month number year * 12 + (month - 1). */
  function MonthIndex(d: Date): (k: int) {
    d.year * 12 + (d.month - 1)
  }

  lemma MonthStep(y: int, m: int)
    requires 1 <= m < 12
    ensures DaysBeforeMonth(y, m + 1) == DaysBeforeMonth(y, m) + DaysInMonth(y, m)
  {
  }

  lemma YearStep(y: int)
    requires y >= 1
    ensures DaysBeforeYear(y + 1)
            == DaysBeforeYear(y) + DaysBeforeMonth(y, 12) + DaysInMonth(y, 12)
  {
  }

  /** Leap days before year `y`: one for every fourth year, less the
      centuries not divisible by 400. */
  function LeapDaysBefore(y: int): (n: int) {
    (y - 1) / 4 - (y - 1) / 100 + (y - 1) / 400
  }

  /** Moving past year `y` adds a leap day exactly when `y` is leap. */
  lemma LeapDaysStep(y: int)
    requires y >= 1
    ensures LeapDaysBefore(y + 1) == LeapDaysBefore(y) + (if IsLeap(y) then 1 else 0)
  {
    CrossMultiple4(y);
    CrossMultiple100(y);
    CrossMultiple400(y);
    DivisibilityChain(y);
  }

  lemma CrossMultiple4(y: int)
    requires y >= 1
    ensures y / 4 == (y - 1) / 4 + (if y % 4 == 0 then 1 else 0)
  {
    assert y - 1 == 4 * ((y - 1) / 4) + (y - 1) % 4;
  }

  lemma CrossMultiple100(y: int)
    requires y >= 1
    ensures y / 100 == (y - 1) / 100 + (if y % 100 == 0 then 1 else 0)
  {
    assert y - 1 == 100 * ((y - 1) / 100) + (y - 1) % 100;
  }

  lemma CrossMultiple400(y: int)
    requires y >= 1
    ensures y / 400 == (y - 1) / 400 + (if y % 400 == 0 then 1 else 0)
  {
    assert y - 1 == 400 * ((y - 1) / 400) + (y - 1) % 400;
  }

  /** Multiples of 400 are multiples of 100, which are multiples of 4. */
  lemma DivisibilityChain(y: int)
    ensures y % 400 == 0 ==> y % 100 == 0
    ensures y % 100 == 0 ==> y % 4 == 0
  {
    if y % 400 == 0 {
      var q := y / 400;
      assert y == 100 * (4 * q);
    }
    if y % 100 == 0 {
      var q := y / 100;
      assert y == 4 * (25 * q);
    }
  }

  /** The year count agrees with CPython's closed form `_days_before_year`:
      365 days a year plus the leap days. */
  lemma {:induction false} DaysBeforeYearClosedForm(y: int)
    requires y >= 1
    ensures DaysBeforeYear(y) == (y - 1) * 365 + LeapDaysBefore(y)
    decreases y
  {
    if y > 1 {
      DaysBeforeYearClosedForm(y - 1);
      LeapDaysStep(y - 1);
    }
  }

  /** Every day of year `y` has an ordinal in DaysBeforeYear(y) + 1 .. DaysBeforeYear(y + 1). */
  lemma OrdinalInYear(d: Date)
    requires ValidDate(d)
    ensures DaysBeforeYear(d.year) < Ordinal(d) <= DaysBeforeYear(d.year + 1)
  {
    YearStep(d.year);
    if d.month < 12 {
      MonthStep(d.year, d.month);
      assert DaysBeforeMonth(d.year, d.month + 1) <= DaysBeforeMonth(d.year, 12);
    }
  }

  lemma {:induction false} DaysBeforeYearMonotone(y1: int, y2: int)
    requires 1 <= y1 <= y2
    ensures DaysBeforeYear(y1) <= DaysBeforeYear(y2)
    decreases y2 - y1
  {
    if y1 < y2 {
      DaysBeforeYearMonotone(y1, y2 - 1);
    }
  }

  /** Python's order on dates is the order of their ordinals. */
  lemma {:induction false} OrdinalOrder(a: Date, b: Date)
    requires ValidDate(a) && ValidDate(b)
    ensures DateBefore(a, b) <==> Ordinal(a) < Ordinal(b)
  {
    if a.year < b.year {
      OrdinalInYear(a);
      OrdinalInYear(b);
      DaysBeforeYearMonotone(a.year + 1, b.year);
    } else if b.year < a.year {
      OrdinalInYear(a);
      OrdinalInYear(b);
      DaysBeforeYearMonotone(b.year + 1, a.year);
    } else if a.month != b.month {
      var lo, hi := if a.month < b.month then a else b, if a.month < b.month then b else a;
      MonthStep(lo.year, lo.month);
      assert DaysBeforeMonth(lo.year, lo.month + 1) <= DaysBeforeMonth(hi.year, hi.month);
    }
  }

  /** Distinct valid dates have distinct ordinals. */
  lemma OrdinalInjective(a: Date, b: Date)
    requires ValidDate(a) && ValidDate(b) && Ordinal(a) == Ordinal(b)
    ensures a == b
  {
    OrdinalOrder(a, b);
    OrdinalOrder(b, a);
  }

  /** `<` on datetimes compares the day ordinals first, then the time of day. */
  lemma BeforeByOrdinal(a: DateTime, b: DateTime)
    requires ValidDate(a.date) && ValidDate(b.date)
    ensures Before(a, b) <==>
            Ordinal(a.date) < Ordinal(b.date) || (Ordinal(a.date) == Ordinal(b.date) && a.micros < b.micros)
  {
    OrdinalOrder(a.date, b.date);
    if Ordinal(a.date) == Ordinal(b.date) {
      OrdinalInjective(a.date, b.date);
    }
  }

  /** Consecutive days have consecutive weekdays. */
  lemma NextDayWeekday(d: Date)
    requires ValidDate(d) && d != MaxDate
    ensures Weekday(NextDay(d)) == (Weekday(d) + 1) % 7
  {
    NextDayOrdinal(d);
    ModSum(Ordinal(d) + 6, 1);
  }

  lemma ModSum(o: int, i: int)
    ensures (o % 7 + i) % 7 == (o + i) % 7
  {
    var q := o / 7;
    assert o == 7 * q + o % 7;
    assert o + i == (o % 7 + i) + 7 * q;
  }

  /** February has 29 days exactly in leap years; a year has 366 days exactly when it is leap. */
  lemma LeapYearLengths(y: int)
    requires MinYear <= y <= MaxYear
    ensures DaysInMonth(y, 2) == 29 <==> IsLeap(y)
    ensures DaysBeforeYear(y + 1) - DaysBeforeYear(y) == (if IsLeap(y) then 366 else 365)
  {
    YearStep(y);
  }
}
