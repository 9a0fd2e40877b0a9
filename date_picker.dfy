/** The calendar logic of the DatePicker widget: the span of a month, the
    day-by-day iteration over it, month navigation, and the layout of the
    day buttons in a Sunday-first grid. Tk widgets are left out; a day
    button is reduced to the values the widget gives it. */
module Picker {
  import opened Wrappers
  import opened Calendar

  /** `week_row`: the grid row of the first week of a month. */
  const WeekRow := 2

  /** The first day of the week that the weekday header is read from (a Sunday). */
  const ReferenceSunday := DateTime(Date(2017, 10, 1), 0)
  const ReferenceWeekEnd := DateTime(Date(2017, 10, 8), 0)

  // ---------------------------------------------------------------------------
  // Month span

  /** `_first_and_last_days(year_month)`: midnight of day 1 of the month, and
      the exclusive end, midnight of day 1 of the following month. The end is
      computed as the last day plus one day, which overflows in December 9999. */
  function FirstAndLastDays(yearMonth: DateTime): (r: Result<(DateTime, DateTime)>)
    requires ValidDateTime(yearMonth)
    ensures r.Err? <==> yearMonth.date.year == MaxYear && yearMonth.date.month == 12
    ensures r.Err? ==> r.error == OverflowError
    ensures r.Ok? ==>
      var (first, last) := r.value;
      first == DateTime(Date(yearMonth.date.year, yearMonth.date.month, 1), 0)
      && ValidDateTime(last) && IsMidnight(last) && last.date.day == 1
      && MonthIndex(last.date) == MonthIndex(yearMonth.date) + 1
  {
    var y, m := yearMonth.date.year, yearMonth.date.month;
    var first := DateTime(Date(y, m, 1), 0);
    var lastOfMonth := Date(y, m, DaysInMonth(y, m));
    if lastOfMonth == MaxDate then Err(OverflowError)
    else Ok((first, DateTime(NextDay(lastOfMonth), 0)))
  }

  /** The span covers exactly the days of the month: its ends are
      DaysInMonth ordinals apart. */
  lemma SpanLength(yearMonth: DateTime)
    requires ValidDateTime(yearMonth) && FirstAndLastDays(yearMonth).Ok?
    ensures var (first, last) := FirstAndLastDays(yearMonth).value;
      Ordinal(last.date) - Ordinal(first.date) == DaysInMonth(yearMonth.date.year, yearMonth.date.month)
  {
    var y, m := yearMonth.date.year, yearMonth.date.month;
    NextDayOrdinal(Date(y, m, DaysInMonth(y, m)));
  }

  /** The days of month `m` of year `y`, each at midnight, in order. */
  function MonthDays(y: int, m: int): (r: seq<DateTime>)
    requires 1 <= m <= 12
    ensures |r| == DaysInMonth(y, m)
  {
    seq(DaysInMonth(y, m), i requires 0 <= i < DaysInMonth(y, m) => DateTime(Date(y, m, i + 1), 0))
  }

  // ---------------------------------------------------------------------------
  // Day iteration

  /** What `_iter_date(start, end)` yields: start, start + 1 day, ... while the
      current value is before `end`; the flag says that stepping past
      9999-12-31 then raised OverflowError. */
  function DateRange(start: DateTime, end: DateTime): (r: (seq<DateTime>, bool))
    requires ValidDateTime(start) && ValidDateTime(end)
    decreases Ordinal(end.date) - Ordinal(start.date)
  {
    if !Before(start, end) then ([], false)
    else if start.date == MaxDate then ([start], true)
    else
      BeforeByOrdinal(start, end);
      NextDayOrdinal(start.date);
      var next := DateRange(AddDay(start), end);
      ([start] + next.0, next.1)
  }

  /** The number of values `_iter_date(start, end)` yields. */
  function RangeCount(start: DateTime, end: DateTime): (n: int)
    requires ValidDate(start.date) && ValidDate(end.date)
  {
    if !Before(start, end) then 0
    else Ordinal(end.date) - Ordinal(start.date) + (if start.micros < end.micros then 1 else 0)
  }

  /** `_iter_date`, run to exhaustion. */
  method IterDate(start: DateTime, end: DateTime) returns (days: seq<DateTime>, overflow: bool)
    requires ValidDateTime(start) && ValidDateTime(end)
    ensures (days, overflow) == DateRange(start, end)
  {
    days, overflow := [], false;
    var curr := start;
    while Before(curr, end)
      invariant ValidDateTime(curr)
      invariant DateRange(start, end).0 == days + DateRange(curr, end).0
      invariant DateRange(start, end).1 == DateRange(curr, end).1
      decreases Ordinal(end.date) - Ordinal(curr.date)
    {
      BeforeByOrdinal(curr, end);
      days := days + [curr];
      if curr.date == MaxDate {
        assert DateRange(curr, end) == ([curr], true);
        // `curr_date += one_day` raises OverflowError
        overflow := true;
        return;
      }
      NextDayOrdinal(curr.date);
      curr := AddDay(curr);
    }
    assert DateRange(curr, end) == ([], false);
    assert days + [] == days;
  }

  /** `_iter_date(start, end)` yields, in one-day steps at the time of day of
      `start`, exactly RangeCount values, each before `end`; it raises only
      when the last of them is 9999-12-31. */
  lemma RangeShape(start: DateTime, end: DateTime)
    requires ValidDateTime(start) && ValidDateTime(end)
    ensures var (days, overflow) := DateRange(start, end);
      |days| == RangeCount(start, end)
      && (forall i :: 0 <= i < |days| ==>
            ValidDateTime(days[i]) && days[i].micros == start.micros
            && Ordinal(days[i].date) == Ordinal(start.date) + i && Before(days[i], end))
      && (forall i :: 0 <= i < |days| - 1 ==> days[i].date != MaxDate && days[i + 1] == AddDay(days[i]))
      && (overflow <==> Before(DateTime(MaxDate, start.micros), end))
  {
    RangeSteps(start, end);
    RangeBelowEnd(start, end);
    RangeLength(start, end);
    RangeLinks(start, end);
    RangeOverflow(start, end);
  }

  /** The i-th value is i days after `start`, at its time of day. */
  lemma {:induction false} RangeSteps(start: DateTime, end: DateTime)
    requires ValidDateTime(start) && ValidDateTime(end)
    ensures forall i :: 0 <= i < |DateRange(start, end).0| ==>
      var d := DateRange(start, end).0[i];
      ValidDateTime(d) && d.micros == start.micros && Ordinal(d.date) == Ordinal(start.date) + i
    decreases Ordinal(end.date) - Ordinal(start.date)
  {
    if Before(start, end) && start.date != MaxDate {
      BeforeByOrdinal(start, end);
      NextDayOrdinal(start.date);
      var next := AddDay(start);
      RangeSteps(next, end);
      var days, rest := DateRange(start, end).0, DateRange(next, end).0;
      assert days == [start] + rest;
      forall i | 0 < i < |days|
        ensures ValidDateTime(days[i]) && days[i].micros == start.micros && Ordinal(days[i].date) == Ordinal(start.date) + i
      {
        assert days[i] == rest[i - 1];
      }
    }
  }

  /** Every value is before `end`. */
  lemma {:induction false} RangeBelowEnd(start: DateTime, end: DateTime)
    requires ValidDateTime(start) && ValidDateTime(end)
    ensures forall i :: 0 <= i < |DateRange(start, end).0| ==> Before(DateRange(start, end).0[i], end)
    decreases Ordinal(end.date) - Ordinal(start.date)
  {
    if Before(start, end) && start.date != MaxDate {
      BeforeByOrdinal(start, end);
      NextDayOrdinal(start.date);
      var next := AddDay(start);
      RangeBelowEnd(next, end);
      var days, rest := DateRange(start, end).0, DateRange(next, end).0;
      assert days == [start] + rest;
      forall i | 0 < i < |days|
        ensures Before(days[i], end)
      {
        assert days[i] == rest[i - 1];
      }
    }
  }

  /** The number of values is RangeCount. */
  lemma {:induction false} RangeLength(start: DateTime, end: DateTime)
    requires ValidDateTime(start) && ValidDateTime(end)
    ensures |DateRange(start, end).0| == RangeCount(start, end)
    decreases Ordinal(end.date) - Ordinal(start.date)
  {
    BeforeByOrdinal(start, end);
    assert ValidDate(MaxDate);
    if !Before(start, end) {
    } else if start.date == MaxDate {
      OrdinalOrder(end.date, MaxDate);
      if end.date != MaxDate {
        OrdinalOrder(MaxDate, end.date);
      }
    } else {
      NextDayOrdinal(start.date);
      var next := AddDay(start);
      RangeLength(next, end);
      BeforeByOrdinal(next, end);
    }
  }

  /** Consecutive values are one day apart. */
  lemma {:induction false} RangeLinks(start: DateTime, end: DateTime)
    requires ValidDateTime(start) && ValidDateTime(end)
    ensures forall i :: 0 <= i < |DateRange(start, end).0| - 1 ==>
      var d := DateRange(start, end).0[i];
      ValidDateTime(d) && d.date != MaxDate && DateRange(start, end).0[i + 1] == AddDay(d)
    decreases Ordinal(end.date) - Ordinal(start.date)
  {
    RangeSteps(start, end);
    if Before(start, end) && start.date != MaxDate {
      BeforeByOrdinal(start, end);
      NextDayOrdinal(start.date);
      var next := AddDay(start);
      RangeLinks(next, end);
      var days, rest := DateRange(start, end).0, DateRange(next, end).0;
      assert days == [start] + rest;
      if |rest| > 0 {
        assert days[1] == rest[0] == next;
      }
      forall i | 0 < i < |days| - 1
        ensures ValidDateTime(days[i]) && days[i].date != MaxDate && days[i + 1] == AddDay(days[i])
      {
        assert days[i] == rest[i - 1] && days[i + 1] == rest[i];
      }
    }
  }

  /** The iteration raises exactly when 9999-12-31, at the time of day of
      `start`, is still before `end`. */
  lemma {:induction false} RangeOverflow(start: DateTime, end: DateTime)
    requires ValidDateTime(start) && ValidDateTime(end)
    ensures DateRange(start, end).1 <==> Before(DateTime(MaxDate, start.micros), end)
    decreases Ordinal(end.date) - Ordinal(start.date)
  {
    var mx := DateTime(MaxDate, start.micros);
    assert ValidDate(MaxDate);
    BeforeByOrdinal(start, end);
    BeforeByOrdinal(mx, end);
    if !Before(start, end) {
      OrdinalOrder(start.date, MaxDate);
      OrdinalInYear(start.date);
    } else if start.date != MaxDate {
      NextDayOrdinal(start.date);
      var next := AddDay(start);
      RangeOverflow(next, end);
    }
  }

  /** `_iter_date(start, end)` yields a value at the time of day of `start`
      exactly when start <= value < end, like `range()`, and nothing when
      start >= end. */
  lemma RangeMembership(start: DateTime, end: DateTime, t: DateTime)
    requires ValidDateTime(start) && ValidDateTime(end) && ValidDateTime(t) && t.micros == start.micros
    ensures t in DateRange(start, end).0 <==> !Before(t, start) && Before(t, end)
    ensures !Before(start, end) ==> DateRange(start, end).0 == []
  {
    RangeShape(start, end);
    var days := DateRange(start, end).0;
    BeforeByOrdinal(t, start);
    BeforeByOrdinal(t, end);
    BeforeByOrdinal(start, end);
    if t in days {
      var i :| 0 <= i < |days| && days[i] == t;
    }
    if !Before(t, start) && Before(t, end) {
      var k := Ordinal(t.date) - Ordinal(start.date);
      assert 0 <= k < |days|;
      OrdinalInjective(days[k].date, t.date);
      assert days[k] == t;
    }
  }

  /** Iterating over a month span yields each day of the month once, in order,
      starting with day 1, and never overflows. */
  lemma MonthSpan(yearMonth: DateTime)
    requires ValidDateTime(yearMonth) && FirstAndLastDays(yearMonth).Ok?
    ensures var (first, last) := FirstAndLastDays(yearMonth).value;
      DateRange(first, last) == (MonthDays(yearMonth.date.year, yearMonth.date.month), false)
  {
    var y, m := yearMonth.date.year, yearMonth.date.month;
    var (first, last) := FirstAndLastDays(yearMonth).value;
    MonthTail(y, m, 1, last);
    assert MonthDays(y, m)[0..] == MonthDays(y, m);
  }

  lemma {:induction false} MonthTail(y: int, m: int, d: int, last: DateTime)
    requires MinYear <= y <= MaxYear && 1 <= m <= 12 && 1 <= d <= DaysInMonth(y, m) + 1
    requires !(y == MaxYear && m == 12)
    requires last == DateTime(NextDay(Date(y, m, DaysInMonth(y, m))), 0)
    ensures d <= DaysInMonth(y, m) ==>
      DateRange(DateTime(Date(y, m, d), 0), last) == (MonthDays(y, m)[d - 1..], false)
    decreases DaysInMonth(y, m) + 1 - d
  {
    if d <= DaysInMonth(y, m) {
      var cur := DateTime(Date(y, m, d), 0);
      DayOfSpan(y, m, d, last);
      MonthDaysCons(y, m, d);
      var rest := DateRange(AddDay(cur), last);
      assert DateRange(cur, last) == ([cur] + rest.0, rest.1);
      if d < DaysInMonth(y, m) {
        MonthTail(y, m, d + 1, last);
      } else {
        assert rest == ([], false);
      }
    }
  }

  /** The days of a month from day d on are day d followed by the days from d + 1 on. */
  lemma MonthDaysCons(y: int, m: int, d: int)
    requires 1 <= m <= 12 && 1 <= d <= DaysInMonth(y, m)
    ensures MonthDays(y, m)[d - 1..]
      == [DateTime(Date(y, m, d), 0)] + (if d < DaysInMonth(y, m) then MonthDays(y, m)[d..] else [])
  {
    var days := MonthDays(y, m);
    if d < DaysInMonth(y, m) {
      assert days[d - 1..] == [days[d - 1]] + days[d..];
    } else {
      assert days[d - 1..] == [days[d - 1]];
    }
  }

  /** Day d of a month span lies before the span's end, and the day after it
      is day d + 1, or the end itself after the last day. */
  lemma DayOfSpan(y: int, m: int, d: int, last: DateTime)
    requires MinYear <= y <= MaxYear && 1 <= m <= 12 && 1 <= d <= DaysInMonth(y, m)
    requires !(y == MaxYear && m == 12)
    requires last == DateTime(NextDay(Date(y, m, DaysInMonth(y, m))), 0)
    ensures var cur := DateTime(Date(y, m, d), 0);
      ValidDateTime(last) && Before(cur, last) && cur.date != MaxDate
      && AddDay(cur) == (if d < DaysInMonth(y, m) then DateTime(Date(y, m, d + 1), 0) else last)
  {
  }

  // ---------------------------------------------------------------------------
  // Month navigation

  /** `_adv_month(dt_in, months)`: the first of the month `months` months away,
      keeping the time of day; `replace` raises ValueError when the target
      year leaves 1..9999. */
  function AdvMonth(dtIn: DateTime, months: int): (r: Result<DateTime>)
    requires ValidDateTime(dtIn)
    ensures r.Ok? <==> MinYear <= (MonthIndex(dtIn.date) + months) / 12 <= MaxYear
    ensures r.Err? ==> r.error == ValueError
    ensures r.Ok? ==>
      ValidDateTime(r.value) && r.value.date.day == 1 && r.value.micros == dtIn.micros
      && MonthIndex(r.value.date) == MonthIndex(dtIn.date) + months
  {
    var y, m := dtIn.date.year, dtIn.date.month;
    var targetYear := y + (m - 1 + months) / 12;
    var targetMonth := (m + months - 1) % 12 + 1;
    assert MonthIndex(dtIn.date) + months == 12 * targetYear + (targetMonth - 1) by {
      var k := m - 1 + months;
      assert k == 12 * (k / 12) + k % 12;
    }
    assert (MonthIndex(dtIn.date) + months) / 12 == targetYear;
    if MinYear <= targetYear <= MaxYear then
      Ok(DateTime(Date(targetYear, targetMonth, 1), dtIn.micros))
    else
      Err(ValueError)
  }

  /** Two dates with the same month index and the same day lie in the same month. */
  lemma MonthIndexDetermines(a: Date, b: Date)
    requires 1 <= a.month <= 12 && 1 <= b.month <= 12
    requires MonthIndex(a) == MonthIndex(b)
    ensures a.year == b.year && a.month == b.month
  {
  }

  /** Advancing by n and then by -n returns the first of the original month. */
  lemma AdvMonthInverse(d: DateTime, n: int)
    requires ValidDateTime(d) && AdvMonth(d, n).Ok?
    ensures AdvMonth(AdvMonth(d, n).value, -n) == Ok(DateTime(Date(d.date.year, d.date.month, 1), d.micros))
  {
    var there := AdvMonth(d, n).value;
    var back := AdvMonth(there, -n);
    assert (MonthIndex(there.date) - n) / 12 == d.date.year;
    MonthIndexDetermines(back.value.date, d.date);
  }

  /** Advancing by 12 or -12 keeps the month and moves the year by one. */
  lemma AdvMonthYear(d: DateTime)
    requires ValidDateTime(d)
    ensures d.date.year < MaxYear ==>
      AdvMonth(d, 12) == Ok(DateTime(Date(d.date.year + 1, d.date.month, 1), d.micros))
    ensures d.date.year == MaxYear ==> AdvMonth(d, 12) == Err(ValueError)
    ensures MinYear < d.date.year ==>
      AdvMonth(d, -12) == Ok(DateTime(Date(d.date.year - 1, d.date.month, 1), d.micros))
    ensures d.date.year == MinYear ==> AdvMonth(d, -12) == Err(ValueError)
  {
    if d.date.year < MaxYear {
      MonthIndexDetermines(AdvMonth(d, 12).value.date, Date(d.date.year + 1, d.date.month, 1));
    }
    if MinYear < d.date.year {
      MonthIndexDetermines(AdvMonth(d, -12).value.date, Date(d.date.year - 1, d.date.month, 1));
    }
  }

  /** Going back one month from January gives December of the previous year. */
  lemma AdvMonthFromJanuary(d: DateTime)
    requires ValidDateTime(d) && d.date.month == 1 && MinYear < d.date.year
    ensures AdvMonth(d, -1) == Ok(DateTime(Date(d.date.year - 1, 12, 1), d.micros))
  {
    MonthIndexDetermines(AdvMonth(d, -1).value.date, Date(d.date.year - 1, 12, 1));
  }

  // ---------------------------------------------------------------------------
  // Weekday header and grid layout

  /** The grid column of a day: its weekday counted from Sunday = 0. */
  function SundayIndex(d: Date): (c: int)
    requires ValidDate(d)
    ensures 0 <= c < 7
  {
    (Weekday(d) + 1) % 7
  }

  /** Column 0 holds exactly the Sundays. */
  lemma SundayFirst(d: Date)
    requires ValidDate(d)
    ensures SundayIndex(d) == 0 <==> Weekday(d) == 6
  {
    var w := Weekday(d);
    assert 0 <= w < 7;
  }

  /** The Sunday-first weekday is the ordinal modulo 7 (0001-01-01 was a Monday). */
  lemma SundayIndexIsOrdinalMod(d: Date)
    requires ValidDate(d)
    ensures SundayIndex(d) == Ordinal(d) % 7
  {
    var o := Ordinal(d);
    ModSum(o + 6, 1);
    ModSum(o, 7);
    ModSum(o, 0);
  }

  /** `dow_index_list`: the weekday (`%a`) of each day of the reference week,
      2017-10-01 to 2017-10-07, here as `date.weekday()` indices: Sunday (6)
      first, then Monday (0) to Saturday (5). */
  method DowIndexList() returns (dows: seq<int>)
    ensures |dows| == 7 && forall j :: 0 <= j < 7 ==> dows[j] == (j + 6) % 7
  {
    ReferenceOrdinals();
    dows := WeekdaysOfWeek(ReferenceSunday, ReferenceWeekEnd);
  }

  /** The loop of `dow_index_list` over the days of a week from `start` to
      `end`: the weekday of each day, in order. From a Sunday, that is
      Sunday (6) first, then Monday (0) to Saturday (5). */
  method WeekdaysOfWeek(start: DateTime, end: DateTime) returns (dows: seq<int>)
    requires ValidDateTime(start) && ValidDateTime(end) && start.micros == end.micros
    requires Ordinal(start.date) % 7 == 0 && Ordinal(end.date) == Ordinal(start.date) + 7
    ensures |dows| == 7 && forall j :: 0 <= j < 7 ==> dows[j] == (j + 6) % 7
  {
    var days, _ := IterDate(start, end);
    WeekFromSunday(start, end);
    dows := [];
    for k := 0 to |days|
      invariant |dows| == k
      invariant forall j :: 0 <= j < k ==> dows[j] == Weekday(days[j].date)
    {
      dows := dows + [Weekday(days[k].date)];
    }
  }

  /** Seven days from a Sunday have weekdays 6, 0, 1, ..., 5. */
  lemma WeekFromSunday(start: DateTime, end: DateTime)
    requires ValidDateTime(start) && ValidDateTime(end) && start.micros == end.micros
    requires Ordinal(start.date) % 7 == 0 && Ordinal(end.date) == Ordinal(start.date) + 7
    ensures var days := DateRange(start, end).0;
      |days| == 7 && forall k :: 0 <= k < 7 ==> ValidDate(days[k].date) && Weekday(days[k].date) == (k + 6) % 7
  {
    RangeShape(start, end);
    BeforeByOrdinal(start, end);
    var days := DateRange(start, end).0;
    var o := Ordinal(start.date);
    forall k | 0 <= k < 7
      ensures ValidDate(days[k].date) && Weekday(days[k].date) == (k + 6) % 7
    {
      WeekdayAfterSunday(days[k].date, o, k);
    }
  }

  /** The day k days after a day whose ordinal is a multiple of 7 (a Sunday)
      has weekday (k + 6) % 7. */
  lemma WeekdayAfterSunday(d: Date, o: int, k: int)
    requires ValidDate(d) && o % 7 == 0 && Ordinal(d) == o + k
    ensures Weekday(d) == (k + 6) % 7
  {
    ModSum(o, k + 6);
  }

  lemma ReferenceOrdinals()
    ensures Ordinal(ReferenceSunday.date) == 736603
    ensures Ordinal(ReferenceWeekEnd.date) == 736610
  {
    DaysBeforeYearClosedForm(2017);
  }

  /** Python's `list.index`: the first position of `x`, or None where it raises ValueError. */
  function IndexOf(s: seq<int>, x: int): (r: Option<nat>)
    ensures r.Some? <==> x in s
    ensures r.Some? ==> r.value < |s| && s[r.value] == x && forall j :: 0 <= j < r.value ==> s[j] != x
  {
    if s == [] then None
    else if s[0] == x then Some(0)
    else match IndexOf(s[1..], x)
      case None => None
      case Some(i) => Some(i + 1)
  }

  /** Looking a weekday up in the header list gives the Sunday-first column. */
  lemma HeaderColumn(dows: seq<int>, d: Date)
    requires |dows| == 7 && forall j :: 0 <= j < 7 ==> dows[j] == (j + 6) % 7
    requires ValidDate(d)
    ensures IndexOf(dows, Weekday(d)) == Some(SundayIndex(d))
  {
    var w, c := Weekday(d), SundayIndex(d);
    assert dows[c] == w;
    forall j | 0 <= j < c
      ensures dows[j] != w
    {
    }
  }

  /** One day button: the day it stands for, its grid cell, whether it has the
      selection colour, and whether it is disabled. */
  datatype DayButton = DayButton(day: DateTime, row: int, column: int, highlighted: bool, disabled: bool)

  predicate ValidMonth(y: int, m: int) {
    MinYear <= y <= MaxYear && 1 <= m <= 12
  }

  /** The button for day i + 1 of month m of year y: column SundayIndex, row
      WeekRow plus the number of whole weeks between the Sunday starting the
      first row and this day. */
  function DayCell(y: int, m: int, i: int, selected: DateTime, earliest: DateTime, latest: DateTime): (b: DayButton)
    requires ValidMonth(y, m) && 0 <= i < DaysInMonth(y, m)
  {
    var day := DateTime(Date(y, m, i + 1), 0);
    var w0 := SundayIndex(Date(y, m, 1));
    DayButton(day, WeekRow + (w0 + i) / 7, (w0 + i) % 7,
              day == selected, Before(day, earliest) || Before(latest, day))
  }

  /** The buttons `make_calendar_grid(this_month)` lays out, or the exception
      `_first_and_last_days` raises. */
  function MonthGrid(thisMonth: DateTime, selected: DateTime, earliest: DateTime, latest: DateTime)
    : (r: Result<seq<DayButton>>)
    requires ValidDateTime(thisMonth)
    ensures r.Err? <==> FirstAndLastDays(thisMonth).Err?
    ensures r.Err? ==> r.error == OverflowError
    ensures r.Ok? ==> |r.value| == DaysInMonth(thisMonth.date.year, thisMonth.date.month)
  {
    var y, m := thisMonth.date.year, thisMonth.date.month;
    if FirstAndLastDays(thisMonth).Err? then Err(OverflowError)
    else Ok(seq(DaysInMonth(y, m), i requires 0 <= i < DaysInMonth(y, m) => DayCell(y, m, i, selected, earliest, latest)))
  }

  /** The column of day i is (SundayIndex(day 1) + i) mod 7. */
  lemma ColumnOfDay(y: int, m: int, i: int)
    requires ValidMonth(y, m) && 0 <= i < DaysInMonth(y, m)
    ensures SundayIndex(Date(y, m, i + 1)) == (SundayIndex(Date(y, m, 1)) + i) % 7
  {
    var o := Ordinal(Date(y, m, 1));
    assert Ordinal(Date(y, m, i + 1)) == o + i;
    SundayIndexIsOrdinalMod(Date(y, m, 1));
    SundayIndexIsOrdinalMod(Date(y, m, i + 1));
    ModSum(o, i);
  }

  /** One step of the layout loop: starting day i with the row counter of the
      previous day, moving down on a Sunday other than day 1 lands the day in
      the row and column of DayCell. */
  lemma RowStep(y: int, m: int, i: int, row: int)
    requires ValidMonth(y, m) && 0 <= i < DaysInMonth(y, m)
    requires row == WeekRow + (if i == 0 then 0 else (SundayIndex(Date(y, m, 1)) + i - 1) / 7)
    ensures var col := SundayIndex(Date(y, m, i + 1));
      (if col == 0 && i > 0 then row + 1 else row) == WeekRow + (SundayIndex(Date(y, m, 1)) + i) / 7
  {
    ColumnOfDay(y, m, i);
    if i > 0 {
      DivStep(SundayIndex(Date(y, m, 1)) + i);
    }
  }

  /** A month span yields as many days as the month has. */
  lemma SpanCount(yearMonth: DateTime)
    requires ValidDateTime(yearMonth) && FirstAndLastDays(yearMonth).Ok?
    ensures var (first, last) := FirstAndLastDays(yearMonth).value;
      |DateRange(first, last).0| == DaysInMonth(yearMonth.date.year, yearMonth.date.month)
  {
    MonthSpan(yearMonth);
  }

  /** Appending element k to a prefix of length k gives the prefix of length k + 1. */
  lemma AppendNext<T>(a: seq<T>, g: seq<T>, k: int)
    requires 0 <= k < |g|
    ensures (a + g[..k]) + [g[k]] == a + g[..k + 1]
  {
    assert g[..k + 1] == g[..k] + [g[k]];
  }

  /** One iteration of the layout loop: for the k-th day of the month span,
      looking its weekday up in the header list and moving the row counter
      down on a Sunday after day 1 builds exactly button k of MonthGrid. */
  lemma LayoutStep(thisMonth: DateTime, firstDay: DateTime, days: seq<DateTime>, k: int, row: int,
                   dows: seq<int>, selected: DateTime, earliest: DateTime, latest: DateTime)
    requires ValidDateTime(thisMonth) && FirstAndLastDays(thisMonth).Ok?
    requires firstDay == FirstAndLastDays(thisMonth).value.0
    requires days == DateRange(firstDay, FirstAndLastDays(thisMonth).value.1).0 && 0 <= k < |days|
    requires |dows| == 7 && forall j :: 0 <= j < 7 ==> dows[j] == (j + 6) % 7
    requires row == WeekRow + (if k == 0 then 0 else (SundayIndex(firstDay.date) + k - 1) / 7)
    ensures ValidDate(days[k].date) && IndexOf(dows, Weekday(days[k].date)).Some?
    ensures var day, col := days[k], IndexOf(dows, Weekday(days[k].date)).value;
      var next := if col == 0 && Before(firstDay, day) then row + 1 else row;
      next == WeekRow + (SundayIndex(firstDay.date) + k) / 7
      && |MonthGrid(thisMonth, selected, earliest, latest).value| == |days|
      && MonthGrid(thisMonth, selected, earliest, latest).value[k]
         == DayButton(day, next, col, day == selected, Before(day, earliest) || Before(latest, day))
  {
    var y, m := thisMonth.date.year, thisMonth.date.month;
    MonthSpan(thisMonth);
    assert days[k] == DateTime(Date(y, m, k + 1), 0);
    assert firstDay == DateTime(Date(y, m, 1), 0);
    CellStep(y, m, k, row, dows, selected, earliest, latest);
  }

  /** LayoutStep for the day cell of day k + 1 of month m of year y. */
  lemma CellStep(y: int, m: int, k: int, row: int, dows: seq<int>,
                 selected: DateTime, earliest: DateTime, latest: DateTime)
    requires ValidMonth(y, m) && 0 <= k < DaysInMonth(y, m)
    requires |dows| == 7 && forall j :: 0 <= j < 7 ==> dows[j] == (j + 6) % 7
    requires row == WeekRow + (if k == 0 then 0 else (SundayIndex(Date(y, m, 1)) + k - 1) / 7)
    ensures ValidDate(Date(y, m, k + 1)) && IndexOf(dows, Weekday(Date(y, m, k + 1))).Some?
    ensures var day, col := DateTime(Date(y, m, k + 1), 0), IndexOf(dows, Weekday(Date(y, m, k + 1))).value;
      var next := if col == 0 && Before(DateTime(Date(y, m, 1), 0), day) then row + 1 else row;
      next == WeekRow + (SundayIndex(Date(y, m, 1)) + k) / 7
      && DayCell(y, m, k, selected, earliest, latest)
         == DayButton(day, next, col, day == selected, Before(day, earliest) || Before(latest, day))
  {
    HeaderColumn(dows, Date(y, m, k + 1));
    RowStep(y, m, k, row);
    ColumnOfDay(y, m, k);
  }

  /** The grid holds one button per day of the month, in date order: button i
      is the i-th value `_iter_date` yields over the month span, day i + 1. */
  lemma GridDays(thisMonth: DateTime, selected: DateTime, earliest: DateTime, latest: DateTime)
    requires ValidDateTime(thisMonth) && MonthGrid(thisMonth, selected, earliest, latest).Ok?
    ensures var g := MonthGrid(thisMonth, selected, earliest, latest).value;
      var span := FirstAndLastDays(thisMonth).value;
      var days := DateRange(span.0, span.1).0;
      |g| == |days|
      && forall i :: 0 <= i < |g| ==> g[i].day == days[i] && g[i].day.date.day == i + 1
  {
    MonthSpan(thisMonth);
  }

  /** Each column lies in 0..6 and is 0 exactly for Sundays (`weekday()` 6). */
  lemma GridColumns(thisMonth: DateTime, selected: DateTime, earliest: DateTime, latest: DateTime)
    requires ValidDateTime(thisMonth) && MonthGrid(thisMonth, selected, earliest, latest).Ok?
    ensures var g := MonthGrid(thisMonth, selected, earliest, latest).value;
      forall i :: 0 <= i < |g| ==>
        ValidDate(g[i].day.date) && g[i].column == SundayIndex(g[i].day.date)
        && 0 <= g[i].column < 7 && (g[i].column == 0 <==> Weekday(g[i].day.date) == 6)
  {
    var g := MonthGrid(thisMonth, selected, earliest, latest).value;
    var y, m := thisMonth.date.year, thisMonth.date.month;
    forall i | 0 <= i < |g|
      ensures ValidDate(g[i].day.date) && g[i].column == SundayIndex(g[i].day.date)
              && 0 <= g[i].column < 7 && (g[i].column == 0 <==> Weekday(g[i].day.date) == 6)
    {
      assert g[i] == DayCell(y, m, i, selected, earliest, latest);
      CellColumn(y, m, i, selected, earliest, latest);
    }
  }

  lemma CellColumn(y: int, m: int, i: int, selected: DateTime, earliest: DateTime, latest: DateTime)
    requires ValidMonth(y, m) && 0 <= i < DaysInMonth(y, m)
    ensures var c := DayCell(y, m, i, selected, earliest, latest);
      ValidDate(c.day.date) && c.column == SundayIndex(c.day.date)
      && 0 <= c.column < 7 && (c.column == 0 <==> Weekday(c.day.date) == 6)
  {
    ColumnOfDay(y, m, i);
    SundayFirst(Date(y, m, i + 1));
  }

  lemma DivStep(x: int)
    requires x >= 1
    ensures x / 7 == (x - 1) / 7 + (if x % 7 == 0 then 1 else 0)
  {
    assert x - 1 == 7 * ((x - 1) / 7) + (x - 1) % 7;
  }

  /** Row layout: day 1 sits in WeekRow, and each later day moves down one row
      exactly when it is a Sunday. */
  lemma GridRows(thisMonth: DateTime, selected: DateTime, earliest: DateTime, latest: DateTime)
    requires ValidDateTime(thisMonth) && MonthGrid(thisMonth, selected, earliest, latest).Ok?
    ensures var g := MonthGrid(thisMonth, selected, earliest, latest).value;
      g[0].row == WeekRow
      && forall i :: 1 <= i < |g| ==> g[i].row == g[i - 1].row + (if g[i].column == 0 then 1 else 0)
  {
    var g := MonthGrid(thisMonth, selected, earliest, latest).value;
    var y, m := thisMonth.date.year, thisMonth.date.month;
    forall i | 1 <= i < |g|
      ensures g[i].row == g[i - 1].row + (if g[i].column == 0 then 1 else 0)
    {
      RowStep(y, m, i, g[i - 1].row);
      ColumnOfDay(y, m, i);
    }
  }

  /** Rows stay within WeekRow .. WeekRow + 5 and no two days share a cell. */
  lemma GridCells(thisMonth: DateTime, selected: DateTime, earliest: DateTime, latest: DateTime)
    requires ValidDateTime(thisMonth) && MonthGrid(thisMonth, selected, earliest, latest).Ok?
    ensures var g := MonthGrid(thisMonth, selected, earliest, latest).value;
      (forall i :: 0 <= i < |g| ==> WeekRow <= g[i].row <= WeekRow + 5)
      && forall i, j :: 0 <= i < j < |g| ==> (g[i].row, g[i].column) != (g[j].row, g[j].column)
  {
    var g := MonthGrid(thisMonth, selected, earliest, latest).value;
    var y, m := thisMonth.date.year, thisMonth.date.month;
    var w0 := SundayIndex(Date(y, m, 1));
    forall i | 0 <= i < |g|
      ensures w0 + i == 7 * (g[i].row - WeekRow) + g[i].column
    {
      ColumnOfDay(y, m, i);
    }
  }

  /** With a selected date at midnight, exactly the selected day is highlighted:
      one button when the selection lies in the month, none otherwise. */
  lemma GridHighlight(thisMonth: DateTime, selected: DateTime, earliest: DateTime, latest: DateTime)
    requires ValidDateTime(thisMonth) && MonthGrid(thisMonth, selected, earliest, latest).Ok?
    requires ValidDateTime(selected) && IsMidnight(selected)
    ensures var g := MonthGrid(thisMonth, selected, earliest, latest).value;
      var inMonth := selected.date.year == thisMonth.date.year && selected.date.month == thisMonth.date.month;
      (inMonth ==> g[selected.date.day - 1].highlighted)
      && forall i :: 0 <= i < |g| && g[i].highlighted ==> inMonth && i == selected.date.day - 1
  {
  }

  /** With bounds at midnight, a day is disabled exactly when it lies before the
      earliest or after the latest day. */
  lemma GridDisabled(thisMonth: DateTime, selected: DateTime, earliest: DateTime, latest: DateTime)
    requires ValidDateTime(thisMonth) && MonthGrid(thisMonth, selected, earliest, latest).Ok?
    requires IsMidnight(earliest) && IsMidnight(latest)
    ensures var g := MonthGrid(thisMonth, selected, earliest, latest).value;
      forall i :: 0 <= i < |g| ==>
        (g[i].disabled <==> DateBefore(g[i].day.date, earliest.date) || DateBefore(latest.date, g[i].day.date))
  {
    var g := MonthGrid(thisMonth, selected, earliest, latest).value;
    forall i | 0 <= i < |g|
      ensures g[i].disabled <==> DateBefore(g[i].day.date, earliest.date) || DateBefore(latest.date, g[i].day.date)
    {
      var day := g[i].day;
      assert day.micros == 0;
      assert Before(day, earliest) <==> DateBefore(day.date, earliest.date);
      assert Before(latest, day) <==> DateBefore(latest.date, day.date);
    }
  }

  /** An earliest bound later than midnight disables its own day, since the
      day's button stands for that day at midnight; a latest bound later than
      midnight keeps its own day enabled. */
  lemma BoundsTimeOfDay(thisMonth: DateTime, selected: DateTime, earliest: DateTime, latest: DateTime, i: int)
    requires ValidDateTime(thisMonth) && MonthGrid(thisMonth, selected, earliest, latest).Ok?
    requires ValidDateTime(earliest) && ValidDateTime(latest)
    requires 0 <= i < DaysInMonth(thisMonth.date.year, thisMonth.date.month)
    ensures var b := MonthGrid(thisMonth, selected, earliest, latest).value[i];
      (b.day.date == earliest.date && earliest.micros > 0 ==> b.disabled)
      && (b.day.date == latest.date && DateBefore(earliest.date, b.day.date) ==> !b.disabled)
  {
    var y, m := thisMonth.date.year, thisMonth.date.month;
    assert MonthGrid(thisMonth, selected, earliest, latest).value[i] == DayCell(y, m, i, selected, earliest, latest);
  }

  /** A worked case: with bounds 2021-03-10 and 2021-03-20, the 9th and the
      21st of March 2021 are shown but disabled, the 10th and the 20th are not. */
  lemma BoundsExample(selected: DateTime)
    ensures var g := MonthGrid(DateTime(Date(2021, 3, 15), 0), selected,
                               DateTime(Date(2021, 3, 10), 0), DateTime(Date(2021, 3, 20), 0));
      g.Ok? && |g.value| == 31
      && g.value[8].disabled && g.value[20].disabled
      && !g.value[9].disabled && !g.value[19].disabled
  {
    var g := MonthGrid(DateTime(Date(2021, 3, 15), 0), selected,
                       DateTime(Date(2021, 3, 10), 0), DateTime(Date(2021, 3, 20), 0)).value;
    assert g[8].day == DateTime(Date(2021, 3, 9), 0);
    assert g[20].day == DateTime(Date(2021, 3, 21), 0);
    assert g[9].day == DateTime(Date(2021, 3, 10), 0);
    assert g[19].day == DateTime(Date(2021, 3, 20), 0);
  }

  /** The Python value passed as `time_jump`: an int (bool included), or anything else. */
  datatype MonthJump = IntJump(months: int) | NonIntJump

  /** The DatePicker widget's calendar state. */
  class DatePicker {
    var selectedDate: DateTime
    var currMonth: DateTime
    var earliestDate: DateTime
    var latestDate: DateTime
    /** The day buttons currently in the grid. */
    var dayButtons: seq<DayButton>
    /** The text of the month/year label above the grid. */
    var monthLabel: string
    /** `strftime`, given as a function of the datetime and the format. */
    const strftime: (DateTime, string) -> string

    ghost predicate Valid()
      reads this
    {
      ValidDateTime(selectedDate) && IsMidnight(selectedDate) && ValidDateTime(currMonth)
      && ValidDateTime(earliestDate) && ValidDateTime(latestDate)
    }

    /** The grid of the current month, which `update_month` shows. */
    function CurrentGrid(): (g: Result<seq<DayButton>>)
      reads this
      requires Valid()
    {
      MonthGrid(currMonth, selectedDate, earliestDate, latestDate)
    }

    /** The field assignments of `__init__`: the selection is the given date, or
        today, truncated to midnight, and the shown month is the selection. */
    constructor Init(currDate: Option<DateTime>, earliestDate: DateTime, latestDate: DateTime,
                     today: DateTime, strftime: (DateTime, string) -> string)
      requires ValidDateTime(today) && (currDate.Some? ==> ValidDateTime(currDate.value))
      requires ValidDateTime(earliestDate) && ValidDateTime(latestDate)
      ensures Valid()
      ensures selectedDate == Midnight(if currDate.Some? then currDate.value else today)
      ensures currMonth == selectedDate
      ensures this.earliestDate == earliestDate && this.latestDate == latestDate
      ensures dayButtons == [] && this.strftime == strftime
    {
      var d := if currDate.Some? then currDate.value else today;
      selectedDate := Midnight(d);
      currMonth := selectedDate;
      this.earliestDate := earliestDate;
      this.latestDate := latestDate;
      dayButtons := [];
      monthLabel := [];
      this.strftime := strftime;
    }

    /** `DatePicker(...)`: initialise, then `update_month`, whose exception
        (December 9999) aborts the construction. */
    static method Create(currDate: Option<DateTime>, earliestDate: DateTime, latestDate: DateTime,
                         today: DateTime, strftime: (DateTime, string) -> string)
      returns (r: Result<DatePicker>)
      requires ValidDateTime(today) && (currDate.Some? ==> ValidDateTime(currDate.value))
      requires ValidDateTime(earliestDate) && ValidDateTime(latestDate)
      ensures var sel := Midnight(if currDate.Some? then currDate.value else today);
        (r.Err? <==> FirstAndLastDays(sel).Err?)
        && (r.Err? ==> r.error == OverflowError)
        && (r.Ok? ==>
              fresh(r.value) && r.value.Valid()
              && r.value.selectedDate == sel && r.value.currMonth == sel
              && r.value.earliestDate == earliestDate && r.value.latestDate == latestDate
              && r.value.CurrentGrid() == Ok(r.value.dayButtons))
    {
      var p := new DatePicker.Init(currDate, earliestDate, latestDate, today, strftime);
      var err := p.UpdateMonth();
      if err.Some? {
        return Err(err.value);
      }
      return Ok(p);
    }

    /** `clear_calendar_grid`: destroys every day button and empties the list. */
    method ClearCalendarGrid()
      modifies this`dayButtons
      ensures dayButtons == []
    {
      dayButtons := [];
    }

    /** `make_calendar_grid(this_month)`: appends one button per day of the
        month, keeping a row counter that moves down on each Sunday after day 1. */
    method MakeCalendarGrid(thisMonth: DateTime) returns (err: Option<PyError>)
      requires Valid() && ValidDateTime(thisMonth)
      modifies this`dayButtons
      ensures var g := MonthGrid(thisMonth, selectedDate, earliestDate, latestDate);
        (g.Ok? ==> err == None && dayButtons == old(dayButtons) + g.value)
        && (g.Err? ==> err == Some(g.error) && dayButtons == old(dayButtons))
    {
      var row := WeekRow;
      var dows := DowIndexList();
      var span := FirstAndLastDays(thisMonth);
      if span.Err? {
        return Some(span.error);
      }
      var (firstDay, lastDay) := span.value;
      var days, overflow := IterDate(firstDay, lastDay);
      var selected, earliest, latest := selectedDate, earliestDate, latestDate;
      ghost var g := MonthGrid(thisMonth, selected, earliest, latest).value;
      ghost var before := dayButtons;
      SpanCount(thisMonth);
      for k := 0 to |days|
        invariant dayButtons == before + g[..k]
        invariant row == WeekRow + (if k == 0 then 0 else (SundayIndex(firstDay.date) + k - 1) / 7)
      {
        LayoutStep(thisMonth, firstDay, days, k, row, dows, selected, earliest, latest);
        var day := days[k];
        var dayOfWeek := IndexOf(dows, Weekday(day.date)).value;
        if dayOfWeek == 0 && Before(firstDay, day) {
          row := row + 1;
        }
        var highlighted := day == selected;
        var disabled := Before(day, earliest) || Before(latest, day);
        AppendNext(before, g, k);
        dayButtons := dayButtons + [DayButton(day, row, dayOfWeek, highlighted, disabled)];
      }
      assert g[..|days|] == g;
      err := None;
    }

    /** `update_month`: relabels the header, then clears and rebuilds the grid
        for `curr_month`. */
    method UpdateMonth() returns (err: Option<PyError>)
      requires Valid()
      modifies this`dayButtons, this`monthLabel
      ensures Valid()
      ensures monthLabel == strftime(currMonth, "%B %Y")
      ensures CurrentGrid().Ok? ==> err == None && dayButtons == CurrentGrid().value
      ensures CurrentGrid().Err? ==> err == Some(CurrentGrid().error) && dayButtons == []
    {
      monthLabel := strftime(currMonth, "%B %Y");
      ClearCalendarGrid();
      err := MakeCalendarGrid(currMonth);
    }

    /** `_change_curr_month(time_jump)`: a non-int jump raises TypeError and
        changes nothing; otherwise only `curr_month` moves, by `_adv_month`,
        and the grid is rebuilt. */
    method ChangeCurrMonth(timeJump: MonthJump) returns (err: Option<PyError>)
      requires Valid()
      modifies this`currMonth, this`dayButtons, this`monthLabel
      ensures Valid()
      ensures selectedDate == old(selectedDate)
      ensures earliestDate == old(earliestDate) && latestDate == old(latestDate)
      ensures timeJump.NonIntJump? ==> err == Some(TypeError) && unchanged(this)
      ensures timeJump.IntJump? && AdvMonth(old(currMonth), timeJump.months).Err? ==>
        err == Some(ValueError) && unchanged(this)
      ensures timeJump.IntJump? && AdvMonth(old(currMonth), timeJump.months).Ok? ==>
        currMonth == AdvMonth(old(currMonth), timeJump.months).value
        && monthLabel == strftime(currMonth, "%B %Y")
        && (CurrentGrid().Ok? ==> err == None && dayButtons == CurrentGrid().value)
        && (CurrentGrid().Err? ==> err == Some(CurrentGrid().error) && dayButtons == [])
    {
      if timeJump.NonIntJump? {
        return Some(TypeError);
      }
      var next := AdvMonth(currMonth, timeJump.months);
      if next.Err? {
        return Some(next.error);
      }
      currMonth := next.value;
      err := UpdateMonth();
    }

    /** Pressing day button i: a disabled button does nothing, an enabled one
        calls the day callback with its day. */
    function Press(i: nat): (r: Option<DateTime>)
      reads this
      requires i < |dayButtons|
      ensures r.Some? <==> !dayButtons[i].disabled
      ensures r.Some? ==> r.value == dayButtons[i].day
    {
      if dayButtons[i].disabled then None else Some(dayButtons[i].day)
    }

    /** With the grid of the current month shown and bounds at midnight, a
        press only ever reports a day within the inclusive bounds. */
    lemma PressWithinBounds(i: nat)
      requires Valid() && CurrentGrid() == Ok(dayButtons) && i < |dayButtons|
      requires IsMidnight(earliestDate) && IsMidnight(latestDate)
      ensures Press(i).Some? <==>
        !DateBefore(dayButtons[i].day.date, earliestDate.date) && !DateBefore(latestDate.date, dayButtons[i].day.date)
      ensures Press(i).Some? ==> Press(i).value.date.day == i + 1 && Press(i).value.date.month == currMonth.date.month
    {
      GridDisabled(currMonth, selectedDate, earliestDate, latestDate);
    }
  }
}
