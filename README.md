# Calendar logic of the tkext date widgets

This project is a Dafny model of the toolkit-independent part of `tkext/widgets.py`: the calendar arithmetic and widget state behind its two widgets.

- **`DatePicker`** shows one month as a Sunday-first grid of day buttons, with month and year navigation.
- **`DateField`** pairs a text field with that picker. It accepts typed dates in any of several formats, and it reports input errors to an optional callback.

Python's `datetime` and `calendar` behaviour is modelled in `calendar.dfy`:

- naive datetimes from year 1 to 9999;
- the proleptic Gregorian month lengths of `monthrange`;
- `toordinal`, `weekday`, `<` and the one-day step of `timedelta(days=1)`, including its OverflowError after 9999-12-31.

Python exceptions become `Err` values or `Some(error)` results (`wrappers.dfy`).

`date_picker.dfy` (module `Picker`) holds:

- the pure helpers `_first_and_last_days` and `_adv_month`, as functions;
- `_iter_date`, whose loop is proved against the function `DateRange`, and `dow_index_list`;
- the grid layout, specified by the function `MonthGrid`;
- the class `DatePicker`, whose methods `make_calendar_grid`, `clear_calendar_grid`, `update_month` and `_change_curr_month` update the fields the source updates.

`date_field.dfy` (module `Field`) holds:

- the normalisation of `date_format`;
- the first-match parsing loop of `_update_date_from_text`, which is proved against the function `CommitText`;
- `_update_date_from_picker` and `_error`, on the class `DateField`.

`strptime`, `strftime` and `today()` are parameters: a parser that may fail, a formatter, and a given datetime.

Three behaviours of the code that are easy to misread:

- **Text after a successful parse.** The text keeps exactly what the user typed. It is re-rendered in the first format only after a rejected input or a pick (`Field.CommitFirstMatch`).
- **`None` bounds.** `__init__` accepts `None` for either bound, but comparing a day with `None` (tkext/widgets.py:247) raises TypeError, so the bounds are modelled as required datetimes.
- **Inclusive bounds.** The earliest bound is inclusive only when it is at midnight, while the latest bound never disables its own day. The source compares each day, at midnight, with the bound's full datetime, so an earliest bound later than midnight disables its own day (`Picker.BoundsTimeOfDay`).

## Model

| member | source | states |
|---|---|---|
| Calendar.DaysInMonth | tkext/widgets.py:271 | every month has 28 to 31 days |
| Calendar.LeapYearLengths | tkext/widgets.py:271 | February has 29 days exactly in leap years, and a year has 366 days exactly when it is leap |
| Calendar.NextDay | tkext/widgets.py:273 | the day after a valid date other than 9999-12-31 is a valid, strictly later date |
| Calendar.AddDay | tkext/widgets.py:290-294 | adding one day keeps the time of day and gives a valid, strictly later datetime |
| Calendar.NextDayOrdinal | tkext/widgets.py:290-294 | the next day's ordinal is one more, across month and year ends |
| Calendar.DaysBeforeYearClosedForm | tkext/widgets.py:162-164 | the days before a year are 365 a year plus the leap days, CPython's closed form of `toordinal` |
| Calendar.OrdinalInYear | tkext/widgets.py:290-294 | a day's ordinal lies within the ordinals of its year |
| Calendar.OrdinalOrder | tkext/widgets.py:292 | Python's `<` on dates is the order of their ordinals, in both directions |
| Calendar.OrdinalInjective | tkext/widgets.py:292 | two valid dates with the same ordinal are equal |
| Calendar.BeforeByOrdinal | tkext/widgets.py:292 | `<` on datetimes compares day ordinals and then the time of day |
| Calendar.NextDayWeekday | tkext/widgets.py:164-165 | consecutive days have consecutive weekdays modulo 7 |
| Picker.FirstAndLastDays | tkext/widgets.py:266-274 | day 1 of the month at midnight, and midnight of day 1 of the following month, with December rolling into January; OverflowError exactly for December 9999 |
| Picker.SpanLength | tkext/widgets.py:266-274 | the two ends of the span are DaysInMonth days apart |
| Picker.IterDate | tkext/widgets.py:277-294 | the loop yields exactly `DateRange(start, end)`, together with the overflow flag |
| Picker.RangeShape | tkext/widgets.py:277-294 | the range has RangeCount values, in one-day steps at the time of day of `start`, each before `end`; it overflows exactly when 9999-12-31 at that time of day is before `end` |
| Picker.RangeSteps | tkext/widgets.py:290-294 | the i-th value is i days after `start`, at its time of day |
| Picker.RangeBelowEnd | tkext/widgets.py:292 | every value yielded is before `end` |
| Picker.RangeLength | tkext/widgets.py:290-294 | the number of values is the ordinal distance, plus one when `start`'s time of day is earlier than `end`'s; it is 0 when start >= end |
| Picker.RangeLinks | tkext/widgets.py:293-294 | each value after the first is the previous one plus one day |
| Picker.RangeOverflow | tkext/widgets.py:294 | stepping raises OverflowError exactly when the range reaches 9999-12-31 before `end` |
| Picker.RangeMembership | tkext/widgets.py:277-294 | a datetime at `start`'s time of day is yielded iff start <= it < end; nothing is yielded when start >= end |
| Picker.MonthSpan | tkext/widgets.py:232-233 | iterating over a month span yields each day of the month once, in order, from day 1, with no overflow |
| Picker.SpanCount | tkext/widgets.py:232-233 | a month span yields exactly DaysInMonth values |
| Picker.AdvMonth | tkext/widgets.py:297-304 | the result is day 1 at the same time of day, and its month index year*12+month-1 is the input's plus `months`; ValueError exactly when the target year leaves 1..9999 |
| Picker.AdvMonthInverse | tkext/widgets.py:297-304 | advancing by n and then by -n gives day 1 of the original month |
| Picker.AdvMonthYear | tkext/widgets.py:197-204 | advancing by 12 or -12 keeps the month and moves the year by one, and fails at years 9999 and 1 respectively |
| Picker.AdvMonthFromJanuary | tkext/widgets.py:199 | going back one month from January gives December of the previous year |
| Picker.SundayIndex | tkext/widgets.py:234 | the grid column of a day lies in 0..6 |
| Picker.SundayFirst | tkext/widgets.py:234-235 | column 0 holds exactly the Sundays (`weekday()` 6) |
| Picker.SundayIndexIsOrdinalMod | tkext/widgets.py:234 | the Sunday-first column is the ordinal modulo 7 |
| Picker.DowIndexList | tkext/widgets.py:156-166 | the header lists the weekdays of the reference week: Sunday first, then Monday to Saturday |
| Picker.WeekdaysOfWeek | tkext/widgets.py:163-166 | the loop collects the weekday of each day of a week starting on a Sunday, in order |
| Picker.WeekFromSunday | tkext/widgets.py:162-165 | the seven days from a Sunday have weekdays 6, 0, 1, ..., 5 |
| Picker.ReferenceOrdinals | tkext/widgets.py:162-164 | 2017-10-01 is a Sunday (ordinal 736603), and 2017-10-08 is seven days later |
| Picker.IndexOf | tkext/widgets.py:234 | `list.index`: the first position holding the value, or None exactly when the value is absent |
| Picker.HeaderColumn | tkext/widgets.py:234 | looking a day's weekday up in the header gives its Sunday-first column |
| Picker.MonthGrid | tkext/widgets.py:228-252 | one button per day of the month, or OverflowError exactly when the month span does |
| Picker.ColumnOfDay | tkext/widgets.py:234 | the column of day i+1 is the column of day 1 plus i, modulo 7 |
| Picker.RowStep | tkext/widgets.py:235-237 | moving down one row on each Sunday after day 1 puts day i+1 in row WeekRow plus the number of weeks begun since the first row |
| Picker.LayoutStep | tkext/widgets.py:233-252 | one loop iteration makes button k of the grid, and the row counter it leaves is the next day's row |
| Picker.CellStep | tkext/widgets.py:234-251 | the column found in the header, the updated row and the two flags are exactly the cell of day k+1 |
| Picker.GridDays | tkext/widgets.py:232-233 | button i stands for the i-th value of the month's iteration, day i+1 |
| Picker.GridColumns | tkext/widgets.py:234 | every column lies in 0..6 and is the day's Sunday-first weekday; column 0 holds exactly the Sundays |
| Picker.CellColumn | tkext/widgets.py:251 | the cell of a day lies in 0..6 at its Sunday-first weekday |
| Picker.GridRows | tkext/widgets.py:229-237 | day 1 sits in row `week_row` = 2, and each later day moves down exactly when it is a Sunday |
| Picker.GridCells | tkext/widgets.py:235-251 | rows stay within 2..7 and no two days share a (row, column) cell |
| Picker.GridHighlight | tkext/widgets.py:239-242 | with a selection at midnight, exactly the selected day is highlighted, and no day when the selection is in another month |
| Picker.GridDisabled | tkext/widgets.py:247-248 | with bounds at midnight, a day is disabled iff it is before the earliest day or after the latest day |
| Picker.BoundsTimeOfDay | tkext/widgets.py:247-248 | an earliest bound later than midnight disables its own day, while the latest bound's own day stays enabled |
| Picker.BoundsExample | tkext/widgets.py:247-248 | with bounds 2021-03-10 and 2021-03-20, the 9th and the 21st are shown but disabled, while the 10th and the 20th are enabled |
| Picker.DatePicker.Init | tkext/widgets.py:179-191 | the selection is the given date, or today, at midnight; the shown month is the selection; the bounds are stored; the grid is empty |
| Picker.DatePicker.Create | tkext/widgets.py:168-193 | construction fails, with OverflowError, exactly when the grid of the selected month overflows; otherwise the grid shown is that month's |
| Picker.DatePicker.ClearCalendarGrid | tkext/widgets.py:254-257 | the button list becomes empty |
| Picker.DatePicker.MakeCalendarGrid | tkext/widgets.py:228-252 | appends exactly the buttons of MonthGrid to the existing list, or raises OverflowError and leaves the list alone |
| Picker.DatePicker.UpdateMonth | tkext/widgets.py:217-225 | relabels the header, then replaces the grid with exactly the current month's buttons |
| Picker.DatePicker.ChangeCurrMonth | tkext/widgets.py:259-263 | a non-int jump raises TypeError and changes nothing; otherwise only `curr_month` moves, by AdvMonth, and the grid is rebuilt; the selection and bounds never change |
| Picker.DatePicker.Press | tkext/widgets.py:245-248 | an enabled button reports its day to the day callback, and a disabled one reports nothing |
| Picker.DatePicker.PressWithinBounds | tkext/widgets.py:245-248 | pressing a button reports its day iff that day lies within the inclusive midnight bounds, and the day is day i+1 of the shown month |
| Field.CanonicalFormat | tkext/widgets.py:66 | the canonical format is element 0 of the allowed formats |
| Field.NormaliseFormats | tkext/widgets.py:51-56 | a string becomes a one-element list, a list or tuple keeps its order, and anything else is a TypeError |
| Field.NormaliseIdempotent | tkext/widgets.py:51-65 | normalising an already normalised format list changes nothing |
| Field.FirstMatch | tkext/widgets.py:105-113 | the first format, in order, under which the text parses; None exactly when no format parses |
| Field.CommitFirstMatch | tkext/widgets.py:105-113 | the first format that parses wins: the date becomes its parse, and the text and error log stay as they were |
| Field.CommitNoMatch | tkext/widgets.py:115-119 | with no matching format, the date is kept, the text is the date in the first format, and the callback, if any, receives one call with id `DateField:bad_string_format` |
| Field.CommitReportsIff | tkext/widgets.py:115-119 | an error is reported iff there is a callback and no format parses the text |
| Field.PickThenCommit | tkext/widgets.py:121-123 | committing the text a pick wrote changes nothing, when the first format reads back what it writes |
| Field.RetryAfterRejection | tkext/widgets.py:118 | after a rejection, committing again keeps the date and reports nothing more, when the first format reads back what it writes |
| Field.DateField.Init | tkext/widgets.py:65-79 | the text shows the date in the first allowed format; the error log is empty |
| Field.DateField.Create | tkext/widgets.py:44-66 | a bad `default_date` is a TypeError, checked first; a bad `date_format` is a TypeError; an empty format list is an IndexError; otherwise the date is the given one or today, and the formats are normalised |
| Field.DateField.Error | tkext/widgets.py:142-147 | the callback receives (msg, id) exactly when it is present |
| Field.DateField.UpdateDateFromText | tkext/widgets.py:95-119 | the loop leaves the field in the state CommitText describes |
| Field.DateField.UpdateDateFromPicker | tkext/widgets.py:121-123 | the date becomes the picked one, shown in the first format; the error log is unchanged |

## Left out

- **Tk and PIL.** All Tk and PIL work is left out: building frames, buttons, labels and entries, the `grid`/`pack` geometry, event bindings, the icon image, `make_header` and `_make_field_and_button`'s widgets, and the `interactive_text` flag (tkext/widgets.py:43, 59-63, 71-93, 195-215). These are GUI plumbing. A day button is reduced to its day, row, column and two flags, and destroying buttons is reduced to emptying the list.
- **`_open_datepicker` and popups.** `_open_datepicker` is left out, along with the popup's placement and destruction (tkext/widgets.py:124, 126-140). These are window management.
- **Callbacks.** The picker's day callback and `_default_callback` are left out. `Press` returns the day that the callback would receive.
- **print diagnostics.** The `print` diagnostics and the Python 2 `unicode` type test are left out.
- **strptime, strftime and the clock.** These are parameters. Only the ValueError that `strptime` raises on a mismatch is modelled as a failed parse. A list of formats is assumed to hold strings.
- **`%a` names.** Locale weekday abbreviations (`%a`) are replaced by `weekday()` indices. Distinct abbreviations give the same `list.index` positions.
- **isinstance checks.** The `isinstance` checks of `_first_and_last_days` and `_iter_date` (tkext/widgets.py:267-268, 285-288) cannot fail here, because their arguments are typed datetimes. The `curr_date` of `DatePicker` is likewise a datetime.
- **Bound values.** `None` bounds are left out; see above.
- Picker.AdvMonth: computes the target year as year + floor((month - 1 + months) / 12) in exact integers. The source sums two floating-point quotients and truncates with `int()` (tkext/widgets.py:301-302). Double-precision rounding in that sum gives a different year for some one-month jumps: from February of years 4, 16, 64, 256, 1024 and 4096, going back one month gives January of the year before; from 0001-12, going forward gives 0001-01; and from 0001-02, going back raises ValueError. Jumps of ±12 are not affected. The model gives the month index arithmetic that the code intends.
- Picker.DatePicker.ChangeCurrMonth: a Python `bool` passes the `isinstance(time_jump, int)` test. The model's `IntJump` covers that case, but the caller has to map the bool to 0 or 1.
