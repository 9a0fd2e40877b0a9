/** The calendar logic of the DateField widget: the list of accepted date
    formats, committing the text typed into the field, taking a date from the
    pop-up picker, and reporting input errors to the optional callback.
    `strptime` and `strftime` are parameters: a parser that may fail (None
    where Python raises ValueError) and a formatter. */
module Field {
  import opened Wrappers
  import opened Calendar

  /** The error id sent with a rejected text input. */
  const BadStringFormat := "DateField:bad_string_format"

  /** The default value of `date_format`. */
  const DefaultDateFormat := FormatString("%Y-%m-%d")

  /** The Python value passed as `default_date`: None, a datetime, or anything else. */
  datatype DateArg = NoDate | DateValue(value: DateTime) | OtherDate

  /** The Python value passed as `date_format`: a string, a list or tuple of
      strings, or anything else. */
  datatype FormatArg = FormatString(format: string) | FormatSequence(formats: seq<string>) | OtherFormat

  /** One call of the error callback: the message and the error id. */
  datatype ErrorCall = ErrorCall(msg: string, id: Option<string>)

  /** What a DateField is built with and never changes afterwards. */
  datatype Settings = Settings(
    formats: seq<string>,                          // allowed_date_formats, in order
    parse: (string, string) -> Option<DateTime>,   // strptime(text, format)
    format: (DateTime, string) -> string,          // date.strftime(format)
    hasErrorCallback: bool)                        // error_callback is not None

  predicate ValidSettings(c: Settings) {
    |c.formats| >= 1
  }

  /** The canonical format: the first allowed one, used whenever the field
      writes a date back into its text. */
  function CanonicalFormat(c: Settings): (r: string)
    requires ValidSettings(c)
    ensures r in c.formats && r == c.formats[0]
  {
    c.formats[0]
  }

  /** The part of a DateField that its handlers change. */
  datatype FieldState = FieldState(date: DateTime, text: string, errorLog: seq<ErrorCall>)

  // ---------------------------------------------------------------------------
  // Formats

  /** The `date_format` handling of `__init__`: a string becomes a one-element
      tuple, a list or tuple is kept in order, anything else is a TypeError. */
  function NormaliseFormats(arg: FormatArg): (r: Result<seq<string>>)
    ensures r.Err? <==> arg.OtherFormat?
    ensures r.Err? ==> r.error == TypeError
    ensures arg.FormatString? ==> r.Ok? && |r.value| == 1 && r.value[0] == arg.format
    ensures arg.FormatSequence? ==> r.Ok? && r.value == arg.formats
  {
    match arg
    case FormatString(f) => Ok([f])
    case FormatSequence(fs) => Ok(fs)
    case OtherFormat => Err(TypeError)
  }

  /** Normalising an already normalised format list changes nothing, as
      `tuple(t)` is `t` for a tuple. */
  lemma NormaliseIdempotent(arg: FormatArg)
    requires NormaliseFormats(arg).Ok?
    ensures NormaliseFormats(FormatSequence(NormaliseFormats(arg).value)) == NormaliseFormats(arg)
  {
  }

  // ---------------------------------------------------------------------------
  // Committing typed text

  /** The index of the first format, from position i on, under which `text`
      parses; None if none does. */
  function FirstMatch(parse: (string, string) -> Option<DateTime>, text: string, formats: seq<string>, i: nat)
    : (r: Option<nat>)
    requires i <= |formats|
    ensures r.Some? ==>
      i <= r.value < |formats| && parse(text, formats[r.value]).Some?
      && forall j :: i <= j < r.value ==> parse(text, formats[j]).None?
    ensures r.None? ==> forall j :: i <= j < |formats| ==> parse(text, formats[j]).None?
    decreases |formats| - i
  {
    if i == |formats| then None
    else if parse(text, formats[i]).Some? then Some(i)
    else FirstMatch(parse, text, formats, i + 1)
  }

  /** The message `_update_date_from_text` reports for rejected input. */
  function BadFormatMessage(text: string): (msg: string) {
    "Date input \"" + text + "\" does not match any of the allowed date formats"
  }

  /** `_error(msg, id)`: the callback receives (msg, id) when there is one. */
  function Reported(log: seq<ErrorCall>, c: Settings, msg: string, id: Option<string>): (r: seq<ErrorCall>) {
    if c.hasErrorCallback then log + [ErrorCall(msg, id)] else log
  }

  /** The state after `_update_date_from_text`: the date parsed by the first
      matching format, or, when none matches, the old date with its canonical
      text restored and the error reported. */
  function CommitText(s: FieldState, c: Settings): (t: FieldState)
    requires ValidSettings(c)
  {
    match FirstMatch(c.parse, s.text, c.formats, 0)
    case Some(i) => s.(date := c.parse(s.text, c.formats[i]).value)
    case None =>
      FieldState(s.date, c.format(s.date, CanonicalFormat(c)),
                 Reported(s.errorLog, c, BadFormatMessage(s.text), Some(BadStringFormat)))
  }

  /** The first format that parses the text wins: the date becomes its parse,
      and the text and the error log are left alone. */
  lemma CommitFirstMatch(s: FieldState, c: Settings, j: nat)
    requires ValidSettings(c) && j < |c.formats|
    requires c.parse(s.text, c.formats[j]).Some?
    requires forall k :: 0 <= k < j ==> c.parse(s.text, c.formats[k]).None?
    ensures CommitText(s, c) == FieldState(c.parse(s.text, c.formats[j]).value, s.text, s.errorLog)
  {
  }

  /** When no format parses the text, the date is unchanged, the text is the
      canonical rendering of that date, and the callback, if any, receives
      one message with the id `DateField:bad_string_format`. */
  lemma CommitNoMatch(s: FieldState, c: Settings)
    requires ValidSettings(c)
    requires forall k :: 0 <= k < |c.formats| ==> c.parse(s.text, c.formats[k]).None?
    ensures var t := CommitText(s, c);
      t.date == s.date && t.text == c.format(s.date, CanonicalFormat(c))
      && (c.hasErrorCallback ==> t.errorLog == s.errorLog + [ErrorCall(BadFormatMessage(s.text), Some(BadStringFormat))])
      && (!c.hasErrorCallback ==> t.errorLog == s.errorLog)
  {
  }

  /** A commit reports an error exactly when no format parses the text, and
      then only if there is a callback; otherwise the log is untouched. */
  lemma CommitReportsIff(s: FieldState, c: Settings)
    requires ValidSettings(c)
    ensures CommitText(s, c).errorLog != s.errorLog <==>
      c.hasErrorCallback && forall k :: 0 <= k < |c.formats| ==> c.parse(s.text, c.formats[k]).None?
  {
    var t := CommitText(s, c);
    if FirstMatch(c.parse, s.text, c.formats, 0).None? && c.hasErrorCallback {
      assert |t.errorLog| == |s.errorLog| + 1;
    }
  }

  // ---------------------------------------------------------------------------
  // Picking a date

  /** The state after `_update_date_from_picker(d)`: date d, shown in the
      canonical format. */
  function Pick(s: FieldState, d: DateTime, c: Settings): (t: FieldState)
    requires ValidSettings(c)
  {
    FieldState(d, c.format(d, CanonicalFormat(c)), s.errorLog)
  }

  /** Committing the text a pick wrote keeps the picked date, and changes
      nothing at all, when the canonical format reads back what it writes. */
  lemma PickThenCommit(s: FieldState, d: DateTime, c: Settings)
    requires ValidSettings(c)
    requires c.parse(c.format(d, CanonicalFormat(c)), CanonicalFormat(c)) == Some(d)
    ensures CommitText(Pick(s, d, c), c) == Pick(s, d, c)
  {
    CommitFirstMatch(Pick(s, d, c), c, 0);
  }

  /** After a rejected input the text is the canonical rendering of the kept
      date, so committing again keeps that date and reports nothing more,
      when the canonical format reads back what it writes. */
  lemma RetryAfterRejection(s: FieldState, c: Settings)
    requires ValidSettings(c)
    requires FirstMatch(c.parse, s.text, c.formats, 0).None?
    requires c.parse(c.format(s.date, CanonicalFormat(c)), CanonicalFormat(c)) == Some(s.date)
    ensures CommitText(s, c).date == s.date
    ensures CommitText(CommitText(s, c), c) == CommitText(s, c)
  {
    CommitFirstMatch(CommitText(s, c), c, 0);
  }

  // ---------------------------------------------------------------------------
  // The widget

  /** The DateField widget's date state. */
  class DateField {
    /** The current date. */
    var date: DateTime
    /** The contents of the text field (`_date_string`). */
    var text: string
    /** The calls made to the error callback so far. */
    var errorLog: seq<ErrorCall>
    const settings: Settings

    predicate Valid() {
      ValidSettings(settings)
    }

    function State(): (s: FieldState)
      reads this
    {
      FieldState(date, text, errorLog)
    }

    /** The field assignments of `__init__` and `_make_field_and_button`: the
        text shows the date in the canonical format. */
    constructor Init(date: DateTime, settings: Settings)
      requires ValidSettings(settings)
      ensures Valid() && this.settings == settings
      ensures State() == FieldState(date, settings.format(date, CanonicalFormat(settings)), [])
    {
      this.date := date;
      this.settings := settings;
      text := settings.format(date, settings.formats[0]);
      errorLog := [];
    }

    /** `DateField(parent, default_date, date_format, error_callback)`: a
        default date that is neither None nor a datetime is a TypeError,
        checked first; then a `date_format` of the wrong type is a TypeError;
        then an empty format list fails at `allowed_date_formats[0]` with
        IndexError. None means `today`. The defaults are those of
        `DateField.__init__`: no date, `%Y-%m-%d`, and no error callback. */
    static method Create(defaultDate: DateArg := NoDate, dateFormat: FormatArg := DefaultDateFormat, today: DateTime,
                         parse: (string, string) -> Option<DateTime>, format: (DateTime, string) -> string,
                         hasErrorCallback: bool := false)
      returns (r: Result<DateField>)
      ensures defaultDate.OtherDate? ==> r == Err(TypeError)
      ensures !defaultDate.OtherDate? && dateFormat.OtherFormat? ==> r == Err(TypeError)
      ensures !defaultDate.OtherDate? && dateFormat.FormatSequence? && dateFormat.formats == []
              ==> r == Err(IndexError)
      ensures r.Ok? ==>
        var formats := NormaliseFormats(dateFormat).value;
        var d := if defaultDate.DateValue? then defaultDate.value else today;
        fresh(r.value) && r.value.Valid()
        && r.value.settings == Settings(formats, parse, format, hasErrorCallback)
        && r.value.State() == FieldState(d, format(d, formats[0]), [])
      ensures r.Err? <==> defaultDate.OtherDate? || dateFormat.OtherFormat?
                          || (dateFormat.FormatSequence? && dateFormat.formats == [])
    {
      var d: DateTime;
      match defaultDate {
        case NoDate => d := today;
        case DateValue(v) => d := v;
        case OtherDate => return Err(TypeError);
      }
      var formats := NormaliseFormats(dateFormat);
      if formats.Err? {
        return Err(formats.error);
      }
      if |formats.value| == 0 {
        return Err(IndexError);
      }
      var f := new DateField.Init(d, Settings(formats.value, parse, format, hasErrorCallback));
      return Ok(f);
    }

    /** `_error(msg, id)`. */
    method Error(msg: string, id: Option<string>)
      modifies this`errorLog
      ensures errorLog == Reported(old(errorLog), settings, msg, id)
    {
      if settings.hasErrorCallback {
        errorLog := errorLog + [ErrorCall(msg, id)];
      }
    }

    /** `_update_date_from_text`: tries the allowed formats in order and takes
        the first that parses; if none does, restores the text of the current
        date and reports the input. */
    method UpdateDateFromText()
      requires Valid()
      modifies this`date, this`text, this`errorLog
      ensures State() == CommitText(old(State()), settings)
    {
      var i := 0;
      var newDateString := text;
      while i < |settings.formats|
        invariant 0 <= i <= |settings.formats|
        invariant State() == old(State())
        invariant FirstMatch(settings.parse, newDateString, settings.formats, i)
                  == FirstMatch(settings.parse, newDateString, settings.formats, 0)
      {
        var newDate := settings.parse(newDateString, settings.formats[i]);
        if newDate.None? {
          i := i + 1;
        } else {
          date := newDate.value;
          return;
        }
      }
      text := settings.format(date, settings.formats[0]);
      Error(BadFormatMessage(newDateString), Some(BadStringFormat));
    }

    /** `_update_date_from_picker(new_date)`: takes the picked date and shows
        it in the canonical format. */
    method UpdateDateFromPicker(newDate: DateTime)
      requires Valid()
      modifies this`date, this`text
      ensures State() == Pick(old(State()), newDate, settings)
    {
      date := newDate;
      text := settings.format(date, settings.formats[0]);
    }
  }
}
