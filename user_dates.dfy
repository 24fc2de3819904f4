/** Date utilities of the report generator (src/SBReportGenerator/utils/user_dates.py):
    parsing and normalising textual dates, sorting them, picking the latest one, and
    enumerating a window of consecutive days. "Today" is a parameter. */
module UserDates {
  import opened Errors
  import opened PyStr
  import opened PyList
  import opened Calendar

  // ---------------------------------------------------------------------------
  // strptime and strftime for the four day-month-year formats

  /** A `strptime` format `%d<sep>%m<sep>%Y` (four-digit year) or `%d<sep>%m<sep>%y`. */
  datatype DateFormat = DateFormat(sep: char, fourDigitYear: bool)

  const DashFull := DateFormat('-', true)    // "%d-%m-%Y"
  const SlashFull := DateFormat('/', true)   // "%d/%m/%Y"
  const DashShort := DateFormat('-', false)  // "%d-%m-%y"
  const SlashShort := DateFormat('/', false) // "%d/%m/%y"

  /** The formats `format_date` tries, in order. */
  const Formats: seq<DateFormat> := [DashFull, SlashFull, DashShort, SlashShort]

  /** Returned by `format_date` when no format matches. */
  const InvalidDateFormat := "Invalid date format"

  predicate IsDigit(c: char)
  {
    '0' <= c <= '9'
  }

  function DigitValue(c: char): int
    requires IsDigit(c)
  {
    c as int - '0' as int
  }

  function DigitChar(n: int): (c: char)
    requires 0 <= n <= 9
    ensures IsDigit(c) && DigitValue(c) == n
  {
    (n + '0' as int) as char
  }

  /** The number a two-digit field spells. */
  function TwoDigits(a: char, b: char): int
    requires IsDigit(a) && IsDigit(b)
  {
    10 * DigitValue(a) + DigitValue(b)
  }

  /** `%d` as `_strptime` matches it: `3[01]|[12]\d|0[1-9]|[1-9]| [1-9]`. */
  function DayToken(t: string): (r: Option<int>)
    ensures r.Some? ==> 1 <= r.value <= 31
  {
    if |t| == 1 && '1' <= t[0] <= '9' then Some(DigitValue(t[0]))
    else if |t| == 2 && t[0] == ' ' && '1' <= t[1] <= '9' then Some(DigitValue(t[1]))
    else if |t| == 2 && (|| (t[0] == '3' && '0' <= t[1] <= '1')
                         || ('1' <= t[0] <= '2' && IsDigit(t[1]))
                         || (t[0] == '0' && '1' <= t[1] <= '9'))
    then Some(TwoDigits(t[0], t[1]))
    else None
  }

  /** `%m` as `_strptime` matches it: `1[0-2]|0[1-9]|[1-9]`. */
  function MonthToken(t: string): (r: Option<int>)
    ensures r.Some? ==> 1 <= r.value <= 12
  {
    if |t| == 1 && '1' <= t[0] <= '9' then Some(DigitValue(t[0]))
    else if |t| == 2 && ((t[0] == '1' && '0' <= t[1] <= '2') || (t[0] == '0' && '1' <= t[1] <= '9'))
    then Some(TwoDigits(t[0], t[1]))
    else None
  }

  /** `%Y` (`\d\d\d\d`) or `%y` (`\d\d`, where 00-68 mean 2000-2068 and 69-99 mean 1969-1999). */
  function YearToken(t: string, fourDigits: bool): (r: Option<int>)
    ensures r.Some? ==> 0 <= r.value <= MaxYear
    ensures r.Some? && !fourDigits ==> 1969 <= r.value <= 2068
  {
    if fourDigits then
      if |t| == 4 && IsDigit(t[0]) && IsDigit(t[1]) && IsDigit(t[2]) && IsDigit(t[3]) then
        Some(100 * TwoDigits(t[0], t[1]) + TwoDigits(t[2], t[3]))
      else None
    else
      if |t| == 2 && IsDigit(t[0]) && IsDigit(t[1]) then
        var yy := TwoDigits(t[0], t[1]);
        Some(if yy <= 68 then 2000 + yy else 1900 + yy)
      else None
  }

  /** `datetime.strptime(s, fmt)`; None stands for its ValueError. The three fields are
      digits (and the one space `%d` allows), never the separator, so a full match of the
      format is exactly a split into three matching fields, and the date must exist. */
  function Strptime(s: string, fmt: DateFormat): (r: Option<Date>)
    ensures r.Some? ==> IsValid(r.value)
  {
    var fields := Split(s, fmt.sep);
    if |fields| != 3 then None
    else
      match (DayToken(fields[0]), MonthToken(fields[1]), YearToken(fields[2], fmt.fourDigitYear))
      case (Some(day), Some(month), Some(year)) =>
        if IsValid(Date(day, month, year)) then Some(Date(day, month, year)) else None
      case _ => None
  }

  function Pad2(n: int): (s: string)
    requires 0 <= n <= 99
    ensures |s| == 2 && IsDigit(s[0]) && IsDigit(s[1]) && TwoDigits(s[0], s[1]) == n
  {
    [DigitChar(n / 10), DigitChar(n % 10)]
  }

  function Pad4(n: int): (s: string)
    requires 0 <= n <= 9999
    ensures |s| == 4 && IsDigit(s[0]) && IsDigit(s[1]) && IsDigit(s[2]) && IsDigit(s[3])
    ensures 100 * TwoDigits(s[0], s[1]) + TwoDigits(s[2], s[3]) == n
  {
    Pad2(n / 100) + Pad2(n % 100)
  }

  /** `date.strftime(fmt)` for a valid date: zero-padded day and month, and the year in four
      digits or as its last two. */
  function Strftime(d: Date, fmt: DateFormat): (s: string)
    requires IsValid(d)
    ensures |s| == if fmt.fourDigitYear then 10 else 8
    ensures s[2] == fmt.sep && s[5] == fmt.sep
    ensures forall i :: 0 <= i < |s| && i != 2 && i != 5 ==> IsDigit(s[i])
  {
    Pad2(d.day) + [fmt.sep] + Pad2(d.month) + [fmt.sep] + YearField(d.year, fmt.fourDigitYear)
  }

  function YearField(y: int, fourDigits: bool): (s: string)
    requires MinYear <= y <= MaxYear
    ensures forall i :: 0 <= i < |s| ==> IsDigit(s[i])
  {
    if fourDigits then Pad4(y) else Pad2(y % 100)
  }

  /** `date.strftime("%d-%m-%Y")`, the normal form of dates throughout the program. */
  function Render(d: Date): (s: string)
    requires IsValid(d)
    ensures |s| == 10 && s[2] == '-' && s[5] == '-'
  {
    Strftime(d, DashFull)
  }

  /** A string that is the `DD-MM-YYYY` rendering of a valid date. */
  predicate IsNormalized(s: string)
  {
    Strptime(s, DashFull).Some? && Render(Strptime(s, DashFull).value) == s
  }

  lemma SplitThree(a: string, b: string, c: string, sep: char)
    requires sep !in a && sep !in b && sep !in c
    ensures Split(a + [sep] + b + [sep] + c, sep) == [a, b, c]
  {
    assert a + [sep] + b + [sep] + c == a + [sep] + (b + [sep] + c);
    SplitCons(a, sep, b + [sep] + c);
    SplitCons(b, sep, c);
  }

  lemma DayTokenPad(n: int)
    requires 1 <= n <= 31
    ensures DayToken(Pad2(n)) == Some(n)
  {
  }

  lemma MonthTokenPad(n: int)
    requires 1 <= n <= 12
    ensures MonthToken(Pad2(n)) == Some(n)
  {
  }

  lemma YearTokenField(y: int, fourDigits: bool)
    requires MinYear <= y <= MaxYear
    requires !fourDigits ==> 1969 <= y <= 2068
    ensures YearToken(YearField(y, fourDigits), fourDigits) == Some(y)
  {
  }

  /** The three fields of a rendering, split at the format's separator. */
  lemma StrftimeFields(d: Date, fmt: DateFormat)
    requires IsValid(d) && !IsDigit(fmt.sep)
    ensures Split(Strftime(d, fmt), fmt.sep) == [Pad2(d.day), Pad2(d.month), YearField(d.year, fmt.fourDigitYear)]
  {
    var dd, mm, yy := Pad2(d.day), Pad2(d.month), YearField(d.year, fmt.fourDigitYear);
    assert fmt.sep !in dd && fmt.sep !in mm && fmt.sep !in yy;
    SplitThree(dd, mm, yy, fmt.sep);
  }

  /** Parsing the rendering in any of the four formats gives the date back; the two-digit
      formats can only express the years 1969 to 2068. */
  lemma StrptimeStrftime(d: Date, fmt: DateFormat)
    requires IsValid(d) && !IsDigit(fmt.sep)
    requires !fmt.fourDigitYear ==> 1969 <= d.year <= 2068
    ensures Strptime(Strftime(d, fmt), fmt) == Some(d)
  {
    StrftimeFields(d, fmt);
    DayTokenPad(d.day);
    MonthTokenPad(d.month);
    YearTokenField(d.year, fmt.fourDigitYear);
  }

  /** Every rendering is in normal form, and the normal form names its date uniquely. */
  lemma RenderIsNormalized(d: Date)
    requires IsValid(d)
    ensures Strptime(Render(d), DashFull) == Some(d)
    ensures IsNormalized(Render(d))
  {
    StrptimeStrftime(d, DashFull);
  }

  lemma RenderInjective(a: Date, b: Date)
    requires IsValid(a) && IsValid(b) && Render(a) == Render(b)
    ensures a == b
  {
    RenderIsNormalized(a);
    RenderIsNormalized(b);
  }

  // ---------------------------------------------------------------------------
  // format_date, format_dates

  /** The first of `formats` that parses `s`. */
  function FirstParse(s: string, formats: seq<DateFormat>): (r: Option<Date>)
    ensures r.Some? ==> IsValid(r.value)
    ensures r.None? <==> forall i :: 0 <= i < |formats| ==> Strptime(s, formats[i]).None?
    ensures r.Some? ==> exists i :: 0 <= i < |formats| && Strptime(s, formats[i]) == r
  {
    if formats == [] then None
    else if Strptime(s, formats[0]).Some? then Strptime(s, formats[0])
    else
      assert forall i :: 0 < i < |formats| ==> formats[1..][i - 1] == formats[i];
      FirstParse(s, formats[1..])
  }

  /** The date `format_date` reads in `s`, trying the formats in their fixed order. */
  function Normalize(s: string): (r: Option<Date>)
    ensures r.Some? ==> IsValid(r.value)
    ensures r.None? <==> forall i :: 0 <= i < |Formats| ==> Strptime(s, Formats[i]).None?
    ensures r.Some? ==> exists i :: 0 <= i < |Formats| && Strptime(s, Formats[i]) == r
  {
    FirstParse(s, Formats)
  }

  /** What `format_date(s)` returns. */
  function FormattedDate(s: string): (r: string)
    ensures r == InvalidDateFormat <==> Normalize(s).None?
    ensures r != InvalidDateFormat ==> IsNormalized(r) && Strptime(r, DashFull) == Normalize(s)
  {
    match Normalize(s)
    case None => InvalidDateFormat
    case Some(d) =>
      RenderIsNormalized(d);
      SentinelIsNotADate(Render(d));
      Render(d)
  }

  /** The sentinel is not itself a date in normal form. */
  lemma SentinelIsNotADate(s: string)
    requires IsNormalized(s)
    ensures s != InvalidDateFormat
  {
    var d := Strptime(s, DashFull).value;
    assert |s| == |Render(d)| == 10;
  }

  /** `format_date(date_str)`: the first successful parse, rendered as `DD-MM-YYYY`, or the
      sentinel string when no format matches. */
  method FormatDate(dateStr: string) returns (r: string)
    ensures r == FormattedDate(dateStr)
  {
    var formats := Formats;
    for i := 0 to |formats|
      invariant FirstParse(dateStr, formats) == FirstParse(dateStr, formats[i..])
    {
      var parsed := Strptime(dateStr, formats[i]);
      assert formats[i..][0] == formats[i];
      if parsed.Some? {
        return Render(parsed.value);
      }
      assert formats[i..][1..] == formats[i + 1..];
    }
    assert formats[|formats|..] == [];
    return InvalidDateFormat;
  }

  /** Already normalised dates come back unchanged: the first format matches them. */
  lemma FormatDateIdempotent(s: string)
    requires IsNormalized(s)
    ensures FormattedDate(s) == s
  {
    assert Normalize(s) == Strptime(s, DashFull);
  }

  /** A rendering contains no separator other than its own. */
  lemma StrftimeOtherSeparator(d: Date, fmt: DateFormat, c: char)
    requires IsValid(d) && !IsDigit(fmt.sep) && !IsDigit(c) && c != fmt.sep
    ensures Strptime(Strftime(d, fmt), DateFormat(c, true)).None?
    ensures Strptime(Strftime(d, fmt), DateFormat(c, false)).None?
  {
    var s := Strftime(d, fmt);
    var dd, mm, yy := Pad2(d.day), Pad2(d.month), YearField(d.year, fmt.fourDigitYear);
    assert s == dd + [fmt.sep] + mm + [fmt.sep] + yy;
    assert forall i :: 0 <= i < |s| ==> s[i] == fmt.sep || IsDigit(s[i]);
    assert c !in s;
    assert |Split(s, c)| == 1;
  }

  /** A two-digit year is not a four-digit one. */
  lemma ShortNotFull(d: Date, sep: char)
    requires IsValid(d) && !IsDigit(sep)
    ensures Strptime(Strftime(d, DateFormat(sep, false)), DateFormat(sep, true)).None?
  {
    StrftimeFields(d, DateFormat(sep, false));
  }

  /** A date written in any of the four accepted formats normalises to that date (the
      two-digit formats for the years they can express). */
  lemma NormalizeRoundTrip(d: Date, fmt: DateFormat)
    requires IsValid(d) && fmt in Formats
    requires !fmt.fourDigitYear ==> 1969 <= d.year <= 2068
    ensures Normalize(Strftime(d, fmt)) == Some(d)
    ensures FormattedDate(Strftime(d, fmt)) == Render(d)
  {
    var s := Strftime(d, fmt);
    StrptimeStrftime(d, fmt);
    if fmt == DashFull {
      assert Normalize(s) == Strptime(s, DashFull);
    } else if fmt == SlashFull {
      StrftimeOtherSeparator(d, fmt, '-');
      assert Normalize(s) == FirstParse(s, [SlashFull, DashShort, SlashShort]);
    } else if fmt == DashShort {
      ShortNotFull(d, '-');
      StrftimeOtherSeparator(d, fmt, '/');
      assert Normalize(s) == FirstParse(s, [SlashFull, DashShort, SlashShort]);
      assert FirstParse(s, [SlashFull, DashShort, SlashShort]) == FirstParse(s, [DashShort, SlashShort]);
    } else {
      ShortNotFull(d, '/');
      StrftimeOtherSeparator(d, fmt, '-');
      assert Normalize(s) == FirstParse(s, [SlashFull, DashShort, SlashShort]);
      assert FirstParse(s, [SlashFull, DashShort, SlashShort]) == FirstParse(s, [DashShort, SlashShort]);
      assert FirstParse(s, [DashShort, SlashShort]) == FirstParse(s, [SlashShort]);
    }
  }

  /** `format_dates(dates)`: `format_date` of every element, in order. */
  method FormatDates(dates: seq<string>) returns (r: seq<string>)
    ensures |r| == |dates|
    ensures forall i :: 0 <= i < |dates| ==> r[i] == FormattedDate(dates[i])
  {
    r := [];
    for i := 0 to |dates|
      invariant |r| == i
      invariant forall k :: 0 <= k < i ==> r[k] == FormattedDate(dates[k])
    {
      var f := FormatDate(dates[i]);
      r := r + [f];
    }
  }

  // ---------------------------------------------------------------------------
  // generate_date_array

  /** The `n` consecutive days ending at `anchor`, oldest first. */
  function Window(anchor: Date, n: nat): (w: seq<Date>)
    requires IsValid(anchor) && n < Ordinal(anchor)
    ensures |w| == n
    ensures forall k :: 0 <= k < n ==> IsValid(w[k]) && Ordinal(w[k]) == Ordinal(anchor) - (n - 1 - k)
  {
    seq(n, k requires 0 <= k < n => SubtractDays(anchor, n - 1 - k).value)
  }

  /** The window ends at its anchor, each day is the day after the one before it, and the
      days strictly increase. */
  lemma WindowIsConsecutive(anchor: Date, n: nat)
    requires IsValid(anchor) && n < Ordinal(anchor)
    ensures n > 0 ==> Window(anchor, n)[n - 1] == anchor
    ensures forall k :: 0 <= k < n - 1 ==> PrevDay(Window(anchor, n)[k + 1]) == Some(Window(anchor, n)[k])
    ensures forall i, j :: 0 <= i < j < n ==> Before(Window(anchor, n)[i], Window(anchor, n)[j])
  {
    assert SubtractDays(anchor, 0) == Some(anchor);
    WindowSteps(anchor, n);
    WindowIncreases(anchor, n);
  }

  lemma WindowSteps(anchor: Date, n: nat)
    requires IsValid(anchor) && n < Ordinal(anchor)
    ensures forall k :: 0 <= k < n - 1 ==> PrevDay(Window(anchor, n)[k + 1]) == Some(Window(anchor, n)[k])
  {
    var w := Window(anchor, n);
    forall k | 0 <= k < n - 1
      ensures PrevDay(w[k + 1]) == Some(w[k])
    {
      PrevDayByOrdinal(w[k], w[k + 1]);
    }
  }

  lemma WindowIncreases(anchor: Date, n: nat)
    requires IsValid(anchor) && n < Ordinal(anchor)
    ensures forall i, j :: 0 <= i < j < n ==> Before(Window(anchor, n)[i], Window(anchor, n)[j])
  {
    var w := Window(anchor, n);
    forall i, j | 0 <= i < j < n
      ensures Before(w[i], w[j])
    {
      OrdinalMonotone(w[i], w[j]);
    }
  }

  /** Days listed going back from `anchor`, one per step, reversed, are the window
      ending at `anchor`: a day is fixed by its ordinal. */
  lemma BackwardIsWindow(anchor: Date, n: nat, backward: seq<Date>)
    requires IsValid(anchor) && n < Ordinal(anchor) && |backward| == n
    requires forall k :: 0 <= k < n ==> IsValid(backward[k]) && Ordinal(backward[k]) == Ordinal(anchor) - k
    ensures Reverse(backward) == Window(anchor, n)
  {
    var w := Window(anchor, n);
    forall j | 0 <= j < n ensures Reverse(backward)[j] == w[j] {
      OrdinalInjective(w[j], backward[n - 1 - j]);
    }
  }

  /** The same for the rendered days. */
  lemma ReversedIsWindow(anchor: Date, n: nat, backward: seq<Date>, rendered: seq<string>)
    requires IsValid(anchor) && n < Ordinal(anchor) && |backward| == n && |rendered| == n
    requires forall k :: 0 <= k < n ==> IsValid(backward[k]) && Ordinal(backward[k]) == Ordinal(anchor) - k
    requires forall k :: 0 <= k < n ==> rendered[k] == Render(backward[k])
    ensures Reverse(rendered) == Map(Render, Window(anchor, n))
  {
    assert rendered == Map(Render, backward);
    MapReverse(Render, backward);
    BackwardIsWindow(anchor, n, backward);
  }

  /** What `generate_date_array(from_date, num_days)` gives: the rendered window of
      `num_days` days ending at `from_date`, or the exception it raises. */
  function DateArray(fromDate: string, numDays: int): (r: Result<seq<string>>)
    ensures r == Failure(InvalidDate) <==> Strptime(fromDate, DashFull).None?
    ensures r.Failure? ==> r.error == InvalidDate || r.error == DateOutOfRange
    ensures r.Success? ==> |r.value| == if numDays < 0 then 0 else numDays
  {
    match Strptime(fromDate, DashFull)
    case None => Failure(InvalidDate)
    case Some(anchor) =>
      if numDays < Ordinal(anchor)
      then Success(Map(Render, Window(anchor, if numDays < 0 then 0 else numDays)))
      else Failure(DateOutOfRange)
  }

  /** `generate_date_array(from_date, num_days)`: parse `from_date` as `DD-MM-YYYY`, then
      list the days back from it. */
  method GenerateDateArray(fromDate: string, numDays: int) returns (r: Result<seq<string>>)
    ensures r == DateArray(fromDate, numDays)
  {
    var parsed := Strptime(fromDate, DashFull);
    if parsed.None? {
      return Failure(InvalidDate);
    }
    r := DaysUpTo(parsed.value, numDays);
  }

  /** The dates listed are `num_days` dates in normal form, the last of them `from_date`'s
      date in normal form. */
  lemma DateArrayEndsAtFromDate(fromDate: string, numDays: int)
    requires DateArray(fromDate, numDays).Success?
    ensures var out, n := DateArray(fromDate, numDays).value, if numDays < 0 then 0 else numDays;
      && |out| == n
      && (forall k :: 0 <= k < n ==> IsNormalized(out[k]))
      && (n > 0 ==> Strptime(out[n - 1], DashFull) == Strptime(fromDate, DashFull))
  {
    var anchor := Strptime(fromDate, DashFull).value;
    var n := if numDays < 0 then 0 else numDays;
    WindowIsConsecutive(anchor, n);
    WindowRendered(Window(anchor, n));
  }

  /** Each listed day is the day before the next one. */
  lemma DateArrayConsecutive(fromDate: string, numDays: int)
    requires DateArray(fromDate, numDays).Success?
    ensures var out := DateArray(fromDate, numDays).value;
      forall i, j :: 0 <= i && j == i + 1 && j < |out| ==>
        && Strptime(out[j], DashFull).Some?
        && PrevDay(Strptime(out[j], DashFull).value) == Strptime(out[i], DashFull)
  {
    var anchor := Strptime(fromDate, DashFull).value;
    var n := if numDays < 0 then 0 else numDays;
    var w := Window(anchor, n);
    var out := Map(Render, w);
    WindowIsConsecutive(anchor, n);
    WindowRendered(w);
    forall i, j | 0 <= i && j == i + 1 && j < n
      ensures Strptime(out[j], DashFull) == Some(w[j]) && PrevDay(w[j]) == Strptime(out[i], DashFull)
    {
      assert PrevDay(w[i + 1]) == Some(w[i]);
    }
  }

  /** The listed days are strictly ascending, so oldest first and all different. */
  lemma DateArrayAscending(fromDate: string, numDays: int)
    requires DateArray(fromDate, numDays).Success?
    ensures var out := DateArray(fromDate, numDays).value;
      forall i, j :: 0 <= i < j < |out| ==>
        && Strptime(out[i], DashFull).Some? && Strptime(out[j], DashFull).Some?
        && Before(Strptime(out[i], DashFull).value, Strptime(out[j], DashFull).value)
  {
    var anchor := Strptime(fromDate, DashFull).value;
    var n := if numDays < 0 then 0 else numDays;
    WindowIsConsecutive(anchor, n);
    WindowRendered(Window(anchor, n));
  }

  /** Rendered dates parse back to themselves. */
  lemma WindowRendered(w: seq<Date>)
    requires AllValid(w)
    ensures forall k :: 0 <= k < |w| ==> Strptime(Map(Render, w)[k], DashFull) == Some(w[k])
    ensures forall k :: 0 <= k < |w| ==> IsNormalized(Map(Render, w)[k])
  {
    forall k | 0 <= k < |w| ensures Strptime(Map(Render, w)[k], DashFull) == Some(w[k]) {
      RenderIsNormalized(w[k]);
    }
  }

  /** The loop of `generate_date_array`: `num_days` times append the date and step back
      one day, then reverse. Each step back, the last one included, raises OverflowError
      before 01-01-0001, so `num_days` must be less than the anchor's ordinal. */
  method DaysUpTo(anchor: Date, numDays: int) returns (r: Result<seq<string>>)
    requires IsValid(anchor)
    ensures r == if numDays < Ordinal(anchor)
                 then Success(Map(Render, Window(anchor, if numDays < 0 then 0 else numDays)))
                 else Failure(DateOutOfRange)
  {
    var n := if numDays < 0 then 0 else numDays;
    var date := anchor;
    var dateList := [];
    ghost var dates := [];
    for i := 0 to n
      invariant IsValid(date) && Ordinal(date) == Ordinal(anchor) - i
      invariant |dates| == i && |dateList| == i
      invariant forall k :: 0 <= k < i ==> IsValid(dates[k]) && Ordinal(dates[k]) == Ordinal(anchor) - k
      invariant forall k :: 0 <= k < i ==> dateList[k] == Render(dates[k])
    {
      dateList := dateList + [Render(date)];
      dates := dates + [date];
      var previous := PrevDay(date);
      if previous.None? {
        OrdinalPositive(date);
        return Failure(DateOutOfRange);
      }
      date := previous.value;
    }
    ReversedIsWindow(anchor, n, dates, dateList);
    dateList := Reverse(dateList);
    return Success(dateList);
  }

  // ---------------------------------------------------------------------------
  // get_from_date, sort_dates, get_most_recent_date

  /** `[datetime.strptime(d, "%d-%m-%Y") for d in dates]`, which fails on the first bad one. */
  function ParseAll(dates: seq<string>): (r: Result<seq<Date>>)
    ensures r.Success? <==> forall i :: 0 <= i < |dates| ==> Strptime(dates[i], DashFull).Some?
    ensures r.Failure? ==> r.error == InvalidDate
    ensures r.Success? ==> |r.value| == |dates| && AllValid(r.value)
    ensures r.Success? ==> forall i :: 0 <= i < |dates| ==> Some(r.value[i]) == Strptime(dates[i], DashFull)
  {
    if forall i :: 0 <= i < |dates| ==> Strptime(dates[i], DashFull).Some? then
      Success(seq(|dates|, i requires 0 <= i < |dates| => Strptime(dates[i], DashFull).value))
    else Failure(InvalidDate)
  }

  /** `max(dates)` of a non-empty list. */
  function Latest(dates: seq<Date>): (m: Date)
    requires |dates| > 0
    ensures m in dates
    ensures forall i :: 0 <= i < |dates| ==> Le(dates[i], m)
  {
    if |dates| == 1 then dates[0]
    else
      var rest := Latest(dates[1..]);
      assert forall i :: 1 <= i < |dates| ==> dates[i] == dates[1..][i - 1];
      if Le(dates[0], rest) then rest else dates[0]
  }

  /** `get_from_date(date_list, from_today)`: today when asked for or when there is no list;
      otherwise the latest of the listed `DD-MM-YYYY` dates (`max` of an empty list raises
      ValueError). */
  function GetFromDate(dateList: Option<seq<string>>, fromToday: bool, today: Date): (r: Result<string>)
    requires IsValid(today)
    ensures fromToday || dateList.None? ==> r == Success(Render(today))
  {
    if fromToday || dateList.None? then Success(Render(today))
    else
      var parsed :- ParseAll(dateList.value);
      if parsed == [] then Failure(EmptyDateList) else Success(Render(Latest(parsed)))
  }

  /** From a list, `get_from_date` fails when a date does not parse or the list is empty. */
  lemma GetFromDateFailures(dateList: seq<string>, today: Date)
    requires IsValid(today)
    ensures ParseAll(dateList).Failure? ==> GetFromDate(Some(dateList), false, today) == Failure(InvalidDate)
    ensures dateList == [] ==> GetFromDate(Some(dateList), false, today) == Failure(EmptyDateList)
  {
  }

  /** Otherwise it gives the normal form of the latest of the listed dates: one of them,
      and no earlier than any other (the contract of `Latest`). */
  lemma GetFromDateLatest(dateList: seq<string>, today: Date)
    requires IsValid(today) && ParseAll(dateList).Success? && dateList != []
    ensures GetFromDate(Some(dateList), false, today).Success?
    ensures GetFromDate(Some(dateList), false, today).value == Render(Latest(ParseAll(dateList).value))
  {
  }

  /** `dates.sort()` on `datetime` values: chronological order. */
  function SortedDates(dates: seq<Date>): (r: seq<Date>)
    requires AllValid(dates)
    ensures AllValid(r) && Sorted(r, Le) && multiset(r) == multiset(dates)
  {
    assert IsTotalPreorder(Le) by {
      forall a, b, c { LeIsTotalOrder(a, b, c); }
    }
    var r := Sort(dates, Le);
    PermutationMembers(r, dates);
    r
  }

  /** `sort_dates(dates)`: parse every `DD-MM-YYYY` date, sort them by calendar date (not by
      string) and render them again. */
  function SortDates(dates: seq<string>): (r: Result<seq<string>>)
    ensures ParseAll(dates).Failure? ==> r == Failure(InvalidDate)
    ensures ParseAll(dates).Success? ==> r.Success? && |r.value| == |dates|
  {
    var parsed :- ParseAll(dates);
    Success(Map(Render, SortedDates(parsed)))
  }

  /** The sorted dates are in normal form and in chronological order. */
  lemma SortDatesChronological(dates: seq<string>)
    requires ParseAll(dates).Success?
    ensures var out := SortDates(dates).value;
      && (forall i :: 0 <= i < |out| ==> IsNormalized(out[i]))
      && forall i, j :: 0 <= i < j < |out| ==>
           Le(Strptime(out[i], DashFull).value, Strptime(out[j], DashFull).value)
  {
    var sorted := SortedDates(ParseAll(dates).value);
    var out := SortDates(dates).value;
    assert out == Map(Render, sorted);
    forall i | 0 <= i < |sorted| ensures Strptime(out[i], DashFull) == Some(sorted[i]) {
      RenderIsNormalized(sorted[i]);
    }
  }

  /** Sorting only rearranges: the output holds the normal forms of the inputs, each as
      often as it occurs, and a list already in normal form is rearranged as it is. */
  lemma SortDatesPermutation(dates: seq<string>)
    requires ParseAll(dates).Success?
    ensures multiset(SortDates(dates).value) == multiset(Map(Render, ParseAll(dates).value))
    ensures (forall i :: 0 <= i < |dates| ==> IsNormalized(dates[i])) ==>
      multiset(SortDates(dates).value) == multiset(dates)
  {
    var parsed := ParseAll(dates).value;
    var sorted := SortedDates(parsed);
    assert SortDates(dates).value == Map(Render, sorted);
    MapPermutation(Render, sorted, parsed);
    if forall i :: 0 <= i < |dates| ==> IsNormalized(dates[i]) {
      assert Map(Render, parsed) == dates;
    }
  }

  /** `get_most_recent_date(date_list)`: normalise every element with `format_date`, parse
      each result as `DD-MM-YYYY` (the sentinel of an unreadable date raises ValueError
      here), and return the latest in normal form, or None for an empty list. */
  function GetMostRecentDate(dateList: seq<string>): (r: Result<Option<string>>)
    ensures dateList == [] ==> r == Success(None)
  {
    var parsed :- ParseAll(Map(FormattedDate, dateList));
    if parsed == [] then Success(None) else Success(Some(Render(Latest(parsed))))
  }

  /** Normalising first and parsing afterwards reads the dates that `format_date` reads. */
  lemma ParseFormatted(dateList: seq<string>)
    ensures ParseAll(Map(FormattedDate, dateList)).Success? <==>
      forall i :: 0 <= i < |dateList| ==> Normalize(dateList[i]).Some?
    ensures ParseAll(Map(FormattedDate, dateList)).Success? ==>
      forall i :: 0 <= i < |dateList| ==> Some(ParseAll(Map(FormattedDate, dateList)).value[i]) == Normalize(dateList[i])
  {
    var formatted := Map(FormattedDate, dateList);
    forall i | 0 <= i < |dateList| && Normalize(dateList[i]).None?
      ensures Strptime(formatted[i], DashFull).None?
    {
      SentinelDoesNotParse();
    }
  }

  /** The sentinel is not a `DD-MM-YYYY` date. */
  lemma SentinelDoesNotParse()
    ensures Strptime(InvalidDateFormat, DashFull).None?
  {
    assert '-' !in InvalidDateFormat;
    assert |Split(InvalidDateFormat, '-')| == 1;
  }

  /** `get_most_recent_date` fails on the first unreadable date; otherwise it gives the
      normal form of the latest date, or None for an empty list. */
  lemma MostRecentDate(dateList: seq<string>)
    ensures GetMostRecentDate(dateList).Failure? <==>
      exists i :: 0 <= i < |dateList| && Normalize(dateList[i]).None?
    ensures GetMostRecentDate(dateList).Failure? ==> GetMostRecentDate(dateList).error == InvalidDate
    ensures GetMostRecentDate(dateList).Success? && dateList != [] ==>
      var dates := ParseAll(Map(FormattedDate, dateList)).value;
      && GetMostRecentDate(dateList).value.Some?
      && GetMostRecentDate(dateList).value.value == Render(Latest(dates))
      && forall i :: 0 <= i < |dateList| ==> Some(dates[i]) == Normalize(dateList[i])
  {
    ParseFormatted(dateList);
  }

  // ---------------------------------------------------------------------------
  // get_day_name, is_today

  /** `%A` under the default C locale, indexed by `Weekday`. */
  const DayNames := ["Monday", "Tuesday", "Wednesday", "Thursday", "Friday", "Saturday", "Sunday"]

  /** `get_day_name(date)`: the weekday name of a `DD-MM-YYYY` date. */
  function GetDayName(date: string): (r: Result<string>)
    ensures r.Success? <==> Strptime(date, DashFull).Some?
    ensures r.Success? ==> r.value == DayNames[Weekday(Strptime(date, DashFull).value)]
  {
    var d :- match Strptime(date, DashFull) case None => Failure(InvalidDate) case Some(d) => Success(d);
    Success(DayNames[Weekday(d)])
  }

  /** The argument of `is_today`: a string, a `datetime`, or a plain `date`. */
  datatype DateArg = Text(s: string) | DateTimeValue(d: Date) | DateValue(d: Date)

  /** `is_today(date)` against the fixed "today": a string is parsed as `DD-MM-YYYY` first
      (ValueError if it does not parse), a `datetime` is reduced to its date. */
  function IsToday(date: DateArg, today: Date): (r: Result<bool>)
    ensures date.Text? ==> (r.Failure? <==> Strptime(date.s, DashFull).None?)
    ensures r.Success? ==> (r.value <==> (if date.Text? then Strptime(date.s, DashFull) == Some(today) else date.d == today))
  {
    match date
    case Text(s) => (match Strptime(s, DashFull) case None => Failure(InvalidDate) case Some(d) => Success(d == today))
    case DateTimeValue(d) => Success(d == today)
    case DateValue(d) => Success(d == today)
  }
}
