/** The proleptic Gregorian calendar of Python's `datetime.date`: years 1 to 9999, month
    lengths with leap years, day ordinals (01-01-0001 is day 1), stepping back by days,
    and the chronological order in which `datetime` objects compare. */
module Calendar {
  import opened Errors

  /** `datetime.MINYEAR` and `datetime.MAXYEAR`. */
  const MinYear := 1
  const MaxYear := 9999

  datatype Date = Date(day: int, month: int, year: int)

  predicate IsLeapYear(y: int)
  {
    y % 4 == 0 && (y % 100 != 0 || y % 400 == 0)
  }

  /** Month lengths and days before each month in a common year. */
  const CommonMonthLengths: seq<int> := [31, 28, 31, 30, 31, 30, 31, 31, 30, 31, 30, 31]
  const CommonDaysBefore: seq<int> := [0, 31, 59, 90, 120, 151, 181, 212, 243, 273, 304, 334]

  function DaysInMonth(m: int, y: int): (n: int)
    requires 1 <= m <= 12
    ensures 28 <= n <= 31
  {
    if m == 2 && IsLeapYear(y) then 29 else CommonMonthLengths[m - 1]
  }

  /** A date that `datetime.date(year, month, day)` accepts. */
  predicate IsValid(d: Date)
  {
    && MinYear <= d.year <= MaxYear
    && 1 <= d.month <= 12
    && 1 <= d.day <= DaysInMonth(d.month, d.year)
  }

  predicate AllValid(ds: seq<Date>)
  {
    forall i :: 0 <= i < |ds| ==> IsValid(ds[i])
  }

  function YearLength(y: int): int
  {
    if IsLeapYear(y) then 366 else 365
  }

  /** Days in the years before `y`. */
  function DaysBeforeYear(y: int): (n: int)
    requires y >= 1
    ensures n >= 0
  {
    if y == 1 then 0 else DaysBeforeYear(y - 1) + YearLength(y - 1)
  }

  /** One year's step in the leap-day counts: `y` adds one to the multiples of 4, 100 and
      400 exactly when it is one. */
  lemma LeapDayStep(y: int)
    requires y >= 1
    ensures y / 4 - (y - 1) / 4 == if y % 4 == 0 then 1 else 0
    ensures y / 100 - (y - 1) / 100 == if y % 100 == 0 then 1 else 0
    ensures y / 400 - (y - 1) / 400 == if y % 400 == 0 then 1 else 0
  {
  }

  /** The count of days before a year, in the closed form CPython's `_days_before_year`
      uses: 365 a year, plus the leap days of the Gregorian rule. */
  lemma {:induction false} DaysBeforeYearClosedForm(y: int)
    requires y >= 1
    ensures DaysBeforeYear(y) == 365 * (y - 1) + (y - 1) / 4 - (y - 1) / 100 + (y - 1) / 400
  {
    if y > 1 {
      DaysBeforeYearClosedForm(y - 1);
      LeapDayStep(y - 1);
    }
  }

  /** Days in the months of year `y` before month `m`. */
  function DaysBeforeMonth(m: int, y: int): (n: int)
    requires 1 <= m <= 12
    ensures n >= 0 && (m > 1 ==> n >= 31)
  {
    CommonDaysBefore[m - 1] + (if m > 2 && IsLeapYear(y) then 1 else 0)
  }

  /** `date.toordinal()`: 01-01-0001 is day 1. */
  function Ordinal(d: Date): (n: int)
    requires IsValid(d)
    ensures n >= 1
  {
    DaysBeforeYear(d.year) + DaysBeforeMonth(d.month, d.year) + d.day
  }

  /** Chronological order, as `datetime` compares: by year, then month, then day. */
  predicate Le(a: Date, b: Date)
  {
    || a.year < b.year
    || (a.year == b.year && a.month < b.month)
    || (a.year == b.year && a.month == b.month && a.day <= b.day)
  }

  predicate Before(a: Date, b: Date)
  {
    Le(a, b) && a != b
  }

  lemma LeIsTotalOrder(a: Date, b: Date, c: Date)
    ensures Le(a, b) || Le(b, a)
    ensures Le(a, b) && Le(b, c) ==> Le(a, c)
    ensures Le(a, b) && Le(b, a) ==> a == b
  {
  }

  lemma {:induction false} DaysBeforeYearGrowth(ya: int, yb: int)
    requires 1 <= ya <= yb
    ensures DaysBeforeYear(yb) - DaysBeforeYear(ya) >= 365 * (yb - ya)
    decreases yb - ya
  {
    if ya < yb {
      DaysBeforeYearGrowth(ya, yb - 1);
    }
  }

  lemma MonthFitsInYear(m: int, y: int)
    requires 1 <= m <= 12
    ensures DaysBeforeMonth(m, y) + DaysInMonth(m, y) <= YearLength(y)
    ensures m < 12 ==> DaysBeforeMonth(m + 1, y) == DaysBeforeMonth(m, y) + DaysInMonth(m, y)
  {
  }

  lemma OrdinalPositive(d: Date)
    requires IsValid(d)
    ensures Ordinal(d) >= 1
    ensures Ordinal(d) == 1 <==> d == Date(1, 1, MinYear)
  {
    if d.year > 1 {
      DaysBeforeYearGrowth(1, d.year);
    }
  }

  lemma {:induction false} MonthOrder(ma: int, mb: int, y: int)
    requires 1 <= ma < mb <= 12
    ensures DaysBeforeMonth(ma, y) + DaysInMonth(ma, y) <= DaysBeforeMonth(mb, y)
    decreases mb - ma
  {
    MonthFitsInYear(ma, y);
    if ma + 1 < mb {
      MonthOrder(ma + 1, mb, y);
    }
  }

  /** Ordinals follow the chronological order, so they also tell dates apart. */
  lemma OrdinalMonotone(a: Date, b: Date)
    requires IsValid(a) && IsValid(b)
    ensures Before(a, b) <==> Ordinal(a) < Ordinal(b)
    ensures a == b <==> Ordinal(a) == Ordinal(b)
  {
    if Before(a, b) {
      OrdinalBefore(a, b);
    } else if Before(b, a) {
      OrdinalBefore(b, a);
    }
  }

  /** An earlier date has a smaller ordinal. */
  lemma OrdinalBefore(lo: Date, hi: Date)
    requires IsValid(lo) && IsValid(hi) && Before(lo, hi)
    ensures Ordinal(lo) < Ordinal(hi)
  {
    if lo.year < hi.year {
      MonthFitsInYear(lo.month, lo.year);
      DaysBeforeYearGrowth(lo.year + 1, hi.year);
      assert DaysBeforeYear(lo.year + 1) == DaysBeforeYear(lo.year) + YearLength(lo.year);
    } else if lo.month < hi.month {
      MonthOrder(lo.month, hi.month, lo.year);
    }
  }

  /** A day is fixed by its ordinal. */
  lemma OrdinalInjective(a: Date, b: Date)
    requires IsValid(a) && IsValid(b) && Ordinal(a) == Ordinal(b)
    ensures a == b
  {
    OrdinalMonotone(a, b);
  }

  /** `d - timedelta(days=1)`, which raises OverflowError before 01-01-0001. */
  function PrevDay(d: Date): (r: Option<Date>)
    requires IsValid(d)
    ensures r.None? <==> d == Date(1, 1, MinYear)
    ensures r.Some? ==> IsValid(r.value) && Before(r.value, d)
    ensures r.Some? ==> Ordinal(r.value) == Ordinal(d) - 1
  {
    if d.day > 1 then Some(Date(d.day - 1, d.month, d.year))
    else if d.month > 1 then
      MonthFitsInYear(d.month - 1, d.year);
      Some(Date(DaysInMonth(d.month - 1, d.year), d.month - 1, d.year))
    else if d.year > MinYear then
      Some(Date(31, 12, d.year - 1))
    else None
  }

  /** The day before is the day whose ordinal is one less. */
  lemma PrevDayByOrdinal(a: Date, b: Date)
    requires IsValid(a) && IsValid(b) && Ordinal(b) == Ordinal(a) + 1
    ensures PrevDay(b) == Some(a)
  {
    assert b != Date(1, 1, MinYear) by {
      assert Ordinal(Date(1, 1, MinYear)) == 1;
    }
    OrdinalInjective(PrevDay(b).value, a);
  }

  /** `d - timedelta(days=k)`, stepping back one day at a time. */
  function SubtractDays(d: Date, k: nat): (r: Option<Date>)
    requires IsValid(d)
    ensures r.Some? <==> k < Ordinal(d)
    ensures r.Some? ==> IsValid(r.value) && Ordinal(r.value) == Ordinal(d) - k
    decreases k
  {
    if k == 0 then Some(d)
    else
      match PrevDay(d)
      case None => OrdinalPositive(d); None
      case Some(p) =>
        assert Ordinal(p) == Ordinal(d) - 1;
        SubtractDays(p, k - 1)
  }

  /** Going back one day more steps back once from where k days led. */
  lemma {:induction false} SubtractOneMore(d: Date, k: nat)
    requires IsValid(d) && k + 1 < Ordinal(d)
    ensures SubtractDays(d, k).Some?
    ensures PrevDay(SubtractDays(d, k).value) == SubtractDays(d, k + 1)
    decreases k
  {
    if k > 0 {
      SubtractOneMore(PrevDay(d).value, k - 1);
    }
  }

  /** Same day and month in an earlier year lies at least 365 days per year earlier,
      give or take the one leap day of the later year's February. */
  lemma SameDayOtherYear(a: Date, b: Date)
    requires IsValid(a) && IsValid(b)
    requires a.day == b.day && a.month == b.month && a.year < b.year
    ensures Ordinal(b) - Ordinal(a) >= 365 * (b.year - a.year) - 1
  {
    DaysBeforeYearGrowth(a.year, b.year);
  }

  /** `date.weekday()`: Monday is 0 and Sunday is 6. */
  function Weekday(d: Date): (w: int)
    requires IsValid(d)
    ensures 0 <= w < 7
  {
    (Ordinal(d) + 6) % 7
  }

  /** 01-01-0001, the first day `datetime` counts, was a Monday. */
  lemma FirstDayIsMonday()
    ensures Weekday(Date(1, 1, 1)) == 0
  {
  }

  /** The day before falls on the weekday before. */
  lemma WeekdayOfPrevDay(d: Date)
    requires IsValid(d) && PrevDay(d).Some?
    ensures Weekday(PrevDay(d).value) == (Weekday(d) + 6) % 7
  {
    WeekStep(Ordinal(PrevDay(d).value), Ordinal(d));
  }

  /** Stepping one day back moves the weekday one place back, modulo 7. */
  lemma WeekStep(p: int, o: int)
    requires p == o - 1
    ensures (p + 6) % 7 == ((o + 6) % 7 + 6) % 7
  {
    var q, r := (o + 6) / 7, (o + 6) % 7;
    assert o + 5 == 7 * q + (r - 1);
    if r == 0 {
      assert o + 5 == 7 * (q - 1) + 6;
    }
  }
}
