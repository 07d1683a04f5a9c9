/** Calendar dates as pandas reads them from 'YYYY-MM-DD' strings, and whole-day arithmetic on
    them, in the proleptic Gregorian calendar. */
module Dates {
  import opened Outcomes
  import opened Strings
  import opened Arith

  datatype Date = Date(year: int, month: int, day: int)

  predicate IsLeapYear(y: int) {
    y % 4 == 0 && (y % 100 != 0 || y % 400 == 0)
  }

  function DaysInMonth(y: int, m: int): (n: int)
    requires 1 <= m <= 12
    ensures 28 <= n <= 31
  {
    if m == 2 then (if IsLeapYear(y) then 29 else 28)
    else if m == 4 || m == 6 || m == 9 || m == 11 then 30
    else 31
  }

  /** A date that exists, from 1 January of year 1 on. */
  predicate ValidDate(d: Date) {
    1 <= d.year && 1 <= d.month <= 12 && 1 <= d.day <= DaysInMonth(d.year, d.month)
  }

  /** Days from 1 January of year 1 to 1 January of year `y`. */
  function DaysBeforeYear(y: int): int {
    var p := y - 1;
    365 * p + p / 4 - p / 100 + p / 400
  }

  /** Days from 1 January of year `y` to the first day of month `m`. */
  function DaysBeforeMonth(y: int, m: int): int
    requires 1 <= m <= 12
  {
    [0, 31, 59, 90, 120, 151, 181, 212, 243, 273, 304, 334][m - 1]
      + (if m > 2 && IsLeapYear(y) then 1 else 0)
  }

  /** The day number of `d`: 0 for 1 January of year 1, one more for every following day. */
  function DayNumber(d: Date): (n: int)
    requires ValidDate(d)
    ensures DaysBeforeYear(d.year) <= n < DaysBeforeYear(d.year + 1)
  {
    YearLength(d.year);
    DayOfYearBound(d);
    DaysBeforeYear(d.year) + DaysBeforeMonth(d.year, d.month) + d.day - 1
  }

  /** `y / k` grows by one exactly when `y` is a multiple of `k`. */
  lemma DivStep(y: int, k: int)
    requires k > 0
    ensures y / k - (y - 1) / k == if y % k == 0 then 1 else 0
  {
    var q, r := (y - 1) / k, (y - 1) % k;
    assert y - 1 == q * k + r && 0 <= r < k;
    if r + 1 < k {
      assert y == q * k + (r + 1);
      DivModUnique(q, k, r + 1);
    } else {
      assert y == (q + 1) * k + 0 by {
        assert (q + 1) * k == q * k + k;
      }
      DivModUnique(q + 1, k, 0);
    }
    DivModUnique(q, k, r);
  }

  /** A year has 366 days when it is a leap year and 365 otherwise. */
  lemma YearLength(y: int)
    ensures DaysBeforeYear(y + 1) - DaysBeforeYear(y) == if IsLeapYear(y) then 366 else 365
  {
    DivStep(y, 4);
    DivStep(y, 100);
    DivStep(y, 400);
    assert y % 400 == 0 ==> y % 100 == 0 && y % 4 == 0;
    assert y % 100 == 0 ==> y % 4 == 0;
  }

  /** The day after `d`. */
  function NextDay(d: Date): (n: Date)
    requires ValidDate(d)
    ensures ValidDate(n)
    ensures DayNumber(n) == DayNumber(d) + 1
  {
    if d.day < DaysInMonth(d.year, d.month) then Date(d.year, d.month, d.day + 1)
    else if d.month < 12 then Date(d.year, d.month + 1, 1)
    else
      YearLength(d.year);
      Date(d.year + 1, 1, 1)
  }

  /** A later year starts at least a full year of days later. */
  lemma YearsApart(a: int, b: int)
    requires a < b
    ensures DaysBeforeYear(b) >= DaysBeforeYear(a) + 365
  {
    YearLength(a);
    var y := a + 1;
    while y < b
      invariant a < y <= b
      invariant DaysBeforeYear(y) >= DaysBeforeYear(a) + 365
    {
      YearLength(y);
      y := y + 1;
    }
  }

  /** The days of a year are numbered from 0 up to one less than its length. */
  lemma DayOfYearBound(d: Date)
    requires ValidDate(d)
    ensures 0 <= DaysBeforeMonth(d.year, d.month) + d.day - 1 < 365 + (if IsLeapYear(d.year) then 1 else 0)
  {
  }

  /** A later month of the same year starts after every day of an earlier one. */
  lemma MonthsApart(y: int, m: int, n: int)
    requires 1 <= m < n <= 12
    ensures DaysBeforeMonth(y, m) + DaysInMonth(y, m) <= DaysBeforeMonth(y, n)
  {
  }

  /** Different valid dates have different day numbers, and a later date a larger one. */
  lemma DayNumberOrder(a: Date, b: Date)
    requires ValidDate(a) && ValidDate(b)
    requires a.year < b.year || (a.year == b.year && (a.month < b.month || (a.month == b.month && a.day < b.day)))
    ensures DayNumber(a) < DayNumber(b)
  {
    if a.year < b.year {
      YearsApart(a.year, b.year);
      YearLength(a.year);
      DayOfYearBound(a);
      DayOfYearBound(b);
    } else if a.month < b.month {
      MonthsApart(a.year, a.month, b.month);
    }
  }

  /** `pd.to_datetime` of a date string, read only in the 'YYYY-MM-DD' layout the release and
      data dates are documented to have: the date it names, or `None` when the text is not four
      digits, a dash, two digits, a dash and two digits naming an existing date. pandas also
      reads other layouts, such as unpadded months and days; the model refuses those. */
  function ParseIsoDate(s: string): (r: Option<Date>)
    ensures r.Some? ==> ValidDate(r.value)
    ensures r.Some? ==> |s| == 10 && s[4] == '-' && s[7] == '-'
  {
    if |s| == 10 && s[4] == '-' && s[7] == '-'
       && AllDigits(s[..4]) && AllDigits(s[5..7]) && AllDigits(s[8..])
    then
      var d := Date(DigitsValue(s[..4]), DigitsValue(s[5..7]), DigitsValue(s[8..]));
      if ValidDate(d) then Some(d) else None
    else None
  }

  /** A day that does not exist is refused even when the text has the right shape. */
  lemma ParseRejectsMissingDay()
    ensures ParseIsoDate("2019-02-30").None?
  {
    var s := "2019-02-30";
    assert s[..4] == "2019" && s[5..7] == "02" && s[8..] == "30";
    FourDigitsValue(s[..4]);
    TwoDigitsValue(s[5..7]);
    TwoDigitsValue(s[8..]);
  }

  /** A thirteenth month is refused. */
  lemma ParseRejectsMonth13()
    ensures ParseIsoDate("2019-13-01").None?
  {
    var s := "2019-13-01";
    assert s[5..7] == "13";
    TwoDigitsValue(s[5..7]);
  }

  /** 29 February is read in a leap year. */
  lemma ParseLeapDay()
    ensures ParseIsoDate("2020-02-29") == Some(Date(2020, 2, 29))
  {
    var s := "2020-02-29";
    assert s[..4] == "2020" && s[5..7] == "02" && s[8..] == "29";
    FourDigitsValue(s[..4]);
    TwoDigitsValue(s[5..7]);
    TwoDigitsValue(s[8..]);
  }
}
