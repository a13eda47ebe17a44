/**
  The calendar of Python's `datetime`: the proleptic Gregorian calendar from year 1
  to year 9999, day numbers, weekdays, and the English day and month names.
 */
module Calendar {
  import opened Text

  predicate IsLeapYear(y: int) {
    y % 4 == 0 && (y % 100 != 0 || y % 400 == 0)
  }

  function DaysInMonth(y: int, m: int): (n: int)
    requires 1 <= m <= 12
    ensures 28 <= n <= 31
    ensures n == 29 <==> m == 2 && IsLeapYear(y)
    ensures n == 28 <==> m == 2 && !IsLeapYear(y)
    ensures n == 30 <==> m == 4 || m == 6 || m == 9 || m == 11
  {
    if m == 2 then (if IsLeapYear(y) then 29 else 28)
    else if m == 4 || m == 6 || m == 9 || m == 11 then 30
    else 31
  }

  /** A date `datetime.date` accepts: years 1 to 9999 and a day that exists in its month. */
  predicate ValidDate(y: int, m: int, d: int) {
    1 <= y <= 9999 && 1 <= m <= 12 && 1 <= d <= DaysInMonth(y, m)
  }

  /** Days in the years before year `y`. */
  function DaysBeforeYear(y: int): int
    requires y >= 1
  {
    var p := y - 1;
    p * 365 + p / 4 - p / 100 + p / 400
  }

  /** Days in the months of year `y` before month `m`, from the cumulative month table. */
  function DaysBeforeMonth(y: int, m: int): int
    requires 1 <= m <= 12
  {
    [0, 31, 59, 90, 120, 151, 181, 212, 243, 273, 304, 334][m - 1]
      + (if m > 2 && IsLeapYear(y) then 1 else 0)
  }

  /** The day number of a date; 1 January of year 1 is day 1 (`date.toordinal()`). */
  function Ordinal(y: int, m: int, d: int): int
    requires ValidDate(y, m, d)
  {
    DaysBeforeYear(y) + DaysBeforeMonth(y, m) + d
  }

  /** `date.weekday()`: Monday is 0 and Sunday is 6; 1 January of year 1 was a Monday. */
  function Weekday(y: int, m: int, d: int): (w: int)
    requires ValidDate(y, m, d)
    ensures 0 <= w < 7
  {
    (Ordinal(y, m, d) + 6) % 7
  }

  /** The date after a valid date. */
  function NextDay(y: int, m: int, d: int): (int, int, int)
    requires ValidDate(y, m, d)
  {
    if d < DaysInMonth(y, m) then (y, m, d + 1)
    else if m < 12 then (y, m + 1, 1)
    else (y + 1, 1, 1)
  }

  /** Years divisible by 4 add one day to the count of leap days before a year. */
  lemma FourStep(y: int)
    requires y >= 1
    ensures y / 4 - (y - 1) / 4 == if y % 4 == 0 then 1 else 0
  {
  }

  lemma HundredStep(y: int)
    requires y >= 1
    ensures y / 100 - (y - 1) / 100 == if y % 100 == 0 then 1 else 0
  {
  }

  lemma FourHundredStep(y: int)
    requires y >= 1
    ensures y / 400 - (y - 1) / 400 == if y % 400 == 0 then 1 else 0
  {
  }

  /** A year divisible by 400 is a century year. */
  lemma FourHundredIsCentury(y: int)
    requires y % 400 == 0
    ensures y % 100 == 0
  {
    var k := y / 400;
    assert y == 400 * k;
    assert y == 100 * (4 * k) + 0;
  }

  /** A century year is divisible by 4. */
  lemma CenturyIsFour(y: int)
    requires y % 100 == 0
    ensures y % 4 == 0
  {
    var k := y / 100;
    assert y == 100 * k;
    assert y == 4 * (25 * k) + 0;
  }

  /** A year holds 365 days, 366 in a leap year. */
  lemma DaysInYear(y: int)
    requires y >= 1
    ensures DaysBeforeYear(y + 1) - DaysBeforeYear(y) == if IsLeapYear(y) then 366 else 365
  {
    FourStep(y);
    HundredStep(y);
    FourHundredStep(y);
    if y % 400 == 0 {
      FourHundredIsCentury(y);
    }
    if y % 100 == 0 {
      CenturyIsFour(y);
    }
  }

  /** The next day is numbered one more: the day count runs without gaps across month
      and year ends, leap days included. */
  lemma OrdinalNextDay(y: int, m: int, d: int)
    requires ValidDate(y, m, d) && (y, m, d) != (9999, 12, 31)
    ensures var (y', m', d') := NextDay(y, m, d);
      ValidDate(y', m', d') && Ordinal(y', m', d') == Ordinal(y, m, d) + 1
  {
    if d == DaysInMonth(y, m) && m == 12 {
      DaysInYear(y);
    }
  }

  /** Weekdays follow one another: the day after a Monday is a Tuesday, after a Sunday a Monday. */
  lemma WeekdayNextDay(y: int, m: int, d: int)
    requires ValidDate(y, m, d) && (y, m, d) != (9999, 12, 31)
    ensures var (y', m', d') := NextDay(y, m, d);
      ValidDate(y', m', d') && Weekday(y', m', d') == (Weekday(y, m, d) + 1) % 7
  {
    OrdinalNextDay(y, m, d);
    var (y', m', d') := NextDay(y, m, d);
    SevenStep(Ordinal(y, m, d) + 6);
    assert Weekday(y', m', d') == (Ordinal(y, m, d) + 6 + 1) % 7;
  }

  /** The date of the example request in the appointment help text, 6 September 2024, was a
      Friday: the numbering is anchored to the real calendar. */
  lemma ExampleIsFriday()
    ensures Weekday(2024, 9, 6) == 4
  {
    assert DaysBeforeYear(2024) == 738885;
    assert DaysBeforeMonth(2024, 9) == 244;
    assert Ordinal(2024, 9, 6) == 739135;
  }

  lemma SevenStep(x: int)
    ensures (x + 1) % 7 == (x % 7 + 1) % 7
  {
    var q := x / 7;
    assert x == 7 * q + x % 7;
    if x % 7 == 6 {
      assert x + 1 == 7 * (q + 1) + 0;
    } else {
      assert x + 1 == 7 * q + (x % 7 + 1);
    }
  }

  /** Day names as `strptime` matches them, lower-cased, Monday first. */
  const WeekdayKeys: seq<string> :=
    ["monday", "tuesday", "wednesday", "thursday", "friday", "saturday", "sunday"]

  /** Month names as `strptime` matches them, lower-cased, January first. */
  const MonthKeys: seq<string> :=
    ["january", "february", "march", "april", "may", "june",
     "july", "august", "september", "october", "november", "december"]

  /** The day name `strftime` writes for weekday `w` (%A). */
  function WeekdayName(w: int): string
    requires 0 <= w < 7
  {
    Capitalized(WeekdayKeys[w])
  }

  /** The month name `strftime` writes for month `m` (%B). */
  function MonthName(m: int): string
    requires 1 <= m <= 12
  {
    Capitalized(MonthKeys[m - 1])
  }

  /** Each key is a lower-case word, occurs once in its table, and so holds no space. */
  lemma KeysAreWords()
    ensures |WeekdayKeys| == 7 && |MonthKeys| == 12
    ensures forall i :: 0 <= i < |WeekdayKeys| ==> LowerLettersFrom(WeekdayKeys[i], 0)
    ensures forall i :: 0 <= i < |MonthKeys| ==> LowerLettersFrom(MonthKeys[i], 0)
    ensures forall a, b :: 0 <= a < b < |WeekdayKeys| ==> WeekdayKeys[a] != WeekdayKeys[b]
    ensures forall a, b :: 0 <= a < b < |MonthKeys| ==> MonthKeys[a] != MonthKeys[b]
  {
  }

  /** Lower-casing a written name gives back the key it was written from. */
  lemma NamesLowerToKeys(w: int, m: int)
    requires 0 <= w < 7 && 1 <= m <= 12
    ensures Lower(WeekdayName(w)) == WeekdayKeys[w]
    ensures Lower(MonthName(m)) == MonthKeys[m - 1]
  {
    KeysAreWords();
    LowerCapitalized(WeekdayKeys[w]);
    LowerCapitalized(MonthKeys[m - 1]);
  }

  /** No key holds a space. */
  lemma KeysHaveNoSpace(w: int, m: int)
    requires 0 <= w < 7 && 1 <= m <= 12
    ensures ' ' !in WeekdayKeys[w] && ' ' !in MonthKeys[m - 1]
  {
    KeysAreWords();
    LowerLettersFromAll(WeekdayKeys[w], 0);
    LowerLettersFromAll(MonthKeys[m - 1], 0);
  }
}
